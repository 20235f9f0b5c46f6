/** String and path helpers used by the mkvlib model: Go's strings.HasPrefix,
    strings.HasSuffix, strings.Split, strings.TrimPrefix, regexp.QuoteMeta,
    fmt's %d, and a simplified path.Join / splitPath. */
module Strings {

  predicate HasPrefix(s: string, p: string) {
    |p| <= |s| && s[..|p|] == p
  }

  predicate HasSuffix(s: string, p: string) {
    |p| <= |s| && s[|s| - |p|..] == p
  }

  /** Splitting the last element off the right operand of a concatenation. */
  lemma ConcatSnoc<T>(a: seq<T>, b: seq<T>)
    requires b != []
    ensures a + b == (a + b[..|b| - 1]) + [b[|b| - 1]]
  {
    assert b == b[..|b| - 1] + [b[|b| - 1]];
  }

  lemma HasSuffixOfConcat(a: string, b: string, p: string)
    requires |p| <= |b|
    ensures HasSuffix(a + b, p) <==> HasSuffix(b, p)
  {
    assert (a + b)[|a + b| - |p|..] == b[|b| - |p|..];
  }

  /** strings.TrimPrefix: drop `p` from the front of `s` when it is there. */
  function TrimPrefix(s: string, p: string): (r: string)
    ensures HasPrefix(s, p) ==> s == p + r
    ensures !HasPrefix(s, p) ==> r == s
  {
    if HasPrefix(s, p) then s[|p|..] else s
  }

  /** Index of the last occurrence of `c` in `s`, or -1. */
  function LastIndexOf(s: string, c: char): (r: int)
    ensures -1 <= r < |s|
    ensures r >= 0 ==> s[r] == c
    ensures forall k :: r < k < |s| ==> s[k] != c
  {
    if |s| == 0 then -1
    else if s[|s| - 1] == c then |s| - 1
    else LastIndexOf(s[..|s| - 1], c)
  }

  lemma LastIndexOfAfter(a: string, c: char, b: string)
    requires c !in b
    ensures LastIndexOf(a + [c] + b, c) == |a|
  {
    var s := a + [c] + b;
    assert s[|a|] == c;
  }

  lemma LastIndexOfAbsent(s: string, c: char)
    requires c !in s
    ensures LastIndexOf(s, c) == -1
  {
    assert forall k :: 0 <= k < |s| ==> s[k] != c;
  }

  /** strings.Split(s, sep) for a one-character separator: never empty;
      an empty string splits into one empty segment. */
  function Split(s: string, sep: char): (r: seq<string>)
    ensures |r| >= 1
  {
    if |s| == 0 then [""]
    else
      var rest := Split(s[1..], sep);
      if s[0] == sep then [""] + rest
      else [[s[0]] + rest[0]] + rest[1..]
  }

  lemma {:induction false} SplitNoSep(s: string, sep: char)
    requires sep !in s
    ensures Split(s, sep) == [s]
  {
    if |s| > 0 {
      assert s[0] in s;
      assert forall k :: 0 <= k < |s[1..]| ==> s[1..][k] == s[k + 1];
      SplitNoSep(s[1..], sep);
      assert [s[0]] + s[1..] == s;
    }
  }

  lemma {:induction false} SplitAt(a: string, sep: char, b: string)
    requires sep !in a
    ensures Split(a + [sep] + b, sep) == [a] + Split(b, sep)
  {
    var s := a + [sep] + b;
    if |a| == 0 {
      assert s[1..] == b;
    } else {
      assert a[0] in a;
      assert s[1..] == a[1..] + [sep] + b;
      assert forall k :: 0 <= k < |a[1..]| ==> a[1..][k] == a[k + 1];
      SplitAt(a[1..], sep, b);
      assert [a[0]] + a[1..] == a;
    }
  }

  /** path.Join of two elements, simplified: an empty side is dropped and
      the two sides are joined by one '/'; no further cleaning. */
  function Join(a: string, b: string): (r: string)
    ensures a == "" ==> r == b
    ensures b == "" ==> r == a
    ensures a != "" && b != "" ==> r == a + "/" + b
  {
    if a == "" then b else if b == "" then a else a + "/" + b
  }

  /** The part of `s` after the last `c` (all of `s` when there is none);
      the last element of strings.Split(s, c). */
  function AfterLast(s: string, c: char): (r: string)
    ensures c !in r
    ensures HasSuffix(s, r)
  {
    var i := LastIndexOf(s, c);
    SuffixFrom(s, i, c);
    s[i + 1..]
  }

  /** What follows position `i` is a suffix, and it has no `c` when no
      position after `i` holds one. */
  lemma SuffixFrom(s: string, i: int, c: char)
    requires -1 <= i < |s|
    requires forall k :: i < k < |s| ==> s[k] != c
    ensures c !in s[i + 1..] && HasSuffix(s, s[i + 1..])
  {
    var r := s[i + 1..];
    forall k | 0 <= k < |r|
      ensures r[k] != c
    {
      assert r[k] == s[i + 1 + k];
    }
    assert |s| - |r| == i + 1;
  }

  lemma AfterLastOf(a: string, c: char, b: string)
    requires c !in b
    ensures AfterLast(a + [c] + b, c) == b
  {
    LastIndexOfAfter(a, c, b);
  }

  /** A separator in `b` keeps the last index inside `b`, shifted by `|p|`. */
  lemma {:induction false} LastIndexOfShift(p: string, b: string, c: char)
    requires c in b
    ensures LastIndexOf(p + b, c) == |p| + LastIndexOf(b, c)
  {
    var init := b[..|b| - 1];
    if b[|b| - 1] != c {
      assert b == init + [b[|b| - 1]];
      assert c in init;
      assert (p + b)[..|p + b| - 1] == p + init;
      LastIndexOfShift(p, init, c);
    }
  }

  /** A prefix before a separator-holding `b` does not change what follows
      the last separator. */
  lemma AfterLastShift(p: string, b: string, c: char)
    requires c in b
    ensures AfterLast(p + b, c) == AfterLast(b, c)
  {
    LastIndexOfShift(p, b, c);
    var i := LastIndexOf(b, c);
    assert (p + b)[|p| + i + 1..] == b[i + 1..];
  }

  /** A string holding the separator splits into at least two segments. */
  lemma {:induction false} SplitHasTwo(s: string, c: char)
    requires c in s
    ensures |Split(s, c)| >= 2
  {
    if s[0] != c {
      assert s == [s[0]] + s[1..];
      assert c in s[1..];
      SplitHasTwo(s[1..], c);
    }
  }

  /** AfterLast is the last element of strings.Split. */
  lemma {:induction false} AfterLastIsLastSplit(s: string, c: char)
    ensures AfterLast(s, c) == Split(s, c)[|Split(s, c)| - 1]
    decreases |s|
  {
    if c !in s {
      SplitNoSep(s, c);
      LastIndexOfAbsent(s, c);
    } else {
      var t := s[1..];
      assert s == [s[0]] + t;
      AfterLastIsLastSplit(t, c);
      if s[0] == c {
        assert s == [] + [c] + t;
        SplitAt([], c, t);
        if c in t {
          AfterLastShift([c], t, c);
        } else {
          AfterLastOf([], c, t);
          SplitNoSep(t, c);
        }
      } else {
        assert c in t;
        SplitHasTwo(t, c);
        AfterLastShift([s[0]], t, c);
      }
    }
  }

  /** The last element of a slash-separated path. */
  function BaseName(p: string): (r: string)
    ensures '/' !in r
    ensures HasSuffix(p, r)
  {
    AfterLast(p, '/')
  }

  /** Everything before the last '/', or "" when there is none. */
  function DirName(p: string): (r: string)
    ensures HasPrefix(p, r)
    ensures '/' in p ==> p == r + "/" + BaseName(p)
    ensures '/' !in p ==> r == ""
  {
    var i := LastIndexOf(p, '/');
    if '/' !in p then LastIndexOfAbsent(p, '/'); ""
    else
      assert i >= 0 by {
        var j :| 0 <= j < |p| && p[j] == '/';
      }
      assert p == p[..i] + "/" + p[i + 1..];
      p[..i]
  }

  lemma BaseNameOfJoin(a: string, b: string)
    requires b != "" && '/' !in b
    ensures BaseName(Join(a, b)) == b
  {
    if a == "" {
      LastIndexOfAbsent(b, '/');
    } else {
      AfterLastOf(a, '/', b);
      assert Join(a, b) == a + ['/'] + b;
    }
  }

  lemma DirNameOfJoin(a: string, b: string)
    requires a != "" && b != "" && '/' !in b
    ensures DirName(Join(a, b)) == a
  {
    var p := Join(a, b);
    assert p == a + ['/'] + b;
    assert p[|a|] == '/';
    BaseNameOfJoin(a, b);
    var r := DirName(p);
    assert |r| == |a|;
    assert p[..|a|] == a;
  }

  /** A file name without its extension (the part before the last '.'). */
  function Stem(n: string): (r: string)
    ensures HasPrefix(n, r)
    ensures '.' !in n ==> r == n
  {
    var i := LastIndexOf(n, '.');
    if i < 0 then n else n[..i]
  }

  lemma StemOfExtension(x: string, ext: string)
    requires '.' !in ext
    ensures Stem(x + "." + ext) == x
  {
    LastIndexOfAfter(x, '.', ext);
    assert x + "." + ext == x + ['.'] + ext;
  }

  function Digit(d: nat): (c: char)
    requires d < 10
    ensures '0' <= c <= '9'
  {
    "0123456789"[d]
  }

  /** Decimal representation of a natural number, as fmt's %d writes it. */
  function NatToString(n: nat): (r: string)
    ensures |r| >= 1
    ensures forall k :: 0 <= k < |r| ==> '0' <= r[k] <= '9'
    decreases n
  {
    if n < 10 then [Digit(n)] else NatToString(n / 10) + [Digit(n % 10)]
  }

  /** fmt's %d of a signed integer. */
  function IntToString(i: int): (r: string)
    ensures |r| >= 1
    ensures r[0] == '-' || '0' <= r[0] <= '9'
    ensures forall k :: 1 <= k < |r| ==> '0' <= r[k] <= '9'
    ensures i >= 0 <==> r[0] != '-'
  {
    if i < 0 then "-" + NatToString(-i) else NatToString(i)
  }

  lemma IntToStringPlain(i: int)
    ensures '_' !in IntToString(i) && '/' !in IntToString(i) && ':' !in IntToString(i)
    ensures '.' !in IntToString(i)
  {
    var r := IntToString(i);
    forall k | 0 <= k < |r| ensures r[k] != '_' && r[k] != '/' && r[k] != ':' && r[k] != '.' {
    }
  }

  predicate IsRegexMeta(c: char) {
    c in "\\.+*?()|[]{}^$"
  }

  /** regexp.QuoteMeta: escape every regular-expression metacharacter. */
  function QuoteMeta(s: string): (r: string)
    ensures |s| <= |r| <= 2 * |s|
    ensures (forall k :: 0 <= k < |s| ==> !IsRegexMeta(s[k])) ==> r == s
    decreases |s|
  {
    if |s| == 0 then ""
    else (if IsRegexMeta(s[0]) then ['\\', s[0]] else [s[0]]) + QuoteMeta(s[1..])
  }
}
