/** The subset-completeness verdict of CheckSubset (mkvlib/mkv.go:108-130)
    and the one regular expression it uses, `\.[A-Z0-9]{8}\.\S+$`, written
    out as a predicate. */
module Subset {
  import opened Strings
  import opened MkvInfo

  predicate UpperAlnum(c: char) {
    'A' <= c <= 'Z' || '0' <= c <= '9'
  }

  /** Go's `\s` is `[\t\n\f\r ]`; `\S` is its complement. */
  predicate NonSpace(c: char) {
    c != ' ' && c != '\t' && c != '\n' && c != '\U{000C}' && c != '\r'
  }

  /** The pattern matches starting at position `i`: a '.', eight characters
      of `[A-Z0-9]`, a '.', then at least one non-space character, and only
      non-space characters up to the end of the string. */
  predicate SignatureAt(s: string, i: nat) {
    && i + 11 <= |s|
    && s[i] == '.'
    && (forall k | i + 1 <= k < i + 9 :: UpperAlnum(s[k]))
    && s[i + 9] == '.'
    && (forall k | i + 10 <= k < |s| :: NonSpace(s[k]))
  }

  /** The unanchored match of the pattern somewhere in `s`. */
  ghost predicate MatchesSignature(s: string) {
    exists i: nat :: SignatureAt(s, i)
  }

  /** Tries every start position from `from` on. */
  function FindSignature(s: string, from: nat): (r: bool)
    ensures r <==> exists i: nat :: from <= i && SignatureAt(s, i)
    decreases |s| - from
  {
    if from + 11 > |s| then false
    else SignatureAt(s, from) || FindSignature(s, from + 1)
  }

  function SignatureMatch(s: string): (r: bool)
    ensures r <==> MatchesSignature(s)
  {
    FindSignature(s, 0)
  }

  /** A font attachment renamed by the subsetter. */
  predicate IsSubsetFont(a: Attachment) {
    HasPrefix(a.contentType, "font/") && SignatureMatch(a.fileName)
  }

  predicate HasAssTrack(info: Info) {
    exists i | 0 <= i < |info.tracks| :: IsAssSubtitle(info.tracks[i])
  }

  predicate HasSubsetFont(info: Info) {
    exists j | 0 <= j < |info.attachments| :: IsSubsetFont(info.attachments[j])
  }

  /** A file is complete when it has no ASS subtitle track, or when one of
      its attachments is an already subsetted font. */
  predicate Complete(info: Info) {
    HasAssTrack(info) ==> HasSubsetFont(info)
  }

  /** CheckSubset with the result of GetMKVInfo passed in: None stands for a
      failed inspection. */
  method CheckSubset(obj: Option<Info>) returns (complete: bool, inspectionFailed: bool)
    ensures inspectionFailed <==> obj.None?
    ensures complete <==> obj.Some? && Complete(obj.value)
  {
    if obj.None? {
      return false, true;
    }
    var tracks := obj.value.tracks;
    var attachments := obj.value.attachments;
    var ass := false;
    var ok := false;
    var i := 0;
    while i < |tracks|
      invariant 0 <= i <= |tracks|
      invariant !ass
      invariant forall k :: 0 <= k < i ==> !IsAssSubtitle(tracks[k])
    {
      ass := IsAssSubtitle(tracks[i]);
      if ass {
        break;
      }
      i := i + 1;
    }
    assert ass <==> HasAssTrack(obj.value);
    var j := 0;
    while j < |attachments|
      invariant 0 <= j <= |attachments|
      invariant !ok
      invariant !ass ==> j == 0
      invariant forall k :: 0 <= k < j ==> !IsSubsetFont(attachments[k])
    {
      ok := !ass || IsSubsetFont(attachments[j]);
      if ok {
        break;
      }
      j := j + 1;
    }
    complete := !ass || (ass && ok);
    inspectionFailed := false;
  }

  /** A file without any ASS subtitle track is complete, whatever it carries. */
  lemma NoAssTrackIsComplete(info: Info)
    requires forall i :: 0 <= i < |info.tracks| ==> !IsAssSubtitle(info.tracks[i])
    ensures Complete(info)
  {
  }

  /** A file with an ASS subtitle track and no attachments is incomplete. */
  lemma AssWithoutAttachmentsIsIncomplete(info: Info)
    requires HasAssTrack(info) && info.attachments == []
    ensures !Complete(info)
  {
  }

  /** The renamed-font signature of a concrete file name. */
  lemma ExampleSignature()
    ensures SignatureMatch("foo.AB12CD34.ttf")
    ensures !SignatureMatch("foo.ttf")
    ensures !SignatureMatch("foo.ab12cd34.ttf")
  {
    var s := "foo.AB12CD34.ttf";
    assert SignatureAt(s, 3);
    var t := "foo.ab12cd34.ttf";
    forall i: nat ensures !SignatureAt(t, i) {
      if i + 11 <= |t| && t[i] == '.' {
        assert i == 3;
        assert !UpperAlnum(t[4]);
      }
    }
  }

  /** A file whose ASS track is accompanied by `foo.AB12CD34.ttf` of content
      type `font/ttf` is complete. */
  lemma ExampleComplete()
    ensures Complete(Info([Attachment(1, "foo.AB12CD34.ttf", 1024, "font/ttf")],
                          [Track(3, "subtitles", "SubStationAlpha", "eng", "Full")]))
  {
    ExampleSignature();
    var info := Info([Attachment(1, "foo.AB12CD34.ttf", 1024, "font/ttf")],
                     [Track(3, "subtitles", "SubStationAlpha", "eng", "Full")]);
    assert HasPrefix(info.attachments[0].contentType, "font/");
    assert IsSubsetFont(info.attachments[0]);
  }

  /** An original, not yet subsetted font does not make a file complete. */
  lemma ExampleOriginalFontIncomplete()
    ensures !Complete(Info([Attachment(1, "foo.ttf", 1024, "font/ttf")],
                           [Track(3, "subtitles", "SubStationAlpha", "eng", "Full")]))
  {
    ExampleSignature();
    var info := Info([Attachment(1, "foo.ttf", 1024, "font/ttf")],
                     [Track(3, "subtitles", "SubStationAlpha", "eng", "Full")]);
    assert IsAssSubtitle(info.tracks[0]);
    assert !IsSubsetFont(info.attachments[0]);
  }
}
