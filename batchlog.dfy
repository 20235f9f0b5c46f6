/** The log lines the batch functions of mkvlib/mkv.go print for each file
    (mkvlib/mkv.go:168-273): an optional failure line naming the file,
    then a progress line `(i/l) done`. The surrounding text of each line is
    not modelled, only which file failed and the two counters. */
module BatchLog {

  datatype LogLine = Failed(file: string) | Done(index: nat, total: nat)

  /** The lines printed for one file: a failure line when `failed`, then the
      progress line. */
  function Entry(file: string, failed: bool, index: nat, total: nat): seq<LogLine> {
    (if failed then [Failed(file)] else []) + [Done(index, total)]
  }

  /** The whole log of a batch over `files`, where `flags[k]` says whether
      the k-th file is logged as failed. */
  function FileLog(files: seq<string>, flags: seq<bool>, total: nat): seq<LogLine>
    requires |flags| == |files|
  {
    if files == [] then []
    else
      var n := |files|;
      FileLog(files[..n - 1], flags[..n - 1], total) + Entry(files[n - 1], flags[n - 1], n, total)
  }

  /** `Done(1, total)`, ..., `Done(n, total)`. */
  function Counting(n: nat, total: nat): (r: seq<LogLine>)
    ensures |r| == n
  {
    if n == 0 then [] else Counting(n - 1, total) + [Done(n, total)]
  }

  /** The progress lines of a log, in order. */
  function Progress(log: seq<LogLine>): seq<LogLine> {
    if log == [] then []
    else
      var last := log[|log| - 1];
      Progress(log[..|log| - 1]) + (if last.Done? then [last] else [])
  }

  /** The files named by the failure lines of a log, in order. */
  function FailedFiles(log: seq<LogLine>): seq<string> {
    if log == [] then []
    else
      var last := log[|log| - 1];
      FailedFiles(log[..|log| - 1]) + (if last.Failed? then [last.file] else [])
  }

  /** The files whose flag is set, in order. */
  function Selected(files: seq<string>, flags: seq<bool>): (r: seq<string>)
    requires |flags| == |files|
    ensures |r| <= |files|
  {
    if files == [] then []
    else
      var n := |files|;
      Selected(files[..n - 1], flags[..n - 1]) + (if flags[n - 1] then [files[n - 1]] else [])
  }

  /** `failed(f)` for every file `f`, in order. */
  function Flags(files: seq<string>, failed: string -> bool): (r: seq<bool>)
    ensures |r| == |files|
  {
    if files == [] then []
    else Flags(files[..|files| - 1], failed) + [failed(files[|files| - 1])]
  }

  /** The k-th flag is the verdict on the k-th file. */
  lemma {:induction false} FlagsAt(files: seq<string>, failed: string -> bool, k: nat)
    requires k < |files|
    ensures Flags(files, failed)[k] == failed(files[k])
  {
    var n := |files|;
    if k < n - 1 {
      FlagsAt(files[..n - 1], failed, k);
    }
  }

  /** No flag is set. */
  predicate NoneSet(s: seq<bool>) {
    forall k :: 0 <= k < |s| ==> !s[k]
  }

  /** No file fails. */
  predicate NoneFail(files: seq<string>, failed: string -> bool) {
    forall k :: 0 <= k < |files| ==> !failed(files[k])
  }

  /** No flag is set exactly when no file fails. */
  lemma NoFlagSet(files: seq<string>, failed: string -> bool)
    ensures NoneSet(Flags(files, failed)) <==> NoneFail(files, failed)
  {
    forall k | 0 <= k < |files|
      ensures Flags(files, failed)[k] == failed(files[k])
    {
      FlagsAt(files, failed, k);
    }
  }

  /** Whether any flag up to and including position `k` is set. */
  predicate AnyUpTo(s: seq<bool>, k: int) {
    exists j :: 0 <= j <= k && j < |s| && s[j]
  }

  /** The flag of a counter that is never reset: position k is set once any
      position up to k is. */
  function Cumulative(s: seq<bool>): (r: seq<bool>)
    ensures |r| == |s|
  {
    if s == [] then [] else Cumulative(s[..|s| - 1]) + [AnyUpTo(s, |s| - 1)]
  }

  /** Position k of the cumulative flags is set exactly when some position
      up to k is set. */
  lemma {:induction false} CumulativeAt(s: seq<bool>, k: nat)
    requires k < |s|
    ensures Cumulative(s)[k] <==> AnyUpTo(s, k)
  {
    var init := s[..|s| - 1];
    if k < |init| {
      CumulativeAt(init, k);
      if AnyUpTo(s, k) {
        var j :| 0 <= j <= k && j < |s| && s[j];
        assert init[j] == s[j];
      }
    }
  }

  lemma SelectedStep(files: seq<string>, flags: seq<bool>, i: nat)
    requires |flags| == |files| && i < |files|
    ensures Selected(files[..i + 1], flags[..i + 1])
            == Selected(files[..i], flags[..i]) + (if flags[i] then [files[i]] else [])
  {
    assert files[..i + 1][..i] == files[..i];
    assert flags[..i + 1][..i] == flags[..i];
  }

  /** One more file adds its verdict to the flags. */
  lemma FlagsStep(files: seq<string>, failed: string -> bool, i: nat)
    requires i < |files|
    ensures Flags(files[..i + 1], failed) == Flags(files[..i], failed) + [failed(files[i])]
  {
    assert files[..i + 1][..i] == files[..i];
  }

  /** One more file appends its entry to the log. */
  lemma FileLogSnoc(files: seq<string>, flags: seq<bool>, b: bool, total: nat)
    requires |flags| < |files|
    ensures FileLog(files[..|flags| + 1], flags + [b], total)
            == FileLog(files[..|flags|], flags, total) + Entry(files[|flags|], b, |flags| + 1, total)
  {
    var i := |flags|;
    assert files[..i + 1][..i] == files[..i];
    assert (flags + [b])[..i] == flags;
  }

  lemma NoneSetSnoc(s: seq<bool>, b: bool)
    ensures NoneSet(s + [b]) <==> NoneSet(s) && !b
  {
    assert (s + [b])[|s|] == b;
    assert forall k :: 0 <= k < |s| ==> (s + [b])[k] == s[k];
  }

  /** The cumulative flag of one more position is set when it or an
      earlier one is. */
  lemma CumulativeSnoc(s: seq<bool>, b: bool)
    ensures Cumulative(s + [b]) == Cumulative(s) + [!NoneSet(s) || b]
  {
    var t := s + [b];
    assert t[..|s|] == s;
    if !NoneSet(s) {
      var k :| 0 <= k < |s| && s[k];
      assert t[k];
    }
    if AnyUpTo(t, |s|) && NoneSet(s) {
      var j :| 0 <= j <= |s| && j < |t| && t[j];
      assert j == |s|;
    }
  }

  /** The state of a batch loop after the first |flags| files: the verdicts
      so far, the lines logged so far, and a failure count `ec` that is zero
      exactly when no verdict so far is a failure. */
  ghost predicate LoopState(files: seq<string>, failed: string -> bool, flags: seq<bool>,
                            log: seq<LogLine>, ec: int, total: nat)
  {
    && |flags| <= |files| && flags == Flags(files[..|flags|], failed)
    && log == FileLog(files[..|flags|], flags, total)
    && ec >= 0 && (ec == 0 <==> NoneSet(flags))
  }

  /** The same for a loop that logs a file as failed once `ec` is positive,
      whichever file caused it. */
  ghost predicate CumulativeState(files: seq<string>, failed: string -> bool, flags: seq<bool>,
                                  log: seq<LogLine>, ec: int, total: nat)
  {
    && |flags| <= |files| && flags == Flags(files[..|flags|], failed)
    && log == FileLog(files[..|flags|], Cumulative(flags), total)
    && ec >= 0 && (ec == 0 <==> NoneSet(flags))
  }

  lemma LoopStart(files: seq<string>, failed: string -> bool, total: nat)
    ensures LoopState(files, failed, [], [], 0, total)
    ensures CumulativeState(files, failed, [], [], 0, total)
  {
    assert files[..0] == [];
  }

  /** After the last file the log is that of the whole list, and `ec` is zero
      exactly when no file fails. */
  lemma LoopEnd(files: seq<string>, failed: string -> bool, flags: seq<bool>, log: seq<LogLine>,
                ec: int, total: nat)
    requires LoopState(files, failed, flags, log, ec, total) && |flags| == |files|
    ensures log == FileLog(files, Flags(files, failed), total)
    ensures ec == 0 <==> NoneFail(files, failed)
  {
    assert files[..|flags|] == files;
    NoFlagSet(files, failed);
  }

  lemma CumulativeEnd(files: seq<string>, failed: string -> bool, flags: seq<bool>, log: seq<LogLine>,
                      ec: int, total: nat)
    requires CumulativeState(files, failed, flags, log, ec, total) && |flags| == |files|
    ensures log == FileLog(files, Cumulative(Flags(files, failed)), total)
    ensures ec == 0 <==> NoneFail(files, failed)
  {
    assert files[..|flags|] == files;
    NoFlagSet(files, failed);
  }

  /** The end of one pass of DumpMKVs' or MakeMKVs' loop
      (mkvlib/mkv.go:176-180, 266-270): count and log the file when it
      failed, then log the progress line. */
  method LogVerdict(files: seq<string>, i: nat, fileFailed: bool, ec: int, log: seq<LogLine>, total: nat,
                    ghost failed: string -> bool, ghost flags: seq<bool>)
    returns (ec': int, log': seq<LogLine>)
    requires i == |flags| < |files| && LoopState(files, failed, flags, log, ec, total)
    requires fileFailed == failed(files[i])
    ensures LoopState(files, failed, flags + [fileFailed], log', ec', total)
  {
    ec', log' := ec, log;
    if fileFailed {
      ec' := ec' + 1;
      log' := log' + [Failed(files[i])];
    }
    log' := log' + [Done(i + 1, total)];
    assert log' == log + Entry(files[i], fileFailed, i + 1, total);
    FlagsStep(files, failed, i);
    FileLogSnoc(files, flags, fileFailed, total);
    NoneSetSnoc(flags, fileFailed);
  }

  /** The end of one pass of CreateMKVs' loop (mkvlib/mkv.go:243-246): add
      the file's errors `e` to `ec`, log the file as failed when `ec` is
      positive, then log the progress line. */
  method LogCumulative(files: seq<string>, i: nat, e: nat, ec: int, log: seq<LogLine>, total: nat,
                       ghost failed: string -> bool, ghost flags: seq<bool>)
    returns (ec': int, log': seq<LogLine>)
    requires i == |flags| < |files| && CumulativeState(files, failed, flags, log, ec, total)
    requires e > 0 <==> failed(files[i])
    ensures CumulativeState(files, failed, flags + [e > 0], log', ec', total)
  {
    ec' := ec + e;
    log' := log;
    if ec' > 0 {
      log' := log' + [Failed(files[i])];
    }
    log' := log' + [Done(i + 1, total)];
    assert log' == log + Entry(files[i], ec' > 0, i + 1, total);
    FlagsStep(files, failed, i);
    NoneSetSnoc(flags, e > 0);
    CumulativeSnoc(flags, e > 0);
    FileLogSnoc(files, Cumulative(flags), !NoneSet(flags + [e > 0]), total);
  }

  lemma ProgressEntry(log: seq<LogLine>, file: string, failed: bool, index: nat, total: nat)
    ensures Progress(log + Entry(file, failed, index, total)) == Progress(log) + [Done(index, total)]
  {
    var d := Done(index, total);
    if failed {
      var l1 := log + [Failed(file)];
      assert l1[..|log|] == log;
      assert (l1 + [d])[..|l1|] == l1;
      assert log + Entry(file, failed, index, total) == l1 + [d];
    } else {
      assert (log + [d])[..|log|] == log;
      assert log + Entry(file, failed, index, total) == log + [d];
    }
  }

  lemma FailedFilesEntry(log: seq<LogLine>, file: string, failed: bool, index: nat, total: nat)
    ensures FailedFiles(log + Entry(file, failed, index, total))
            == FailedFiles(log) + (if failed then [file] else [])
  {
    var d := Done(index, total);
    if failed {
      var l1 := log + [Failed(file)];
      assert l1[..|log|] == log;
      assert (l1 + [d])[..|l1|] == l1;
      assert log + Entry(file, failed, index, total) == l1 + [d];
    } else {
      assert (log + [d])[..|log|] == log;
      assert log + Entry(file, failed, index, total) == log + [d];
    }
  }

  /** Whatever fails, the progress lines count 1, 2, ..., n out of `total`. */
  lemma {:induction false} ProgressCounts(files: seq<string>, flags: seq<bool>, total: nat)
    requires |flags| == |files|
    ensures Progress(FileLog(files, flags, total)) == Counting(|files|, total)
  {
    if files != [] {
      var n := |files|;
      ProgressCounts(files[..n - 1], flags[..n - 1], total);
      ProgressEntry(FileLog(files[..n - 1], flags[..n - 1], total), files[n - 1], flags[n - 1], n, total);
    }
  }

  /** The failure lines name exactly the flagged files, in order. */
  lemma {:induction false} FailedAreFlagged(files: seq<string>, flags: seq<bool>, total: nat)
    requires |flags| == |files|
    ensures FailedFiles(FileLog(files, flags, total)) == Selected(files, flags)
  {
    if files != [] {
      var n := |files|;
      FailedAreFlagged(files[..n - 1], flags[..n - 1], total);
      FailedFilesEntry(FileLog(files[..n - 1], flags[..n - 1], total), files[n - 1], flags[n - 1], n, total);
    }
  }

  /** A file is selected exactly when its flag is set. */
  lemma {:induction false} SelectedMembers(files: seq<string>, flags: seq<bool>, x: string)
    requires |flags| == |files|
    ensures x in Selected(files, flags) <==> exists k :: 0 <= k < |files| && flags[k] && files[k] == x
  {
    if files != [] {
      var n := |files|;
      var init := files[..n - 1];
      SelectedMembers(init, flags[..n - 1], x);
      if x in Selected(init, flags[..n - 1]) {
        var k :| 0 <= k < |init| && flags[..n - 1][k] && init[k] == x;
        assert flags[k] && files[k] == x;
      }
      if exists k :: 0 <= k < n && flags[k] && files[k] == x {
        var k :| 0 <= k < n && flags[k] && files[k] == x;
        if k < n - 1 {
          assert flags[..n - 1][k] && init[k] == x;
        }
      }
    }
  }

  /** Nothing is selected when no flag is set. */
  lemma {:induction false} SelectedNone(files: seq<string>, flags: seq<bool>)
    requires |flags| == |files|
    requires forall k :: 0 <= k < |flags| ==> !flags[k]
    ensures Selected(files, flags) == []
  {
    if files != [] {
      var n := |files|;
      SelectedNone(files[..n - 1], flags[..n - 1]);
    }
  }

  /** When the flags are unset before position `k` and set from `k` on, the
      selected files are `files[k..]`. */
  lemma {:induction false} SelectedSuffix(files: seq<string>, flags: seq<bool>, k: nat)
    requires |flags| == |files| && k <= |files|
    requires forall j :: 0 <= j < k ==> !flags[j]
    requires forall j :: k <= j < |flags| ==> flags[j]
    ensures Selected(files, flags) == files[k..]
  {
    var n := |files|;
    if n == k {
      SelectedNone(files, flags);
    } else {
      SelectedSuffix(files[..n - 1], flags[..n - 1], k);
      assert files[..n - 1][k..] + [files[n - 1]] == files[k..];
    }
  }

  /** Once a position is set in a cumulative flag sequence, every later
      position is set. */
  lemma CumulativeStaysSet(s: seq<bool>, i: nat, j: nat)
    requires i <= j < |s| && Cumulative(s)[i]
    ensures Cumulative(s)[j]
  {
    CumulativeAt(s, i);
    CumulativeAt(s, j);
    var w :| 0 <= w <= i && w < |s| && s[w];
  }

  /** A cumulative log: with `k` the first failing file, the failure lines
      name exactly the files from `k` on; with no failing file, none. */
  lemma CumulativeFailures(files: seq<string>, fails: seq<bool>, total: nat, k: nat)
    requires |fails| == |files| && k <= |files|
    requires forall j :: 0 <= j < k ==> !fails[j]
    requires k < |files| ==> fails[k]
    ensures FailedFiles(FileLog(files, Cumulative(fails), total)) == files[k..]
  {
    var c := Cumulative(fails);
    FailedAreFlagged(files, c, total);
    forall j | 0 <= j < k
      ensures !c[j]
    {
      CumulativeAt(fails, j);
    }
    forall j | k <= j < |c|
      ensures c[j]
    {
      CumulativeAt(fails, j);
      assert AnyUpTo(fails, j) by {
        assert 0 <= k <= j && k < |fails| && fails[k];
      }
    }
    SelectedSuffix(files, c, k);
  }
}
