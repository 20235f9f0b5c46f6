/** The folder-level operations of mkvlib/mkv.go: QueryFolder, DumpMKVs,
    MakeMKVs and CreateMKVs (mkvlib/mkv.go:168-273). Each walks a file
    list, calls a per-file operation, counts failures in `ec`, logs, and
    reports `ec == 0`. The filesystem and the external tools are the
    functions bundled in `Tools`. */
module Batch {
  import opened Strings
  import opened MkvInfo
  import opened Subset
  import opened Naming
  import opened FontSubset
  import Extract
  import Mux
  import opened BatchLog

  /** The environment of the batch functions: findMKVs, findPath(dir,
      pattern) and findFonts over the filesystem, GetMKVInfo, the exit
      verdicts of mkvextract and mkvmerge on an argument list, and the
      outcome of each subsetting stage. */
  datatype Tools = Tools(
    findMKVs: string -> seq<string>,
    findPath: (string, string) -> seq<string>,
    findFonts: string -> seq<string>,
    inspect: string -> Option<Info>,
    extract: seq<string> -> bool,
    mux: seq<string> -> bool,
    outcome: (Config, Stage) -> bool)

  /** The directory CreateMKVs and MakeMKVs read subsetted output from
      (spelt differently from `DirSafeName`). */
  const SubsettedDir: string := "subsetted"
  /** The patterns given to findPath, as Go regular expressions. */
  const SubPattern: string := "\\.sub"
  const AssPattern: string := "\\.ass$"
  const AnyExtPattern: string := "\\.\\S+$"

  // ---------------------------------------------------------------- QueryFolder

  /** QueryFolder lists a file when it could be inspected and CheckSubset
      found it incomplete. */
  predicate Listed(obj: Option<Info>) {
    obj.Some? && !Complete(obj.value)
  }

  function ListedBy(t: Tools): string -> bool {
    f => Listed(t.inspect(f))
  }

  method QueryFolder(dir: string, t: Tools) returns (lines: seq<string>, log: seq<LogLine>)
    ensures var files := t.findMKVs(dir);
      lines == Selected(files, Flags(files, ListedBy(t))) && log == Counting(|files|, |files|)
  {
    var ec := 0;
    lines := [];
    log := [];
    var files := t.findMKVs(dir);
    var l := |files|;
    ghost var flags := Flags(files, ListedBy(t));
    var i := 0;
    while i < |files|
      invariant 0 <= i <= |files|
      invariant lines == Selected(files[..i], flags[..i])
      invariant log == Counting(i, l)
    {
      var file := files[i];
      var a, b := CheckSubset(t.inspect(file));
      FlagsAt(files, ListedBy(t), i);
      SelectedStep(files, flags, i);
      if b {
        ec := ec + 1;
      } else if !a {
        lines := lines + [file];
      }
      log := log + [Done(i + 1, l)];
      i := i + 1;
    }
    assert files[..i] == files && flags[..i] == flags;
  }

  /** QueryFolder lists exactly the inspected files that are incomplete. */
  lemma QueryFolderLists(files: seq<string>, t: Tools, x: string)
    ensures x in Selected(files, Flags(files, ListedBy(t))) <==>
            x in files && t.inspect(x).Some? && !Complete(t.inspect(x).value)
  {
    SelectedMembers(files, Flags(files, ListedBy(t)), x);
  }

  // ---------------------------------------------------------------- DumpMKVs

  /** `path.Join(root, d, f)` where `d` and `f` are the directory and the
      extension-less name of `item` relative to `dir`: the per-file folder
      DumpMKVs extracts into and MakeMKVs reads from. */
  function MirrorDir(dir: string, root: string, item: string): string {
    var p := TrimPrefix(item, dir);
    Join(Join(root, DirName(p)), Stem(BaseName(p)))
  }

  function DumpFailedBy(dir: string, output: string, subset: bool, t: Tools): string -> bool {
    item => !Extract.DumpSucceeds(item, MirrorDir(dir, output, item), subset, t.inspect(item),
                                  t.extract, t.findFonts, t.outcome)
  }

  /** The body of DumpMKVs' loop up to the log lines: dump `item` into its
      mirrored folder. */
  method DumpOne(dir: string, output: string, subset: bool, t: Tools, item: string) returns (done: bool)
    ensures done == !DumpFailedBy(dir, output, subset, t)(item)
  {
    var p := MirrorDir(dir, output, item);
    var ok, _, _ := Extract.DumpMKV(item, p, subset, t.inspect(item), t.extract, t.findFonts, t.outcome);
    done := ok;
  }

  method DumpMKVs(dir: string, output: string, subset: bool, t: Tools) returns (ok: bool, log: seq<LogLine>)
    ensures var files := t.findMKVs(dir);
      log == FileLog(files, Flags(files, DumpFailedBy(dir, output, subset, t)), |files|)
    ensures ok <==> NoneFail(t.findMKVs(dir), DumpFailedBy(dir, output, subset, t))
  {
    var ec := 0;
    log := [];
    var files := t.findMKVs(dir);
    var l := |files|;
    ghost var failed := DumpFailedBy(dir, output, subset, t);
    ghost var flags: seq<bool> := [];
    LoopStart(files, failed, l);
    var i := 0;
    while i < |files|
      invariant 0 <= i <= |files| && |flags| == i
      invariant LoopState(files, failed, flags, log, ec, l)
    {
      var done := DumpOne(dir, output, subset, t, files[i]);
      ec, log := LogVerdict(files, i, !done, ec, log, l, failed, flags);
      flags := flags + [!done];
      i := i + 1;
    }
    LoopEnd(files, failed, flags, log, ec, l);
    ok := ec == 0;
  }

  // ---------------------------------------------------------------- MakeMKVs

  /** The inputs MakeMKVs gives CreateMKV for one file, and its output path. */
  datatype Job = Job(tracks: seq<string>, attachments: seq<string>, output: string)

  /** The `subsetted` folder MakeMKVs reads ASS files and fonts from. */
  function MakeSubsetDir(dir: string, data: string, item: string): string {
    Join(MirrorDir(dir, data, item), SubsettedDir)
  }

  function MakeJob(dir: string, data: string, output: string, item: string, t: Tools): Job {
    var p := TrimPrefix(item, dir);
    var sp := MakeSubsetDir(dir, data, item);
    Job(t.findPath(MirrorDir(dir, data, item), SubPattern) + t.findPath(sp, AssPattern),
        t.findFonts(sp), Join(Join(output, DirName(p)), BaseName(p)))
  }

  function MakeFailedBy(dir: string, data: string, output: string, slang: string, stitle: string,
                        t: Tools): string -> bool {
    item =>
      var j := MakeJob(dir, data, output, item, t);
      !t.mux(Mux.MuxArgs(item, j.tracks, j.attachments, j.output, slang, stitle, true))
  }

  method MakeMKVs(dir: string, data: string, output: string, slang: string, stitle: string, t: Tools)
    returns (ok: bool, log: seq<LogLine>)
    ensures var files := t.findMKVs(dir);
      log == FileLog(files, Flags(files, MakeFailedBy(dir, data, output, slang, stitle, t)), |files|)
    ensures ok <==> NoneFail(t.findMKVs(dir), MakeFailedBy(dir, data, output, slang, stitle, t))
  {
    var ec := 0;
    log := [];
    var files := t.findMKVs(dir);
    var l := |files|;
    ghost var failed := MakeFailedBy(dir, data, output, slang, stitle, t);
    ghost var flags: seq<bool> := [];
    LoopStart(files, failed, l);
    var i := 0;
    while i < |files|
      invariant 0 <= i <= |files| && |flags| == i
      invariant LoopState(files, failed, flags, log, ec, l)
    {
      var item := files[i];
      var p := TrimPrefix(item, dir);
      var d, n, f := DirName(p), BaseName(p), Stem(BaseName(p));
      p := Join(Join(data, d), f);
      var sp := Join(p, SubsettedDir);
      var subs := t.findPath(p, SubPattern);
      var asses := t.findPath(sp, AssPattern);
      var attachments := t.findFonts(sp);
      var tracks := subs + asses;
      var fn := Join(Join(output, d), n);
      assert Job(tracks, attachments, fn) == MakeJob(dir, data, output, item, t);
      var _, made := Mux.CreateMKV(item, tracks, attachments, fn, slang, stitle, true, t.mux);
      ec, log := LogVerdict(files, i, !made, ec, log, l, failed, flags);
      flags := flags + [!made];
      i := i + 1;
    }
    LoopEnd(files, failed, flags, log, ec, l);
    ok := ec == 0;
  }

  /** The output file keeps the input's relative folder and file name. */
  lemma MakeOutputMirrorsInput(dir: string, data: string, output: string, item: string, t: Tools)
    requires BaseName(TrimPrefix(item, dir)) != ""
    ensures BaseName(MakeJob(dir, data, output, item, t).output) == BaseName(TrimPrefix(item, dir))
  {
    var p := TrimPrefix(item, dir);
    BaseNameOfJoin(Join(output, DirName(p)), BaseName(p));
  }

  /** The subsetter DumpMKV runs on an extracted ASS track writes into
      `<folder>/subseted`, while MakeMKVs, given the same folder as its data
      folder, reads `<folder>/subsetted`. */
  lemma DumpSubsetDirMissesMake(dir: string, output: string, item: string, tr: Track, rest: seq<string>,
                                findFonts: string -> seq<string>)
    requires MirrorDir(dir, output, item) != ""
    requires '/' !in tr.language && '/' !in tr.trackName
    ensures ResolveConfig([Extract.TrackPath(MirrorDir(dir, output, item), tr)] + rest, "", "", false, findFonts).value.output
            == Join(MirrorDir(dir, output, item), DirSafeName)
    ensures Join(MirrorDir(dir, output, item), DirSafeName) != MakeSubsetDir(dir, output, item)
  {
    var target := MirrorDir(dir, output, item);
    var path := Extract.TrackPath(target, tr);
    EncodeNameNoSlash(tr.id, tr.language, tr.trackName, tr.codec);
    DirNameOfJoin(target, EncodeName(tr.id, tr.language, tr.trackName, tr.codec));
    assert DirName(path) == target;
    assert ([path] + rest)[0] == path;
    SubsetDirNamesDiffer(target);
  }

  /** The two spellings give different directories under any parent. */
  lemma SubsetDirNamesDiffer(target: string)
    requires target != ""
    ensures Join(target, DirSafeName) != Join(target, SubsettedDir)
  {
    assert |Join(target, DirSafeName)| != |Join(target, SubsettedDir)|;
  }

  // ---------------------------------------------------------------- CreateMKVs

  /** The temporary root: `tDir`, or the system temporary folder when it is
      empty, joined with a random 8-character name. */
  function TempRoot(tDir: string, tempDir: string, rnd: string): string {
    Join(if tDir == "" then tempDir else tDir, rnd)
  }

  /** The pattern selecting the subtitle files that belong to video `f`. */
  function CompanionPattern(f: string): string {
    QuoteMeta(f) + "\\S*\\.\\S+$"
  }

  /** Where CreateMKVs copies a companion ASS file. */
  function CopiedAss(p: string, sub: string): string {
    Join(p, Stem(BaseName(sub))) + ".ass"
  }

  /** The copies of the `.ass` companions, in order. */
  function CopiedAsses(p: string, tmp: seq<string>): seq<string> {
    if tmp == [] then []
    else
      var last := tmp[|tmp| - 1];
      CopiedAsses(p, tmp[..|tmp| - 1]) + (if HasSuffix(last, ".ass") then [CopiedAss(p, last)] else [])
  }

  /** The other companions, in order. */
  function OtherSubs(tmp: seq<string>): seq<string> {
    if tmp == [] then []
    else
      var last := tmp[|tmp| - 1];
      OtherSubs(tmp[..|tmp| - 1]) + (if HasSuffix(last, ".ass") then [] else [last])
  }

  /** CreateMKVs' companion loop: `.ass` files are copied under `p` and go to
      the subsetter, the others are muxed as they are. */
  method SplitCompanions(p: string, tmp: seq<string>) returns (asses: seq<string>, subs: seq<string>)
    ensures asses == CopiedAsses(p, tmp) && subs == OtherSubs(tmp)
  {
    asses := [];
    subs := [];
    var i := 0;
    while i < |tmp|
      invariant 0 <= i <= |tmp|
      invariant asses == CopiedAsses(p, tmp[..i]) && subs == OtherSubs(tmp[..i])
    {
      assert tmp[..i + 1][..i] == tmp[..i];
      var sub := tmp[i];
      if HasSuffix(sub, ".ass") {
        var s := Join(p, Stem(BaseName(sub))) + ".ass";
        asses := asses + [s];
      } else {
        subs := subs + [sub];
      }
      i := i + 1;
    }
    assert tmp[..i] == tmp;
  }

  /** Every companion goes to exactly one side: the copies all end in `.ass`
      and none of the others does. */
  lemma {:induction false} SplitCompanionsCovers(p: string, tmp: seq<string>)
    ensures |CopiedAsses(p, tmp)| + |OtherSubs(tmp)| == |tmp|
    ensures forall k :: 0 <= k < |OtherSubs(tmp)| ==> !HasSuffix(OtherSubs(tmp)[k], ".ass")
    ensures forall k :: 0 <= k < |CopiedAsses(p, tmp)| ==> HasSuffix(CopiedAsses(p, tmp)[k], ".ass")
  {
    if tmp != [] {
      var init := tmp[..|tmp| - 1];
      var last := tmp[|tmp| - 1];
      SplitCompanionsCovers(p, init);
      if HasSuffix(last, ".ass") {
        CopiedAssIsAss(p, last);
        assert CopiedAsses(p, tmp) == CopiedAsses(p, init) + [CopiedAss(p, last)];
        assert OtherSubs(tmp) == OtherSubs(init);
      } else {
        assert CopiedAsses(p, tmp) == CopiedAsses(p, init);
        assert OtherSubs(tmp) == OtherSubs(init) + [last];
      }
    }
  }

  lemma CopiedAssIsAss(p: string, sub: string)
    ensures HasSuffix(CopiedAss(p, sub), ".ass")
  {
    var c := CopiedAss(p, sub);
    assert c[|c| - 4..] == ".ass";
  }

  /** What CreateMKVs does for one video file: whether subsetting was tried
      and failed, and the inputs it then gives CreateMKV. */
  datatype Plan = Plan(subsetFailed: bool, tracks: seq<string>, attachments: seq<string>, output: string)

  function PlanCreate(item: string, sDir: string, fDir: string, root: string, oDir: string, t: Tools): Plan {
    var f := Stem(BaseName(item));
    var p := Join(root, f);
    var tmp := t.findPath(sDir, CompanionPattern(f));
    var asses := CopiedAsses(p, tmp);
    var subsetOk := asses != [] && SubsetSucceeds(asses, fDir, "", false, t.findFonts, t.outcome);
    var sp := Join(p, SubsettedDir);
    Plan(asses != [] && !subsetOk,
         (if subsetOk then t.findPath(sp, AssPattern) else []) + OtherSubs(tmp),
         if subsetOk then t.findFonts(sp) else [],
         Join(oDir, f) + ".mkv")
  }

  /** How much one video file adds to `ec`: one for a failed subsetting, one
      for a failed mux; the mux is attempted in either case. */
  function CreateErrors(item: string, sDir: string, fDir: string, root: string, oDir: string,
                        slang: string, stitle: string, clean: bool, t: Tools): (e: nat)
    ensures e <= 2
    ensures var j := PlanCreate(item, sDir, fDir, root, oDir, t);
      e == 0 <==> !j.subsetFailed && t.mux(Mux.MuxArgs(item, j.tracks, j.attachments, j.output, slang, stitle, clean))
  {
    var j := PlanCreate(item, sDir, fDir, root, oDir, t);
    (if j.subsetFailed then 1 else 0)
    + (if t.mux(Mux.MuxArgs(item, j.tracks, j.attachments, j.output, slang, stitle, clean)) then 0 else 1)
  }

  function CreateFailedBy(sDir: string, fDir: string, root: string, oDir: string,
                          slang: string, stitle: string, clean: bool, t: Tools): string -> bool {
    item => CreateErrors(item, sDir, fDir, root, oDir, slang, stitle, clean, t) > 0
  }

  /** The body of CreateMKVs' loop for one video file, returning what it adds
      to `ec`. */
  method CreateOne(item: string, sDir: string, fDir: string, root: string, oDir: string,
                   slang: string, stitle: string, clean: bool, t: Tools) returns (errors: nat)
    ensures errors <= 2
    ensures errors > 0 <==> CreateFailedBy(sDir, fDir, root, oDir, slang, stitle, clean, t)(item)
  {
    errors := 0;
    var f := Stem(BaseName(item));
    var tmp := t.findPath(sDir, CompanionPattern(f));
    var p := Join(root, f);
    var asses, subs := SplitCompanions(p, tmp);
    var attachments := [];
    var tracks := [];
    if |asses| > 0 {
      var subsetOk, _ := ASSFontSubset(asses, fDir, "", false, t.findFonts, t.outcome);
      if !subsetOk {
        errors := errors + 1;
      } else {
        var sp := Join(p, SubsettedDir);
        attachments := t.findFonts(sp);
        tracks := t.findPath(sp, AssPattern);
      }
    }
    tracks := tracks + subs;
    var fn := Join(oDir, f) + ".mkv";
    ghost var j := PlanCreate(item, sDir, fDir, root, oDir, t);
    assert tracks == j.tracks && attachments == j.attachments && fn == j.output;
    var _, made := Mux.CreateMKV(item, tracks, attachments, fn, slang, stitle, clean, t.mux);
    if !made {
      errors := errors + 1;
    }
  }

  method CreateMKVs(vDir: string, sDir: string, fDir: string, tDir: string, oDir: string,
                    slang: string, stitle: string, clean: bool, tempDir: string, rnd: string, t: Tools)
    returns (ok: bool, log: seq<LogLine>)
    ensures var files := t.findPath(vDir, AnyExtPattern);
      var root := TempRoot(tDir, tempDir, rnd);
      log == FileLog(files, Cumulative(Flags(files, CreateFailedBy(sDir, fDir, root, oDir, slang, stitle, clean, t))),
                     |files|)
    ensures ok <==> NoneFail(t.findPath(vDir, AnyExtPattern),
                             CreateFailedBy(sDir, fDir, TempRoot(tDir, tempDir, rnd), oDir, slang, stitle, clean, t))
  {
    var ec := 0;
    var root := if tDir == "" then tempDir else tDir;
    root := Join(root, rnd);
    var files := t.findPath(vDir, AnyExtPattern);
    var l := |files|;
    log := [];
    ghost var failed := CreateFailedBy(sDir, fDir, root, oDir, slang, stitle, clean, t);
    ghost var flags: seq<bool> := [];
    LoopStart(files, failed, l);
    var i := 0;
    while i < |files|
      invariant 0 <= i <= |files| && |flags| == i
      invariant CumulativeState(files, failed, flags, log, ec, l)
    {
      var e := CreateOne(files[i], sDir, fDir, root, oDir, slang, stitle, clean, t);
      ec, log := LogCumulative(files, i, e, ec, log, l, failed, flags);
      flags := flags + [e > 0];
      i := i + 1;
    }
    CumulativeEnd(files, failed, flags, log, ec, l);
    ok := ec == 0;
  }

  /** CreateMKVs never resets `ec`: with `k` the first video file that
      fails, the failure lines name exactly the files from `k` on, even
      those that succeed themselves. */
  lemma CreateLogAfterFailure(files: seq<string>, failed: string -> bool, k: nat)
    requires k < |files| && failed(files[k])
    requires forall j :: 0 <= j < k ==> !failed(files[j])
    ensures FailedFiles(FileLog(files, Cumulative(Flags(files, failed)), |files|)) == files[k..]
  {
    forall j | 0 <= j <= k
      ensures Flags(files, failed)[j] == failed(files[j])
    {
      FlagsAt(files, failed, j);
    }
    CumulativeFailures(files, Flags(files, failed), |files|, k);
  }

  /** The subsetter CreateMKVs runs on the copies under `p` writes into
      `p/subseted`, while CreateMKVs then reads `p/subsetted`. */
  lemma CreateSubsetDirMismatch(p: string, sub: string, rest: seq<string>, fDir: string,
                                findFonts: string -> seq<string>)
    requires p != "" && Stem(BaseName(sub)) != ""
    ensures ResolveConfig([CopiedAss(p, sub)] + rest, fDir, "", false, findFonts).value.output
            == Join(p, DirSafeName)
    ensures Join(p, DirSafeName) != Join(p, SubsettedDir)
  {
    var s := Stem(BaseName(sub));
    StemHasNoSlash(sub);
    var copied := CopiedAss(p, sub);
    assert copied == Join(p, s + ".ass");
    DirNameOfJoin(p, s + ".ass");
    assert DirName(copied) == p;
    assert ([copied] + rest)[0] == copied;
    SubsetDirNamesDiffer(p);
  }

  lemma StemHasNoSlash(sub: string)
    ensures '/' !in Stem(BaseName(sub))
  {
    var s := Stem(BaseName(sub));
    assert BaseName(sub)[..|s|] == s;
    forall k | 0 <= k < |s| ensures s[k] != '/' {
      assert s[k] == BaseName(sub)[k];
    }
  }
}
