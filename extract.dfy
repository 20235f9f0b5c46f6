/** DumpMKV (mkvlib/mkv.go:51-106): build the mkvextract argument list from
    a file's attachments and subtitle tracks, run the tool, and hand the
    extracted ASS files to ASSFontSubset. */
module Extract {
  import opened Strings
  import opened MkvInfo
  import opened Naming
  import opened FontSubset

  /** `<id>:<output>/fonts/<fileName>` for one attachment. */
  function AttachmentEntry(output: string, a: Attachment): string {
    IntToString(a.id) + ":" + Join(Join(output, "fonts"), a.fileName)
  }

  /** Where DumpMKV writes a subtitle track. */
  function TrackPath(output: string, t: Track): string {
    Join(output, EncodeName(t.id, t.language, t.trackName, t.codec))
  }

  /** `<id>:<path>` for one subtitle track. */
  function TrackEntry(output: string, t: Track): string {
    IntToString(t.id) + ":" + TrackPath(output, t)
  }

  function AttachmentEntries(output: string, atts: seq<Attachment>): (r: seq<string>)
    ensures |r| == |atts|
    ensures forall k :: 0 <= k < |atts| ==> r[k] == AttachmentEntry(output, atts[k])
  {
    if atts == [] then []
    else
      var init := atts[..|atts| - 1];
      var prev := AttachmentEntries(output, init);
      var r := prev + [AttachmentEntry(output, atts[|atts| - 1])];
      assert forall k :: 0 <= k < |atts| ==> r[k] == AttachmentEntry(output, atts[k]) by {
        forall k | 0 <= k < |atts| ensures r[k] == AttachmentEntry(output, atts[k]) {
          if k < |init| {
            assert r[k] == prev[k] && init[k] == atts[k];
          } else {
            assert k == |prev| && atts[k] == atts[|atts| - 1];
          }
        }
      }
      r
  }

  /** The subtitle tracks of `ts`, in their original order. */
  function SubtitleTracks(ts: seq<Track>): (r: seq<Track>)
    ensures |r| <= |ts|
    ensures forall k :: 0 <= k < |r| ==> IsSubtitle(r[k]) && r[k] in ts
    ensures forall t :: t in ts && IsSubtitle(t) ==> t in r
  {
    if ts == [] then []
    else
      var init := ts[..|ts| - 1];
      var last := ts[|ts| - 1];
      assert ts == init + [last];
      SubtitleTracks(init) + (if IsSubtitle(last) then [last] else [])
  }

  /** Filtering distributes over concatenation, so the order of the
      subtitle tracks is that of the input. */
  lemma {:induction false} SubtitleTracksConcat(a: seq<Track>, b: seq<Track>)
    ensures SubtitleTracks(a + b) == SubtitleTracks(a) + SubtitleTracks(b)
  {
    if b == [] {
      assert a + b == a;
    } else {
      var init := b[..|b| - 1];
      assert (a + b)[..|a + b| - 1] == a + init;
      assert (a + b)[|a + b| - 1] == b[|b| - 1];
      SubtitleTracksConcat(a, init);
    }
  }

  /** The `tracks` part of the extraction arguments: one entry per subtitle
      track, in order. */
  function TrackEntries(output: string, ts: seq<Track>): (r: seq<string>)
    ensures |r| == |SubtitleTracks(ts)|
    ensures forall k :: 0 <= k < |r| ==> r[k] == TrackEntry(output, SubtitleTracks(ts)[k])
  {
    if ts == [] then []
    else
      var last := ts[|ts| - 1];
      TrackEntries(output, ts[..|ts| - 1]) + (if IsSubtitle(last) then [TrackEntry(output, last)] else [])
  }

  /** The full mkvextract argument list. */
  function ExtractArgs(file: string, output: string, info: Info): seq<string> {
    [file, "attachments"] + AttachmentEntries(output, info.attachments) + ["tracks"] + TrackEntries(output, info.tracks)
  }

  /** The last element of strings.Split(e, ":"). */
  function ColonTail(e: string): (r: string)
    ensures HasSuffix(e, r) && ':' !in r
  {
    AfterLast(e, ':')
  }

  /** ColonTail is `_arr[len(_arr)-1]` for `_arr := strings.Split(e, ":")`. */
  lemma ColonTailIsLastSplit(e: string)
    ensures var segs := Split(e, ':'); ColonTail(e) == segs[|segs| - 1]
  {
    AfterLastIsLastSplit(e, ':');
  }

  /** The `.ass` list built by the subset loop after the entries `es`. */
  function AssPaths(es: seq<string>): (r: seq<string>)
    ensures |r| <= |es|
  {
    if es == [] then []
    else
      var f := ColonTail(es[|es| - 1]);
      AssPaths(es[..|es| - 1]) + (if HasSuffix(f, ".ass") then [f] else [])
  }

  /** The file lists ASSFontSubset is called with, in order: after each
      entry, once the `.ass` list is non-empty. */
  function SubsetCalls(es: seq<string>): (r: seq<seq<string>>)
    ensures |r| <= |es|
  {
    if es == [] then []
    else SubsetCalls(es[..|es| - 1]) + (if |AssPaths(es)| > 0 then [AssPaths(es)] else [])
  }

  /** Every path on the `.ass` list ends in `.ass`. */
  lemma {:induction false} AssPathsEndInAss(es: seq<string>)
    ensures forall k :: 0 <= k < |AssPaths(es)| ==> HasSuffix(AssPaths(es)[k], ".ass")
  {
    if es != [] {
      AssPathsEndInAss(es[..|es| - 1]);
    }
  }

  /** ASSFontSubset is never called with an empty list, and the last call
      receives the whole `.ass` list. */
  lemma {:induction false} SubsetCallsShape(es: seq<string>)
    ensures forall k :: 0 <= k < |SubsetCalls(es)| ==> SubsetCalls(es)[k] != []
    ensures AssPaths(es) != [] ==> SubsetCalls(es) != [] && SubsetCalls(es)[|SubsetCalls(es)| - 1] == AssPaths(es)
  {
    if es != [] {
      var prev := SubsetCalls(es[..|es| - 1]);
      var step := if |AssPaths(es)| > 0 then [AssPaths(es)] else [];
      SubsetCallsShape(es[..|es| - 1]);
      assert SubsetCalls(es) == prev + step;
      assert forall k :: 0 <= k < |prev| ==> (prev + step)[k] == prev[k];
    }
  }

  lemma {:induction false} AssPathsGrow(a: seq<string>, b: seq<string>)
    ensures |AssPaths(a + b)| >= |AssPaths(a)|
  {
    if b == [] {
      assert a + b == a;
    } else {
      var init := b[..|b| - 1];
      ConcatSnoc(a, b);
      assert (a + b)[..|a + b| - 1] == a + init;
      AssPathsGrow(a, init);
    }
  }

  /** Once the first `.ass` entry has been seen, every further entry, ASS
      or not, runs ASSFontSubset once more, on the list built so far. */
  lemma SubsetCallsStep(es: seq<string>, e: string)
    requires AssPaths(es) != []
    ensures SubsetCalls(es + [e]) == SubsetCalls(es) + [AssPaths(es + [e])]
  {
    assert (es + [e])[..|es|] == es;
    AssPathsGrow(es, [e]);
  }

  /** So after the first `.ass` entry the number of calls grows by one per entry. */
  lemma {:induction false} SubsetCallsCount(a: seq<string>, b: seq<string>)
    requires AssPaths(a) != []
    ensures |SubsetCalls(a + b)| == |SubsetCalls(a)| + |b|
  {
    if b == [] {
      assert a + b == a;
    } else {
      var init, last := b[..|b| - 1], b[|b| - 1];
      SubsetCallsCount(a, init);
      AssPathsGrow(a, init);
      SubsetCallsCountSnoc(a + init, last, |SubsetCalls(a)| + |init|);
      ConcatSnoc(a, b);
    }
  }

  lemma SubsetCallsCountSnoc(es: seq<string>, e: string, n: int)
    requires |AssPaths(es)| > 0 && |SubsetCalls(es)| == n
    ensures |SubsetCalls(es + [e])| == n + 1
  {
    SubsetCallsStep(es, e);
  }

  predicate AllSubsetsSucceed(calls: seq<seq<string>>, findFonts: string -> seq<string>,
                              outcome: (Config, Stage) -> bool) {
    calls == [] ||
    (AllSubsetsSucceed(calls[..|calls| - 1], findFonts, outcome) &&
     SubsetSucceeds(calls[|calls| - 1], "", "", false, findFonts, outcome))
  }

  lemma AllSubsetsSucceedAppend(calls: seq<seq<string>>, c: seq<string>, findFonts: string -> seq<string>,
                                outcome: (Config, Stage) -> bool)
    ensures AllSubsetsSucceed(calls + [c], findFonts, outcome) <==>
            AllSubsetsSucceed(calls, findFonts, outcome) && SubsetSucceeds(c, "", "", false, findFonts, outcome)
  {
    assert (calls + [c])[..|calls|] == calls;
  }

  /** One step of the subset loop, in terms of AssPaths and SubsetCalls. */
  lemma StepSubsetLoop(es: seq<string>, j: nat)
    requires j < |es|
    ensures var f := ColonTail(es[j]);
      AssPaths(es[..j + 1]) == AssPaths(es[..j]) + (if HasSuffix(f, ".ass") then [f] else [])
    ensures SubsetCalls(es[..j + 1]) ==
            SubsetCalls(es[..j]) + (if |AssPaths(es[..j + 1])| > 0 then [AssPaths(es[..j + 1])] else [])
  {
    assert es[..j + 1][..j] == es[..j];
  }

  /** The attachment loop of DumpMKV (mkvlib/mkv.go:60-62). */
  method AttachmentArgs(output: string, atts: seq<Attachment>) returns (attachments: seq<string>)
    ensures attachments == AttachmentEntries(output, atts)
  {
    attachments := [];
    var i := 0;
    while i < |atts|
      invariant 0 <= i <= |atts|
      invariant attachments == AttachmentEntries(output, atts[..i])
    {
      assert atts[..i + 1][..i] == atts[..i];
      attachments := attachments + [AttachmentEntry(output, atts[i])];
      i := i + 1;
    }
    assert atts[..i] == atts;
  }

  /** The track loop of DumpMKV (mkvlib/mkv.go:63-73). */
  method TrackArgs(output: string, ts: seq<Track>) returns (tracks: seq<string>)
    ensures tracks == TrackEntries(output, ts)
  {
    tracks := [];
    var i := 0;
    while i < |ts|
      invariant 0 <= i <= |ts|
      invariant tracks == TrackEntries(output, ts[..i])
    {
      assert ts[..i + 1][..i] == ts[..i];
      var t := ts[i];
      if t.kind == SubtitlesKind {
        var s := IntToString(t.id) + "_" + t.language + "_" + t.trackName;
        if t.codec == AssCodec {
          s := s + ".ass";
        } else {
          s := s + ".sub";
        }
        tracks := tracks + [IntToString(t.id) + ":" + Join(output, s)];
      }
      i := i + 1;
    }
    assert ts[..i] == ts;
  }

  /** The subset loop of DumpMKV (mkvlib/mkv.go:85-97): `calls` are the
      lists ASSFontSubset is run on and `ec` counts its failures. */
  method SubsetLoop(tracks: seq<string>, findFonts: string -> seq<string>, outcome: (Config, Stage) -> bool)
    returns (calls: seq<seq<string>>, ec: nat)
    ensures calls == SubsetCalls(tracks)
    ensures ec == 0 <==> AllSubsetsSucceed(calls, findFonts, outcome)
  {
    calls, ec := [], 0;
    var asses: seq<string> := [];
    var j := 0;
    assert tracks[..0] == [];
    while j < |tracks|
      invariant 0 <= j <= |tracks|
      invariant SubsetState(tracks[..j], asses, calls, ec, findFonts, outcome)
    {
      asses, calls, ec := SubsetStep(tracks, j, asses, calls, ec, findFonts, outcome);
      j := j + 1;
    }
    assert tracks[..j] == tracks;
  }

  /** What the subset loop has built after the tracks `done`. */
  ghost predicate SubsetState(done: seq<string>, asses: seq<string>, calls: seq<seq<string>>, ec: nat,
                              findFonts: string -> seq<string>, outcome: (Config, Stage) -> bool)
  {
    && asses == AssPaths(done)
    && calls == SubsetCalls(done)
    && (ec == 0 <==> AllSubsetsSucceed(calls, findFonts, outcome))
  }

  /** One iteration of the subset loop (mkvlib/mkv.go:86-96). */
  method SubsetStep(tracks: seq<string>, j: nat, asses: seq<string>, calls: seq<seq<string>>, ec: nat,
                    findFonts: string -> seq<string>, outcome: (Config, Stage) -> bool)
    returns (asses': seq<string>, calls': seq<seq<string>>, ec': nat)
    requires j < |tracks| && SubsetState(tracks[..j], asses, calls, ec, findFonts, outcome)
    ensures SubsetState(tracks[..j + 1], asses', calls', ec', findFonts, outcome)
  {
    StepSubsetLoop(tracks, j);
    var f := ColonTail(tracks[j]);
    asses', calls', ec' := asses, calls, ec;
    if HasSuffix(f, ".ass") {
      asses' := asses' + [f];
    }
    if |asses'| > 0 {
      calls', ec' := SubsetOnce(calls', ec', asses', findFonts, outcome);
    }
  }

  /** One ASSFontSubset call of the subset loop (mkvlib/mkv.go:89-94): the
      list is recorded and a failure increments `ec`. */
  method SubsetOnce(calls: seq<seq<string>>, ec: nat, asses: seq<string>,
                    findFonts: string -> seq<string>, outcome: (Config, Stage) -> bool)
    returns (calls': seq<seq<string>>, ec': nat)
    requires ec == 0 <==> AllSubsetsSucceed(calls, findFonts, outcome)
    ensures calls' == calls + [asses]
    ensures ec' == 0 <==> AllSubsetsSucceed(calls', findFonts, outcome)
  {
    var subsetOk, _ := ASSFontSubset(asses, "", "", false, findFonts, outcome);
    ec' := if subsetOk then ec else ec + 1;
    AllSubsetsSucceedAppend(calls, asses, findFonts, outcome);
    calls' := calls + [asses];
  }

  /** DumpMKV with GetMKVInfo's result passed in as `obj` (None: inspection
      failed) and mkvextract's exit status as `extract(args)`. `calls` are the
      file lists ASSFontSubset was run on. */
  method DumpMKV(file: string, output: string, subset: bool, obj: Option<Info>,
                 extract: seq<string> -> bool,
                 findFonts: string -> seq<string>, outcome: (Config, Stage) -> bool)
    returns (ok: bool, args: seq<string>, calls: seq<seq<string>>)
    ensures obj.None? ==> !ok && args == [] && calls == []
    ensures obj.Some? ==> args == ExtractArgs(file, output, obj.value)
    ensures calls == if obj.Some? && extract(args) && subset
                     then SubsetCalls(TrackEntries(output, obj.value.tracks)) else []
    ensures ok <==> obj.Some? && extract(args) && AllSubsetsSucceed(calls, findFonts, outcome)
    ensures ok == DumpSucceeds(file, output, subset, obj, extract, findFonts, outcome)
  {
    var ec := 0;
    if obj.None? {
      return false, [], [];
    }
    var info := obj.value;
    var attachments := AttachmentArgs(output, info.attachments);
    var tracks := TrackArgs(output, info.tracks);
    args := [];
    args := args + [file];
    args := args + ["attachments"];
    assert args == [file, "attachments"];
    args := args + attachments;
    args := args + ["tracks"];
    args := args + tracks;
    calls := [];
    if extract(args) {
      if subset {
        var failures;
        calls, failures := SubsetLoop(tracks, findFonts, outcome);
        ec := ec + failures;
      }
    } else {
      ec := ec + 1;
    }
    ok := ec == 0;
  }

  /** The boolean DumpMKV returns: the file was inspected, mkvextract
      succeeded and, when subsetting was asked for, every subsetting call
      succeeded. */
  predicate DumpSucceeds(file: string, output: string, subset: bool, obj: Option<Info>,
                         extract: seq<string> -> bool,
                         findFonts: string -> seq<string>, outcome: (Config, Stage) -> bool)
  {
    && obj.Some?
    && extract(ExtractArgs(file, output, obj.value))
    && (subset ==> AllSubsetsSucceed(SubsetCalls(TrackEntries(output, obj.value.tracks)), findFonts, outcome))
  }

  /** The extraction arguments name every attachment, in order, and exactly
      the subtitle tracks, in order; other tracks never appear. */
  lemma ExtractArgsShape(file: string, output: string, info: Info)
    ensures var args := ExtractArgs(file, output, info);
      var n := |info.attachments|;
      var subs := SubtitleTracks(info.tracks);
      && |args| == 3 + n + |subs|
      && args[0] == file && args[1] == "attachments" && args[2 + n] == "tracks"
      && (forall k :: 0 <= k < n ==> args[2 + k] == AttachmentEntry(output, info.attachments[k]))
      && (forall k :: 0 <= k < |subs| ==> args[3 + n + k] == TrackEntry(output, subs[k]) && IsSubtitle(subs[k]))
  {
    ArgsLayout(file, AttachmentEntries(output, info.attachments), TrackEntries(output, info.tracks));
  }

  /** Where the two lists sit in `<file> attachments <atts> tracks <tracks>`. */
  lemma ArgsLayout(file: string, atts: seq<string>, tracks: seq<string>)
    ensures var args := [file, "attachments"] + atts + ["tracks"] + tracks;
      && |args| == 3 + |atts| + |tracks|
      && args[0] == file && args[1] == "attachments" && args[2 + |atts|] == "tracks"
      && (forall k :: 0 <= k < |atts| ==> args[2 + k] == atts[k])
      && (forall k :: 0 <= k < |tracks| ==> args[3 + |atts| + k] == tracks[k])
  {
  }

  /** The paths of the ASS subtitle tracks, in order. */
  function AssTrackPaths(output: string, ts: seq<Track>): seq<string> {
    if ts == [] then []
    else
      var last := ts[|ts| - 1];
      AssTrackPaths(output, ts[..|ts| - 1]) + (if IsAssSubtitle(last) then [TrackPath(output, last)] else [])
  }

  lemma AssPathsSnoc(es: seq<string>, e: string)
    ensures AssPaths(es + [e]) ==
            AssPaths(es) + (if HasSuffix(ColonTail(e), ".ass") then [ColonTail(e)] else [])
  {
    assert (es + [e])[..|es|] == es;
  }

  /** Without ':' in the path, the subset loop reads a track's path back
      from its entry, and the path ends in `.ass` exactly for ASS tracks. */
  lemma TrackEntryTail(output: string, t: Track)
    requires ':' !in output && ':' !in t.language && ':' !in t.trackName
    ensures ColonTail(TrackEntry(output, t)) == TrackPath(output, t)
    ensures HasSuffix(TrackPath(output, t), ".ass") <==> t.codec == AssCodec
  {
    var idStr := IntToString(t.id);
    IntToStringPlain(t.id);
    var name := EncodeName(t.id, t.language, t.trackName, t.codec);
    assert name == idStr + "_" + t.language + "_" + t.trackName + Extension(t.codec);
    assert ':' !in name;
    var path := TrackPath(output, t);
    assert ':' !in path;
    assert TrackEntry(output, t) == idStr + [':'] + path;
    AfterLastOf(idStr, ':', path);
    if output != "" {
      HasSuffixOfConcat(output + "/", name, ".ass");
    }
  }

  /** When neither the output directory nor any subtitle track's language
      or name contains ':', the list handed to ASSFontSubset is exactly the
      paths of the ASS subtitle tracks, in order. */
  lemma {:induction false} AssPathsAreAssTracks(output: string, ts: seq<Track>)
    requires ':' !in output
    requires forall t :: t in ts && IsSubtitle(t) ==> ':' !in t.language && ':' !in t.trackName
    ensures AssPaths(TrackEntries(output, ts)) == AssTrackPaths(output, ts)
  {
    if ts != [] {
      var init := ts[..|ts| - 1];
      var last := ts[|ts| - 1];
      assert forall t :: t in init ==> t in ts;
      AssPathsAreAssTracks(output, init);
      if IsSubtitle(last) {
        TrackEntryTail(output, last);
        AssPathsSnoc(TrackEntries(output, init), TrackEntry(output, last));
      } else {
        assert TrackEntries(output, ts) == TrackEntries(output, init);
      }
    }
  }

  lemma ExampleColonName()
    ensures EncodeName(3, "eng", "A: B", "SubStationAlpha") == "3_eng_A: B.ass"
  {
    assert IntToString(3) == "3";
    assert Extension("SubStationAlpha") == ".ass";
    assert "3" + "_" + "eng" + "_" + "A: B" + ".ass" == "3_eng_A: B.ass";
  }

  lemma ExampleColonPath()
    ensures TrackPath("o", Track(3, "subtitles", "SubStationAlpha", "eng", "A: B")) == "o/3_eng_A: B.ass"
  {
    ExampleColonName();
    assert "o" + "/" + "3_eng_A: B.ass" == "o/3_eng_A: B.ass";
  }

  lemma ExampleColonEntry()
    ensures var t := Track(3, "subtitles", "SubStationAlpha", "eng", "A: B");
      TrackPath("o", t) == "o/3_eng_A: B.ass" && TrackEntry("o", t) == "3:o/3_eng_A: B.ass"
  {
    ExampleColonPath();
    assert IntToString(3) == "3";
    assert "3" + ":" + "o/3_eng_A: B.ass" == "3:o/3_eng_A: B.ass";
  }

  /** A ':' in a track name cuts the path handed to ASSFontSubset: the
      subset loop keeps only what follows the last ':'. */
  lemma ColonInTrackNameCutsPath()
    ensures var t := Track(3, "subtitles", "SubStationAlpha", "eng", "A: B");
      AssPaths([TrackEntry("o", t)]) == [" B.ass"] && TrackPath("o", t) != " B.ass"
  {
    var t := Track(3, "subtitles", "SubStationAlpha", "eng", "A: B");
    ExampleColonEntry();
    assert "3:o/3_eng_A: B.ass" == "3:o/3_eng_A" + [':'] + " B.ass";
    AfterLastOf("3:o/3_eng_A", ':', " B.ass");
    assert ColonTail(TrackEntry("o", t)) == " B.ass";
    assert HasSuffix(" B.ass", ".ass");
    AssPathsSnoc([], TrackEntry("o", t));
  }

  lemma ExampleAttachmentEntry()
    ensures AttachmentEntry("out", Attachment(1, "a.ttf", 100, "font/ttf")) == "1:out/fonts/a.ttf"
    ensures AttachmentEntry("out", Attachment(2, "b.ttf", 100, "font/ttf")) == "2:out/fonts/b.ttf"
  {
    assert IntToString(1) == "1" && IntToString(2) == "2";
  }

  lemma ExampleTrackName()
    ensures EncodeName(3, "eng", "Full", "SubStationAlpha") == "3_eng_Full.ass"
  {
    assert IntToString(3) == "3";
    assert Extension("SubStationAlpha") == ".ass";
    assert "3" + "_" + "eng" + "_" + "Full" + ".ass" == "3_eng_Full.ass";
  }

  lemma ExampleTrackEntry()
    ensures TrackEntry("out", Track(3, "subtitles", "SubStationAlpha", "eng", "Full")) == "3:out/3_eng_Full.ass"
  {
    ExampleTrackPath();
    assert IntToString(3) == "3";
    assert "3" + ":" + "out/3_eng_Full.ass" == "3:out/3_eng_Full.ass";
  }

  lemma ExampleTrackPath()
    ensures TrackPath("out", Track(3, "subtitles", "SubStationAlpha", "eng", "Full")) == "out/3_eng_Full.ass"
  {
    ExampleTrackName();
    assert "out" + "/" + "3_eng_Full.ass" == "out/3_eng_Full.ass";
  }

  /** Two fonts, one video track and one ASS track: the arguments name the
      fonts under `out/fonts` and the ASS track as `out/3_eng_Full.ass`; the
      video track does not appear. */
  lemma ExampleExtraction()
    ensures var args := ExtractArgs("in.mkv", "out",
              Info([Attachment(1, "a.ttf", 100, "font/ttf"), Attachment(2, "b.ttf", 100, "font/ttf")],
                   [Track(0, "video", "AVC", "jpn", ""), Track(3, "subtitles", "SubStationAlpha", "eng", "Full")]));
      && |args| == 6 && args[0] == "in.mkv" && args[1] == "attachments"
      && args[2] == "1:out/fonts/a.ttf" && args[3] == "2:out/fonts/b.ttf"
      && args[4] == "tracks" && args[5] == "3:out/3_eng_Full.ass"
  {
    var atts := [Attachment(1, "a.ttf", 100, "font/ttf"), Attachment(2, "b.ttf", 100, "font/ttf")];
    var ts := [Track(0, "video", "AVC", "jpn", ""), Track(3, "subtitles", "SubStationAlpha", "eng", "Full")];
    ExampleAttachmentEntry();
    ExampleTrackEntry();
    assert ts[..1] == [ts[0]] && ts[..1][..0] == [];
    assert SubtitleTracks(ts[..1]) == [];
    assert SubtitleTracks(ts) == [ts[1]];
    ExtractArgsShape("in.mkv", "out", Info(atts, ts));
  }
}
