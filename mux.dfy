/** CreateMKV (mkvlib/mkv.go:132-166): the mkvmerge argument list that
    remuxes a file with new attachments and tracks, each track's language
    and name taken from its file name. */
module Mux {
  import opened Strings
  import opened Naming

  /** The optional flags placed before one track path. */
  function TrackFlags(m: Meta): seq<string> {
    (if m.language != "" then ["--language", "0:" + m.language] else [])
    + (if m.title != "" then ["--track-name", "0:" + m.title] else [])
  }

  /** A language flag is emitted exactly when the language is non-empty, and
      a track-name flag exactly when the title is non-empty. */
  lemma TrackFlagsEmitted(m: Meta)
    ensures "--language" in TrackFlags(m) <==> m.language != ""
    ensures "--track-name" in TrackFlags(m) <==> m.title != ""
    ensures m.language != "" ==> TrackFlags(m)[0] == "--language" && TrackFlags(m)[1] == "0:" + m.language
    ensures m.title != "" ==>
      TrackFlags(m)[|TrackFlags(m)| - 2] == "--track-name" && TrackFlags(m)[|TrackFlags(m)| - 1] == "0:" + m.title
  {
    var l := "0:" + m.language;
    var t := "0:" + m.title;
    assert l[0] == '0' && t[0] == '0';
    assert "--language"[0] == '-' && "--track-name"[0] == '-';
    assert l != "--track-name" && l != "--language";
    assert t != "--language" && t != "--track-name";
  }

  /** The flags and path of one track. */
  function TrackBlock(path: string, slang: string, stitle: string): seq<string> {
    TrackFlags(TrackMeta(path, slang, stitle)) + [path]
  }

  /** `--attach-file <path>` for every attachment, in order. */
  function AttachArgs(attachments: seq<string>): (r: seq<string>)
    ensures |r| == 2 * |attachments|
  {
    if attachments == [] then []
    else AttachArgs(attachments[..|attachments| - 1]) + ["--attach-file", attachments[|attachments| - 1]]
  }

  /** The track blocks, in the order of `tracks`. */
  function TrackArgs(tracks: seq<string>, slang: string, stitle: string): seq<string> {
    if tracks == [] then []
    else TrackArgs(tracks[..|tracks| - 1], slang, stitle) + TrackBlock(tracks[|tracks| - 1], slang, stitle)
  }

  /** The full mkvmerge argument list. */
  function MuxArgs(file: string, tracks: seq<string>, attachments: seq<string>, output: string,
                   slang: string, stitle: string, clean: bool): seq<string> {
    ["--output", output] + (if clean then ["--no-subtitles", "--no-attachments"] else []) + [file]
    + AttachArgs(attachments) + TrackArgs(tracks, slang, stitle)
  }

  /** CreateMKV with mkvmerge's exit status given as `mux(args)`. */
  method CreateMKV(file: string, tracks: seq<string>, attachments: seq<string>, output: string,
                   slang: string, stitle: string, clean: bool, mux: seq<string> -> bool)
    returns (args: seq<string>, ok: bool)
    ensures args == MuxArgs(file, tracks, attachments, output, slang, stitle, clean)
    ensures ok == mux(args)
  {
    args := [];
    args := args + ["--output", output];
    if clean {
      args := args + ["--no-subtitles", "--no-attachments"];
    }
    args := args + [file];
    ghost var head := args;
    assert head == ["--output", output] + (if clean then ["--no-subtitles", "--no-attachments"] else []) + [file];
    args := AppendAttachments(args, attachments);
    args := AppendTracks(args, tracks, slang, stitle);
    assert args == head + AttachArgs(attachments) + TrackArgs(tracks, slang, stitle);
    ok := mux(args);
  }

  /** CreateMKV's attachment loop. */
  method AppendAttachments(args0: seq<string>, attachments: seq<string>) returns (args: seq<string>)
    ensures args == args0 + AttachArgs(attachments)
  {
    args := args0;
    var i := 0;
    while i < |attachments|
      invariant 0 <= i <= |attachments|
      invariant args == args0 + AttachArgs(attachments[..i])
    {
      assert attachments[..i + 1][..i] == attachments[..i];
      ghost var prev := AttachArgs(attachments[..i]);
      args := args + ["--attach-file", attachments[i]];
      assert args == args0 + (prev + ["--attach-file", attachments[i]]);
      i := i + 1;
    }
    assert attachments[..i] == attachments;
  }

  /** CreateMKV's track loop. */
  method AppendTracks(args0: seq<string>, tracks: seq<string>, slang: string, stitle: string)
    returns (args: seq<string>)
    ensures args == args0 + TrackArgs(tracks, slang, stitle)
  {
    args := args0;
    var i := 0;
    while i < |tracks|
      invariant 0 <= i <= |tracks|
      invariant args == args0 + TrackArgs(tracks[..i], slang, stitle)
    {
      var block := TrackBlockOf(tracks[i], slang, stitle);
      ghost var prev := TrackArgs(tracks[..i], slang, stitle);
      TrackArgsStep(tracks, i, slang, stitle);
      AppendAssoc(args0, prev, block);
      args := args + block;
      i := i + 1;
    }
    assert tracks[..i] == tracks;
  }

  /** One iteration of CreateMKV's track loop: read the language and title
      from the file name, falling back to the defaults for missing segments,
      and emit the flags for the non-empty ones followed by the path. */
  method TrackBlockOf(item: string, slang: string, stitle: string) returns (block: seq<string>)
    ensures block == TrackBlock(item, slang, stitle)
  {
    var f := Stem(BaseName(item));
    var arr := Split(f, '_');
    var sl := slang;
    var st := stitle;
    if |arr| > 1 {
      sl := arr[1];
    }
    if |arr| > 2 {
      st := arr[2];
    }
    assert Meta(sl, st) == TrackMeta(item, slang, stitle);
    block := [];
    if sl != "" {
      block := block + ["--language", "0:" + sl];
    }
    assert block == (if sl != "" then ["--language", "0:" + sl] else []);
    if st != "" {
      block := block + ["--track-name", "0:" + st];
    }
    assert block == TrackFlags(Meta(sl, st));
    block := block + [item];
  }

  /** Attachments alternate `--attach-file` and the path, in input order. */
  lemma {:induction false} AttachArgsAt(attachments: seq<string>, k: nat)
    requires k < |attachments|
    ensures AttachArgs(attachments)[2 * k] == "--attach-file"
    ensures AttachArgs(attachments)[2 * k + 1] == attachments[k]
  {
    var init := attachments[..|attachments| - 1];
    if k < |init| {
      AttachArgsAt(init, k);
    }
  }

  /** Concatenation of argument lists is associative; stated once so that
      the loop and induction steps need not prove it in their own context. */
  lemma AppendAssoc(a: seq<string>, b: seq<string>, c: seq<string>)
    ensures a + b + c == a + (b + c)
  {
  }

  /** One more track of the list appends its block. */
  lemma TrackArgsStep(tracks: seq<string>, i: nat, slang: string, stitle: string)
    requires i < |tracks|
    ensures TrackArgs(tracks[..i + 1], slang, stitle) == TrackArgs(tracks[..i], slang, stitle) + TrackBlock(tracks[i], slang, stitle)
  {
    assert tracks[..i + 1][..i] == tracks[..i];
  }

  /** Appending a track appends its block. */
  lemma TrackArgsSnoc(s: seq<string>, x: string, slang: string, stitle: string)
    ensures TrackArgs(s + [x], slang, stitle) == TrackArgs(s, slang, stitle) + TrackBlock(x, slang, stitle)
  {
    assert (s + [x])[..|s|] == s;
  }

  /** The track blocks follow the order of the track list. */
  lemma {:induction false} TrackArgsConcat(a: seq<string>, b: seq<string>, slang: string, stitle: string)
    ensures TrackArgs(a + b, slang, stitle) == TrackArgs(a, slang, stitle) + TrackArgs(b, slang, stitle)
  {
    if b == [] {
      assert a + b == a;
    } else {
      var init := b[..|b| - 1];
      var last := b[|b| - 1];
      ConcatSnoc(a, b);
      ConcatSnoc([], b);
      TrackArgsConcat(a, init, slang, stitle);
      TrackArgsSnoc(a + init, last, slang, stitle);
      TrackArgsSnoc(init, last, slang, stitle);
      AppendAssoc(TrackArgs(a, slang, stitle), TrackArgs(init, slang, stitle), TrackBlock(last, slang, stitle));
    }
  }

  /** Each track contributes its optional flags followed by its own path. */
  lemma TrackArgsSingle(path: string, slang: string, stitle: string)
    ensures TrackArgs([path], slang, stitle) == TrackFlags(TrackMeta(path, slang, stitle)) + [path]
  {
    TrackArgsSnoc([], path, slang, stitle);
    assert [] + [path] == [path];
  }

  /** The argument list starts with the output, the clean flags, the file and
      the attachments; the track blocks fill the rest. */
  lemma MuxArgsShape(file: string, tracks: seq<string>, attachments: seq<string>, output: string,
                     slang: string, stitle: string, clean: bool)
    ensures var args := MuxArgs(file, tracks, attachments, output, slang, stitle, clean);
      var c := if clean then 2 else 0;
      && args[0] == "--output" && args[1] == output
      && (clean ==> args[2] == "--no-subtitles" && args[3] == "--no-attachments")
      && args[2 + c] == file
      && args[3 + c..3 + c + 2 * |attachments|] == AttachArgs(attachments)
      && args[3 + c + 2 * |attachments|..] == TrackArgs(tracks, slang, stitle)
  {
    var head := ["--output", output] + (if clean then ["--no-subtitles", "--no-attachments"] else []) + [file];
    var args := MuxArgs(file, tracks, attachments, output, slang, stitle, clean);
    assert args == head + AttachArgs(attachments) + TrackArgs(tracks, slang, stitle);
  }

  /** `3_eng_Full.ass` with default language `jpn`: the file name wins. */
  lemma ExampleFilenameLanguage()
    ensures TrackArgs(["subs/3_eng_Full.ass"], "jpn", "Default")
            == ["--language", "0:eng", "--track-name", "0:Full", "subs/3_eng_Full.ass"]
  {
    var p := "subs/3_eng_Full.ass";
    ExampleTrackMeta();
    TrackArgsSingle(p, "jpn", "Default");
    ExampleFlagValues();
    assert TrackFlags(Meta("eng", "Full")) == ["--language", "0:eng"] + ["--track-name", "0:Full"];
  }

  /** The two flag values of the example, computed apart from its proof. */
  lemma ExampleFlagValues()
    ensures "0:" + "eng" == "0:eng" && "0:" + "Full" == "0:Full"
  {
  }

  lemma ExampleTrackMeta()
    ensures TrackMeta("subs/3_eng_Full.ass", "jpn", "Default") == Meta("eng", "Full")
  {
    ExampleBaseName();
    ExampleStem();
    ExampleFilenameWins();
  }

  lemma ExampleBaseName()
    ensures BaseName("subs/3_eng_Full.ass") == "3_eng_Full.ass"
  {
    AfterLastOf("subs", '/', "3_eng_Full.ass");
    assert "subs" + ['/'] + "3_eng_Full.ass" == "subs/3_eng_Full.ass";
  }

  lemma ExampleStem()
    ensures Stem("3_eng_Full.ass") == "3_eng_Full"
  {
    StemOfExtension("3_eng_Full", "ass");
    assert "3_eng_Full" + "." + "ass" == "3_eng_Full.ass";
  }

  /** `3__.ass` resolves both fields to "", so neither flag is emitted and
      the defaults are not applied. */
  lemma ExampleEmptyFields()
    ensures TrackArgs(["3__.ass"], "jpn", "Default") == ["3__.ass"]
  {
    LastIndexOfAbsent("3__.ass", '/');
    StemOfExtension("3__", "ass");
    assert "3__" + "." + "ass" == "3__.ass";
    ExampleEmptySegments();
    TrackArgsSingle("3__.ass", "jpn", "Default");
  }
}
