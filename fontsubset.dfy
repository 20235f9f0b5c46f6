/** ASSFontSubset (mkvlib/mkv.go:275-297): resolve the font directory and
    the output directory of one subsetting run, then run the five stages of
    the ASS processor as a short-circuit conjunction. The stages themselves
    are not part of this model; `outcome(cfg, stage)` stands for whether a
    stage succeeds on the configuration it is given. */
module FontSubset {
  import opened Strings
  import opened MkvInfo

  datatype Stage = Parse | MatchFonts | CreateFontsSubset | ChangeFontsName | ReplaceFontNameInAss

  /** The order of `parse() && matchFonts() && createFontsSubset() &&
      changeFontsName() && replaceFontNameInAss()`. */
  const Pipeline: seq<Stage> := [Parse, MatchFonts, CreateFontsSubset, ChangeFontsName, ReplaceFontNameInAss]

  /** The fields ASSFontSubset sets on its processor object: the ASS files,
      the font directory, the output directory and the fonts found there. */
  datatype Config = Config(files: seq<string>, fontsDir: string, output: string, fonts: seq<string>)

  /** The directory name appended when `dirSafe` holds (spelt as in the source). */
  const DirSafeName: string := "subseted"

  /** The configuration ASSFontSubset builds, or None for an empty file list. */
  function ResolveConfig(files: seq<string>, fonts: string, output: string, dirSafe: bool,
                         findFonts: string -> seq<string>): (c: Option<Config>)
    ensures c.None? <==> files == []
    ensures c.Some? ==> c.value.files == files
    ensures c.Some? && fonts != "" ==> c.value.fontsDir == fonts
    ensures c.Some? && fonts == "" ==> c.value.fontsDir == Join(DirName(files[0]), "fonts")
    ensures c.Some? && output == "" ==> c.value.output == Join(DirName(files[0]), DirSafeName)
    ensures c.Some? && output != "" && dirSafe ==> c.value.output == Join(output, DirSafeName)
    ensures c.Some? && output != "" && !dirSafe ==> c.value.output == output
    ensures c.Some? ==> c.value.fonts == findFonts(c.value.fontsDir)
  {
    if files == [] then None
    else
      var d := DirName(files[0]);
      var fontsDir := if fonts == "" then Join(d, "fonts") else fonts;
      var safe := dirSafe || output == "";
      var out := if output == "" then d else output;
      var out' := if safe then Join(out, DirSafeName) else out;
      Some(Config(files, fontsDir, out', findFonts(fontsDir)))
  }

  /** Which stages ran, in order, and whether the whole run succeeded. */
  datatype Run = Run(ok: bool, ran: seq<Stage>)

  /** Runs the stages left to right and stops at the first failure. */
  function RunStages(cfg: Config, stages: seq<Stage>, outcome: (Config, Stage) -> bool): (r: Run)
    ensures |r.ran| <= |stages|
  {
    if stages == [] then Run(true, [])
    else if !outcome(cfg, stages[0]) then Run(false, [stages[0]])
    else
      var rest := RunStages(cfg, stages[1..], outcome);
      Run(rest.ok, [stages[0]] + rest.ran)
  }

  /** The stages started are a prefix of the list, all but the last of them
      succeeded, the run succeeds exactly when every stage was started and
      succeeded, and a failed run ends with the stage that failed. */
  lemma {:induction false} RunStagesSpec(cfg: Config, stages: seq<Stage>, outcome: (Config, Stage) -> bool)
    ensures var r := RunStages(cfg, stages, outcome);
      && r.ran == stages[..|r.ran|]
      && (forall k :: 0 <= k < |r.ran| - 1 ==> outcome(cfg, r.ran[k]))
      && (r.ok <==> r.ran == stages && forall k :: 0 <= k < |stages| ==> outcome(cfg, stages[k]))
      && (!r.ok ==> |r.ran| >= 1 && !outcome(cfg, r.ran[|r.ran| - 1]))
  {
    if stages != [] && outcome(cfg, stages[0]) {
      var tail := stages[1..];
      var rest := RunStages(cfg, tail, outcome);
      RunStagesSpec(cfg, tail, outcome);
      var ran := [stages[0]] + rest.ran;
      assert RunStages(cfg, stages, outcome) == Run(rest.ok, ran);
      assert forall k :: 1 <= k < |stages| ==> stages[k] == tail[k - 1];
      assert forall k :: 1 <= k < |ran| ==> ran[k] == rest.ran[k - 1];
      assert stages == [stages[0]] + tail;
      assert stages[..|ran|] == [stages[0]] + tail[..|rest.ran|];
    }
  }

  /** The final conjunction of ASSFontSubset. */
  predicate AllStagesPass(cfg: Config, outcome: (Config, Stage) -> bool) {
    outcome(cfg, Parse) && outcome(cfg, MatchFonts) && outcome(cfg, CreateFontsSubset) &&
    outcome(cfg, ChangeFontsName) && outcome(cfg, ReplaceFontNameInAss)
  }

  /** The boolean ASSFontSubset returns. */
  predicate SubsetSucceeds(files: seq<string>, fonts: string, output: string, dirSafe: bool,
                           findFonts: string -> seq<string>, outcome: (Config, Stage) -> bool)
  {
    match ResolveConfig(files, fonts, output, dirSafe, findFonts)
    case None => false
    case Some(cfg) => AllStagesPass(cfg, outcome)
  }

  /** Running the pipeline stage by stage gives the conjunction's value. */
  lemma PipelineIsConjunction(cfg: Config, outcome: (Config, Stage) -> bool)
    ensures RunStages(cfg, Pipeline, outcome).ok == AllStagesPass(cfg, outcome)
  {
    var r := RunStages(cfg, Pipeline, outcome);
    RunStagesSpec(cfg, Pipeline, outcome);
    if r.ok {
      assert outcome(cfg, Pipeline[0]) && outcome(cfg, Pipeline[1]) && outcome(cfg, Pipeline[2]);
      assert outcome(cfg, Pipeline[3]) && outcome(cfg, Pipeline[4]);
    } else {
      var last := |r.ran| - 1;
      assert r.ran[last] == Pipeline[last];
      assert 0 <= last < 5;
    }
  }

  /** ASSFontSubset, stepping through the processor's fields as the source
      does. `ran` lists the stages that were started. */
  method ASSFontSubset(files: seq<string>, fonts: string, output: string, dirSafe: bool,
                       findFonts: string -> seq<string>, outcome: (Config, Stage) -> bool)
    returns (ok: bool, ran: seq<Stage>)
    ensures files == [] ==> !ok && ran == []
    ensures files != [] ==>
      var cfg := ResolveConfig(files, fonts, output, dirSafe, findFonts).value;
      ok == RunStages(cfg, Pipeline, outcome).ok && ran == RunStages(cfg, Pipeline, outcome).ran
    ensures ok == SubsetSucceeds(files, fonts, output, dirSafe, findFonts, outcome)
  {
    if |files| == 0 {
      return false, [];
    }
    var safe := dirSafe;
    var objFonts := fonts;
    var objOutput := output;
    var d := DirName(files[0]);
    if objFonts == "" {
      objFonts := objFonts + Join(d, "fonts");
    }
    if objOutput == "" {
      objOutput := d;
      safe := true;
    }
    if safe {
      objOutput := Join(objOutput, DirSafeName);
    }
    var cfg := Config(files, objFonts, objOutput, findFonts(objFonts));
    assert objFonts == (if fonts == "" then Join(d, "fonts") else fonts);
    assert ResolveConfig(files, fonts, output, dirSafe, findFonts) == Some(cfg);
    var run := RunStages(cfg, Pipeline, outcome);
    PipelineIsConjunction(cfg, outcome);
    ok, ran := run.ok, run.ran;
  }

  /** An empty file list fails before any stage runs. */
  lemma EmptyListFails(fonts: string, output: string, dirSafe: bool,
                       findFonts: string -> seq<string>, outcome: (Config, Stage) -> bool)
    ensures !SubsetSucceeds([], fonts, output, dirSafe, findFonts, outcome)
  {
  }

  /** ASSFontSubset succeeds exactly when the list is non-empty and all five
      stages succeed on the resolved configuration. */
  lemma SucceedsIffAllStages(files: seq<string>, fonts: string, output: string, dirSafe: bool,
                             findFonts: string -> seq<string>, outcome: (Config, Stage) -> bool)
    ensures SubsetSucceeds(files, fonts, output, dirSafe, findFonts, outcome) <==>
      files != [] &&
      forall k :: 0 <= k < |Pipeline| ==>
        outcome(ResolveConfig(files, fonts, output, dirSafe, findFonts).value, Pipeline[k])
  {
    if files != [] {
      AllStagesPassIff(ResolveConfig(files, fonts, output, dirSafe, findFonts).value, outcome);
    }
  }

  /** The conjunction holds exactly when every stage of the pipeline succeeds. */
  lemma AllStagesPassIff(cfg: Config, outcome: (Config, Stage) -> bool)
    ensures AllStagesPass(cfg, outcome) <==> forall k :: 0 <= k < |Pipeline| ==> outcome(cfg, Pipeline[k])
  {
    if AllStagesPass(cfg, outcome) {
      forall k | 0 <= k < |Pipeline| ensures outcome(cfg, Pipeline[k]) {
        assert Pipeline[k] in {Parse, MatchFonts, CreateFontsSubset, ChangeFontsName, ReplaceFontNameInAss};
      }
    } else {
      assert !outcome(cfg, Pipeline[0]) || !outcome(cfg, Pipeline[1]) || !outcome(cfg, Pipeline[2])
          || !outcome(cfg, Pipeline[3]) || !outcome(cfg, Pipeline[4]);
    }
  }

  /** When a stage fails, none of the stages after it are started. */
  lemma NoStageAfterFailure(cfg: Config, outcome: (Config, Stage) -> bool, i: nat)
    requires i < |Pipeline| && !outcome(cfg, Pipeline[i])
    ensures |RunStages(cfg, Pipeline, outcome).ran| <= i + 1
    ensures !RunStages(cfg, Pipeline, outcome).ok
  {
    RunStagesSpec(cfg, Pipeline, outcome);
  }
}
