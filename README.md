# mkvlib core of MkvAutoSubset, modelled in Dafny

MkvAutoSubset subsets the fonts embedded in Matroska (`.mkv`) files. The tool
has three steps:

1. It extracts the file's font attachments and subtitle tracks with `mkvextract`.
2. It subsets the fonts that the ASS subtitles use.
3. It remuxes the subsetted fonts and subtitles into a new file with `mkvmerge`.

This project models the core of that tool, `mkvlib/mkv.go`, one module per concern:

- `Strings`: the parts of Go's `strings`, `path` and `fmt` that the code relies on.
  - `strings.Split`, `HasPrefix`, `HasSuffix`, `TrimPrefix`;
  - `regexp.QuoteMeta`;
  - `%d`;
  - a binary `path.Join`, and `splitPath` as directory, base name and stem.
- `MkvInfo`: the decoded `mkvmerge -J` document (`mkvInfo`): attachments, tracks and their properties.
- `Subset`: `CheckSubset`.
  - The regular expression `\.[A-Z0-9]{8}\.\S+$` becomes a predicate.
  - A decision procedure is proved equivalent to that predicate.
- `Naming`: the `<id>_<language>_<title>.<ext>` convention.
  - `DumpMKV` writes track files under these names.
  - `CreateMKV` reads the language and title back from them.
- `FontSubset`: `ASSFontSubset`.
  - It resolves the font and output directories.
  - It then runs the five-stage short-circuit conjunction of the ASS processor.
- `Extract`: `DumpMKV`.
  - The attachment and track loops build the `mkvextract` arguments.
  - The subset loop calls `ASSFontSubset` on a growing list of `.ass` paths.
- `Mux`: `CreateMKV`, which builds the `mkvmerge` argument list.
- `BatchLog`: the per-file log lines of the batch functions, and the loop-state steps they share.
- `Batch`: `QueryFolder`, `DumpMKVs`, `MakeMKVs` and `CreateMKVs`.

Side effects become parameters, bundled in `Batch.Tools`:

- the external tools and their exit status (`extract`, `mux`);
- the directory scans (`findMKVs`, `findPath`, `findFonts`);
- `GetMKVInfo` (`inspect`, which returns `None` when inspection fails);
- the outcome of each ASS-processor stage (`outcome`).

Each source loop is a `while` loop whose invariant ties what it has built to a specification function. The specification functions recurse from the end of the list, so appending one item is one unfolding.

The loops of DumpMKVs and MakeMKVs keep their state in the ghost predicate `LoopState`, and the loop of CreateMKVs in `CumulativeState`:

- They pin down the batch functions' own log lines completely: for each file, an optional failure line naming the file, then a progress line holding the two counters. Lines printed by the functions they call are not part of this log (see "## Left out").
- They also tie `ec == 0` to "no file has failed so far".

QueryFolder logs no failure line of its own. Its loop invariant is that the list built so far is `Selected` of the files seen so far and their verdicts, and that the log is `Counting` of those files: one progress line each.

The naming convention is the one the code implements (`mkvlib/mkv.go:144-152`). Only the number of `_`-separated segments decides whether a default is used. A track file named `3__.ass` therefore has three segments, and both its language and its title are empty strings. Neither `--language` nor `--track-name` is emitted for it, so the defaults are not applied either. `Naming.ExampleEmptySegments` and `Mux.ExampleEmptyFields` state this.

The data model is the module `MkvInfo` (`mkvlib/mkv.go:19-35`):

- `Attachment(id, fileName, size, contentType)`;
- `Track(id, kind, codec, language, trackName)`, where `kind` is the JSON field `type` and the last two fields are the track's `properties`;
- `Info(attachments, tracks)`, both sequences in the order `mkvmerge -J` lists them;
- `Option<Info>`, where `None` stands for the nil pointer GetMKVInfo returns.

## Model

| member | source | states |
|---|---|---|
| Strings.HasPrefix | mkvlib/mkv.go:124 | Definition of `strings.HasPrefix`: the prefix is no longer than the string and equals its first characters |
| Strings.HasSuffix | mkvlib/mkv.go:89 | Definition of `strings.HasSuffix`: the suffix is no longer than the string and equals its last characters |
| Strings.TrimPrefix | mkvlib/mkv.go:173 | Drops the prefix exactly when it is present; otherwise the string is unchanged |
| Strings.Split | mkvlib/mkv.go:144 | `strings.Split` with a one-character separator never returns an empty list |
| Strings.SplitNoSep | mkvlib/mkv.go:144 | A string without the separator splits into itself alone |
| Strings.SplitAt | mkvlib/mkv.go:144 | A separator after a separator-free head makes the head the first segment, followed by the segments of the rest |
| Strings.AfterLast | mkvlib/mkv.go:87-88 | The text after the last separator contains no separator and is a suffix of the input |
| Strings.LastIndexOfShift | mkvlib/mkv.go:87-88 | When `b` holds the character, the last index in `p + b` is `|p|` plus the last index in `b` |
| Strings.AfterLastShift | mkvlib/mkv.go:87-88 | When `b` holds the separator, a prefix before it does not change the text after the last separator |
| Strings.SplitHasTwo | mkvlib/mkv.go:87 | A string holding the separator splits into at least two segments |
| Strings.AfterLastIsLastSplit | mkvlib/mkv.go:87-88 | The text after the last separator is exactly the last element of `strings.Split` |
| Strings.AfterLastOf | mkvlib/mkv.go:87-88 | In `a + c + b` with no `c` in `b`, the last segment is `b` |
| Strings.LastIndexOf | mkvlib/mkv.go:174 | The index holds the character, and no later position does; the result is -1 when the character is absent |
| Strings.BaseName | mkvlib/mkv.go:174 | The base name has no '/' and is a suffix of the path |
| Strings.DirName | mkvlib/mkv.go:283 | The directory is a prefix; it plus "/" plus the base name gives the path back; it is empty when the path has no '/' |
| Strings.Join | mkvlib/mkv.go:61 | An empty side is dropped; otherwise the two sides are joined by one '/' |
| Strings.BaseNameOfJoin | mkvlib/mkv.go:175 | Joining a '/'-free name under a directory gives back that name as base name |
| Strings.DirNameOfJoin | mkvlib/mkv.go:283 | Joining a '/'-free name under a directory gives back that directory as directory |
| Strings.Stem | mkvlib/mkv.go:143 | The stem is a prefix of the base name, and is the whole name when it has no '.' |
| Strings.StemOfExtension | mkvlib/mkv.go:143 | The stem of `x.ext` is `x` when the extension has no '.' |
| Strings.IntToString | mkvlib/mkv.go:61 | `%d` yields digits with a leading '-' exactly for negative numbers |
| Strings.IntToStringPlain | mkvlib/mkv.go:65 | `%d` output contains no '_', '/', ':' or '.' |
| Strings.QuoteMeta | mkvlib/mkv.go:212 | Escaping adds at most one backslash per character; a name without metacharacters is used unchanged in the pattern |
| MkvInfo.IsSubtitle | mkvlib/mkv.go:64 | Definition: a track is a subtitle track iff its type is `subtitles` |
| MkvInfo.IsAssSubtitle | mkvlib/mkv.go:118 | Definition: an ASS track has type `subtitles` and codec exactly `SubStationAlpha` |
| Subset.SignatureAt | mkvlib/mkv.go:116 | Definition of a match of `\.[A-Z0-9]{8}\.\S+$` starting at one position: '.', eight of `[A-Z0-9]`, '.', then one or more non-space characters up to the end |
| Subset.MatchesSignature | mkvlib/mkv.go:116 | Definition of `reg.MatchString` for the signature: some position starts a match of `SignatureAt` |
| Subset.FindSignature | mkvlib/mkv.go:116 | The scan succeeds exactly when the pattern matches at some start position at or after `from` |
| Subset.SignatureMatch | mkvlib/mkv.go:116 | Decides `\.[A-Z0-9]{8}\.\S+$` exactly: true iff some position starts the match |
| Subset.IsSubsetFont | mkvlib/mkv.go:124 | Definition: content type starts with `font/` and the file name matches the signature |
| Subset.HasAssTrack | mkvlib/mkv.go:117-122 | Definition: some track is an ASS subtitle track |
| Subset.HasSubsetFont | mkvlib/mkv.go:123-128 | Definition: some attachment is a subsetted font |
| Subset.Complete | mkvlib/mkv.go:129 | Definition of the verdict: no ASS track, or some subsetted font |
| Subset.CheckSubset | mkvlib/mkv.go:108-130 | The second result is true iff inspection failed. The first is true iff there is no ASS track, or some attachment is a `font/` with a subset signature |
| Subset.NoAssTrackIsComplete | mkvlib/mkv.go:117-129 | A file without an ASS subtitle track is complete |
| Subset.AssWithoutAttachmentsIsIncomplete | mkvlib/mkv.go:123-129 | A file with an ASS track and no attachments is incomplete |
| Subset.ExampleSignature | mkvlib/mkv.go:116 | `foo.AB12CD34.ttf` matches; `foo.ttf` and the lower-case `foo.ab12cd34.ttf` do not |
| Subset.ExampleComplete | mkvlib/mkv.go:108-130 | An ASS track plus a subsetted font attachment is complete |
| Subset.ExampleOriginalFontIncomplete | mkvlib/mkv.go:108-130 | An ASS track with only an original font is incomplete |
| Naming.Extension | mkvlib/mkv.go:66-70 | `.ass` exactly for `SubStationAlpha`; `.sub` for every other codec |
| Naming.EncodeName | mkvlib/mkv.go:65-70 | The name ends in `.ass` iff the codec is ASS, and starts with the id and '_' |
| Naming.DecodeMeta | mkvlib/mkv.go:144-152 | Definition of the decoding: language is segment 1 when there are at least 2 segments, title is segment 2 when there are at least 3, else the defaults |
| Naming.DecodeOneSegment | mkvlib/mkv.go:144-152 | A stem without '_' keeps both defaults |
| Naming.DecodeTwoSegments | mkvlib/mkv.go:144-152 | `a_b` takes `b` as language and keeps the default title |
| Naming.DecodeThreeSegments | mkvlib/mkv.go:144-152 | `a_b_c` takes `b` as language and `c` as title |
| Naming.DecodeIgnoresFirstSegment | mkvlib/mkv.go:144-152 | The id segment does not affect the decoded language and title |
| Naming.TrackMeta | mkvlib/mkv.go:143-152 | Definition: `DecodeMeta` of the stem of the track path's base name |
| Naming.EncodeNameNoSlash | mkvlib/mkv.go:65-71 | The encoded name is non-empty, and has no '/' when language and title have none |
| Naming.RoundTrip | mkvlib/mkv.go:143-152 | Decoding the path `DumpMKV` writes gives back its language and title, whatever the defaults, when they contain no '_' or '/' |
| Naming.ExampleFilenameWins | mkvlib/mkv.go:144-152 | `3_eng_Full` decodes to `eng`/`Full` even with defaults `jpn`/`Default` |
| Naming.ExampleEmptySegments | mkvlib/mkv.go:144-152 | `3__` decodes to two empty fields; the defaults are not used |
| FontSubset.ResolveConfig | mkvlib/mkv.go:276-294 | See the note below the table |
| FontSubset.RunStages | mkvlib/mkv.go:296 | Definition of the left-to-right run that stops at the first failing stage; its contract bounds the stages started by the stages given |
| FontSubset.RunStagesSpec | mkvlib/mkv.go:296 | The started stages are a prefix, and all but the last succeeded. The run succeeds iff every stage ran and succeeded; a failed run ends at the failing stage |
| FontSubset.PipelineIsConjunction | mkvlib/mkv.go:296 | Running the five stages one by one gives the value of the `&&` chain |
| FontSubset.AllStagesPass | mkvlib/mkv.go:296 | Definition: the `&&` chain of the five stage outcomes |
| FontSubset.SubsetSucceeds | mkvlib/mkv.go:275-296 | Definition of the returned boolean: false for an empty list, else the chain on the resolved configuration |
| FontSubset.AllStagesPassIff | mkvlib/mkv.go:296 | The `&&` chain holds iff every stage of the pipeline succeeds |
| FontSubset.ASSFontSubset | mkvlib/mkv.go:275-297 | An empty list fails with no stage started. Otherwise the result and the started stages are those of the run on the resolved configuration |
| FontSubset.EmptyListFails | mkvlib/mkv.go:276-278 | An empty file list never succeeds |
| FontSubset.SucceedsIffAllStages | mkvlib/mkv.go:275-297 | Succeeds iff the list is non-empty and all five stages succeed on the resolved configuration |
| FontSubset.NoStageAfterFailure | mkvlib/mkv.go:296 | A failing stage fails the run, and no later stage is started |
| Extract.AttachmentEntry | mkvlib/mkv.go:61 | Definition: `<id>:` followed by the attachment's name joined under `<output>/fonts` |
| Extract.TrackPath | mkvlib/mkv.go:65-71 | Definition: the encoded `<id>_<lang>_<name><ext>` joined under the output directory |
| Extract.TrackEntry | mkvlib/mkv.go:71 | Definition: `<id>:` followed by the track path |
| Extract.AttachmentEntries | mkvlib/mkv.go:60-62 | One entry `<id>:<output>/fonts/<name>` per attachment, in order |
| Extract.SubtitleTracks | mkvlib/mkv.go:63-64 | Exactly the subtitle tracks of the input, and only those |
| Extract.SubtitleTracksConcat | mkvlib/mkv.go:63-64 | Filtering distributes over concatenation, so the input order is kept |
| Extract.TrackEntries | mkvlib/mkv.go:63-73 | One `<id>:<path>` entry per subtitle track, in order |
| Extract.ExtractArgs | mkvlib/mkv.go:74-79 | Definition of the `mkvextract` list: file, `attachments`, attachment entries, `tracks`, track entries |
| Extract.AttachmentArgs | mkvlib/mkv.go:60-62 | The attachment loop builds `AttachmentEntries` |
| Extract.TrackArgs | mkvlib/mkv.go:63-73 | The track loop builds `TrackEntries` |
| Extract.ColonTail | mkvlib/mkv.go:87-88 | The last ':'-segment of an entry is a suffix of it and contains no ':' |
| Extract.ColonTailIsLastSplit | mkvlib/mkv.go:87-88 | The subset path taken from an entry is `_arr[len(_arr)-1]` for `_arr = strings.Split(entry, ":")` |
| Extract.AssPaths | mkvlib/mkv.go:86-91 | The `.ass` list after some entries: the last ':'-segments that end in `.ass`, in order; never longer than the entries |
| Extract.SubsetCalls | mkvlib/mkv.go:86-96 | The lists `ASSFontSubset` is called with, one per entry once the `.ass` list is non-empty; never more calls than entries |
| Extract.AssPathsEndInAss | mkvlib/mkv.go:89-91 | Every path on the growing list ends in `.ass` |
| Extract.SubsetCallsShape | mkvlib/mkv.go:92-96 | `ASSFontSubset` is never called with an empty list, and the last call gets the whole list so far |
| Extract.AllSubsetsSucceed | mkvlib/mkv.go:92-96 | Definition: every `ASSFontSubset` call the loop makes succeeds, so `ec` stays zero |
| Extract.SubsetCallsStep | mkvlib/mkv.go:86-96 | After the first `.ass` entry, each further entry, ASS or not, causes one more call on the grown list |
| Extract.SubsetCallsCount | mkvlib/mkv.go:86-97 | After the first `.ass` entry, the number of calls grows by exactly one per entry |
| Extract.AssPathsGrow | mkvlib/mkv.go:89-91 | The `.ass` list never shrinks |
| Extract.AllSubsetsSucceedAppend | mkvlib/mkv.go:93-95 | One more call succeeds overall iff the earlier calls and the new one all succeed |
| Extract.SubsetLoop | mkvlib/mkv.go:85-97 | The loop makes exactly the calls `SubsetCalls`, and `ec == 0` iff every call succeeded |
| Extract.SubsetStep | mkvlib/mkv.go:86-96 | One entry of the loop keeps the list, the calls and the failure count in step with the entries seen |
| Extract.SubsetOnce | mkvlib/mkv.go:92-96 | One call is recorded, and its failure makes `ec` non-zero |
| Extract.DumpSucceeds | mkvlib/mkv.go:53-105 | Definition of the returned boolean: inspected, extracted, and every subset call succeeded when subsetting was asked for |
| Extract.DumpMKV | mkvlib/mkv.go:51-106 | See the note below the table |
| Extract.ExtractArgsShape | mkvlib/mkv.go:74-79 | One entry per attachment, in order, then one per subtitle track, in order; see the note below the table |
| Extract.ArgsLayout | mkvlib/mkv.go:74-79 | Where the attachment and track entries sit in the `mkvextract` list |
| Extract.AssPathsSnoc | mkvlib/mkv.go:86-91 | One more entry adds its last ':'-segment to the list exactly when that segment ends in `.ass` |
| Extract.AssTrackPaths | mkvlib/mkv.go:63-71 | Definition: the paths `DumpMKV` writes its ASS subtitle tracks to, in track order |
| Extract.TrackEntryTail | mkvlib/mkv.go:86-90 | Without ':' in the output directory, language and title, the last segment of an entry is the track's path. It ends in `.ass` iff the codec is ASS |
| Extract.AssPathsAreAssTracks | mkvlib/mkv.go:85-91 | Under the same ':'-free condition, the list handed to `ASSFontSubset` is exactly the ASS tracks' paths, in order |
| Extract.ColonInTrackNameCutsPath | mkvlib/mkv.go:86-91 | A track named `A: B` yields ` B.ass`, not the file that was written |
| Extract.ExampleColonEntry | mkvlib/mkv.go:65-71 | Track 3 named `A: B` is written to `o/3_eng_A: B.ass` with entry `3:o/3_eng_A: B.ass` |
| Extract.ExampleAttachmentEntry | mkvlib/mkv.go:61 | Attachment 1 `a.ttf` extracts to `1:out/fonts/a.ttf` |
| Extract.ExampleTrackEntry | mkvlib/mkv.go:65-71 | ASS track 3 `eng`/`Full` extracts to `3:out/3_eng_Full.ass` |
| Extract.ExampleExtraction | mkvlib/mkv.go:58-79 | With two fonts, one video track and one ASS track, the argument list is fixed; the video track does not appear |
| Mux.TrackFlags | mkvlib/mkv.go:153-158 | Definition of the optional `--language 0:<l>` and `--track-name 0:<t>` pairs |
| Mux.TrackBlock | mkvlib/mkv.go:143-159 | Definition: the flags of the decoded metadata followed by the track path |
| Mux.TrackFlagsEmitted | mkvlib/mkv.go:153-158 | `--language 0:<l>` iff the language is non-empty, and `--track-name 0:<t>` iff the title is non-empty, in that order |
| Mux.AttachArgs | mkvlib/mkv.go:139-141 | Two arguments per attachment |
| Mux.AttachArgsAt | mkvlib/mkv.go:139-141 | Position `2k` is `--attach-file` and position `2k+1` is the k-th attachment |
| Mux.TrackArgs | mkvlib/mkv.go:142-160 | Definition: the blocks of the tracks, in list order |
| Mux.MuxArgs | mkvlib/mkv.go:133-160 | Definition of the whole `mkvmerge` list: output, clean flags, file, attachment pairs, track blocks |
| Mux.CreateMKV | mkvlib/mkv.go:132-166 | The argument list is `MuxArgs`, and the result is `mkvmerge`'s verdict on exactly that list |
| Mux.AppendAttachments | mkvlib/mkv.go:139-141 | The attachment loop appends `AttachArgs` to what was there |
| Mux.AppendTracks | mkvlib/mkv.go:142-160 | The track loop appends `TrackArgs` to what was there |
| Mux.TrackBlockOf | mkvlib/mkv.go:143-159 | One loop body emits the flags of the metadata decoded from the file name, then the path |
| Mux.TrackArgsSnoc | mkvlib/mkv.go:142-160 | Appending a track appends its block |
| Mux.TrackArgsConcat | mkvlib/mkv.go:142-160 | The track blocks follow the order of the track list |
| Mux.TrackArgsSingle | mkvlib/mkv.go:142-160 | A single track contributes its flags followed by its own path |
| Mux.MuxArgsShape | mkvlib/mkv.go:133-160 | See the note below the table |
| Mux.ExampleFilenameLanguage | mkvlib/mkv.go:144-159 | `subs/3_eng_Full.ass` with defaults `jpn`/`Default` sets `0:eng` and `0:Full` |
| Mux.ExampleEmptyFields | mkvlib/mkv.go:144-159 | `3__.ass` emits no flags at all, only its path |
| BatchLog.Counting | mkvlib/mkv.go:180 | The progress lines of `n` files number exactly `n` |
| BatchLog.Entry | mkvlib/mkv.go:176-180 | Definition of one file's lines: the failure line naming the file when it failed, then the progress line `(i/l)` |
| BatchLog.FileLog | mkvlib/mkv.go:172-182 | Definition of a batch loop's log: the entries of the files in order, the k-th with counter k+1 of the total |
| BatchLog.Flags | mkvlib/mkv.go:172-176 | Definition: the per-file verdicts of a batch loop, in file order |
| BatchLog.Selected | mkvlib/mkv.go:194-195 | Definition of the order-preserving append: the files whose flag is set, in order |
| BatchLog.Cumulative | mkvlib/mkv.go:243 | Definition of the never-reset `ec > 0`: position k is set once any position up to k is |
| BatchLog.FlagsAt | mkvlib/mkv.go:176 | The k-th flag is the verdict on the k-th file |
| BatchLog.NoFlagSet | mkvlib/mkv.go:182 | No flag is set iff no file fails |
| BatchLog.CumulativeAt | mkvlib/mkv.go:243 | The never-reset counter is non-zero at file k iff some file up to k failed |
| BatchLog.CumulativeStaysSet | mkvlib/mkv.go:243 | Once the cumulative flag is set it stays set |
| BatchLog.LoopEnd | mkvlib/mkv.go:172-182 | At the end of a loop, the log is `FileLog` of all verdicts, and `ec == 0` iff no file failed |
| BatchLog.CumulativeEnd | mkvlib/mkv.go:210-249 | The same, with the failure line keyed on the cumulative counter |
| BatchLog.LogVerdict | mkvlib/mkv.go:176-180 | One iteration appends the optional failure line and the progress line; `ec` stays zero iff nothing has failed |
| BatchLog.LogCumulative | mkvlib/mkv.go:240-246 | One iteration adds the new errors to `ec`. It then logs a failure line whenever `ec > 0` so far, and then the progress line |
| BatchLog.ProgressEntry | mkvlib/mkv.go:180 | One entry adds exactly one progress line |
| BatchLog.FailedFilesEntry | mkvlib/mkv.go:178 | One entry names the file among the failures iff its flag is set |
| BatchLog.ProgressCounts | mkvlib/mkv.go:180 | The progress lines of a batch read `(1/l) … (l/l)`, one per file, whatever fails |
| BatchLog.FailedAreFlagged | mkvlib/mkv.go:176-178 | The failure lines name exactly the flagged files, in order |
| BatchLog.SelectedMembers | mkvlib/mkv.go:194-195 | A file is selected iff some position holds it with its flag set |
| BatchLog.SelectedNone | mkvlib/mkv.go:194-195 | Nothing flagged, nothing selected |
| BatchLog.SelectedSuffix | mkvlib/mkv.go:243-245 | Flags that are clear up to k and set from k on select `files[k..]` |
| BatchLog.CumulativeFailures | mkvlib/mkv.go:243-245 | With a never-reset counter, every file from the first failure on is logged as failed |
| Batch.QueryFolder | mkvlib/mkv.go:185-200 | Returns the files judged incomplete, in order, and logs one progress line per file |
| Batch.Listed | mkvlib/mkv.go:190-196 | Definition: a file is listed when it was inspected (`b` false) and found incomplete (`a` false) |
| Batch.ListedBy | mkvlib/mkv.go:190-196 | Definition: `Listed` on the inspection of each file, the verdict QueryFolder selects by |
| Batch.QueryFolderLists | mkvlib/mkv.go:190-196 | A file is listed iff it was found and inspected, and is not complete; failed inspections are not listed |
| Batch.MirrorDir | mkvlib/mkv.go:173-175 | Definition: the output folder mirroring the file's relative directory and stem below the root |
| Batch.DumpOne | mkvlib/mkv.go:173-176 | Dumps the file into the output folder that mirrors its path below `dir` |
| Batch.DumpFailedBy | mkvlib/mkv.go:173-176 | Definition: a file fails when `DumpMKV` into its mirrored folder does not succeed |
| Batch.DumpMKVs | mkvlib/mkv.go:168-183 | The log names each failed dump before its progress line; succeeds iff every dump succeeded |
| Batch.MakeJob | mkvlib/mkv.go:257-265 | Definition of CreateMKV's inputs for one file: `.sub` files then `subsetted` `.ass` files, `subsetted` fonts, and the mirrored output name |
| Batch.MakeSubsetDir | mkvlib/mkv.go:257-260 | Definition: the `subsetted` folder under the mirrored folder |
| Batch.MakeFailedBy | mkvlib/mkv.go:257-266 | Definition: a file fails when `CreateMKV` with `clean` set on its job does not succeed |
| Batch.MakeMKVs | mkvlib/mkv.go:252-273 | The same guarantee for `CreateMKV` with `clean` set on the mirrored tracks and fonts |
| Batch.MakeOutputMirrorsInput | mkvlib/mkv.go:258-265 | The remuxed file keeps the input's file name |
| Batch.DumpSubsetDirMissesMake | mkvlib/mkv.go:287-292 | See the note below the table |
| Batch.SubsetDirNamesDiffer | mkvlib/mkv.go:292 | `subseted` and `subsetted` name different directories under any parent |
| Batch.TempRoot | mkvlib/mkv.go:204-207 | Definition: the random name joined under `tDir`, or under the system temporary directory when `tDir` is empty |
| Batch.CompanionPattern | mkvlib/mkv.go:212 | Definition: the escaped video stem followed by `\S*\.\S+$` |
| Batch.CopiedAss | mkvlib/mkv.go:218-219 | Definition: the copy path `<p>/<stem>.ass` of one companion |
| Batch.CopiedAsses | mkvlib/mkv.go:216-221 | Definition: the copy paths of the `.ass` companions, in order |
| Batch.OtherSubs | mkvlib/mkv.go:222-223 | Definition: the companions not ending in `.ass`, in order |
| Batch.SplitCompanions | mkvlib/mkv.go:216-225 | `.ass` companions are copied to `<p>/<stem>.ass` in order; the others are kept in order |
| Batch.SplitCompanionsCovers | mkvlib/mkv.go:216-225 | Every companion goes to exactly one side: copies all end in `.ass`, the others never do |
| Batch.CopiedAssIsAss | mkvlib/mkv.go:219 | A copied companion always ends in `.ass` |
| Batch.PlanCreate | mkvlib/mkv.go:211-239 | Definition of one file's plan: whether subsetting failed, and the tracks, fonts and output name handed to CreateMKV |
| Batch.CreateErrors | mkvlib/mkv.go:228-242 | See the note below the table |
| Batch.CreateFailedBy | mkvlib/mkv.go:228-242 | Definition: a file fails when its subsetting or its mux failed, i.e. it adds to `ec` |
| Batch.CreateOne | mkvlib/mkv.go:211-242 | One video adds at most 2 to `ec`, and adds something iff its subsetting or its mux failed |
| Batch.CreateMKVs | mkvlib/mkv.go:202-250 | See the note below the table |
| Batch.CreateLogAfterFailure | mkvlib/mkv.go:243-246 | Once one file fails, every later file is logged as failed too, whether or not it failed itself |
| Batch.CreateSubsetDirMismatch | mkvlib/mkv.go:230-235 | ASSFontSubset writes to `<p>/subseted`, while CreateMKVs reads fonts and tracks from `<p>/subsetted` |

Notes on the longer contracts:

- `FontSubset.ResolveConfig`:
  - None iff the list is empty.
  - The font directory is `<dir of first file>/fonts` unless given.
  - The output is `<dir>/subseted` when not given, and the given output, plus `subseted` when `dirSafe` holds.
  - The fonts are those found in the font directory.
- `Extract.DumpMKV`:
  - A failed inspection fails with no arguments and no subset calls.
  - The extraction arguments are `ExtractArgs`.
  - Subsetting runs only when extraction succeeded and `subset` holds.
  - Success iff inspection, extraction and every subset call succeeded.
- `Extract.ExtractArgsShape`: the list has file, `attachments`, the attachment entries, `tracks` and the subtitle-track entries. It holds one entry per attachment, in order, and one per subtitle track, in order.
- `Mux.MuxArgsShape`: `--output <o>`, the clean flags when `clean`, the file, the attachment pairs, then the track blocks.
- `Batch.DumpSubsetDirMissesMake`: when the first path handed to ASSFontSubset is an ASS track's path in the mirror folder, subsetting writes to `<mirror>/subseted`, while MakeMKVs reads `<mirror>/subsetted`. The two differ. This holds when the mirror folder and the first ASS track's language and title hold no ':' or '/'; `Extract.AssPathsAreAssTracks` shows that the first path is then that track's path, and `Extract.ColonInTrackNameCutsPath` shows a ':' moving it.
- `Batch.CreateErrors`:
  - At most 2 errors per file.
  - Zero iff subsetting did not fail (or there were no ASS companions) and the mux succeeded.
  - The mux is attempted even after a subsetting failure.
- `Batch.CreateMKVs`:
  - The failure line depends on the never-reset `ec`: each file is logged as failed once any file up to it failed.
  - Succeeds iff no file failed.

## Left out

- External processes (`newProcess`, `Wait`, exit codes) become the parameters `extract` and `mux`. Each returns whether the tool ran and exited with status 0, so errors starting the process and non-zero exits are not told apart.
- GetMKVInfo (mkvlib/mkv.go:39-49): running `mkvmerge -J` and decoding its output are left out. The decoded `Info` is a parameter, and `None` stands for a failed inspection; the JSON decoding itself is not modelled.
- Directory scans are parameters: `findMKVs`, `findPath` with its regular-expression filtering, and `findFonts`. Their results are taken as given lists, and the regular expressions passed to `findPath` are modelled as strings only.
- `copyFileOrDir`, `os.RemoveAll` and `os.TempDir`: the file system itself is not modelled.
  - `os.TempDir` is the `tempDir` parameter.
  - CreateMKVs removes the temporary directory, including the fresh copies, before subsetting (mkvlib/mkv.go:229); the model does not track that content.
- `randomStr(8)` is the `rnd` parameter of CreateMKVs.
- `path.Join` is modelled without cleaning: no `.`/`..` resolution and no collapsing of repeated '/'. `splitPath` is modelled as last-'/' directory, base name and before-last-'.' stem.
- The text of the log messages: only which file a failure line names and the two progress counters are modelled.
- The lines printed by the functions the batch loops call are not in the modelled log. These are `Failed to get the mkv file info` from DumpMKV (mkvlib/mkv.go:55) and from CheckSubset (mkvlib/mkv.go:111). So a failed inspection in QueryFolder prints one more line than the model's log holds, and a failed inspection in DumpMKVs prints one line before the modelled failure line.
- The five stages of the ASS processor (`parse`, `matchFonts`, `createFontsSubset`, `changeFontsName`, `replaceFontNameInAss`) are not part of this model. `outcome(config, stage)` stands for each stage's result.
- A stage's outcome is a function of the resolved configuration alone. In the program each run of the stages rewrites files on disk, so DumpMKV's repeated ASSFontSubset calls on the same `.ass` list (mkvlib/mkv.go:92-96) could see different files and give different verdicts. The model gives the same verdict for the same list; no stated property depends on this.
- Strings are sequences of characters; Go's byte-level UTF-8 handling is not modelled.
- QueryFolder's counter of failed inspections (mkvlib/mkv.go:186, 193) is never read by the source. The model keeps it as a local variable but states nothing about it.
- DumpMKV's subset loop keeps the text after the last ':' of each entry, as the code does. A ':' in the output directory or a track name therefore changes the path handed to ASSFontSubset; this is modelled as written, and `Extract.ColonInTrackNameCutsPath` shows it.
- The `subseted` / `subsetted` spelling difference is modelled as written. `Batch.DumpSubsetDirMissesMake` and `Batch.CreateSubsetDirMismatch` state its consequence.
- CreateOne: states that the errors are at most 2 and are non-zero iff the file failed, not the exact count. `ec` is observable only through `ec > 0` and `ec == 0`; `Batch.CreateErrors` keeps the exact definition.
- Strings.QuoteMeta: states the length bounds and that a name without metacharacters is unchanged, not the exact character-by-character escaping; the body escapes each metacharacter with a backslash.
- FontSubset.RunStages: its own contract only bounds the number of stages started. Its full behaviour is proved separately in `FontSubset.RunStagesSpec`.
