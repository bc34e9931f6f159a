# Verified model of the BDD feature compiler, its merger, and the data migrations

The repository keeps its behaviour-driven tests in Gherkin files that are compiled from an upstream specification.
`scripts/compile_bdd.py` parses those files, rewrites scenarios, prints them, and merges new upstream versions into
files that were edited downstream; a table of scenario mappings is updated and pruned on every run. This project models
that script, the `.env` bootstrap of `scripts/setup-dev.py`, the error-code extraction of
`scripts/verify_feature_error_codes.py`, and the migrations whose later constraints depend on an earlier rewrite being
right. `dafny verify dfyconfig.toml` checks everything.

How the files fit together:

- `Text`, `Gherkin`: Python string operations; the parsed entities, and one recogniser for each of the script's patterns.
- `FeatureParser`, `FeatureRender`, `GherkinFacts`, `RoundTrip`, `ParserFacts`, `FileReadsBack`, `NormFacts`: the parser and
  the printer with their loops, and the round trips between them.
- `LineText`, `ContextGitFacts`: the recognisers and the contextgit comment on the text of source lines.
- `StepRewrite`, `StepText`, `TransportMeaning`: the rewrite pass, which texts it changes, and what it does to the meaning of an
  outline.
- `Traceability`, `UseCases`, `CompilePipeline`, `RunTheorems`, `CompiledReadsBack`, `CompiledSource`: the mapping table, the
  compile run, what its outputs hold, verification.
- `Merge`, `MergeFacts`, `MarkerFacts`: the merger as a class, its accounting and its decisions, and the hand-edit marker.
- `WrittenTargets`, `MergeFixpoint`, `RestoredExamples`, `MergeTwice`, `MergeFiles`, `RestoredFile`: when a merge reproduces
  its own output.
- `HandEdits`, `MarkedFiles`, `HeadlessTarget`: hand edits over whole sequences of merges. `SampleFiles`: small files for
  concrete cases.
- `MergeRun`, `MergeEntries`, `MergeRunTwice`: the merge run over many files, its manifest, the entries it leaves, and a
  second run over its own output.
- `EnvFile`, `EnvFacts`, `EnvText`: the `.env` parser, renderer and bootstrap step.
- `AccountRepair`, `OptionIds` (with `RankedSuffixes` and `BuyerRefs`), `FormatIds` (with `Json`), `Creatives` (with
  `CreativeRoundTrip`), `IndexSwap`, `PricingTrigger`: the migrations, on tables as arrays or classes. `MigrationText` holds
  what they do to concrete columns, keys and texts (`OptionIdText`, `CreativeText`, `AccountText`, `IndexText`, `FormatText`).
- `ErrorCodes` (with `ErrorCodeFacts`), `ErrorCodeText`: the error-code extraction, and that it misses and invents nothing.

Loops are methods proved equal to recursive functions; the promises of the source are lemmas about those functions, and the
functions themselves are tied to the text of lines, names and values by the lemmas of the `...Text` modules. Files
are lists of lines. Scenarios are values, the merge state, the mapping table and the migrated tables are objects.

## Where the code does not keep a promise

Each of these is proved exactly, as an equivalence or for a whole family of inputs, most with a concrete input where the
promise fails:

- A merge reproduces its own output, except when it removed the `transport` column of an outline whose name mentions
  `<transport>` while its steps and tags needed no rewriting: the next merge takes that for an Examples-only change and
  puts the column back (`MergeTwice.MergeTwiceExactly`, `RestoredExamples.RestoresExactly`, `RestoredFile.SecondMergeDiffers`,
  and over a whole run `MergeRunTwice.FilesReproduced`).
- Removing the `transport` column keeps the meaning of an outline, except that a table with no other column is lost when the
  scenario stays an outline (a step has a placeholder, or another table has more than one data row) and no data row of
  another table yields the bare steps (`TransportMeaning.StripTransportKeepsMeaning`, `TransportMeaning.MeaningCanBeLost`).
- Hand-edited scenarios survive every merge, provided TARGET has a `Feature:` line; without one the next reading of the merged
  file finds no scenario, unless a line of LEGACY's Background itself reads as a `Feature:` line
  (`HeadlessTarget.FeatureLineDecides`, `HeadlessTarget.EmptyTargetLosesEdit`).
- The collected gate, whose comment calls it the safe direction, never protects a `BR-UC-` file without a number in its name
  (`UseCases.UnnumberedNeverCollected`, `MergeFacts.UnnumberedOverwritten`).
- In merge mode a reported id without a mapping entry gets one only from a TARGET scenario that carries it in its contextgit
  comment and is rendered afresh; an id on a tag alone, or on a scenario that LEGACY keeps, gets none
  (`MergeEntries.ReportedIdHasEntryExactly`, `MergeEntries.ReportedWithoutEntry`).
- The bootstrap keeps secrets, except one that is empty once its quotes are read off
  (`EnvFacts.SecondBootstrapIsNoOp`, `EnvFacts.QuotedQuotesRegenerate`).
- Suffixing duplicate buyer references makes them unique, except when a new name is already taken
  (`BuyerRefs.RefsBecomeUniqueExactly`).
- The format migrations reach the checked shape, except for products whose first format has an agent while
  another has none (`FormatIds.ChainExactly`); and `validate_format_ids` accepts the empty object (`FormatIds.StrictExactly`).

Where the comments and the code of a file disagree, the model follows the code. The comment on the NO-OP bucket
(`scripts/compile_bdd.py:1002-1004`) says that a missing version tag is added; `_apply_no_op` adds none. The comment on the
Outline conversion (`scripts/compile_bdd.py:721-722`) speaks of one data row; the code converts with at most one.

## Model

| member | source | states |
|---|---|---|
| `RoundTrip.PrintThenParse` | scripts/compile_bdd.py:1127-1150 | printing any list of well-formed scenarios and parsing the lines gives one scenario per printed one, in order, in normal form: contextgit dropped, rows and comments re-indented, end-of-line space of names and step texts gone |
| `RoundTrip.ScenarioReadsBack` | scripts/compile_bdd.py:244-361 | one printed scenario followed by anything that can start a scenario is read back and the rest is left untouched: lead, name, steps with their tables, comments and Examples do not swallow each other |
| `ParserFacts.ParsedScenariosOk` | scripts/compile_bdd.py:244-361 | every scenario the parser returns, from any input at all, is well formed, so the round trip applies to whatever was once parsed |
| `ParserFacts.ScenariosIgnoreEndSpace` | scripts/compile_bdd.py:247-361 | white space at the ends of lines never changes what is parsed |
| `ParserFacts.ScenariosLastBlank` | scripts/compile_bdd.py:247-361 | a blank line at the end of the file never changes what is parsed |
| `FeatureParser.ParseFeatureFile` | scripts/compile_bdd.py:163-371 | the index-driven parser, whose five loops stop at the same lines as the recursive reading of the file; it terminates on every input |
| `FeatureParser.ReadPreamble` | scripts/compile_bdd.py:175-206 | contextgit before tags before the `Feature:` line before comments, in that order of tests |
| `FeatureParser.ReadDescription` | scripts/compile_bdd.py:208-221 | the description ends at the first Background, Scenario, contextgit or tag line |
| `FeatureParser.ReadBackground` | scripts/compile_bdd.py:223-242 | Background with its lines, up to the next scenario, contextgit, tag line or section rule |
| `FeatureParser.ReadLead` | scripts/compile_bdd.py:255-270 | the last contextgit and all tags in front of a scenario |
| `FeatureParser.ReadScenarios` | scripts/compile_bdd.py:247-361 | the loop between scenarios, including the early exit when a lead ends the file |
| `FeatureParser.CollectBody` | scripts/compile_bdd.py:286-349 | steps, comments and Examples of one scenario, up to the line that ends it |
| `FeatureParser.ReadExamples` | scripts/compile_bdd.py:306-318 | an Examples header, skipped blanks, and the rows under it |
| `FeatureParser.ReadStep` | scripts/compile_bdd.py:320-330 | a step with the table directly under it |
| `FeatureRender.RenderScenarioLines` | scripts/compile_bdd.py:1127-1150 | the printer of merge mode, loop by loop, equals its recursive description |
| `FeatureRender.TrimTrailingBlanks` | scripts/compile_bdd.py:1153-1167 | every line right-stripped and the blank ones at the end dropped |
| `GherkinFacts.TagLineReadsBack` | scripts/compile_bdd.py:136-160 | tags of the safe shape, joined by blanks, form a tag line that yields exactly those tags |
| `GherkinFacts.ContextGitExtend` | scripts/compile_bdd.py:115-133 | the pattern is searched, not anchored: a line that contains a contextgit comment keeps containing it however it goes on |
| `LineText.StepText` | scripts/compile_bdd.py:158 | a keyword, any white space and a text make a step with exactly that keyword and text |
| `LineText.NoStep` | scripts/compile_bdd.py:158 | a keyword alone, or a word that only begins like one, makes none |
| `LineText.ScenarioText` | scripts/compile_bdd.py:157 | a scenario line is one of the two keywords, a colon, any white space and a non-empty name |
| `LineText.ExamplesText` | scripts/compile_bdd.py:159 | an Examples header has its colon |
| `LineText.MixedLine` | scripts/compile_bdd.py:141-150 | tags with anything else behind them are no tag line |
| `LineText.TagText` | scripts/compile_bdd.py:133-138 | a tag is `@` with letters, digits, underscores, dashes and dots, as long as they go |
| `LineText.RuleEnds` | scripts/compile_bdd.py:286-300 | a section rule ends the scenario in front of it and is no comment of it |
| `LineText.ExamplesTaken` | scripts/compile_bdd.py:306-318 | the table of an Examples block is found behind any blank lines and ends at the first line that is no row |
| `ContextGitFacts.AnnotationRead` | scripts/compile_bdd.py:115-133 | a comment with an id, with or without a type, with or without an upstream list, is read back as exactly that id, that type (`test` without one) and those names in order (none without a list) |
| `ContextGitFacts.SourceRead` | scripts/compile_bdd.py:244-361 | every scenario of a source file, written under its comment, carries exactly what the comment above it says |
| `ContextGitFacts.SourceFileRead` | scripts/compile_bdd.py:163-371 | the same for a whole file with its feature line, description and Background |
| `LineText.LastCommentCounts` | scripts/compile_bdd.py:255-270 | of several contextgit comments in a row the last one counts |
| `FileReadsBack.ParsedFeatureOk` | scripts/compile_bdd.py:163-371 | any file with a `Feature:` line parses to well-formed tags, description, Background and scenarios |
| `FileReadsBack.MergedFileReadsBack` | scripts/compile_bdd.py:1540-1569 | a merged file is taken apart at the places where it was put together: feature tags, feature line, description, Background and the merged scenarios in normal form come back, up to blank lines at the ends of description and Background |
| `FileReadsBack.MergedFileStarts` | scripts/compile_bdd.py:1540-1552 | a merged file starts with the stamp, the feature tags and the feature line of TARGET |
| `StepRewrite.ApplyStepTransforms` | scripts/compile_bdd.py:692-712 | suffixes cut from Given/When, prose assertions dropped, and every dropped sentence recorded in order |
| `StepRewrite.StepsConserved` | scripts/compile_bdd.py:677-712 | no step vanishes silently: kept and recorded steps add up, a kept step differs from its source by a cut Given/When suffix at most, and only Then-side steps are dropped |
| `StepText.PhrasesCut` | scripts/compile_bdd.py:626-665 | each of the six transport phrases is cut off the end of a Given or When text, whatever is in front |
| `StepText.OthersStay` | scripts/compile_bdd.py:640-656 | Then-side texts and texts that end in none of the phrases stay as they are |
| `StepText.MentionDropped` | scripts/compile_bdd.py:659-712 | a Then-side sentence with one of the three phrases anywhere in it, in any case, is dropped and recorded unless it says what must not be there |
| `StepText.OthersKept` | scripts/compile_bdd.py:677-712 | every other step is kept and nothing is recorded for it |
| `StepText.NameCut` | scripts/compile_bdd.py:731-736 | `X via <transport> Y` becomes `X Y`, whatever the white space |
| `StepText.NameTightened` | scripts/compile_bdd.py:735-736 | white space in front of a parenthesis in a name becomes one blank |
| `StepText.PlaceholderExactly` | scripts/compile_bdd.py:764-767 | a step has a placeholder if and only if a word stands in angle brackets somewhere in its text |
| `StepText.CellPadded` | scripts/compile_bdd.py:758-759 | a re-formatted cell has blanks behind it up to seventeen characters |
| `StepRewrite.StripTransportLoop` | scripts/compile_bdd.py:715-774 | the column removal, including the IndexError that a row shorter than the column raises |
| `TransportMeaning.StripTransportMeaning` | scripts/compile_bdd.py:715-774 | the exact effect on what an outline means (the set of concrete step lists of its Examples): nothing is added, and only the bare steps of a table that had no other column can go missing; includes the conversion to a plain Scenario |
| `TransportMeaning.StripTransportKeepsMeaning` | scripts/compile_bdd.py:752-774 | the meaning is kept if and only if no table with nothing but the `transport` column is lost from a scenario that stays an outline, or a data row of another table yields the bare steps; a condition on the scenario before the rewrite |
| `TransportMeaning.MeaningCanBeLost` | scripts/compile_bdd.py:757-760 | a concrete outline that loses its meaning |
| `TransportMeaning.FormatReadsBack` | scripts/compile_bdd.py:754-759 | a re-formatted row is read back as the same cells |
| `Traceability.TagsExactly` | scripts/compile_bdd.py:584-623 | the output tags are the scenario's own, its id, and what the status adds (the obligation when mapped, `@skip` when stale or in conflict, nothing when new or missing); nothing is added twice |
| `CompiledSource.TagsInOrder` | scripts/compile_bdd.py:584-623 | the order of the output tags: the id first, the obligation of a mapped entry second, the scenario's own tags, `@skip` last |
| `Traceability.Table.Update` | scripts/compile_bdd.py:940-947 | the update loop with its set of known ids appends exactly the entries whose id is new |
| `Traceability.Table.PruneUseCase` | scripts/compile_bdd.py:959-972 | the prune loop and its counter |
| `Traceability.UpdateAppends` | scripts/compile_bdd.py:940-947 | old entries stay first and unchanged; what is appended has new, distinct ids |
| `Traceability.UpdateCovers` | scripts/compile_bdd.py:940-947 | afterwards exactly the old and the proposed ids have an entry |
| `Traceability.UpdateKeepsDistinct` | scripts/compile_bdd.py:943-947 | no duplicate id is introduced |
| `Traceability.PruneExact` | scripts/compile_bdd.py:959-972 | the kept entries are a selection in their order with all fields, and kept plus pruned is the total |
| `Traceability.PruneMember` | scripts/compile_bdd.py:964-971 | an entry survives if and only if no touched file owns it or its id was produced |
| `Traceability.PruneTwice` | scripts/compile_bdd.py:959-972 | pruning again removes nothing |
| `Traceability.PruneKeepsLookup` | scripts/compile_bdd.py:565-571 | pruning never changes the first match for a produced id |
| `CompilePipeline.RenderFeature` | scripts/compile_bdd.py:777-859 | the whole-file renderer with the ids it produced and the mappings it proposes |
| `CompilePipeline.CompileFeatures` | scripts/compile_bdd.py:900-989 | a run over many files: every output, the table after update and prune of every use case, and the recorded commit and time; a row too short aborts it with the table untouched, and without files nothing is recorded |
| `CompilePipeline.UpdateAll` | scripts/compile_bdd.py:939-947 | the update of every use case, independent of the order in which they are visited |
| `CompilePipeline.PruneAll` | scripts/compile_bdd.py:959-972 | the prune of every use case, likewise; untouched use cases keep their entries |
| `CompiledReadsBack.CompiledFileReadsBack` | scripts/compile_bdd.py:777-859 | a compiled file, read again, has the feature tags, the feature line, the description and the Background of its source without space at the ends of lines, and all its scenarios in their order, each as it was written |
| `CompiledReadsBack.CompiledRunReadsBack` | scripts/compile_bdd.py:900-989 | the same for every output of a run, against the lines of its source file |
| `CompiledReadsBack.PrintableWritten` | scripts/compile_bdd.py:826-838 | which scenarios can be read again: a condition on the scenario and the table that holds if and only if what is written is well formed |
| `CompiledReadsBack.ScenarioText` | scripts/compile_bdd.py:826-857 | the exact lines of a scenario with one of everything |
| `CompiledReadsBack.StampText` | scripts/compile_bdd.py:794-798 | the first three lines of every compiled file |
| `CompiledSource.FreshCompile` | scripts/compile_bdd.py:565-623 | compiling a source file for a use case without entries leaves one entry per scenario in order: the id of its comment, the file, no obligation, its upstream names, status `new` |
| `CompiledSource.WrittenFromSource` | scripts/compile_bdd.py:826-845 | the scenario that is written has its id as first tag, its steps rewritten, and is otherwise the source's |
| `RunTheorems.ProducedIdsCovered` | scripts/compile_bdd.py:817-825 | every id that a run produced has an entry afterwards |
| `RunTheorems.SettledMembers` | scripts/compile_bdd.py:939-972 | which entries are there after a run, old and new, in both directions |
| `RunTheorems.SettledDistinct` | scripts/compile_bdd.py:939-972 | distinct ids stay distinct over a run |
| `RunTheorems.SecondRunChangesNothing` | scripts/compile_bdd.py:939-972 | an identical second run proposes nothing, prunes nothing and leaves the table as it is |
| `RunTheorems.SettledLookup` | scripts/compile_bdd.py:597-621 | after a run the lookup of a produced id finds what it found before, or a fresh entry with status `new` |
| `RunTheorems.VerifyFeatures` | scripts/compile_bdd.py:1726-1788 | the comparison with the recorded commit first, then true if and only if every file is there, has as many lines as a fresh rendering and the same line at every place from the third on |
| `RunTheorems.CheckFile` | scripts/compile_bdd.py:1755-1766 | one file re-compiled in memory and compared line by line from the third on |
| `RunTheorems.VerifyAcceptsCompiled` | scripts/compile_bdd.py:1754-1766 | after compiling all files, verification at the same commit finds every one current, whatever the clock says |
| `RunTheorems.CurrentAfterRun` | scripts/compile_bdd.py:1754-1766 | after a run, whatever is found in place of a file passes if and only if it has the lines that were written, from the third on |
| `RunTheorems.ChangedIsStale` | scripts/compile_bdd.py:1760-1764 | a line changed, added or removed after the stamp of one file makes verification fail |
| `UseCases.NumberedCollectedExactly` | scripts/compile_bdd.py:1241-1258 | a file of a numbered use case is protected if and only if some driver names a file with the same number, or one that is called like the key itself |
| `UseCases.NamedFileCollected` | scripts/compile_bdd.py:1241-1258 | a feature file that a driver names is protected if and only if its name carries a use-case number or starts with `UC-` |
| `UseCases.SiblingCollected` | scripts/compile_bdd.py:1241-1258 | any named file of a numbered use case protects all files of it |
| `UseCases.UnnumberedNeverCollected` | scripts/compile_bdd.py:552-557 | a `BR-UC-` file without a digit is never protected, even when a driver names that very file |
| `UseCaseText.KeyOfNumbered` | scripts/compile_bdd.py:549-557 | the key is `UC-` with all digits behind `BR-UC-`, whatever follows |
| `UseCaseText.NumberExactly` | scripts/compile_bdd.py:549-557 | a name has a number if and only if `BR-UC-` and a digit stand somewhere in it; any other name is its own key |
| `Merge.IndexById` | scripts/compile_bdd.py:1320-1328 | `by_id` over a file: the last scenario with an id wins but keeps the place of the first |
| `Merge.Merger.constructor` | scripts/compile_bdd.py:1356-1366 | an empty state |
| `Merge.Merger.MergeBackground` | scripts/compile_bdd.py:1367-1411 | Background as a merge unit of its own: unchanged, locked, taken, or deferred with its manifest entry |
| `Merge.Merger.TakeTarget` | scripts/compile_bdd.py:1429-1450 | the render path of NEW-ADD and TARGET-WINS: output tags and proposed mapping from the scenario as it was, then the rewrites |
| `Merge.Merger.MergeDiffering` | scripts/compile_bdd.py:1451-1526 | the re-bucketing branches: counter moved, scenario chosen, and the manifest entry with both renderings exactly when deferred |
| `Merge.Merger.MergeTarget` | scripts/compile_bdd.py:1413-1526 | one TARGET scenario: its outcome, its count, its id, its manifest entry and its proposed mapping |
| `Merge.Merger.MergeLegacyOnly` | scripts/compile_bdd.py:1528-1537 | one LEGACY-only scenario: kept and reported, or dropped |
| `Merge.Merger.FirstPass` | scripts/compile_bdd.py:1413-1526 | pass 1 over the whole TARGET file, with the full manifest and the proposed mappings |
| `Merge.Merger.SecondPass` | scripts/compile_bdd.py:1528-1537 | pass 2 over the index, in its order |
| `Merge.Merger.MergePasses` | scripts/compile_bdd.py:1413-1537 | both passes one after the other |
| `Merge.Merger.MergeFeature` | scripts/compile_bdd.py:1286-1573 | `merge_feature` on the lines of both files: the text it returns, the manifest, the mappings, and a state that is what the outcomes add up to |
| `Merge.RenderMerged` | scripts/compile_bdd.py:1540-1569 | the tail: stamp, TARGET's header, the chosen Background, the merged scenarios |
| `MergeFacts.BucketsConserved` | scripts/compile_bdd.py:1356-1537 | the buckets add up through every re-bucketing branch: id-bearing TARGET scenarios plus LEGACY-only ids plus one for a changed Background; what is written is the id-bearing TARGET scenarios plus the preserved ones |
| `MergeFacts.BucketExactly` | scripts/compile_bdd.py:1084-1100 | the bucket of a scenario as a table over both sides, the gate, the bound set and the lockfile: steps, tags apart from the id, and Examples apart from white space decide |
| `MergeFacts.OutcomeExactly` | scripts/compile_bdd.py:1413-1526 | what is written for each bucket: TARGET afresh, LEGACY with TARGET's Examples, or LEGACY as it is |
| `MergeFacts.BackgroundItemExactly` | scripts/compile_bdd.py:1370-1411 | the manifest's item for a Background that is deferred: LEGACY's lines, then TARGET's |
| `MergeFacts.TagIdExactly` | scripts/compile_bdd.py:1019-1030 | the join key is the first tag that starts with `@T-`, without its `@` |
| `MarkerFacts.MarkerExactly` | scripts/compile_bdd.py:1016 | the marker is found if and only if the text has `@hand-edited` up to a word boundary or `#`, white space and `hand-edited`, in any case, anywhere |
| `MarkerFacts.PreservedExactly` | scripts/compile_bdd.py:1039-1049 | a LEGACY-only scenario is preserved if and only if one of its tags or comments has one of the two forms, and deleted otherwise |
| `MarkerFacts.CommentPreserves` | scripts/compile_bdd.py:1046-1048 | a comment with `#`, white space and the mark in any case preserves its scenario |
| `MarkerFacts.TagPreserves` | scripts/compile_bdd.py:1043-1045 | so does a tag with `@` and the mark in any case, up to a word boundary |
| `MarkerFacts.UnmarkedDeleted` | scripts/compile_bdd.py:1091-1092 | a scenario that mentions the mark nowhere is deleted |
| `MergeFacts.TargetWinsExactly` | scripts/compile_bdd.py:1463-1468 | TARGET-WINS if and only if both sides differ in steps or tags and the scenario has no binding |
| `MergeFacts.CollectedKeepsLegacy` | scripts/compile_bdd.py:1393-1396 | in a collected use case a scenario on both sides keeps LEGACY's steps, tags, name and comments; Examples change only when steps and tags agree, and then to TARGET's |
| `MergeFacts.CollectedNeverOverwritten` | scripts/compile_bdd.py:1413-1526 | the same over a whole merge, from the fact that some driver names a numbered feature file of the use case |
| `MergeFacts.BackgroundReplacedExactly` | scripts/compile_bdd.py:1370-1397 | TARGET's Background replaces a different one of LEGACY only in an uncollected use case that the lockfile does not answer for, and never by an empty one |
| `MergeFacts.UnnumberedOverwritten` | scripts/compile_bdd.py:1463-1468 | the blind spot: in an unnumbered `BR-UC-` file every differing scenario is overwritten |
| `NormFacts.NormSameText` | scripts/compile_bdd.py:1127-1167 | a list of scenarios and its normal form print the same text |
| `NormFacts.NormTwice` | scripts/compile_bdd.py:1127-1150 | the normal form is stable |
| `NormFacts.HandEditedKept` | scripts/compile_bdd.py:1039-1049 | the hand-edit marker survives print and parse: `@hand-edited` with its word boundary, and the comment form behind any indentation |
| `NormFacts.BlockMatchIsNorm` | scripts/compile_bdd.py:1072-1081 | two Examples blocks match for the classifier if and only if they have the same normal form |
| `MergeFixpoint.OnceMore` | scripts/compile_bdd.py:1413-1526 | one scenario, merged again with what the first merge wrote: same text if and only if it is not restored |
| `MergeFixpoint.Pass1Again` | scripts/compile_bdd.py:1413-1526 | pass 1 against its own output, over the whole file |
| `MergeFixpoint.Pass2Again` | scripts/compile_bdd.py:1528-1537 | pass 2 against its own output keeps exactly what it kept |
| `MergeTwice.MergeTwiceExactly` | scripts/compile_bdd.py:1153-1167 | a second merge of the same TARGET against the parsed output gives the same file if and only if no TARGET scenario that is rendered afresh, with steps and tags already in compiled form, meets the guards that take Examples away |
| `MergeTwice.MergeIsFixpointUnlessRestored` | scripts/compile_bdd.py:1153-1167 | and then for every later generation stamp |
| `MergeFiles.MergeReproducesItself` | scripts/compile_bdd.py:1103-1167 | merge is a fixpoint on file lines exactly under that condition, and then for every later stamp: distinct ids, readable TARGET scenarios, a LEGACY file in the form of the printer; collected or not, every mix of buckets, bound sets and lockfile answers |
| `MergeFiles.PlainNamesReproduce` | scripts/compile_bdd.py:725-760 | without `<transport>` in the names of id-bearing scenarios a merge never raises and restores nothing, so every such merge is a fixpoint |
| `WrittenTargets.FreshIdJoins` | scripts/compile_bdd.py:1019-1036 | a `T-` id that is not tagged yet becomes the first `@T-` tag, so the join key survives |
| `WrittenTargets.ReadableExactly` | scripts/compile_bdd.py:1429-1450 | a condition on the TARGET scenario and the table that holds if and only if what the compiler writes for it is well formed and found again under the same id |
| `WrittenTargets.FreshIsReadable` | scripts/compile_bdd.py:715-750 | a scenario with a fresh `T-` id meets it, also with `<transport>` in its name as long as something is left of the name after the cut |
| `RestoredExamples.RestoresExactly` | scripts/compile_bdd.py:1084-1118 | the second merge takes a scenario for an Examples-only change if and only if it is rendered afresh, its steps and tags are in compiled form already, and it meets the guards of the column removal: `<transport>` in the name and in no step, and a table with that column or tables small enough to be dropped |
| `RestoredExamples.ExamplesChangedExactly` | scripts/compile_bdd.py:725-774 | the rewrite changes the Examples, as the classifier compares them, exactly under those guards |
| `RestoredFile.SecondMergeDiffers` | scripts/compile_bdd.py:1084-1118 | a concrete TARGET file whose second merge writes a different file than the first, in any use case, under any settings and with any table |
| `HandEdits.HandEditsSurvive` | scripts/compile_bdd.py:1528-1537 | a hand-edited LEGACY scenario whose id no TARGET names survives every finite sequence of merges, unchanged up to white space and in the same relative order, whatever TARGETs, gates, tables and clocks |
| `MarkedFiles.CommentSurvives` | scripts/compile_bdd.py:1528-1537 | a scenario with the comment form of the marker is found under its id after every sequence of merges that no longer name it |
| `MarkedFiles.CommentSavesScenario` | scripts/compile_bdd.py:1528-1537 | a concrete file whose one scenario is saved by its comment when TARGET has lost it |
| `HandEdits.OneMergeProtects` | scripts/compile_bdd.py:1091-1092 | one merge, from file to file |
| `HandEdits.ProtectedMember` | scripts/compile_bdd.py:1039-1049 | what is protected: the indexed scenario of a protected id, exactly when it carries the marker |
| `HandEdits.OutcomesProtect` | scripts/compile_bdd.py:1091-1092 | what one merge does to the protected scenarios, whatever else TARGET and LEGACY hold |
| `HeadlessTarget.HeadlessMergeReads` | scripts/compile_bdd.py:200-206 | what the next reading finds in a file merged from a TARGET without a `Feature:` line: all preserved scenarios if a Background line of LEGACY itself names a feature, and none otherwise |
| `HeadlessTarget.FeatureLineDecides` | scripts/compile_bdd.py:1540-1569 | for every LEGACY file, one merge keeps the protected scenarios if and only if TARGET has a `Feature:` line, or there was nothing to protect, or a Background line of LEGACY names a feature |
| `HeadlessTarget.EmptyTargetLosesEdit` | scripts/compile_bdd.py:1540-1569 | a concrete hand-edited scenario that an empty TARGET file makes unreadable |
| `MergeRun.MergeFeatures` | scripts/compile_bdd.py:1576-1703 | a merge over many files: every output, the table of every use case after update and prune, the manifest of every use case, and the recorded commit and time; a row too short aborts it with the table untouched, and without files nothing is recorded |
| `MergeRun.MergeFile` | scripts/compile_bdd.py:1614-1628 | one call of `merge_feature` with a fresh state: the text, the reported ids, the proposed mappings, the bucket counts and the manifest items |
| `MergeRun.GatherManifest` | scripts/compile_bdd.py:1630-1639 | one file added to the manifest: its counts bucket by bucket and its items in order, other use cases untouched |
| `MergeRun.ManifestCounted` | scripts/compile_bdd.py:1630-1700 | conservation over a run: the manifest of a use case lists as many items as its files counted NEEDS-SEMANTIC-MERGE, through every re-bucketing |
| `MergeRun.ReportsWhatIsThere` | scripts/compile_bdd.py:1414-1537 | the ids that a merge reports are exactly the ids of the scenarios in the file it wrote |
| `MergeRun.NoPhantoms` | scripts/compile_bdd.py:1655-1672 | after a run every entry that a touched file owns names a scenario that really is in a file the run wrote for that use case |
| `MergeEntries.ReportedIdHasEntryExactly` | scripts/compile_bdd.py:1646-1653 | a reported id has an entry afterwards if and only if it had one, or a TARGET scenario of the use case carries it in its contextgit comment and is rendered afresh |
| `MergeEntries.NewsExactly` | scripts/compile_bdd.py:1413-1450 | the ids for which one file proposes a mapping: those without an entry that such a scenario carries |
| `MergeEntries.ReportedWithoutEntry` | scripts/compile_bdd.py:1413-1427 | a concrete source whose only scenario is unchanged: its id is reported, and the table gets no entry for it |
| `MergeRun.EntriesKept` | scripts/compile_bdd.py:1655-1672 | which old entries stay, with all fields, and that the lookup of a reported id is unchanged |
| `MergeRunTwice.FilesReproduced` | scripts/compile_bdd.py:1719-1722 | a second merge run over what the first one wrote, with the table that the first one left, reproduces a file if and only if nothing in it is restored, and then for every stamp: a no-op leaves only the generation stamp |
| `MergeRunTwice.SecondMergeKeepsTable` | scripts/compile_bdd.py:1649-1672 | that second run proposes nothing, prunes nothing and leaves the table of every use case as it is, even where it restores Examples |
| `MergeRunTwice.KeptExactly` | scripts/compile_bdd.py:1413-1537 | the ids that a merge reports: those of TARGET, and those that LEGACY has on a hand-edited scenario |
| `MergeRunTwice.TagsStay` | scripts/compile_bdd.py:584-623 | the table that a run leaves gives every TARGET scenario of the run the same output tags as the table before |
| `EnvFile.ParseEnvLines` | scripts/setup-dev.py:103-118 | the line loop gives the map in which later lines win |
| `EnvFile.FillTemplate` | scripts/setup-dev.py:176-203 | the loop over the template: commented slots first, then plain ones, everything else passed through; output and used keys |
| `EnvFile.RenderEnv` | scripts/setup-dev.py:152-216 | the template with values laid over it and the unused keys appended in sorted order; without a template all keys sorted |
| `EnvFile.SortKeys` | scripts/setup-dev.py:205-206 | code-point order of the keys |
| `EnvFile.EnsureSecrets` | scripts/setup-dev.py:140-149 | only missing or empty secrets are replaced |
| `EnvFile.EnsureEnv` | scripts/setup-dev.py:291-303 | skipped exactly when the file already says what is wanted, else rewritten |
| `EnvText.QuotedRead` | scripts/setup-dev.py:109-117 | a value in single or double quotes is read without them, whatever is between |
| `EnvText.PlainRead` | scripts/setup-dev.py:109-117 | a trimmed value that is not in quotes is read as it stands |
| `EnvText.SpacedRead` | scripts/setup-dev.py:107-117 | white space around line, key and value does not matter |
| `EnvText.NoEntryExactly` | scripts/setup-dev.py:106-112 | exactly blank lines, comments and lines without `=` contribute nothing |
| `EnvText.QuotedKept` | scripts/setup-dev.py:291-303 | over a bootstrap, a quoted value whose assignment is the last of its key keeps its text when nothing is rewritten, and else is what a plain assignment of it is read as |
| `EnvText.QuotedStays` | scripts/setup-dev.py:291-303 | so a trimmed quoted value, secret or not, is still the same after a bootstrap |
| `EnvText.SlotFilled` | scripts/setup-dev.py:179-200 | a template line with a key, commented out by any number of `#` or not, is replaced by the key's value and nothing else |
| `EnvText.LeExactly` | scripts/setup-dev.py:205-206 | the keys are in order when one is a beginning of the other or smaller at the first difference |
| `EnvText.FirstBootstrap` | scripts/setup-dev.py:140-157 | the exact lines of the first bootstrap without a template |
| `EnvText.AppendedUnderHeader` | scripts/setup-dev.py:205-214 | the exact lines behind a template that has no slot for a value |
| `EnvFacts.ParseRender` | scripts/setup-dev.py:103-216 | parsing what was rendered, for every template and all values with parsable keys: each value comes back settled, and a template default survives exactly where no value is given |
| `EnvFacts.TemplateKept` | scripts/setup-dev.py:176-203 | the template keeps its shape: every line stands where it stood, and only slots of given values are rewritten |
| `EnvFacts.SortedInOrder` | scripts/setup-dev.py:205-214 | the appended keys stand in code-point order, each once |
| `EnvFacts.SettledExactly` | scripts/setup-dev.py:113-116 | a value reads back unchanged if and only if it is trimmed and not itself wrapped in quotes |
| `EnvFacts.BootstrapWrites` | scripts/setup-dev.py:291-303 | what the next bootstrap finds in the file |
| `EnvFacts.SecondBootstrapIsNoOp` | scripts/setup-dev.py:291-299 | with non-empty generated secrets, a second bootstrap has nothing to do if and only if the first had nothing to do, or both secrets (from the file, else the template, else generated) are non-empty after being written and read back |
| `EnvFacts.BootstrapIsIdempotent` | scripts/setup-dev.py:291-303 | with settled values the file says exactly the merged map and two bootstraps are one |
| `EnvFacts.QuotedQuotesRegenerate` | scripts/setup-dev.py:140-149 | a secret that was quotes inside quotes is replaced at the second bootstrap |
| `EnvFacts.OneBootKeeps` | scripts/setup-dev.py:128-149 | one bootstrap keeps a value, settled when the file is rewritten; only an empty secret is replaced |
| `EnvFacts.ValuesAreStable` | scripts/setup-dev.py:128-149 | over any number of bootstraps, with any templates, a settled value never changes |
| `EnvFacts.GeneratedSecretsStay` | scripts/setup-dev.py:140-149 | a generated secret is still there after any further bootstraps |
| `AccountRepair.SurveyMatchesIndex` | alembic/versions/b2e94f7c1a03_unique_account_natural_key.py:27-47 | the index can be created if and only if the survey finds no group of two |
| `AccountText.ClashExactly` | alembic/versions/b2e94f7c1a03_unique_account_natural_key.py:27-47 | two rows clash if and only if both have a domain and agree on tenant, operator, domain, brand id and the sandbox flag, a missing flag being false |
| `AccountRepair.ExtractInvertsMangle` | alembic/versions/f4d31a97c058_repair_mangled_account_brand_id.py:71 | the extraction pattern is the exact inverse of the mangling |
| `AccountRepair.UniqueAtEveryMoment` | alembic/versions/f4d31a97c058_repair_mangled_account_brand_id.py:181-186 | with both surveys empty the natural key, NULLs equal, is unique whatever rows the UPDATE has passed over so far |
| `AccountRepair.SurveyIsExact` | alembic/versions/f4d31a97c058_repair_mangled_account_brand_id.py:122-161 | the collision survey is empty if and only if the repaired table has a unique key |
| `AccountRepair.EqualitySurveyMisses` | alembic/versions/f4d31a97c058_repair_mangled_account_brand_id.py:125-131 | with `=` instead of `IS NOT DISTINCT FROM` it would miss a collision of NULL operators |
| `AccountRepair.NothingLeftPoisoned` | alembic/versions/f4d31a97c058_repair_mangled_account_brand_id.py:64-71 | at the end no row is poisoned and the others are unchanged |
| `AccountRepair.RepairUpdate` | alembic/versions/f4d31a97c058_repair_mangled_account_brand_id.py:181-186 | the UPDATE in any row order with the index checked at every write: it goes through if and only if the survey is empty, else the table is as before |
| `AccountRepair.UpgradeAccounts` | alembic/versions/f4d31a97c058_repair_mangled_account_brand_id.py:189-248 | survey first, act second: all poisoned rows are repaired or none is touched |
| `AccountRepair.NameRepaired` | alembic/versions/f4d31a97c058_repair_mangled_account_brand_id.py:184 | one mangled id in a name is replaced by the id, wherever it stands |
| `AccountRepair.ReplaceAbsent` | alembic/versions/f4d31a97c058_repair_mangled_account_brand_id.py:171-177 | a name without the fragment stays as it is |
| `AccountText.MangledRow` | alembic/versions/f4d31a97c058_repair_mangled_account_brand_id.py:64-71 | a brand id in `root='...'` is repaired to what is between the quotes, and no other column but the name changes |
| `AccountText.OtherSign` | alembic/versions/f4d31a97c058_repair_mangled_account_brand_id.py:71 | one sign that no brand id has, and the row cannot be repaired |
| `AccountText.AnyRoot` | alembic/versions/f4d31a97c058_repair_mangled_account_brand_id.py:64-71 | anything that starts with `root=` counts as mangled, quoted or not |
| `AccountText.MangledName` | alembic/versions/f4d31a97c058_repair_mangled_account_brand_id.py:171-186 | the mangled text in the name becomes the brand id |
| `RankedSuffixes.SuffixedInjective` | alembic/versions/d1a7c4b90e33_pricing_option_id_column.py:55-67 | a suffixed text determines its base and its number |
| `OptionIds.OptionIdsBecomeUnique` | alembic/versions/d1a7c4b90e33_pricing_option_id_column.py:54-75 | for any table, after backfill and ranked suffixing the constraint holds |
| `OptionIds.FirstKeepsAnnounced` | alembic/versions/d1a7c4b90e33_pricing_option_id_column.py:26-29 | a row keeps its announced id if and only if it is the first of its group; no other column changes |
| `OptionIds.AssignOptionIds` | alembic/versions/d1a7c4b90e33_pricing_option_id_column.py:54-75 | the two UPDATEs over the table, the second ranking the rows as the first left them |
| `OptionIdText.AnnouncedExactly` | alembic/versions/d1a7c4b90e33_pricing_option_id_column.py:26-29 | two rows announce the same id if and only if they agree on model and currency, case aside, and on being fixed |
| `OptionIdText.AnnouncedForms` | alembic/versions/d1a7c4b90e33_pricing_option_id_column.py:26-29 | the text of an announced id |
| `OptionIdText.RankedText` | alembic/versions/d1a7c4b90e33_pricing_option_id_column.py:55-67 | the id of a row afterwards: the announced one, with the row's number in its group behind it unless that is the first |
| `OptionIdText.DecimalValue` | alembic/versions/d1a7c4b90e33_pricing_option_id_column.py:66 | the number is written in decimal |
| `BuyerRefs.RefsBecomeUniqueExactly` | alembic/versions/31ff6218695a_add_buyer_ref_unique_constraint_and_.py:24-49 | the buyer references are unique afterwards if and only if no group has an n-th row whose new name `ref-n` is already in use in the same scope; however ties in `created_at` are numbered |
| `BuyerRefs.SecondDuplicateTaken` | alembic/versions/31ff6218695a_add_buyer_ref_unique_constraint_and_.py:24-45 | a concrete table that the migration cannot constrain |
| `FormatIds.MigrateFormats` | alembic/versions/deb82ef8a598_migrate_product_formats_to_format_.py:56-73 | the loop over one product's formats, with the TypeError of other element types |
| `FormatIds.MigrateProducts` | alembic/versions/deb82ef8a598_migrate_product_formats_to_format_.py:41-82 | all products or none |
| `FormatIds.NamesRoundTrip` | alembic/versions/deb82ef8a598_migrate_product_formats_to_format_.py:87-119 | downgrade after upgrade gives back every list of names, and a second upgrade changes nothing |
| `FormatIds.RenamedAllAt` | alembic/versions/0d4fe6eb03ab_migrate_format_id_to_id_in_product_.py:36-63 | the guard on the row changes nothing: every element that wants it is renamed |
| `FormatIds.RenameIsIdempotent` | alembic/versions/0d4fe6eb03ab_migrate_format_id_to_id_in_product_.py:44-52 | renaming an object twice is renaming it once |
| `FormatIds.ValidateStrict` | alembic/versions/rename_formats_to_format_ids.py:132-181 | the validator loop with its checks in three-valued logic |
| `FormatIds.ValidateRelaxed` | alembic/versions/allow_width_height_duration_in_format.py:26-114 | the relaxed validator loop |
| `FormatIds.StrictExactly` | alembic/versions/rename_formats_to_format_ids.py:152-177 | what it really accepts: exactly the two non-empty strings, and the empty object, on which every check is unknown |
| `FormatIds.RelaxedExactly` | alembic/versions/allow_width_height_duration_in_format.py:45-108 | the same for the relaxed one |
| `FormatIds.StrictImpliesRelaxed` | alembic/versions/allow_width_height_duration_in_format.py:26-114 | whatever passed the strict check passes the relaxed one |
| `FormatIds.ChainReachesShape` | alembic/versions/rename_formats_to_format_ids.py:70-88 | uniform lists reach the checked shape: the same names in the same order under their own agent or the default one, accepted by both validators |
| `FormatIds.ChainExactly` | alembic/versions/deb82ef8a598_migrate_product_formats_to_format_.py:56-59 | lists of old formats pass the final constraint if and only if an agent on the first format means an agent on all |
| `FormatIds.NamesReachShape` | alembic/versions/deb82ef8a598_migrate_product_formats_to_format_.py:60-73 | every list of non-empty names becomes objects with exactly the two properties, in order |
| `FormatText.NameBecomesReference` | alembic/versions/rename_formats_to_format_ids.py:70-88 | one name, end to end |
| `FormatText.OneName` | alembic/versions/deb82ef8a598_migrate_product_formats_to_format_.py:113-119 | what the downgrade gives for one element |
| `FormatText.RenamedOthers` | alembic/versions/0d4fe6eb03ab_migrate_format_id_to_id_in_product_.py:44-52 | what the rename does to arrays and bare strings |
| `FormatText.RebuiltText` | alembic/versions/rename_formats_to_format_ids.py:70-88 | an element with both keys keeps the name under the old one |
| `FormatText.RebuiltGuard` | alembic/versions/rename_formats_to_format_ids.py:70-90 | all references of a product are rebuilt as soon as one needs it, and else none |
| `FormatText.SizeAccepted` | alembic/versions/allow_width_height_duration_in_format.py:70-108 | a size is accepted if and only if it is a positive number |
| `Creatives.UpgradeCreative` | alembic/versions/4b8c3ffb6ae7_migrate_creatives_to_v24_format.py:88-156 | the assets built by assignment and the legacy fields popped |
| `Creatives.UpgradeCreatives` | alembic/versions/4b8c3ffb6ae7_migrate_creatives_to_v24_format.py:63-172 | the table: rows outside the WHERE clause stay as they are |
| `Creatives.DowngradeCreative` | alembic/versions/4b8c3ffb6ae7_migrate_creatives_to_v24_format.py:203-239 | the reverse, with the AttributeError of an asset that is no dict |
| `Creatives.CollectVariables` | alembic/versions/4b8c3ffb6ae7_migrate_creatives_to_v24_format.py:228-233 | the loop over the assets that collects template variables; later ones win |
| `CreativeText.TouchedRows` | alembic/versions/4b8c3ffb6ae7_migrate_creatives_to_v24_format.py:70-84 | which rows the revision touches |
| `CreativeText.OtherFieldsKept` | alembic/versions/4b8c3ffb6ae7_migrate_creatives_to_v24_format.py:141-156 | exactly the eight legacy fields go; every other field but `assets` stays |
| `CreativeText.PrimaryText` | alembic/versions/4b8c3ffb6ae7_migrate_creatives_to_v24_format.py:99-122 | the primary asset has the url, its type, and the dimensions that the creative had |
| `CreativeText.VideoUrl` | alembic/versions/4b8c3ffb6ae7_migrate_creatives_to_v24_format.py:101-106 | a url with one of the four endings anywhere in it, in any case, is a video |
| `CreativeText.ImageUrl` | alembic/versions/4b8c3ffb6ae7_migrate_creatives_to_v24_format.py:101-106 | everything else is an image |
| `CreativeText.OtherAssets` | alembic/versions/4b8c3ffb6ae7_migrate_creatives_to_v24_format.py:123-131 | the click and snippet assets |
| `CreativeText.VariableText` | alembic/versions/4b8c3ffb6ae7_migrate_creatives_to_v24_format.py:134-140 | one text asset per template variable |
| `CreativeText.FractionCut` | alembic/versions/4b8c3ffb6ae7_migrate_creatives_to_v24_format.py:111-122 | a fractional dimension is cut towards zero |
| `CreativeRoundTrip.RoundTripExactly` | alembic/versions/4b8c3ffb6ae7_migrate_creatives_to_v24_format.py:88-239 | downgrade after upgrade gives back the same object, other fields included, if and only if the creative is reversible, in whatever order the dicts are walked; it never raises |
| `CreativeRoundTrip.GoodDimensionExactly` | alembic/versions/4b8c3ffb6ae7_migrate_creatives_to_v24_format.py:107-117 | which dimensions survive: non-zero whole numbers and `true` |
| `IndexSwap.NeverAGap` | alembic/versions/a164b85bab9e_widen_media_buys_idempotency_backstop_.py:53-60 | over every interleaving of the migration with inserts, updates and deletes, keyed rows are unique on all four columns at every moment |
| `IndexText.NoDuplicateEver` | alembic/versions/a164b85bab9e_widen_media_buys_idempotency_backstop_.py:53-60 | the same, column by column |
| `IndexSwap.StepKeepsGuarded` | alembic/versions/a164b85bab9e_widen_media_buys_idempotency_backstop_.py:53-60 | every step keeps the invariant, and the build never finds duplicates |
| `IndexSwap.DuplicateAlwaysRefused` | alembic/versions/a164b85bab9e_widen_media_buys_idempotency_backstop_.py:54-60 | a duplicate on all four columns is refused in every phase |
| `IndexSwap.WideningLetsThrough` | alembic/versions/a164b85bab9e_widen_media_buys_idempotency_backstop_.py:53-60 | no write is refused after the swap that went through before it, and the writes that it newly lets through are exactly those whose key is in use under other accounts only |
| `IndexSwap.DowngradeExactly` | alembic/versions/a164b85bab9e_widen_media_buys_idempotency_backstop_.py:63-80 | the narrower index can be rebuilt if and only if no key was reused across accounts |
| `IndexSwap.Table.EndBuild` | alembic/versions/a164b85bab9e_widen_media_buys_idempotency_backstop_.py:54-58 | the check at the end of the build cannot fail |
| `IndexSwap.Table.constructor` | alembic/versions/a164b85bab9e_widen_media_buys_idempotency_backstop_.py:22-60 | a table under the old index |
| `IndexSwap.Table.BeginBuild` | alembic/versions/a164b85bab9e_widen_media_buys_idempotency_backstop_.py:54-58 | the build starts and enforces nothing yet |
| `IndexSwap.Table.DropOldIndex` | alembic/versions/a164b85bab9e_widen_media_buys_idempotency_backstop_.py:59 | the old index goes only when the new one is there |
| `IndexSwap.Table.RenameIndex` | alembic/versions/a164b85bab9e_widen_media_buys_idempotency_backstop_.py:60 | the rename changes nothing that is enforced |
| `IndexSwap.Table.Remove` | alembic/versions/a164b85bab9e_widen_media_buys_idempotency_backstop_.py:54-60 | a delete at any moment |
| `IndexSwap.Table.Put` | alembic/versions/a164b85bab9e_widen_media_buys_idempotency_backstop_.py:54-60 | a write compared with every other row under each live index |
| `PricingTrigger.OrphanCheckExactly` | alembic/versions/b61ff75713c0_enforce_at_least_one_pricing_option_per_.py:31-52 | the check passes if and only if every product is priced |
| `PricingTrigger.DeleteExactly` | alembic/versions/6ac7f95b69c6_fix_pricing_options_trigger_for_product_.py:54-66 | a delete of any rows in any order goes through, under either trigger, if and only if it leaves an option to every product it touches |
| `PricingTrigger.FixedDeletesProducts` | alembic/versions/6ac7f95b69c6_fix_pricing_options_trigger_for_product_.py:42-52 | with the fixed trigger a product delete always succeeds and takes exactly its own options |
| `PricingTrigger.OriginalBlocksProducts` | alembic/versions/b61ff75713c0_enforce_at_least_one_pricing_option_per_.py:59-79 | with the original trigger a product can be deleted if and only if it has no options |
| `PricingTrigger.EveryProductStaysPriced` | alembic/versions/b61ff75713c0_enforce_at_least_one_pricing_option_per_.py:85-93 | once the check has passed, no sequence of deletes and new options leaves an existing product without an option, under either trigger |
| `PricingTrigger.Catalog.constructor` | alembic/versions/b61ff75713c0_enforce_at_least_one_pricing_option_per_.py:31-52 | the trigger is installed on tables that passed the check |
| `PricingTrigger.Catalog.DeleteOneByOne` | alembic/versions/b61ff75713c0_enforce_at_least_one_pricing_option_per_.py:85-93 | the trigger before each row, with the rows already deleted gone; the first exception restores them all |
| `PricingTrigger.Catalog.DeleteRows` | alembic/versions/6ac7f95b69c6_fix_pricing_options_trigger_for_product_.py:54-66 | the statement row by row, undone by the first exception |
| `PricingTrigger.Catalog.RemoveProduct` | alembic/versions/6ac7f95b69c6_fix_pricing_options_trigger_for_product_.py:42-52 | the product first, then its options, or nothing |
| `ErrorCodes.IterBlocks` | scripts/verify_feature_error_codes.py:145-156 | the block scanner with its start index |
| `ErrorCodes.ReadColumns` | scripts/verify_feature_error_codes.py:159-178 | the table scanner: header per contiguous table, columns in order of appearance |
| `ErrorCodes.ReadLine` | scripts/verify_feature_error_codes.py:189-211 | the four patterns on one line, in order, placeholders resolved in the block's columns |
| `ErrorCodes.ReadLines` | scripts/verify_feature_error_codes.py:187-211 | the lines of a block with their numbers |
| `ErrorCodes.ReadBlock` | scripts/verify_feature_error_codes.py:184-222 | a block: its lines, then the bare codes of the columns that declare error codes, on its first line |
| `ErrorCodes.ExpectedCodes` | scripts/verify_feature_error_codes.py:181-223 | all findings with their line numbers, in order |
| `ErrorCodeFacts.CodesAreLocal` | scripts/verify_feature_error_codes.py:181-223 | where the second file starts a block, the codes of both files in a row are the codes of the first followed by those of the second, moved by the length of the first |
| `ErrorCodeFacts.BlocksPartition` | scripts/verify_feature_error_codes.py:145-156 | the blocks are the file cut at its boundaries, nothing lost, each knowing where it starts |
| `ErrorCodeFacts.FindingsHaveSource` | scripts/verify_feature_error_codes.py:184-222 | every finding names a line of the file; the code stands on that line, or in a table row of the same block when the line has a placeholder or is the block's first |
| `ErrorCodeText.NamedIsFound` | scripts/verify_feature_error_codes.py:187-211 | no code that a line names in one of the four forms is overlooked, wherever the line stands in the file |
| `ErrorCodeText.PlaceholderFound` | scripts/verify_feature_error_codes.py:189-195 | a placeholder gives every value of its column in the tables of the same block |
| `ErrorCodeText.DeclaredFound` | scripts/verify_feature_error_codes.py:217-222 | a bare code in a column that declares error codes is a finding |
| `ErrorCodeText.FindingsOnlyNamed` | scripts/verify_feature_error_codes.py:181-223 | conversely, every finding comes from a line of its block in one of the four forms, or from such a column |
| `ErrorCodeText.CodeShapedExactly` | scripts/verify_feature_error_codes.py:46-49 | which findings the gate grades: capital codes, and small ones that end in `_error` |
| `ErrorCodeText.GateCatches` | scripts/verify_feature_error_codes.py:244-250 | the gate fails on a capital code that is not canonical, in whatever form and place it is named |
| `ErrorCodeFacts.GateIsCompositional` | scripts/verify_feature_error_codes.py:244-250 | a file passes the gate if and only if its parts do, cut at any block boundary |

## Left out

- Files, git, argument parsing, printing and the dry-run switches: contents, commit, clock and driver file names are parameters.
- Splitting text into lines and joining lines into text: a file is the list of its lines.
- Characters outside ASCII in `\w`, `\d` and case folding; the white-space class is Python's.
- Sharing of `Scenario` and `Step` objects: the rewrites update them in place, here they are values. The code rewrites each object once, after everything read from it.
- Traceability as YAML: the reader is a library and the writer's quoting is its counterpart; the table itself is modelled, without the business rules that are copied into a new mapping.
- The lockfile: its module is not part of this model; an arbitrary set of answered ids stands for it, per file.
- Finding the driver calls that name feature files: the named files are a set.
- The merge manifest beyond the items and bucket counts of each use case: cache keys, binding annotations, paths, the dropped prose list and the surrounding JSON document.
- Dropped prose sentences in a merge run: recorded by `StepRewrite.ApplyStepTransforms`, not carried through the merger.
- TransportMeaning.StripTransportMeaning: asks for rows as wide as their header, word-character column names, no placeholder in step tables and at least one data row, as the meaning of other outlines depends on the test framework.
- CompilePipeline.CompileFeatures: one generation stamp serves all files of a run, while the code reads the clock for each file.
- MergeRun.MergeFeatures: likewise; the theorems about a second run hold for any other stamp.
- MergeTwice.MergeTwiceExactly: asks that LEGACY is in the printer's own form and that TARGET scenarios are readable, which `WrittenTargets.ReadableExactly` shows to be what reading them back takes.
- HandEdits.HandEditsSurvive: asks for readable TARGET scenarios for the same reason.
- CompiledReadsBack.CompiledFileReadsBack: asks for tag-safe output tags and a name that keeps something, which `CompiledReadsBack.PrintableWritten` shows to be what reading takes.
- EnvFacts.ParseRender: keys have the shape that the parser produces; values have no line break, being parts of lines.
- Python version and Docker steps of the bootstrap script: subprocess plumbing.
- Account columns that neither migration reads or writes, and the abort messages.
- Column lengths of `pricing_option_id` and `buyer_ref`; the order-name template update beside the latter.
- The inventory-profile and tenant columns of the format rename: the same statement, and a list-of-strings check.
- Creatives.DowngradeCreative: how a `variable_name` that is a number or a truth value looks as a key is one conversion function for all such values.
- Rows of `creatives` whose `data` is not an object; the loop of the downgrade over the table.
- Leftovers of a failed concurrent index build, and the `payload_hash` column.
- PricingTrigger.EveryProductStaysPriced: statements follow one another; deletes of two open transactions that do not see each other are not modelled, nor are new products without options, which no trigger guards.
- Selecting feature files by use case, the emittable code table, and the report of the error-code script.
- Report, enumeration and wiring scripts, DDL-only revisions, and revisions that rest on hashing or encryption: nothing to prove that is not easy.
