/** Reading a compiled file back: every part of the source file is there, and every scenario, written as its output
    tags and the rewrites say. */
module CompiledReadsBack {
  import opened Text
  import opened Gherkin
  import opened GherkinFacts
  import opened FeatureParser
  import opened FeatureRender
  import opened RoundTrip
  import opened StepRewrite
  import opened Traceability
  import opened CompilePipeline
  import opened FileReadsBack
  import opened WrittenTargets

  /** A scenario whose written form can be read: tag-safe output tags, and something left of a name that loses
      `<transport>`. */
  ghost predicate Printable(t: Scenario, entries: seq<Entry>) {
    AllTagSafe(OutputTags(t, entries)) && NameReads(t)
  }

  lemma PrintableWritten(t: Scenario, entries: seq<Entry>)
    requires ScenarioOk(t) && WriteScenario(t, entries).Ok?
    ensures ScenarioOk(WriteScenario(t, entries).value) <==> Printable(t, entries)
  {
    hide AllTagSafe, NameOk, NameStays, StepsOk, CommentsOk, BlocksOk, StripTransport, OutputTags, RewriteSteps, Strippable;
    RewrittenStepsOk(t.steps);
    StrippedOk(StepsRewritten(t));
  }

  lemma {:induction false} WrittenAt(scenarios: seq<Scenario>, entries: seq<Entry>, i: nat)
    requires WriteAll(scenarios, entries).Ok? && i < |scenarios|
    ensures |WriteAll(scenarios, entries).value| == |scenarios|
    ensures WriteScenario(scenarios[i], entries) == Ok(WriteAll(scenarios, entries).value[i])
  {
    hide WriteScenario;
    if |scenarios| == 1 {
      assert scenarios[1..] == [];
    } else if i == 0 {
      WrittenAt(scenarios[1..], entries, 0);
    } else {
      WrittenAt(scenarios[1..], entries, i - 1);
    }
  }

  lemma NothingWritten(entries: seq<Entry>)
    ensures WriteAll([], entries) == Ok([])
  {
  }

  lemma AllWritten(scenarios: seq<Scenario>, entries: seq<Entry>)
    requires ScenariosOk(scenarios) && WriteAll(scenarios, entries).Ok?
    requires forall i | 0 <= i < |scenarios| :: Printable(scenarios[i], entries)
    ensures ScenariosOk(WriteAll(scenarios, entries).value) && |WriteAll(scenarios, entries).value| == |scenarios|
  {
    hide ScenarioOk, Printable, WriteAll, WriteScenario;
    if scenarios == [] {
      NothingWritten(entries);
    } else {
      WrittenAt(scenarios, entries, 0);
    }
    forall i | 0 <= i < |scenarios| ensures ScenarioOk(WriteAll(scenarios, entries).value[i]) {
      WrittenAt(scenarios, entries, i);
      PrintableWritten(scenarios[i], entries);
    }
  }

  lemma ReadSection(background: seq<string>)
    requires BackgroundOk(background)
    ensures background != [] ==> BackgroundOk(RStripAll(background) + [""])
  {
    hide BackgroundOk, RStripAll;
    if background != [] {
      BackgroundEndSpace(background);
      BackgroundSnoc(RStripAll(background));
    }
  }

  /** What the next reading finds in a compiled file: the tags, the feature line, the description and the Background
      of the source without space at the ends of lines, and all scenarios in their order as they were written. */
  lemma CompiledFileReadsBack(f: Feature, entries: seq<Entry>, stamp: seq<string>)
    requires StampOk(stamp) && FeatureOk(f) && RenderFile(f, entries, stamp).Ok?
    requires forall i | 0 <= i < |f.scenarios| :: Printable(f.scenarios[i], entries)
    ensures var g := ParseFeature(RenderFile(f, entries, stamp).value);
            && g.featureTags == f.featureTags && g.featureLine == f.featureLine
            && g.descriptionLines == RStripAll(f.descriptionLines)
            && g.backgroundLines == (if f.backgroundLines == [] then [] else RStripAll(f.backgroundLines) + [""])
            && |g.scenarios| == |f.scenarios|
            && forall i | 0 <= i < |f.scenarios| ::
                 WriteScenario(f.scenarios[i], entries).Ok?
                 && g.scenarios[i] == Norm(WriteScenario(f.scenarios[i], entries).value)
  {
    hide ScenarioOk, Printable, WriteAll, WriteScenario, ParseFeature, StampOk, AllTagSafe, FeatureLineOk, DescriptionOk,
         BackgroundOk, RStripAll, Norm, RenderAll, Join, EndsScenario, EndsDescription, Strip;
    AllWritten(f.scenarios, entries);
    var written := WriteAll(f.scenarios, entries).value;
    var lines := RenderFile(f, entries, stamp).value;
    FileParts(f, stamp, written);
    forall i | 0 <= i < |f.scenarios|
      ensures WriteScenario(f.scenarios[i], entries) == Ok(written[i]) {
      WrittenAt(f.scenarios, entries, i);
    }
  }

  lemma FileParts(f: Feature, stamp: seq<string>, written: seq<Scenario>)
    requires StampOk(stamp) && FeatureOk(f) && ScenariosOk(written)
    ensures var g := ParseFeature(stamp + FeatureHead(f) + CompiledBackground(f) + RenderAll(written));
            && g.featureTags == f.featureTags && g.featureLine == f.featureLine
            && g.descriptionLines == RStripAll(f.descriptionLines)
            && g.backgroundLines == (if f.backgroundLines == [] then [] else RStripAll(f.backgroundLines) + [""])
            && g.scenarios == NormAll(written)
  {
    hide ScenariosOk, ParseFeature, StampOk, AllTagSafe, FeatureLineOk, DescriptionOk, ParseScenarios,
         BackgroundOk, RStripAll, NormAll, RenderAll, Join, EndsScenario, EndsDescription, Strip;
    var tagLines := if f.featureTags == [] then [] else [Join(" ", f.featureTags)];
    var description, section := RStripAll(f.descriptionLines), CompiledBackground(f);
    DescriptionEndSpace(f.descriptionLines);
    ReadSection(f.backgroundLines);
    NothingIsBackground();
    PrintThenParse(written);
    assert RenderAll(written) == [] || written != [] by {
      NothingRendered();
    }
    PartsRead(stamp, f.featureTags, f.featureLine, description, section, RenderAll(written));
    assert stamp + FeatureHead(f) + section + RenderAll(written)
        == stamp + tagLines + [f.featureLine] + description + section + RenderAll(written);
  }

  lemma NothingIsBackground()
    ensures BackgroundOk([])
  {
  }

  lemma NothingRendered()
    ensures RenderAll([]) == []
  {
  }

  /** Over a run: every output of `compile_features`, read again, is its source file with the scenarios as they are
      written. */
  lemma CompiledRunReadsBack(files: seq<SourceFile>, before: Mappings, after: Mappings,
                             outputs: map<string, seq<string>>, stamp: seq<string>, k: nat)
    requires Compiled(files, before, after, outputs, stamp) && StampOk(stamp) && k < |files|
    requires ParseFeature(files[k].lines).featureLine != ""
    requires forall t | t in ParseFeature(files[k].lines).scenarios :: Printable(t, EntriesOf(before, KeyOf(files[k])))
    ensures files[k].name in outputs
    ensures var f, g := ParseFeature(files[k].lines), ParseFeature(outputs[files[k].name]);
            var entries := EntriesOf(before, KeyOf(files[k]));
            && g.featureTags == f.featureTags && g.featureLine == f.featureLine
            && g.descriptionLines == RStripAll(f.descriptionLines)
            && g.backgroundLines == (if f.backgroundLines == [] then [] else RStripAll(f.backgroundLines) + [""])
            && |g.scenarios| == |f.scenarios|
            && forall i | 0 <= i < |f.scenarios| ::
                 WriteScenario(f.scenarios[i], entries).Ok?
                 && g.scenarios[i] == Norm(WriteScenario(f.scenarios[i], entries).value)
  {
    hide Settled, ParseFeature, Printable, FeatureOk, RenderFile, WriteScenario, RStripAll, StampOk, Norm, KeyOf;
    ParsedFeatureOk(files[k].lines);
    CompiledFileReadsBack(ParseFeature(files[k].lines), EntriesOf(before, KeyOf(files[k])), stamp);
  }

  // ------------------------------------------------------------------ the printed text

  /** The lines of a scenario with one of everything: tags, keyword and name, step, its table, comment, Examples. */
  lemma ScenarioText(s: Scenario, tag: string, step: Step, row: string, comment: string, header: string, line: string)
    requires s.tags == [tag] && s.steps == [step] && step.tableRows == [row] && s.commentLines == [comment]
    requires s.examples == [ExamplesBlock(header, [line])]
    ensures RenderScenario(s)
            == ["  " + tag, "  " + s.keyword + ": " + s.name, "    " + step.keyword + " " + step.text, "    " + Strip(row),
                "    " + Strip(comment), "", "    " + Strip(header), "      " + Strip(line)]
  {
    hide Strip;
    assert s.steps[1..] == [] && s.examples[1..] == [];
    assert IndentAll(STEP_PAD, [row]) == ["    " + Strip(row)] by {
      OneIndented(STEP_PAD, row);
    }
    OneIndented(STEP_PAD, comment);
    OneIndented(ROW_PAD, line);
    assert RenderSteps([]) == [] && RenderExamples([]) == [];
  }

  lemma OneIndented(pad: string, line: string)
    ensures IndentAll(pad, [line]) == [pad + Strip(line)]
  {
    hide Strip;
    assert [line][1..] == [];
  }

  /** Every compiled file starts with the commit and the time, and the warning not to edit it. */
  lemma StampText(f: Feature, entries: seq<Entry>, sha: string, now: string)
    requires RenderFile(f, entries, CompileStamp(sha, now)).Ok?
    ensures var lines := RenderFile(f, entries, CompileStamp(sha, now)).value;
            && |lines| > 3 && lines[0] == "# Generated from adcp-req @ " + sha + " on " + now
            && lines[1] == "#" + " DO NOT EDIT -- re-run: python scripts/compile_bdd.py" && lines[2] == ""
    ensures StampOk(CompileStamp(sha, now))
  {
    hide WriteAll, RenderAll, RStripAll, Join;
    var stamp := CompileStamp(sha, now);
    var first, second := "# Generated from adcp-req @ " + sha + " on " + now, "#" + " DO NOT EDIT -- re-run: python scripts/compile_bdd.py";
    assert stamp == [first, second, ""];
    assert first[0] == '#' && second[0] == '#';
  }
}
