/** A small feature file around given scenarios, for concrete cases. */
module SampleFiles {
  import opened Text
  import opened Gherkin
  import opened GherkinFacts
  import opened FeatureParser
  import opened FeatureRender
  import opened RoundTrip
  import opened FileReadsBack

  const SAMPLE_FEATURE := "Feature: f"

  function FileOf(scenarios: seq<Scenario>): seq<string> {
    [SAMPLE_FEATURE] + RenderAll(scenarios)
  }

  lemma SampleFeatureOk()
    ensures FeatureLineOk(SAMPLE_FEATURE) && Strip(SAMPLE_FEATURE) == SAMPLE_FEATURE
  {
    NoHashNoContextGit(SAMPLE_FEATURE);
    NotATagLine(SAMPLE_FEATURE);
    StripTrimmed(SAMPLE_FEATURE);
  }

  lemma FileOfParses(scenarios: seq<Scenario>)
    requires ScenariosOk(scenarios)
    ensures var f := ParseFeature(FileOf(scenarios));
            f.featureLine == SAMPLE_FEATURE && f.backgroundLines == [] && f.scenarios == NormAll(scenarios)
  {
    hide Strip, EndsScenario, EndsDescription, ScenarioOk, RenderAll, ParseScenarios, NormAll, ParsePreamble, DescriptionRun,
         BackgroundRun, FeatureLineOk, IsTagLine, ParseContextGit;
    SampleFeatureOk();
    PrintThenParse(scenarios);
    var rest := RenderAll(scenarios);
    NothingScenarios();
    PartsRead([], [], SAMPLE_FEATURE, [], [], rest);
    HeaderSkipped([], [], SAMPLE_FEATURE, rest);
    assert [] + [] + [SAMPLE_FEATURE] + [] + [] + rest == FileOf(scenarios);
    assert [] + [] + [SAMPLE_FEATURE] + rest == FileOf(scenarios);
  }

  lemma NothingScenarios()
    ensures RenderAll([]) == []
  {
  }
}
