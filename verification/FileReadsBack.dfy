/** Reading a merged file back: whatever was rendered under a TARGET header, the parser finds the merged
    scenarios in normal form and the Background up to blank lines at its end. */
module FileReadsBack {
  import opened Text
  import opened Gherkin
  import opened GherkinFacts
  import opened FeatureParser
  import opened FeatureRender
  import opened RoundTrip
  import opened ParserFacts
  import opened CompilePipeline
  import opened Merge

  // ------------------------------------------------------------------ what a parsed feature looks like

  predicate BackgroundOk(lines: seq<string>) {
    lines == []
    || (IsBackground(Strip(lines[0])) && forall i | 1 <= i < |lines| :: !EndsScenario(Strip(lines[i])))
  }

  predicate DescriptionOk(lines: seq<string>) {
    forall i | 0 <= i < |lines| :: !EndsDescription(Strip(lines[i]))
  }

  predicate FeatureLineOk(t: string) {
    Trimmed(t) && IsFeature(t) && ParseContextGit(t).None? && !IsTagLine(t)
  }

  ghost predicate FeatureOk(f: Feature) {
    && AllTagSafe(f.featureTags) && FeatureLineOk(f.featureLine)
    && DescriptionOk(f.descriptionLines) && BackgroundOk(f.backgroundLines) && ScenariosOk(f.scenarios)
  }

  lemma {:induction false} PreambleFacts(lines: seq<string>, acc: Preamble)
    requires AllTagSafe(acc.tags)
    ensures var p := ParsePreamble(lines, acc);
            && AllTagSafe(p.tags)
            && (p.rest != [] ==> var t := Strip(p.rest[0]); IsFeature(t) && ParseContextGit(t).None? && !IsTagLine(t))
    decreases |lines|
  {
    hide Strip, ParseContextGit, IsTagLine, FindTags, TagSafe, IsFeature, IsComment;
    if lines != [] {
      var t := Strip(lines[0]);
      if ParseContextGit(t).Some? {
        PreambleFacts(lines[1..], acc.(contextgit := ParseContextGit(t)));
      } else if IsTagLine(t) {
        FoundTagsSafe(t);
        PreambleFacts(lines[1..], acc.(tags := acc.tags + FindTags(t)));
      } else if IsFeature(t) {
      } else if IsComment(t) || t == "" {
        PreambleFacts(lines[1..], acc.(comments := acc.comments + [lines[0]]));
      } else {
        PreambleFacts(lines[1..], acc);
      }
    }
  }

  lemma {:induction false} DescriptionFacts(lines: seq<string>)
    ensures DescriptionOk(lines[..DescriptionRun(lines)])
  {
    hide Strip, EndsDescription;
    if lines != [] && !EndsDescription(Strip(lines[0])) {
      DescriptionFacts(lines[1..]);
      var n := DescriptionRun(lines);
      assert lines[..n] == [lines[0]] + lines[1..][..n - 1];
    }
  }

  lemma {:induction false} BackgroundBodyFacts(lines: seq<string>)
    ensures forall i | 0 <= i < BackgroundBodyRun(lines) :: !EndsScenario(Strip(lines[i]))
  {
    hide Strip, EndsScenario;
    if lines != [] && !EndsScenario(Strip(lines[0])) {
      BackgroundBodyFacts(lines[1..]);
      forall i | 1 <= i < BackgroundBodyRun(lines) ensures !EndsScenario(Strip(lines[i])) {
        assert lines[i] == lines[1..][i - 1];
      }
    }
  }

  lemma BackgroundFacts(lines: seq<string>)
    ensures BackgroundOk(lines[..BackgroundRun(lines)])
  {
    hide Strip, EndsScenario, IsBackground, BackgroundBodyRun;
    if lines != [] && IsBackground(Strip(lines[0])) {
      BackgroundBodyFacts(lines[1..]);
      forall i | 1 <= i < BackgroundRun(lines) ensures !EndsScenario(Strip(lines[i])) {
        assert lines[i] == lines[1..][i - 1];
      }
    }
  }

  lemma BackgroundParsed(lines: seq<string>)
    ensures BackgroundOk(ParseFeature(lines).backgroundLines)
  {
    hide ParsePreamble, DescriptionRun, BackgroundRun, ParseScenarios, Strip, BackgroundOk;
    var p := ParsePreamble(lines, NO_PREAMBLE);
    var afterFeature := if p.rest == [] then [] else p.rest[1..];
    BackgroundFacts(afterFeature[DescriptionRun(afterFeature)..]);
  }

  /** Every file with a `Feature:` line parses to a well-formed feature. */
  lemma ParsedFeatureOk(lines: seq<string>)
    requires ParseFeature(lines).featureLine != ""
    ensures FeatureOk(ParseFeature(lines))
  {
    hide ParsePreamble, DescriptionRun, BackgroundRun, ParseScenarios, Strip, BackgroundOk, DescriptionOk, ScenariosOk,
         AllTagSafe, IsFeature, ParseContextGit, IsTagLine, Trimmed;
    var p := ParsePreamble(lines, NO_PREAMBLE);
    NoTagsSafe();
    PreambleFacts(lines, NO_PREAMBLE);
    StripTrimmed(p.rest[0]);
    var afterFeature := p.rest[1..];
    DescriptionFacts(afterFeature);
    var afterDescription := afterFeature[DescriptionRun(afterFeature)..];
    BackgroundFacts(afterDescription);
    ParsedScenariosOk(afterDescription[BackgroundRun(afterDescription)..]);
  }

  // ------------------------------------------------------------------ the header is skipped

  /** A stamp line: a comment or a blank. */
  predicate StampOk(stamp: seq<string>) {
    forall i | 0 <= i < |stamp| :: IsComment(stamp[i]) || stamp[i] == ""
  }

  lemma StampLineStrips(line: string)
    requires IsComment(line) || line == ""
    ensures var t := Strip(line); (IsComment(t) || t == "") && !IsTagLine(t) && !IsFeature(t)
  {
    hide IsTagLine, IsFeature;
    if line == "" {
      BlankNoLead();
    } else {
      HashNotSpace();
      assert LStrip(line) == line;
      TrimmedRStrip(line);
      CommentNoFeature(Strip(line));
    }
  }

  lemma HashNotSpace()
    ensures !IsSpace('#')
  {
  }

  lemma CommentNoFeature(t: string)
    requires IsComment(t)
    ensures !IsFeature(t) && !IsTagLine(t)
  {
    assert t[0] == '#';
  }

  lemma {:induction false} StampSkipped(stamp: seq<string>, rest: seq<string>, acc: Preamble) returns (after: Preamble)
    requires StampOk(stamp)
    ensures ParsePreamble(stamp + rest, acc) == ParsePreamble(rest, after) && after.tags == acc.tags
  {
    hide Strip, ParseContextGit, IsTagLine, FindTags, IsFeature, IsComment;
    if stamp == [] {
      assert stamp + rest == rest;
      after := acc;
    } else {
      StampLineStrips(stamp[0]);
      assert (stamp + rest)[1..] == stamp[1..] + rest;
      assert forall i | 0 <= i < |stamp| - 1 :: stamp[1..][i] == stamp[i + 1];
      var t := Strip(stamp[0]);
      if ParseContextGit(t).Some? {
        after := StampSkipped(stamp[1..], rest, acc.(contextgit := ParseContextGit(t)));
      } else {
        after := StampSkipped(stamp[1..], rest, acc.(comments := acc.comments + [stamp[0]]));
      }
    }
  }

  lemma HeaderSkipped(stamp: seq<string>, tags: seq<string>, featureLine: string, rest: seq<string>)
    requires StampOk(stamp) && AllTagSafe(tags) && FeatureLineOk(featureLine)
    ensures var tagLines := if tags == [] then [] else [Join(" ", tags)];
            var p := ParsePreamble(stamp + tagLines + [featureLine] + rest, NO_PREAMBLE);
            p.rest == [featureLine] + rest && p.tags == tags
  {
    hide Strip, ParseContextGit, IsTagLine, FindTags, IsFeature, IsComment, StampOk, AllTagSafe, Join, Trimmed;
    var tagLines := if tags == [] then [] else [Join(" ", tags)];
    var feature := [featureLine] + rest;
    StripTrimmed(featureLine);
    var tagged := tagLines + feature;
    assert stamp + tagLines + [featureLine] + rest == stamp + tagged;
    var acc := StampSkipped(stamp, tagged, NO_PREAMBLE);
    if tags == [] {
      assert tagged == feature;
    } else {
      TagLineReadsBack(tags);
      StripTrimmed(Join(" ", tags));
      assert tagged[1..] == feature;
      assert [] + tags == tags;
    }
  }

  // ------------------------------------------------------------------ description and Background

  lemma {:induction false} DescriptionRead(description: seq<string>, rest: seq<string>)
    requires DescriptionOk(description)
    requires rest == [] || EndsDescription(Strip(rest[0]))
    ensures DescriptionRun(description + rest) == |description|
  {
    hide Strip, EndsDescription;
    if description == [] {
      assert description + rest == rest;
    } else {
      assert (description + rest)[1..] == description[1..] + rest;
      assert forall i | 0 <= i < |description| - 1 :: description[1..][i] == description[i + 1];
      DescriptionRead(description[1..], rest);
    }
  }

  lemma {:induction false} BackgroundBodyRead(body: seq<string>, rest: seq<string>)
    requires forall i | 0 <= i < |body| :: !EndsScenario(Strip(body[i]))
    requires rest == [] || EndsScenario(Strip(rest[0]))
    ensures BackgroundBodyRun(body + rest) == |body|
  {
    hide Strip, EndsScenario;
    if body == [] {
      assert body + rest == rest;
    } else {
      assert (body + rest)[1..] == body[1..] + rest;
      assert forall i | 0 <= i < |body| - 1 :: body[1..][i] == body[i + 1];
      BackgroundBodyRead(body[1..], rest);
    }
  }

  lemma LetterB(t: string)
    requires t != "" && t[0] == 'B'
    ensures ScenarioHead(t).None? && !IsSectionRule(t) && !IsSpace(t[0])
  {
    hide LStrip;
  }

  lemma BackgroundNotEnd()
    ensures !EndsScenario("Background:")
  {
    hide ScenarioHead, IsSectionRule, IsTagLine, ParseContextGit, IsSpace;
    var t := "Background:";
    assert t[0] == 'B';
    LetterB(t);
    NotATagLine(t);
    NoHashNoContextGit(t);
  }

  lemma BackgroundRead(background: seq<string>, rest: seq<string>)
    requires BackgroundOk(background)
    requires rest == [] || EndsScenario(Strip(rest[0]))
    ensures BackgroundRun(background + rest) == |background|
  {
    hide Strip, EndsScenario, BackgroundBodyRun;
    BackgroundNotEnd();
    if background == [] {
      assert background + rest == rest;
    } else {
      assert (background + rest)[1..] == background[1..] + rest;
      assert forall i | 0 <= i < |background| - 1 :: background[1..][i] == background[i + 1];
      BackgroundBodyRead(background[1..], rest);
    }
  }

  /** A file put together from its parts is taken apart at the same places. */
  lemma PartsRead(stamp: seq<string>, tags: seq<string>, featureLine: string, description: seq<string>,
                  background: seq<string>, scenarioLines: seq<string>)
    requires StampOk(stamp) && AllTagSafe(tags) && FeatureLineOk(featureLine)
    requires DescriptionOk(description) && BackgroundOk(background)
    requires scenarioLines == []
             || (EndsScenario(Strip(scenarioLines[0])) && EndsDescription(Strip(scenarioLines[0])))
    ensures var tagLines := if tags == [] then [] else [Join(" ", tags)];
            var f := ParseFeature(stamp + tagLines + [featureLine] + description + background + scenarioLines);
            && f.featureTags == tags && f.featureLine == featureLine && f.descriptionLines == description
            && f.backgroundLines == background && f.scenarios == ParseScenarios(scenarioLines)
  {
    hide Strip, EndsScenario, IsBackground, StampOk, AllTagSafe, FeatureLineOk, DescriptionOk, BackgroundOk,
         ParseScenarios, ParsePreamble, DescriptionRun, BackgroundRun, Join;
    assert Strip(featureLine) == featureLine by {
      FeatureLineTrimmed(featureLine);
    }
    var tagLines := if tags == [] then [] else [Join(" ", tags)];
    var afterDescription := background + scenarioLines;
    var afterFeature := description + afterDescription;
    var lines := stamp + tagLines + [featureLine] + description + background + scenarioLines;
    assert lines == stamp + tagLines + [featureLine] + afterFeature;
    HeaderSkipped(stamp, tags, featureLine, afterFeature);
    assert ([featureLine] + afterFeature)[1..] == afterFeature;
    BackgroundStart(background, scenarioLines);
    DescriptionRead(description, afterDescription);
    assert afterFeature[..|description|] == description && afterFeature[|description|..] == afterDescription;
    BackgroundRead(background, scenarioLines);
    assert afterDescription[..|background|] == background && afterDescription[|background|..] == scenarioLines;
  }

  lemma FeatureLineTrimmed(t: string)
    requires FeatureLineOk(t)
    ensures Strip(t) == t && t != ""
  {
    hide IsTagLine, ParseContextGit;
    StripTrimmed(t);
  }

  lemma BackgroundStart(background: seq<string>, rest: seq<string>)
    requires BackgroundOk(background) && (rest == [] || EndsDescription(Strip(rest[0])))
    ensures background + rest == [] || EndsDescription(Strip((background + rest)[0]))
  {
    hide Strip, ScenarioHead, ParseContextGit, IsTagLine;
    if background == [] {
      assert background + rest == rest;
    }
  }

  // ------------------------------------------------------------------ blank lines at the end of the file

  /** Two readings that differ in blank lines at the end of the description or the Background only. */
  ghost predicate Alike(f: Feature, g: Feature) {
    && f.featureTags == g.featureTags && f.featureLine == g.featureLine
    && WithoutTrailingBlanks(f.descriptionLines) == WithoutTrailingBlanks(g.descriptionLines)
    && f.scenarios == g.scenarios
    && (f.backgroundLines == [] <==> g.backgroundLines == [])
    && WithoutTrailingBlanks(f.backgroundLines) == WithoutTrailingBlanks(g.backgroundLines)
  }

  lemma {:induction false} PreambleLastBlank(lines: seq<string>, acc: Preamble)
    ensures var rest, longer := ParsePreamble(lines, acc).rest, ParsePreamble(lines + [""], acc).rest;
            longer == if rest == [] then [] else rest + [""]
    ensures ParsePreamble(lines + [""], acc).tags == ParsePreamble(lines, acc).tags
    decreases |lines|
  {
    hide Strip, ParseContextGit, IsTagLine, FindTags, IsFeature, IsComment;
    BlankNoLead();
    if lines == [] {
      assert lines + [""] == [""];
      assert [""][1..] == [];
    } else {
      assert (lines + [""])[1..] == lines[1..] + [""];
      var t := Strip(lines[0]);
      if ParseContextGit(t).Some? {
        PreambleLastBlank(lines[1..], acc.(contextgit := ParseContextGit(t)));
      } else if IsTagLine(t) {
        PreambleLastBlank(lines[1..], acc.(tags := acc.tags + FindTags(t)));
      } else if IsFeature(t) {
      } else if IsComment(t) || t == "" {
        PreambleLastBlank(lines[1..], acc.(comments := acc.comments + [lines[0]]));
      } else {
        PreambleLastBlank(lines[1..], acc);
      }
    }
  }

  lemma {:induction false} RunsLastBlank(lines: seq<string>)
    ensures DescriptionRun(lines + [""]) == if DescriptionRun(lines) == |lines| then |lines| + 1 else DescriptionRun(lines)
    ensures BackgroundBodyRun(lines + [""])
            == if BackgroundBodyRun(lines) == |lines| then |lines| + 1 else BackgroundBodyRun(lines)
  {
    hide Strip, EndsDescription, EndsScenario;
    BlankNoLead();
    if lines == [] {
      assert lines + [""] == [""];
      assert [""][1..] == [];
    } else {
      assert (lines + [""])[1..] == lines[1..] + [""];
      RunsLastBlank(lines[1..]);
    }
  }

  lemma BackgroundLastBlank(lines: seq<string>)
    requires lines != []
    ensures BackgroundRun(lines + [""]) == if BackgroundRun(lines) == |lines| then |lines| + 1 else BackgroundRun(lines)
  {
    hide Strip, EndsScenario, IsBackground, BackgroundBodyRun;
    assert (lines + [""])[1..] == lines[1..] + [""];
    RunsLastBlank(lines[1..]);
  }

  lemma TrimIgnoresBlank(lines: seq<string>)
    ensures WithoutTrailingBlanks(lines + [""]) == WithoutTrailingBlanks(lines)
  {
    hide RStrip;
    BlankNoLead();
    RStripAllAppend(lines, [""]);
    EmptyRStrips();
    var longer := RStripAll(lines) + [""];
    assert longer[..|longer| - 1] == RStripAll(lines);
  }

  lemma EmptyRStrips()
    ensures RStrip("") == "" && RStripAll([""]) == [""]
  {
    assert [""][1..] == [];
  }

  /** The tail of the parse: description, Background and scenarios of what follows the feature line. */
  lemma TailLastBlank(after: seq<string>)
    ensures var d, d' := DescriptionRun(after), DescriptionRun(after + [""]);
            var b, b' := BackgroundRun(after[d..]), BackgroundRun((after + [""])[d'..]);
            var bg, bg' := after[d..][..b], (after + [""])[d'..][..b'];
            && ((after + [""])[..d'] == after[..d] || (after + [""])[..d'] == after[..d] + [""])
            && (bg' == bg || (bg != [] && bg' == bg + [""]))
            && ParseScenarios((after + [""])[d'..][b'..]) == ParseScenarios(after[d..][b..])
  {
    hide DescriptionRun, BackgroundRun, ParseScenarios;
    RunsLastBlank(after);
    var d := DescriptionRun(after);
    if d == |after| {
      assert (after + [""])[..d + 1] == after + [""] && after[..d] == after;
      assert after[d..] == [] && (after + [""])[d + 1..] == [];
    } else {
      var rest := after[d..];
      assert (after + [""])[..d] == after[..d];
      assert (after + [""])[d..] == rest + [""];
      BackgroundLastBlank(rest);
      var b := BackgroundRun(rest);
      if b == |rest| {
        assert (rest + [""])[..b + 1] == rest + [""] && rest[..b] == rest;
        assert (rest + [""])[b + 1..] == [] && rest[b..] == [];
      } else {
        assert (rest + [""])[..b] == rest[..b];
        assert (rest + [""])[b..] == rest[b..] + [""];
        ScenariosLastBlank(rest[b..]);
      }
    }
  }

  lemma FeatureLastBlank(lines: seq<string>)
    ensures Alike(ParseFeature(lines + [""]), ParseFeature(lines))
  {
    hide ParsePreamble, DescriptionRun, BackgroundRun, ParseScenarios, Strip, WithoutTrailingBlanks;
    PreambleLastBlank(lines, NO_PREAMBLE);
    var rest := ParsePreamble(lines, NO_PREAMBLE).rest;
    if rest != [] {
      assert (rest + [""])[1..] == rest[1..] + [""];
      TailLastBlank(rest[1..]);
      TrimIgnoresBlank(ParseFeature(lines).backgroundLines);
      TrimIgnoresBlank(ParseFeature(lines).descriptionLines);
    }
  }

  lemma {:induction false} DropTrailingAlike(lines: seq<string>)
    ensures Alike(ParseFeature(DropTrailingEmpty(lines)), ParseFeature(lines))
  {
    hide ParseFeature, WithoutTrailingBlanks;
    if lines != [] && lines[|lines| - 1] == "" {
      var shorter := lines[..|lines| - 1];
      DropTrailingAlike(shorter);
      FeatureLastBlank(shorter);
      assert shorter + [""] == lines;
    }
  }

  // ------------------------------------------------------------------ the merged file

  lemma RStripAllAppend(a: seq<string>, b: seq<string>)
    ensures RStripAll(a + b) == RStripAll(a) + RStripAll(b)
  {
    hide RStripAll, RStrip;
  }

  lemma DescriptionEndSpace(lines: seq<string>)
    requires DescriptionOk(lines)
    ensures DescriptionOk(RStripAll(lines))
  {
    hide Strip, RStrip, EndsDescription, RStripAll;
    forall i | 0 <= i < |lines| ensures Strip(RStrip(lines[i])) == Strip(lines[i]) {
      StripAfterRStrip(lines[i]);
    }
  }

  lemma BackgroundEndSpace(lines: seq<string>)
    requires BackgroundOk(lines)
    ensures BackgroundOk(RStripAll(lines))
  {
    hide Strip, RStrip, EndsScenario, IsBackground, RStripAll;
    forall i | 0 <= i < |lines| ensures Strip(RStrip(lines[i])) == Strip(lines[i]) {
      StripAfterRStrip(lines[i]);
    }
  }

  lemma StampEndSpace(stamp: seq<string>)
    requires StampOk(stamp)
    ensures StampOk(RStripAll(stamp))
  {
    hide RStripAll, RStrip;
    forall i | 0 <= i < |stamp| ensures IsComment(RStrip(stamp[i])) || RStrip(stamp[i]) == "" {
      var pad := RStripParts(stamp[i]);
      if RStrip(stamp[i]) != "" {
        assert stamp[i][0] == RStrip(stamp[i])[0];
      }
    }
  }

  lemma TrimmedEndSpace(t: string)
    requires RTrimmed(t)
    ensures RStrip(t) == t
  {
  }

  lemma {:induction false} TrimmedBackgroundOk(lines: seq<string>)
    requires BackgroundOk(lines) && lines != []
    ensures DropTrailingEmpty(lines) != [] && BackgroundOk(DropTrailingEmpty(lines))
  {
    hide Strip, EndsScenario;
    BlankNoLead();
    if lines[|lines| - 1] == "" {
      if |lines| == 1 {
        assert false;
      }
      TrimmedBackgroundOk(lines[..|lines| - 1]);
    }
  }

  lemma {:induction false} DropTrailingTwice(lines: seq<string>)
    ensures DropTrailingEmpty(DropTrailingEmpty(lines)) == DropTrailingEmpty(lines)
  {
  }

  lemma {:induction false} RStripAllDrop(lines: seq<string>)
    requires RStripAll(lines) == lines
    ensures RStripAll(DropTrailingEmpty(lines)) == DropTrailingEmpty(lines)
  {
    if lines != [] && lines[|lines| - 1] == "" {
      var shorter := lines[..|lines| - 1];
      RStripAllSlice(lines, |lines| - 1);
      RStripAllDrop(shorter);
    }
  }

  /** The Background section as it is printed, and what trimming it again gives. */
  lemma SectionFacts(background: seq<string>)
    requires BackgroundOk(background)
    ensures var section := BackgroundSection(background);
            && BackgroundOk(section) && RStripAll(section) == section && (section == [] <==> background == [])
            && WithoutTrailingBlanks(section) == WithoutTrailingBlanks(background)
  {
    hide Strip, EndsScenario, IsBackground, RStripAll, RStrip, DropTrailingEmpty, BackgroundOk;
    if background != [] {
      BackgroundEndSpace(background);
      RStripAllTwice(background);
      var stripped := RStripAll(background);
      TrimmedBackgroundOk(stripped);
      RStripAllDrop(stripped);
      var trimmed := DropTrailingEmpty(stripped);
      DropTrailingTwice(stripped);
      RStripAllAppend(trimmed, [""]);
      EmptyRStrips();
      TrimIgnoresBlank(trimmed);
      BackgroundSnoc(trimmed);
    }
  }

  lemma BackgroundSnoc(lines: seq<string>)
    requires BackgroundOk(lines) && lines != []
    ensures BackgroundOk(lines + [""])
  {
    hide Strip, EndsScenario;
    BlankNoLead();
  }

  lemma ScenarioLinesStart(scenarios: seq<Scenario>)
    requires ScenariosOk(scenarios)
    ensures var lines := RStripAll(RenderAll(scenarios));
            && ParseScenarios(lines) == NormAll(scenarios)
            && (lines == [] || (EndsScenario(Strip(lines[0])) && EndsDescription(Strip(lines[0]))))
  {
    hide Strip, RStrip, EndsScenario, EndsDescription, ScenariosOk, RStripAll, ParseScenarios, NormAll;
    PrintThenParse(scenarios);
    ScenariosIgnoreEndSpace(RenderAll(scenarios));
    if scenarios != [] {
      StripAfterRStrip(RenderAll(scenarios)[0]);
    }
  }

  lemma HeadEndSpace(target: Feature)
    requires FeatureOk(target)
    ensures RStripAll(FeatureHead(target)) == FeatureHead(target)
  {
    hide RStrip, IsTagLine, IsFeature, ParseContextGit, DescriptionOk, BackgroundOk, ScenariosOk, Join;
    RStripAllTwice(target.descriptionLines);
    TrimmedEndSpace(target.featureLine);
    if target.featureTags != [] {
      TagLineReadsBack(target.featureTags);
      TrimmedEndSpace(Join(" ", target.featureTags));
    }
    var tagLines := if target.featureTags == [] then [] else [Join(" ", target.featureTags)];
    RStripAllAppend(tagLines, [target.featureLine]);
    RStripAllAppend(tagLines + [target.featureLine], RStripAll(target.descriptionLines));
  }

  /** What the next run reads from a merged file. */
  lemma MergedFileReadsBack(stamp: seq<string>, target: Feature, background: seq<string>, scenarios: seq<Scenario>)
    requires StampOk(stamp) && FeatureOk(target) && BackgroundOk(background) && ScenariosOk(scenarios)
    ensures var f := ParseFeature(MergedFile(stamp, target, background, scenarios));
            && f.featureTags == target.featureTags && f.featureLine == target.featureLine
            && WithoutTrailingBlanks(f.descriptionLines) == WithoutTrailingBlanks(target.descriptionLines)
            && f.scenarios == NormAll(scenarios)
            && (f.backgroundLines == [] <==> background == [])
            && WithoutTrailingBlanks(f.backgroundLines) == WithoutTrailingBlanks(background)
  {
    hide Strip, RStrip, EndsScenario, EndsDescription, ScenariosOk, RStripAll, ParseScenarios, NormAll, StampOk, BackgroundOk,
         DescriptionOk, FeatureLineOk, AllTagSafe, Join, ParseFeature, DropTrailingEmpty, RenderAll, BackgroundSection;
    var section := BackgroundSection(background);
    var tagLines := if target.featureTags == [] then [] else [Join(" ", target.featureTags)];
    var scenarioLines := RStripAll(RenderAll(scenarios));
    var description := RStripAll(target.descriptionLines);
    var lines := stamp + FeatureHead(target) + section + RenderAll(scenarios);
    var read := RStripAll(stamp) + tagLines + [target.featureLine] + description + section + scenarioLines;
    SectionFacts(background);
    HeadEndSpace(target);
    RStripAllAppend(stamp, FeatureHead(target));
    RStripAllAppend(stamp + FeatureHead(target), section);
    RStripAllAppend(stamp + FeatureHead(target) + section, RenderAll(scenarios));
    assert RStripAll(lines) == read;
    StampEndSpace(stamp);
    DescriptionEndSpace(target.descriptionLines);
    RStripAllTwice(target.descriptionLines);
    ScenarioLinesStart(scenarios);
    PartsRead(RStripAll(stamp), target.featureTags, target.featureLine, description, section, scenarioLines);
    DropTrailingAlike(RStripAll(lines));
  }

  lemma {:induction false} TrimPrefix(front: seq<string>, rest: seq<string>)
    requires front != [] && front[|front| - 1] != ""
    ensures |DropTrailingEmpty(front + rest)| >= |front| && DropTrailingEmpty(front + rest)[..|front|] == front
    decreases |rest|
  {
    if rest == [] {
      assert front + rest == front;
    } else if rest[|rest| - 1] == "" {
      assert (front + rest)[..|front + rest| - 1] == front + rest[..|rest| - 1];
      TrimPrefix(front, rest[..|rest| - 1]);
    } else {
      assert (front + rest)[|front + rest| - 1] == rest[|rest| - 1];
    }
  }

  /** A merged file starts with the stamp, the feature tags, the feature line and the description of TARGET, right
      stripped. */
  lemma MergedFileStarts(stamp: seq<string>, target: Feature, background: seq<string>, scenarios: seq<Scenario>)
    requires FeatureOk(target)
    ensures var tagLines := if target.featureTags == [] then [] else [Join(" ", target.featureTags)];
            var start := RStripAll(stamp) + tagLines + [target.featureLine];
            start <= MergedFile(stamp, target, background, scenarios)
  {
    hide RStrip, RStripAll, DropTrailingEmpty, Join, BackgroundSection, RenderAll, AllTagSafe, DescriptionOk, BackgroundOk,
         ScenariosOk, IsTagLine, ParseContextGit;
    var tagLines := if target.featureTags == [] then [] else [Join(" ", target.featureTags)];
    var start := RStripAll(stamp) + tagLines + [target.featureLine];
    var rest := RStripAll(target.descriptionLines) + RStripAll(BackgroundSection(background)) + RStripAll(RenderAll(scenarios));
    HeadEndSpace(target);
    RStripAllAppend(stamp, FeatureHead(target));
    RStripAllAppend(stamp + FeatureHead(target), BackgroundSection(background));
    RStripAllAppend(stamp + FeatureHead(target) + BackgroundSection(background), RenderAll(scenarios));
    assert RStripAll(stamp + FeatureHead(target) + BackgroundSection(background) + RenderAll(scenarios)) == start + rest;
    TrimPrefix(start, rest);
  }
}
