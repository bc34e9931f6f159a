/** Facts about the parser on arbitrary input: its results are well formed, and neither white space at
    the end of lines nor blank lines at the end of the file change the scenarios it finds. */
module ParserFacts {
  import opened Text
  import opened Gherkin
  import opened GherkinFacts
  import opened FeatureParser
  import opened RoundTrip

  // ------------------------------------------------------------------ parsed scenarios are well formed

  lemma {:induction false} HashFreePrefix(prefix: string, s: string)
    requires '#' !in prefix
    ensures ParseContextGit(prefix + s) == ParseContextGit(s)
  {
    if prefix == "" {
      assert prefix + s == s;
    } else {
      assert prefix[0] in prefix;
      assert forall c | c in prefix[1..] :: c in prefix;
      assert (prefix + s)[1..] == prefix[1..] + s;
      HashFreePrefix(prefix[1..], s);
    }
  }

  lemma SpacesHashFree(pad: string)
    requires AllSpace(pad)
    ensures '#' !in pad
  {
  }

  /** What remains of a trimmed line after a head and white space. */
  lemma HeadRest(t: string, n: nat)
    requires n <= |t| && Trimmed(t) && LStrip(t[n..]) != ""
    ensures var rest := LStrip(t[n..]); !IsSpace(rest[0]) && RStrip(rest) == rest
    ensures '#' !in t[..n] ==> ParseContextGit(LStrip(t[n..])) == ParseContextGit(t)
  {
    var pad := LStripParts(t[n..]);
    var rest := LStrip(t[n..]);
    assert t == t[..n] + pad + rest;
    assert rest[|rest| - 1] == t[|t| - 1];
    if '#' !in t[..n] {
      SpacesHashFree(pad);
      HashFreePrefix(t[..n] + pad, rest);
    }
  }

  lemma ParsedNameOk(t: string)
    requires Trimmed(t) && ScenarioHead(t).Some? && ParseContextGit(t).None?
    ensures NameOk(ScenarioHead(t).value.0, ScenarioHead(t).value.1)
  {
    hide LStrip, RStrip, IsSpace;
    if "Scenario Outline:" <= t && LStrip(t[17..]) != "" {
      assert t[..17] == "Scenario Outline:";
      HeadRest(t, 17);
      HashFreePrefix("Scenario Outline: ", LStrip(t[17..]));
      assert OUTLINE + ": " == "Scenario Outline: ";
    } else {
      assert t[..9] == "Scenario:";
      HeadRest(t, 9);
      HashFreePrefix("Scenario: ", LStrip(t[9..]));
      assert SCENARIO + ": " == "Scenario: ";
    }
  }

  lemma ParsedKeyword(keyword: string, t: string)
    requires Trimmed(t) && IsKeyword(keyword, t) && ParseContextGit(t).None? && '#' !in keyword
    ensures var text := LStrip(t[|keyword|..]);
            text != "" && !IsSpace(text[0]) && ParseContextGit(keyword + " " + RStrip(text)).None?
  {
    assert t[..|keyword|] == keyword;
    HeadRest(t, |keyword|);
    HashFreePrefix(keyword + " ", LStrip(t[|keyword|..]));
  }

  lemma ParsedStepOk(t: string, rows: seq<string>)
    requires Trimmed(t) && StepHead(t).Some? && ParseContextGit(t).None? && RowsOk(rows)
    ensures StepOk(Step(StepHead(t).value.0, StepHead(t).value.1, rows))
  {
    hide LStrip, RStrip, IsSpace, IsKeyword, IsTableRow;
    if IsKeyword("Given", t) {
      ParsedKeyword("Given", t);
    } else if IsKeyword("When", t) {
      ParsedKeyword("When", t);
    } else if IsKeyword("Then", t) {
      ParsedKeyword("Then", t);
    } else if IsKeyword("And", t) {
      ParsedKeyword("And", t);
    } else {
      ParsedKeyword("But", t);
    }
  }

  lemma {:induction false} TakenRowsOk(lines: seq<string>)
    ensures RowsOk(RStripAll(lines[..RowRun(lines)]))
  {
    hide Strip, RStrip, IsTableRow;
    if lines != [] && IsTableRow(Strip(lines[0])) {
      TakenRowsOk(lines[1..]);
      var n := RowRun(lines);
      assert lines[..n] == [lines[0]] + lines[1..][..n - 1];
      StripAfterRStrip(lines[0]);
      var rows := RStripAll(lines[..n]);
      assert rows[1..] == RStripAll(lines[1..][..n - 1]);
    }
  }

  lemma TakenStepOk(lines: seq<string>)
    requires lines != [] && var t := Strip(lines[0]); !EndsScenario(t) && StepHead(t).Some?
    ensures StepOk(TakeStep(lines).0)
  {
    hide Strip, StepHead, RowsOk, StepOk, ScenarioHead, IsTagLine, IsSectionRule, ParseContextGit;
    StripTrimmed(lines[0]);
    TakenRowsOk(lines[1..]);
    ParsedStepOk(Strip(lines[0]), RStripAll(lines[1..][..RowRun(lines[1..])]));
  }

  lemma TakenExamplesOk(lines: seq<string>)
    requires lines != [] && var t := Strip(lines[0]); !EndsScenario(t) && IsExamples(t)
    ensures BlockOk(TakeExamples(lines).0)
  {
    hide Strip, RStrip, RowsOk, ScenarioHead, IsTagLine, IsSectionRule, ParseContextGit, IsExamples;
    StripAfterRStrip(lines[0]);
    TakenRowsOk(lines[1 + BlankRun(lines[1..])..]);
  }

  ghost predicate BodyOk(b: Body) {
    StepsOk(b.steps) && CommentsOk(b.comments) && BlocksOk(b.examples)
  }

  lemma {:induction false} ParsedBodyOk(lines: seq<string>)
    ensures BodyOk(ParseBody(lines))
    decreases |lines|
  {
    hide Strip, RStrip, EndsScenario, IsExamples, StepHead, IsComment, StepOk, BlockOk, TakeExamples, TakeStep;
    if lines != [] && !EndsScenario(Strip(lines[0])) {
      var t := Strip(lines[0]);
      if IsExamples(t) {
        TakenExamplesOk(lines);
        ParsedBodyOk(TakeExamples(lines).1);
      } else if StepHead(t).Some? {
        TakenStepOk(lines);
        ParsedBodyOk(TakeStep(lines).1);
      } else {
        ParsedBodyOk(lines[1..]);
        if IsComment(t) {
          ParsedCommentOk(lines[0]);
        }
      }
    }
  }

  lemma ParsedCommentOk(line: string)
    requires IsComment(Strip(line)) && !EndsScenario(Strip(line))
    ensures CommentOk(RStrip(line))
  {
    hide Strip, RStrip, ScenarioHead, IsTagLine, IsSectionRule, ParseContextGit, IsComment;
    StripAfterRStrip(line);
  }

  lemma {:induction false} ParsedLeadOk(lines: seq<string>, contextgit: Option<ContextGit>, tags: seq<string>)
    requires AllTagSafe(tags)
    ensures var lead := ParseLead(lines, contextgit, tags);
            AllTagSafe(lead.tags) && (lead.rest != [] ==> ParseContextGit(Strip(lead.rest[0])).None?)
    decreases |lines|
  {
    hide Strip, ParseContextGit, IsTagLine, FindTags, TagSafe;
    if lines != [] {
      var t := Strip(lines[0]);
      if ParseContextGit(t).Some? {
        ParsedLeadOk(lines[1..], ParseContextGit(t), tags);
      } else if IsTagLine(t) {
        FoundTagsSafe(t);
        ParsedLeadOk(lines[1..], contextgit, tags + FindTags(t));
      }
    }
  }

  /** Every scenario the parser returns is one the printer can write back. */
  lemma {:induction false} ParsedScenariosOk(lines: seq<string>)
    ensures ScenariosOk(ParseScenarios(lines))
    decreases |lines|
  {
    hide Strip, ParseContextGit, ScenarioHead, IsFiller, ParseLead, ParseBody, AllTagSafe, NameOk, StepsOk, CommentsOk, BlocksOk;
    if lines != [] {
      if IsFiller(Strip(lines[0])) {
        ParsedScenariosOk(lines[1..]);
      } else {
        NoTagsSafe();
        ParsedLeadOk(lines, None, []);
        var lead := ParseLead(lines, None, []);
        if lead.rest != [] {
          var t := Strip(lead.rest[0]);
          if ScenarioHead(t).None? {
            ParsedScenariosOk(lead.rest[1..]);
          } else {
            StripTrimmed(lead.rest[0]);
            ParsedNameOk(t);
            var b := ParseBody(lead.rest[1..]);
            ParsedBodyOk(lead.rest[1..]);
            ParsedScenariosOk(b.rest);
          }
        }
      }
    }
  }

  lemma NoTagsSafe()
    ensures AllTagSafe([])
  {
  }

  // ------------------------------------------------------------------ white space at the end of lines

  lemma RStripAllSlice(lines: seq<string>, n: nat)
    requires n <= |lines|
    ensures RStripAll(lines)[n..] == RStripAll(lines[n..])
    ensures RStripAll(lines)[..n] == RStripAll(lines[..n])
  {
    hide RStrip, RStripAll;
  }

  lemma {:induction false} RStripAllTwice(lines: seq<string>)
    ensures RStripAll(RStripAll(lines)) == RStripAll(lines)
  {
    forall i | 0 <= i < |lines| ensures RStrip(RStrip(lines[i])) == RStrip(lines[i]) {
      StripAfterRStrip(lines[i]);
    }
  }

  lemma {:induction false} RunsIgnoreEndSpace(lines: seq<string>)
    ensures BlankRun(RStripAll(lines)) == BlankRun(lines) && RowRun(RStripAll(lines)) == RowRun(lines)
  {
    hide Strip, RStrip, IsTableRow;
    if lines != [] {
      StripAfterRStrip(lines[0]);
      RunsIgnoreEndSpace(lines[1..]);
      RStripAllSlice(lines, 1);
    }
  }

  lemma TakesIgnoreEndSpace(lines: seq<string>)
    requires lines != []
    ensures TakeExamples(RStripAll(lines)) == (TakeExamples(lines).0, RStripAll(TakeExamples(lines).1))
    ensures StepHead(Strip(lines[0])).Some? ==>
              StepHead(Strip(RStripAll(lines)[0])).Some?
              && TakeStep(RStripAll(lines)) == (TakeStep(lines).0, RStripAll(TakeStep(lines).1))
  {
    hide Strip, RStrip, StepHead, BlankRun, RowRun, RStripAll;
    StripAfterRStrip(lines[0]);
    RStripAllSlice(lines, 1);
    var after := lines[1..];
    RunsIgnoreEndSpace(after);
    RStripAllSlice(after, BlankRun(after));
    assert lines[1 + BlankRun(after)..] == after[BlankRun(after)..];
    assert RStripAll(lines)[1 + BlankRun(after)..] == RStripAll(lines)[1..][BlankRun(after)..];
    var table := after[BlankRun(after)..];
    RunsIgnoreEndSpace(table);
    RStripAllSlice(table, RowRun(table));
    RStripAllTwice(table[..RowRun(table)]);
    RStripAllSlice(after, RowRun(after));
    RStripAllTwice(after[..RowRun(after)]);
  }

  lemma {:induction false} BodyIgnoresEndSpace(lines: seq<string>)
    ensures var b := ParseBody(lines); ParseBody(RStripAll(lines)) == b.(rest := RStripAll(b.rest))
    decreases |lines|
  {
    hide Strip, RStrip, EndsScenario, IsExamples, StepHead, IsComment, TakeExamples, TakeStep;
    if lines != [] {
      StripAfterRStrip(lines[0]);
      TakesIgnoreEndSpace(lines);
      RStripAllSlice(lines, 1);
      var t := Strip(lines[0]);
      if EndsScenario(t) {
      } else if IsExamples(t) {
        BodyIgnoresEndSpace(TakeExamples(lines).1);
      } else if StepHead(t).Some? {
        BodyIgnoresEndSpace(TakeStep(lines).1);
      } else {
        BodyIgnoresEndSpace(lines[1..]);
      }
    }
  }

  lemma {:induction false} LeadIgnoresEndSpace(lines: seq<string>, contextgit: Option<ContextGit>, tags: seq<string>)
    ensures var lead := ParseLead(lines, contextgit, tags);
            ParseLead(RStripAll(lines), contextgit, tags) == lead.(rest := RStripAll(lead.rest))
    decreases |lines|
  {
    hide Strip, RStrip, ParseContextGit, IsTagLine, FindTags;
    if lines != [] {
      StripAfterRStrip(lines[0]);
      RStripAllSlice(lines, 1);
      var t := Strip(lines[0]);
      if ParseContextGit(t).Some? {
        LeadIgnoresEndSpace(lines[1..], ParseContextGit(t), tags);
      } else if IsTagLine(t) {
        LeadIgnoresEndSpace(lines[1..], contextgit, tags + FindTags(t));
      }
    }
  }

  /** Right-stripping every line leaves the parsed scenarios alone. */
  lemma {:induction false} ScenariosIgnoreEndSpace(lines: seq<string>)
    ensures ParseScenarios(RStripAll(lines)) == ParseScenarios(lines)
    decreases |lines|
  {
    hide Strip, RStrip, IsFiller, ScenarioHead, ParseLead, ParseBody, RStripAll;
    if lines != [] {
      StripAfterRStrip(lines[0]);
      RStripAllSlice(lines, 1);
      if IsFiller(Strip(lines[0])) {
        ScenariosIgnoreEndSpace(lines[1..]);
      } else {
        LeadIgnoresEndSpace(lines, None, []);
        var rest := ParseLead(lines, None, []).rest;
        if rest != [] {
          StripAfterRStrip(rest[0]);
          RStripAllSlice(rest, 1);
          ScenariosIgnoreEndSpace(rest[1..]);
          BodyIgnoresEndSpace(rest[1..]);
          ScenariosIgnoreEndSpace(ParseBody(rest[1..]).rest);
        }
      }
    } else {
      assert RStripAll(lines) == lines;
    }
  }

  // ------------------------------------------------------------------ blank lines at the end of the file

  lemma {:induction false} RunsIgnoreLastBlank(lines: seq<string>)
    ensures RowRun(lines + [""]) == RowRun(lines)
    ensures BlankRun(lines + [""]) == if BlankRun(lines) == |lines| then |lines| + 1 else BlankRun(lines)
  {
    hide Strip, IsTableRow;
    BlankLine();
    if lines == [] {
      assert lines + [""] == [""];
      assert [""][1..] == [];
    } else {
      assert (lines + [""])[1..] == lines[1..] + [""];
      RunsIgnoreLastBlank(lines[1..]);
    }
  }

  /** The remainder after a blank was appended: one line longer, unless nothing was left anyway. */
  predicate BlankLonger(rest: seq<string>, longer: seq<string>) {
    longer == rest + [""] || (longer == [] && rest == [])
  }

  lemma TakeStepLastBlank(lines: seq<string>)
    requires lines != [] && StepHead(Strip(lines[0])).Some?
    ensures TakeStep(lines + [""]).0 == TakeStep(lines).0
    ensures TakeStep(lines + [""]).1 == TakeStep(lines).1 + [""]
  {
    hide Strip, StepHead;
    var after := lines[1..];
    assert (lines + [""])[1..] == after + [""];
    RunsIgnoreLastBlank(after);
    var n := RowRun(after);
    assert (after + [""])[..n] == after[..n];
    assert (after + [""])[n..] == after[n..] + [""];
  }

  lemma TakeExamplesLastBlank(lines: seq<string>)
    requires lines != []
    ensures TakeExamples(lines + [""]).0 == TakeExamples(lines).0
    ensures BlankLonger(TakeExamples(lines).1, TakeExamples(lines + [""]).1)
  {
    hide Strip, RStrip, IsTableRow;
    var after := lines[1..];
    assert (lines + [""])[1..] == after + [""];
    RunsIgnoreLastBlank(after);
    var k := BlankRun(after);
    if k < |after| {
      var table := after[k..];
      assert lines[1 + k..] == table && (lines + [""])[1 + k..] == table + [""];
      RunsIgnoreLastBlank(table);
      var n := RowRun(table);
      assert (table + [""])[..n] == table[..n];
      assert (table + [""])[n..] == table[n..] + [""];
    } else {
      assert lines[1 + k..] == [] && (lines + [""])[1 + |after| + 1..] == [];
    }
  }

  lemma {:induction false} BodyLastBlank(lines: seq<string>)
    ensures var b, b' := ParseBody(lines), ParseBody(lines + [""]);
            b'.steps == b.steps && b'.comments == b.comments && b'.examples == b.examples
            && BlankLonger(b.rest, b'.rest)
    decreases |lines|
  {
    hide Strip, RStrip, EndsScenario, IsExamples, StepHead, IsComment, TakeExamples, TakeStep;
    if lines == [] {
      BodySkipsBlank([]);
      assert lines + [""] == [""] + [];
    } else {
      var t := Strip(lines[0]);
      if EndsScenario(t) {
      } else if IsExamples(t) {
        TakeExamplesLastBlank(lines);
        BodyLastBlank(TakeExamples(lines).1);
      } else if StepHead(t).Some? {
        TakeStepLastBlank(lines);
        BodyLastBlank(TakeStep(lines).1);
      } else {
        assert (lines + [""])[1..] == lines[1..] + [""];
        BodyLastBlank(lines[1..]);
      }
    }
  }

  lemma {:induction false} LeadLastBlank(lines: seq<string>, contextgit: Option<ContextGit>, tags: seq<string>)
    ensures var lead := ParseLead(lines, contextgit, tags);
            ParseLead(lines + [""], contextgit, tags) == lead.(rest := lead.rest + [""])
    decreases |lines|
  {
    hide Strip, ParseContextGit, IsTagLine, FindTags;
    if lines == [] {
      BlankNoLead();
      assert lines + [""] == [""];
    } else {
      assert (lines + [""])[1..] == lines[1..] + [""];
      var t := Strip(lines[0]);
      if ParseContextGit(t).Some? {
        LeadLastBlank(lines[1..], ParseContextGit(t), tags);
      } else if IsTagLine(t) {
        LeadLastBlank(lines[1..], contextgit, tags + FindTags(t));
      }
    }
  }

  lemma BlankNoLead()
    ensures Strip("") == "" && ParseContextGit("").None? && !IsTagLine("") && ScenarioHead("").None? && IsFiller("")
    ensures !EndsScenario("") && !EndsDescription("") && !IsFeature("") && !IsBackground("")
  {
    BlankApart();
  }

  lemma {:induction false} ScenariosLastBlank(lines: seq<string>)
    ensures ParseScenarios(lines + [""]) == ParseScenarios(lines)
    decreases |lines|
  {
    hide Strip, IsFiller, ScenarioHead, ParseLead, ParseBody;
    BlankNoLead();
    if lines == [] {
      assert lines + [""] == [""];
      assert [""][1..] == [];
    } else if IsFiller(Strip(lines[0])) {
      assert (lines + [""])[1..] == lines[1..] + [""];
      ScenariosLastBlank(lines[1..]);
    } else {
      LeadLastBlank(lines, None, []);
      var rest := ParseLead(lines, None, []).rest;
      if rest == [] {
        assert rest + [""] == [""];
        assert [""][1..] == [];
      } else {
        assert (rest + [""])[1..] == rest[1..] + [""];
        ScenariosLastBlank(rest[1..]);
        BodyLastBlank(rest[1..]);
        ScenariosLastBlank(ParseBody(rest[1..]).rest);
      }
    }
  }
}
