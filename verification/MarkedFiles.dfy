/** The hand-edit comment, from file to file: what it saves when TARGET no longer has the scenario. */
module MarkedFiles {
  import opened Text
  import opened Gherkin
  import opened GherkinFacts
  import opened FeatureParser
  import opened FeatureRender
  import opened RoundTrip
  import opened Merge
  import opened FileReadsBack
  import opened MergeFixpoint
  import opened MergeTwice
  import opened HandEdits
  import opened MarkerFacts
  import opened SampleFiles

  /** A scenario of a compiled file that carries the comment, with its mark in any case, is found under its id
      after every sequence of merges whose TARGET files no longer name it. */
  lemma CommentSurvives(lines: seq<string>, inputs: seq<Input>, id: string, s: Scenario, k: nat,
                        before: string, space: string, mark: string, after: string)
    requires CompiledOk(ParseFeature(lines).scenarios) && Find(ParseFeature(lines).scenarios, id) == Some(s)
    requires forall input | input in inputs :: InputOk(input, {id})
    requires k < |s.commentLines| && s.commentLines[k] == before + "#" + space + mark + after
    requires AllSpace(space) && Lower(mark) == "hand-edited"
    ensures var found := Find(ParseFeature(FileAfterAll(lines, inputs)).scenarios, id);
            found.Some? && Norm(found.value) == Norm(s)
  {
    hide ParseFeature, CompiledOk, InputOk, FileAfterAll, Find, Norm, NormAll, HandEdited, Lower, AllSpace, Protected;
    CommentPreserves(s, k, before, space, mark, after);
    HandEditsSurvive(lines, inputs, {id});
    var first, last := ParseFeature(lines).scenarios, ParseFeature(FileAfterAll(lines, inputs)).scenarios;
    ProtectedMember(first, {id}, s);
    var i :| 0 <= i < |Protected(first, {id})| && Protected(first, {id})[i] == s;
    assert NormAll(Protected(last, {id}))[i] == NormAll(Protected(first, {id}))[i];
    ProtectedMember(last, {id}, Protected(last, {id})[i]);
  }

  // ------------------------------------------------------------------ a concrete file

  /** A compiled file whose one scenario is marked by a comment only. */
  const MARKED_FILE := ["Feature: f", "  @T-1", "  Scenario: x", "    # HAND-EDITED", ""]

  const MARKED := Scenario(None, ["@T-1"], SCENARIO, "x", [], [], ["    # HAND-EDITED"])

  lemma CommentStrips()
    ensures Strip("    # HAND-EDITED") == "# HAND-EDITED"
  {
    hide Strip, IsSpace;
    Pads();
    assert Trimmed("# HAND-EDITED") by {
      NoSpaceEnds('#', 'D');
    }
    StripIndented("    ", "# HAND-EDITED");
    assert "    " + "# HAND-EDITED" == "    # HAND-EDITED";
  }

  lemma NoSpaceEnds(a: char, b: char)
    ensures a == '#' ==> !IsSpace(a)
    ensures b == 'D' ==> !IsSpace(b)
  {
  }

  lemma NoOtherComment()
    ensures ParseContextGit("# HAND-EDITED").None? && !IsSectionRule("# HAND-EDITED")
  {
    hide LStrip, ContextGitAt;
    var t := "# HAND-EDITED";
    assert t[1..] == " HAND-EDITED";
    BlankThenLetter();
    NoHashNoContextGit(t[1..]);
    assert t[2] == 'H' && "# ====="[2] == '=';
  }

  lemma BlankThenLetter()
    ensures LStrip(" HAND-EDITED") == "HAND-EDITED"
  {
    assert " HAND-EDITED"[1..] == "HAND-EDITED";
  }

  lemma CommentIsOk()
    ensures CommentsOk(["    # HAND-EDITED"]) && IndentAll(STEP_PAD, ["    # HAND-EDITED"]) == ["    # HAND-EDITED"]
  {
    hide Strip, ParseContextGit, IsSectionRule;
    CommentStrips();
    NoOtherComment();
    assert ["    # HAND-EDITED"][1..] == [];
    assert STEP_PAD + "# HAND-EDITED" == "    # HAND-EDITED";
  }

  lemma NameIsOk()
    ensures NameOk(SCENARIO, "x")
  {
    hide ParseContextGit;
    OneLetter();
    NoHashNoContextGit(SCENARIO + ": " + "x");
  }

  lemma TagIsOk()
    ensures AllTagSafe(["@T-1"]) && TagId(["@T-1"]) == Some("T-1")
  {
    assert "@T-" <= "@T-1" && "@T-1"[1..] == "T-1";
  }

  lemma MarkedIsOk()
    ensures ScenarioOk(MARKED) && Norm(MARKED) == MARKED && TagId(MARKED.tags) == Some("T-1")
  {
    hide CommentsOk, RStrip, NameOk, AllTagSafe, TagId, IndentAll;
    CommentIsOk();
    NameIsOk();
    TagIsOk();
    OneLetter();
    assert NormSteps([]) == [] && NormBlocks([]) == [];
  }

  lemma OneLetter()
    ensures RStrip("x") == "x"
  {
  }

  lemma MarkedText()
    ensures FileOf([MARKED]) == MARKED_FILE && FileOf([]) == ["Feature: f"]
  {
    hide IndentAll;
    CommentIsOk();
    assert [MARKED][1..] == [] && RenderAll([]) == [];
    assert "  " + Join(" ", ["@T-1"]) == "  @T-1";
    assert ScenarioLine(MARKED) == "  Scenario: x";
    assert RenderSteps([]) == [] && RenderExamples([]) == [];
    assert RenderScenario(MARKED) == ["  @T-1", "  Scenario: x", "    # HAND-EDITED"];
  }

  lemma MarkIsPreserved()
    ensures Classify(Some(MARKED), None) == LegacyPreserve
  {
    hide Lower, AllSpace;
    assert Lower("HAND-EDITED") == "hand-edited" by {
      UpperMark();
    }
    assert "    # HAND-EDITED" == "    " + "#" + " " + "HAND-EDITED" + "";
    Pads();
    OneBlankSpace();
    CommentPreserves(MARKED, 0, "    ", " ", "HAND-EDITED", "");
  }

  lemma OneBlankSpace()
    ensures AllSpace(" ")
  {
  }

  lemma UpperMark()
    ensures Lower("HAND-EDITED") == "hand-edited"
  {
    hide Lower;
    var u, l := Lower("HAND-EDITED"), "hand-edited";
    assert forall i | 0 <= i < 11 :: u[i] == LowerChar("HAND-EDITED"[i]) == l[i];
  }

  /** TARGET has its `Feature:` line and no scenario any more; the marked scenario is still in the file that the
      merge writes. */
  lemma CommentSavesScenario(env: Env)
    ensures ParseFeature(MARKED_FILE).scenarios == [MARKED] && ParseFeature(["Feature: f"]).scenarios == []
    ensures ParseFeature(FileAfter(MARKED_FILE, Input(env, ["Feature: f"], []))).scenarios == [MARKED]
  {
    hide ParseFeature, ScenarioOk, Norm, NormAll, Classify, TagId, MergedFile, FileOf, FeatureOk, BackgroundOk;
    MarkedIsOk();
    MarkedText();
    FileOfParses([MARKED]);
    FileOfParses([]);
    OnlyMarked();
    var target, legacy := ParseFeature(["Feature: f"]), ParseFeature(MARKED_FILE);
    ParsedFeatureOk(["Feature: f"]);
    MarkIsPreserved();
    var kept := [Outcome("T-1", LegacyPreserve, MARKED)];
    OnlyOutcome(env);
    BackgroundParsed(MARKED_FILE);
    assert [] + kept == kept;
    assert Survivors(kept) == [MARKED] by {
      assert kept[1..] == [] && [MARKED] + Survivors([]) == [MARKED];
    }
    MergedFileReadsBack([], target, MergedBackground(env, target, Some(legacy)), [MARKED]);
  }

  lemma OnlyMarked()
    ensures NormAll([MARKED]) == [MARKED] && NormAll([]) == []
  {
    hide Norm;
    MarkedIsOk();
    NormAllCons(MARKED, []);
    assert [MARKED] + [] == [MARKED] && [MARKED] + NormAll([]) == [MARKED];
  }

  lemma OnlyOutcome(env: Env)
    ensures Pass1(env, [MARKED], []).value == [] && IdSet([]) == {}
    ensures Pass2([MARKED], {}, KeyOrder([MARKED])) == [Outcome("T-1", LegacyPreserve, MARKED)]
  {
    hide Classify, TagId, ScenarioOk, Norm, HandEdited;
    MarkedIsOk();
    MarkIsPreserved();
    assert [MARKED][1..] == [] && KeyOrder([MARKED]) == ["T-1"] + [] && ["T-1"][1..] == [];
    assert Find([MARKED], "T-1") == Some(MARKED);
    var kept := [Outcome("T-1", LegacyPreserve, MARKED)];
    assert kept + [] == kept;
  }
}
