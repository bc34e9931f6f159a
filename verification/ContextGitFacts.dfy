/** The contextgit comment on its text: what a written comment is read back as, and which scenario of a source file
    carries it. */
module ContextGitFacts {
  import opened Text
  import opened Gherkin
  import opened GherkinFacts
  import opened FeatureParser
  import opened FeatureRender
  import opened RoundTrip
  import opened FileReadsBack

  // ------------------------------------------------------------------ the comment as it is written

  function KindPart(kind: Option<string>): string {
    match kind case None => "" case Some(k) => " type=" + k
  }

  function UpstreamPart(names: Option<seq<string>>): string {
    match names case None => "" case Some(n) => " upstream=[" + Join(", ", n) + "]"
  }

  /** The comment with its two optional parts. */
  function Annotation(id: string, kind: Option<string>, names: Option<seq<string>>): string {
    "# @contextgit id=" + id + KindPart(kind) + UpstreamPart(names)
  }

  /** What the comment says: without a type it is a test, without a list it has no upstream. */
  function Meant(id: string, kind: Option<string>, names: Option<seq<string>>): ContextGit {
    ContextGit(id, if kind.Some? then kind.value else "test", if names.Some? then names.value else [])
  }

  predicate NoSpace(s: string) {
    s != "" && forall i | 0 <= i < |s| :: !IsSpace(s[i])
  }

  predicate RefOk(name: string) {
    name != "" && Trimmed(name) && ',' !in name && ']' !in name
  }

  ghost predicate RefsOk(names: seq<string>) {
    forall i | 0 <= i < |names| :: RefOk(names[i])
  }

  ghost predicate AnnotationOk(id: string, kind: Option<string>, names: Option<seq<string>>) {
    NoSpace(id) && (kind.Some? ==> NoSpace(kind.value)) && (names.Some? ==> RefsOk(names.value))
  }

  // ------------------------------------------------------------------ its pieces

  lemma OneBlank(s: string)
    requires s != "" && !IsSpace(s[0])
    ensures LStrip(" " + s) == s && LStrip(s) == s
  {
    assert (" " + s)[1..] == s;
  }

  lemma {:induction false} TokenEnds(word: string, rest: string)
    requires forall i | 0 <= i < |word| :: !IsSpace(word[i])
    requires rest == "" || IsSpace(rest[0])
    ensures Token(word + rest) == word
  {
    hide IsSpace;
    if word == "" {
      assert word + rest == rest;
    } else {
      assert (word + rest)[1..] == word[1..] + rest;
      TokenEnds(word[1..], rest);
    }
  }

  lemma {:induction false} SplitAt(a: string, sep: char, rest: string)
    requires sep !in a
    ensures SplitOn(a + [sep] + rest, sep) == [a] + SplitOn(rest, sep)
  {
    if a == "" {
      assert (a + [sep] + rest)[1..] == rest;
    } else {
      assert (a + [sep] + rest)[1..] == a[1..] + [sep] + rest;
      assert a[0] in a && forall c | c in a[1..] :: c in a;
      SplitAt(a[1..], sep, rest);
      assert [a[0]] + a[1..] == a;
    }
  }

  lemma {:induction false} SplitWhole(a: string, sep: char)
    requires sep !in a
    ensures SplitOn(a, sep) == [a]
  {
    if a != "" {
      assert a[0] in a && forall c | c in a[1..] :: c in a;
      SplitWhole(a[1..], sep);
      assert [a[0]] + a[1..] == a;
    }
  }

  /** A blank in front changes no stripped piece. */
  lemma BlankInFront(s: string)
    ensures StripAll(SplitOn(" " + s, ',')) == StripAll(SplitOn(s, ','))
  {
    hide Strip;
    var parts := SplitOn(s, ',');
    assert (" " + s)[1..] == s;
    assert SplitOn(" " + s, ',') == [" " + parts[0]] + parts[1..];
    BlankStrips(parts[0]);
    assert ([" " + parts[0]] + parts[1..])[1..] == parts[1..];
  }

  lemma BlankStrips(s: string)
    ensures Strip(" " + s) == Strip(s)
  {
    assert AllSpace(" ");
    LStripPad(" ", s);
  }

  lemma {:induction false} ListSplits(names: seq<string>)
    requires RefsOk(names) && names != []
    ensures StripAll(SplitOn(Join(", ", names), ',')) == names
  {
    hide Strip, IsSpace;
    assert RefOk(names[0]);
    StripTrimmed(names[0]);
    if |names| == 1 {
      SplitWhole(names[0], ',');
      assert [names[0]][1..] == [] && names == [names[0]];
    } else {
      var rest := Join(", ", names[1..]);
      assert RefsOk(names[1..]) by {
        assert forall i | 0 <= i < |names| - 1 :: names[1..][i] == names[i + 1];
      }
      ListSplits(names[1..]);
      assert Join(", ", names) == names[0] + [','] + (" " + rest);
      SplitAt(names[0], ',', " " + rest);
      BlankInFront(rest);
      assert ([names[0]] + SplitOn(" " + rest, ','))[1..] == SplitOn(" " + rest, ',');
      assert names == [names[0]] + names[1..];
    }
  }

  lemma {:induction false} NoneEmpty(names: seq<string>)
    requires RefsOk(names)
    ensures DropEmpty(names) == names
  {
    hide Trimmed;
    if names != [] {
      assert RefOk(names[0]);
      assert forall i | 0 <= i < |names| - 1 :: names[1..][i] == names[i + 1];
      NoneEmpty(names[1..]);
      assert names == [names[0]] + names[1..];
    }
  }

  lemma {:induction false} NoBracket(names: seq<string>)
    requires RefsOk(names)
    ensures ']' !in Join(", ", names)
  {
    hide Trimmed;
    if names != [] {
      assert RefOk(names[0]);
      assert forall i | 0 <= i < |names| - 1 :: names[1..][i] == names[i + 1];
      NoBracket(names[1..]);
      assert ']' !in ", ";
    }
  }

  /** The names between the brackets. */
  lemma ListRead(names: seq<string>)
    requires RefsOk(names)
    ensures var f := Join(", ", names) + "]";
            ']' in f && DropEmpty(StripAll(SplitOn(SplitOn(f, ']')[0], ','))) == names
  {
    hide Strip, Join, SplitOn, StripAll, DropEmpty, RefsOk;
    var body := Join(", ", names);
    NoBracket(names);
    SplitAt(body, ']', "");
    assert body + [']'] + "" == body + "]";
    if names == [] {
      NothingListed();
    } else {
      ListSplits(names);
      NoneEmpty(names);
    }
  }

  lemma NothingListed()
    ensures Join(", ", []) == "" && DropEmpty(StripAll(SplitOn("", ','))) == []
  {
    AllSpaceStrips("");
    assert SplitOn("", ',') == [""];
    assert [""][1..] == [];
  }

  // ------------------------------------------------------------------ the whole comment

  lemma PartStarts(kind: Option<string>, names: Option<seq<string>>)
    ensures var tail := KindPart(kind) + UpstreamPart(names); tail == "" || IsSpace(tail[0])
    ensures var u := UpstreamPart(names); u == "" || IsSpace(u[0])
  {
  }

  lemma HeadRead(id: string, rest: string)
    requires NoSpace(id)
    ensures var u := "# @contextgit id=" + id + rest;
            ContextGitHead(u) && LStrip(LStrip(u[1..])[11..]) == "id=" + id + rest
  {
    hide LStrip, IsSpace;
    var u := "# @contextgit id=" + id + rest;
    var c := "id=" + id + rest;
    var a := "@contextgit" + " " + c;
    BlankIsSpace();
    assert u[1..] == " " + a;
    OneBlank(a);
    assert a[11..] == " " + c;
    OneBlank(c);
    assert c[3] == id[0];
  }

  lemma BlankIsSpace()
    ensures IsSpace(' ') && !IsSpace('@') && !IsSpace('i') && !IsSpace('t') && !IsSpace('u') && !IsSpace('#') && !IsSpace(']')
  {
  }

  lemma KindAbsent(rest: string)
    requires rest == "" || " upstream=[" <= rest
    ensures !("type=" <= LStrip(rest))
  {
    hide LStrip, IsSpace;
    BlankIsSpace();
    EmptyLStrip();
    if rest != "" {
      assert rest == " " + rest[1..] && rest[1] == 'u';
      OneBlank(rest[1..]);
    }
  }

  lemma KindPresent(k: string, rest: string)
    requires NoSpace(k) && (rest == "" || " upstream=[" <= rest)
    ensures var e := LStrip(" type=" + k + rest);
            e == "type=" + k + rest && !IsSpace(e[5]) && Token(e[5..]) == k && e[5 + |k|..] == rest
  {
    hide LStrip, IsSpace, Token;
    BlankIsSpace();
    var e := "type=" + k + rest;
    assert " type=" + k + rest == " " + e;
    OneBlank(e);
    assert e[5..] == k + rest;
    TokenEnds(k, rest);
  }

  /** The type part: present or absent, and what is left for the list. */
  lemma KindRead(kind: Option<string>, rest: string)
    requires kind.Some? ==> NoSpace(kind.value)
    requires rest == "" || " upstream=[" <= rest
    ensures var afterId := KindPart(kind) + rest;
            var e := LStrip(afterId);
            var typed := |e| < |afterId| && "type=" <= e && |e| > 5 && !IsSpace(e[5]);
            && typed == kind.Some?
            && (typed ==> Token(e[5..]) == kind.value && e[5 + |kind.value|..] == rest)
            && (!typed ==> afterId == rest)
  {
    hide LStrip, IsSpace, Token;
    match kind
    case None =>
      KindAbsent(rest);
      assert KindPart(kind) + rest == rest;
    case Some(k) =>
      KindPresent(k, rest);
  }

  lemma EmptyLStrip()
    ensures LStrip("") == ""
  {
  }

  lemma UpstreamRead(names: Option<seq<string>>)
    requires names.Some? ==> RefsOk(names.value)
    ensures var rest := UpstreamPart(names);
            var f := LStrip(rest);
            var listed := |f| < |rest| && "upstream=[" <= f && ']' in f[10..];
            && listed == names.Some?
            && (listed ==> DropEmpty(StripAll(SplitOn(SplitOn(f[10..], ']')[0], ','))) == names.value)
  {
    hide LStrip, IsSpace, Join, SplitOn, StripAll, DropEmpty, RefsOk;
    BlankIsSpace();
    EmptyLStrip();
    if names.Some? {
      var body := Join(", ", names.value) + "]";
      var f := "upstream=[" + body;
      assert UpstreamPart(names) == " " + f;
      OneBlank(f);
      assert f[10..] == body;
      ListRead(names.value);
    }
  }

  lemma AnnotationAt(u: string, id: string, kind: Option<string>, names: Option<seq<string>>)
    requires AnnotationOk(id, kind, names) && ContextGitHead(u)
    requires LStrip(LStrip(u[1..])[11..]) == "id=" + id + (KindPart(kind) + UpstreamPart(names))
    ensures ContextGitAt(u) == Meant(id, kind, names)
  {
    hide LStrip, IsSpace, Token, SplitOn, StripAll, DropEmpty, RefsOk, KindPart, UpstreamPart, ContextGitHead;
    var rest := KindPart(kind) + UpstreamPart(names);
    var c := "id=" + id + rest;
    assert c[3..] == id + rest;
    PartStarts(kind, names);
    TokenEnds(id, rest);
    assert c[3 + |id|..] == rest;
    ListStart(names);
    KindRead(kind, UpstreamPart(names));
    UpstreamRead(names);
  }

  /** A written comment is read back with its id, its type and its upstream names in order. */
  lemma AnnotationRead(id: string, kind: Option<string>, names: Option<seq<string>>)
    requires AnnotationOk(id, kind, names)
    ensures ParseContextGit(Annotation(id, kind, names)) == Some(Meant(id, kind, names))
  {
    hide LStrip, ContextGitHead, ContextGitAt, KindPart, UpstreamPart;
    var rest := KindPart(kind) + UpstreamPart(names);
    assert Annotation(id, kind, names) == "# @contextgit id=" + id + rest;
    HeadRead(id, rest);
    AnnotationAt(Annotation(id, kind, names), id, kind, names);
  }

  lemma ListStart(names: Option<seq<string>>)
    ensures UpstreamPart(names) == "" || " upstream=[" <= UpstreamPart(names)
  {
  }

  // ------------------------------------------------------------------ the scenario that carries it

  /** A scenario of a source file with the comment above it. */
  datatype Annotated = Annotated(id: string, kind: Option<string>, names: Option<seq<string>>, scenario: Scenario)

  ghost predicate AnnotatedOk(a: Annotated) {
    AnnotationOk(a.id, a.kind, a.names) && ScenarioOk(a.scenario)
  }

  function CommentLine(a: Annotated): string {
    "  " + Annotation(a.id, a.kind, a.names)
  }

  /** A source file's scenarios, each under its comment and followed by a blank line. */
  function SourceLines(list: seq<Annotated>): seq<string> {
    if list == [] then []
    else [CommentLine(list[0])] + RenderScenario(list[0].scenario) + [""] + SourceLines(list[1..])
  }

  function WithComment(a: Annotated): Scenario {
    Norm(a.scenario).(contextgit := Some(Meant(a.id, a.kind, a.names)))
  }

  function AllWithComments(list: seq<Annotated>): seq<Scenario> {
    if list == [] then [] else [WithComment(list[0])] + AllWithComments(list[1..])
  }

  lemma CommentLineFacts(a: Annotated)
    requires AnnotationOk(a.id, a.kind, a.names)
    ensures var t := Strip(CommentLine(a));
            && ParseContextGit(t) == Some(Meant(a.id, a.kind, a.names))
            && EndsScenario(t) && EndsDescription(t) && !IsFiller(t) && !IsTableRow(t) && t != ""
  {
    hide IsSpace, ScenarioHead, IsTagLine, IsSectionRule, Strip, KindPart, UpstreamPart, Join, ParseContextGit;
    Pads();
    BlankIsSpace();
    var t := Annotation(a.id, a.kind, a.names);
    AnnotationRead(a.id, a.kind, a.names);
    LastOfAnnotation(a.id, a.kind, a.names);
    assert t[0] == '#';
    StripIndented("  ", t);
  }

  lemma LastOfAnnotation(id: string, kind: Option<string>, names: Option<seq<string>>)
    requires AnnotationOk(id, kind, names)
    ensures var t := Annotation(id, kind, names); t != "" && !IsSpace(t[|t| - 1])
  {
    hide IsSpace, Join, RefsOk;
    BlankIsSpace();
    var t := Annotation(id, kind, names);
    if names.Some? {
      assert t[|t| - 1] == ']';
    } else if kind.Some? {
      assert t[|t| - 1] == kind.value[|kind.value| - 1];
    } else {
      assert t[|t| - 1] == id[|id| - 1];
    }
  }

  lemma LeadUnderComment(s: Scenario, cg: Option<ContextGit>, after: seq<string>)
    requires AllTagSafe(s.tags) && NameOk(s.keyword, s.name)
    ensures ParseLead(TagLine(s.tags) + [ScenarioLine(s)] + after, cg, []) == Lead(cg, s.tags, [ScenarioLine(s)] + after)
  {
    hide Strip, IsTagLine, FindTags, ParseContextGit, ScenarioHead, IsFiller, IsTableRow, NameOk, EndsScenario,
         EndsDescription, ScenarioLine, AllTagSafe, Join;
    PrintedScenarioLine(s);
    var inner := [ScenarioLine(s)] + after;
    if s.tags == [] {
      assert TagLine(s.tags) + [ScenarioLine(s)] + after == inner;
    } else {
      PrintedTagLine(s.tags);
      var lines := TagLine(s.tags) + [ScenarioLine(s)] + after;
      assert lines[1..] == inner;
      assert [] + s.tags == s.tags;
    }
  }

  lemma OneAnnotatedRead(a: Annotated, tail: seq<string>)
    requires AnnotatedOk(a) && BodyClear(tail)
    ensures ParseScenarios([CommentLine(a)] + RenderScenario(a.scenario) + tail)
            == [WithComment(a)] + ParseScenarios(ParseBody(tail).rest)
  {
    hide Strip, ParseLead, ParseContextGit, ScenarioHead, IsFiller, IsTableRow, NameOk, EndsScenario, EndsDescription,
         ScenarioLine, AllTagSafe, StepsOk, CommentsOk, BlocksOk, BodyClear, ParseBody, TagLine, RenderSteps,
         RenderExamples, IndentAll, CommentLine, AnnotationOk;
    var s := a.scenario;
    var cg := Some(Meant(a.id, a.kind, a.names));
    var body := RenderSteps(s.steps) + IndentAll(STEP_PAD, s.commentLines) + RenderExamples(s.examples) + tail;
    var under := TagLine(s.tags) + [ScenarioLine(s)] + body;
    var lines := [CommentLine(a)] + under;
    assert [CommentLine(a)] + RenderScenario(s) + tail == lines;
    CommentLineFacts(a);
    LeadUnderComment(s, cg, body);
    LeadStep(CommentLine(a), under);
    PrintedScenarioLine(s);
    BodyReadsBack(s, tail);
    assert ([ScenarioLine(s)] + body)[1..] == body;
  }

  lemma LeadStep(line: string, under: seq<string>)
    requires ParseContextGit(Strip(line)).Some?
    ensures ParseLead([line] + under, None, []) == ParseLead(under, ParseContextGit(Strip(line)), [])
  {
    hide Strip, ParseContextGit;
    assert ([line] + under)[1..] == under;
  }

  /** Every scenario of a source file carries exactly what the comment above it says. */
  lemma {:induction false} SourceRead(list: seq<Annotated>)
    requires forall i | 0 <= i < |list| :: AnnotatedOk(list[i])
    ensures ParseScenarios(SourceLines(list)) == AllWithComments(list)
    ensures BodyClear([""] + SourceLines(list)) && ParseBody([""] + SourceLines(list)).rest == SourceLines(list)
    ensures list != [] ==> var first := Strip(SourceLines(list)[0]); EndsScenario(first) && EndsDescription(first)
  {
    hide EndsScenario, EndsDescription, Strip, AnnotatedOk, WithComment, RenderScenario, BodyClear, ParseBody, IsTableRow,
         CommentLine, AnnotationOk, ScenarioOk, SourceLines, AllWithComments, ParseScenarios;
    if list == [] {
      NoSource();
      EndsBodyClear([]);
    } else {
      var rest := SourceLines(list[1..]);
      assert forall i | 0 <= i < |list| - 1 :: list[1..][i] == list[i + 1];
      SourceRead(list[1..]);
      PartsOk(list[0]);
      CommentLineFacts(list[0]);
      OneAnnotatedRead(list[0], [""] + rest);
      SourceCons(list);
      EndsBodyClear(SourceLines(list));
    }
  }

  lemma SourceCons(list: seq<Annotated>)
    requires list != []
    ensures SourceLines(list) == [CommentLine(list[0])] + RenderScenario(list[0].scenario) + ([""] + SourceLines(list[1..]))
    ensures SourceLines(list)[0] == CommentLine(list[0])
    ensures AllWithComments(list) == [WithComment(list[0])] + AllWithComments(list[1..])
  {
    hide CommentLine, RenderScenario, WithComment;
  }

  lemma PartsOk(a: Annotated)
    requires AnnotatedOk(a)
    ensures AnnotationOk(a.id, a.kind, a.names) && ScenarioOk(a.scenario)
  {
  }

  /** The same for a whole source file. */
  lemma SourceFileRead(featureLine: string, description: seq<string>, background: seq<string>, list: seq<Annotated>)
    requires FeatureLineOk(featureLine) && DescriptionOk(description) && BackgroundOk(background)
    requires forall i | 0 <= i < |list| :: AnnotatedOk(list[i])
    ensures var f := ParseFeature([featureLine] + description + background + SourceLines(list));
            f.backgroundLines == background && f.scenarios == AllWithComments(list)
  {
    hide ParseFeature, Strip, EndsScenario, EndsDescription, FeatureLineOk, DescriptionOk, BackgroundOk, AnnotatedOk,
         ParseScenarios, SourceLines, BodyClear, AllWithComments, ParseBody, AllTagSafe, StampOk, Join;
    SourceRead(list);
    NoSource();
    NothingInFront(featureLine, description, background, SourceLines(list));
  }

  lemma NothingInFront(featureLine: string, description: seq<string>, background: seq<string>, lines: seq<string>)
    requires FeatureLineOk(featureLine) && DescriptionOk(description) && BackgroundOk(background)
    requires lines == [] || (EndsScenario(Strip(lines[0])) && EndsDescription(Strip(lines[0])))
    ensures var f := ParseFeature([featureLine] + description + background + lines);
            f.backgroundLines == background && f.scenarios == ParseScenarios(lines)
  {
    hide ParseFeature, Strip, EndsScenario, EndsDescription, FeatureLineOk, DescriptionOk, BackgroundOk, ParseScenarios;
    PartsRead([], [], featureLine, description, background, lines);
    assert [] + [] + [featureLine] + description + background + lines == [featureLine] + description + background + lines;
  }

  lemma NoSource()
    ensures SourceLines([]) == [] && AllWithComments([]) == [] && ParseScenarios([]) == []
  {
  }
}
