/** The rewrite pass on the text of steps and names: which suffixes are cut, which sentences are dropped, and what
    becomes of a name. */
module StepText {
  import opened Text
  import opened Gherkin
  import opened StepRewrite

  // ------------------------------------------------------------------ suffixes

  lemma LastDiffers(text: string, suffix: string, other: string)
    requires EndsWith(text, suffix) && suffix != "" && other != ""
    requires suffix[|suffix| - 1] != other[|other| - 1]
    ensures !EndsWith(text, other)
  {
    hide EndsWith;
    EndsLast(text, suffix);
    if EndsWith(text, other) {
      EndsLast(text, other);
    }
  }

  lemma EndsLast(text: string, suffix: string)
    requires EndsWith(text, suffix) && suffix != ""
    ensures text != "" && text[|text| - 1] == suffix[|suffix| - 1]
  {
    assert text[|text| - |suffix|..][|suffix| - 1] == text[|text| - 1];
  }

  lemma {:induction false} SuffixCut(text: string, suffixes: seq<string>, k: nat)
    requires k < |suffixes| && forall i | 0 <= i < |suffixes| :: suffixes[i] != ""
    requires forall i | 0 <= i < k :: var s, o := suffixes[k], suffixes[i]; s[|s| - 1] != o[|o| - 1]
    ensures StripFirstSuffix(text + suffixes[k], suffixes) == text
  {
    var s := suffixes[k];
    var whole := text + s;
    assert whole[|whole| - |s|..] == s && whole[..|whole| - |s|] == text;
    if k > 0 {
      LastDiffers(whole, s, suffixes[0]);
      assert suffixes[1..][k - 1] == s;
      assert forall i | 0 <= i < |suffixes| - 1 :: suffixes[1..][i] == suffixes[i + 1];
      SuffixCut(text, suffixes[1..], k - 1);
    }
  }

  lemma SuffixesDiffer()
    ensures forall i | 0 <= i < 6 :: TRANSPORT_SUFFIXES[i] != ""
    ensures forall k, i | 0 <= i < k < 6 ::
              var s, o := TRANSPORT_SUFFIXES[k], TRANSPORT_SUFFIXES[i]; s[|s| - 1] != o[|o| - 1]
  {
  }

  /** Each transport phrase is cut off the end of a Given or When, and off nothing else. */
  lemma PhrasesCut(keyword: string, text: string)
    requires keyword == "Given" || keyword == "When"
    ensures TransformStepText(keyword, text + " via MCP") == text
    ensures TransformStepText(keyword, text + " via A2A") == text
    ensures TransformStepText(keyword, text + " via REST") == text
    ensures TransformStepText(keyword, text + " via <transport>") == text
    ensures TransformStepText(keyword, text + " via the MCP tool") == text
    ensures TransformStepText(keyword, text + " via the REST/A2A endpoint") == text
  {
    hide StripFirstSuffix;
    SuffixesDiffer();
    SuffixCut(text, TRANSPORT_SUFFIXES, 0);
    SuffixCut(text, TRANSPORT_SUFFIXES, 1);
    SuffixCut(text, TRANSPORT_SUFFIXES, 2);
    SuffixCut(text, TRANSPORT_SUFFIXES, 3);
    SuffixCut(text, TRANSPORT_SUFFIXES, 4);
    SuffixCut(text, TRANSPORT_SUFFIXES, 5);
  }

  lemma {:induction false} NothingToCut(text: string, suffixes: seq<string>)
    requires forall i | 0 <= i < |suffixes| :: !EndsWith(text, suffixes[i])
    ensures StripFirstSuffix(text, suffixes) == text
  {
    if suffixes != [] {
      assert forall i | 0 <= i < |suffixes| - 1 :: suffixes[1..][i] == suffixes[i + 1];
      NothingToCut(text, suffixes[1..]);
    }
  }

  predicate EndsInPhrase(text: string) {
    || EndsWith(text, " via MCP") || EndsWith(text, " via A2A") || EndsWith(text, " via REST")
    || EndsWith(text, " via <transport>") || EndsWith(text, " via the MCP tool")
    || EndsWith(text, " via the REST/A2A endpoint")
  }

  lemma OthersStay(keyword: string, text: string)
    ensures (keyword != "Given" && keyword != "When") || !EndsInPhrase(text) ==> TransformStepText(keyword, text) == text
  {
    hide StripFirstSuffix, EndsWith;
    if !EndsInPhrase(text) {
      NothingToCut(text, TRANSPORT_SUFFIXES);
    }
  }

  // ------------------------------------------------------------------ dropped sentences

  lemma LowerParts(a: string, b: string, c: string)
    ensures Lower(a + b + c) == Lower(a) + Lower(b) + Lower(c)
  {
    hide Lower, LowerChar;
    var s, l := a + b + c, Lower(a) + Lower(b) + Lower(c);
    forall i | 0 <= i < |s| ensures Lower(s)[i] == l[i] {
      assert Lower(s)[i] == LowerChar(s[i]);
    }
  }

  lemma MentionFound(before: string, mention: string, after: string, marker: string)
    requires Lower(mention) == marker
    ensures Contains(Lower(before + mention + after), marker)
  {
    hide Lower;
    LowerParts(before, mention, after);
    var s := Lower(before) + Lower(mention) + Lower(after);
    assert s[|before|..|before| + |marker|] == marker;
    assert OccursAt(marker, s, |before|);
  }

  predicate Negated(text: string) {
    Contains(Lower(text), "should not contain") || Contains(Lower(text), "must not contain")
  }

  predicate ThenSide(keyword: string) {
    keyword == "Then" || keyword == "And" || keyword == "But"
  }

  /** A Then-side sentence about the message is dropped and recorded, wherever and in whatever case it mentions one
      of the three phrases, unless it says what must not be there. */
  lemma MentionDropped(keyword: string, before: string, mention: string, after: string, rows: seq<string>)
    requires ThenSide(keyword) && !Negated(before + mention + after)
    requires Lower(mention) == "error message" || Lower(mention) == "the error indicates"
             || Lower(mention) == "rejection should name"
    ensures var s := Step(keyword, before + mention + after, rows);
            RewriteSteps([s]) == [] && DroppedProse([s]) == [keyword + " " + s.text]
  {
    hide Lower, Contains, StripFirstSuffix;
    var s := Step(keyword, before + mention + after, rows);
    MentionFound(before, mention, after, Lower(mention));
    assert [s][1..] == [];
    assert !Kept(s);
    assert [s.keyword + " " + s.text] + [] == [s.keyword + " " + s.text];
  }

  /** Everything else is kept. */
  lemma OthersKept(s: Step)
    requires !ThenSide(s.keyword) || Negated(s.text)
             || (!Contains(Lower(s.text), "error message") && !Contains(Lower(s.text), "the error indicates")
                 && !Contains(Lower(s.text), "rejection should name"))
    ensures RewriteSteps([s]) == [s.(text := TransformStepText(s.keyword, s.text))] && DroppedProse([s]) == []
  {
    hide Lower, Contains, StripFirstSuffix;
    assert [s][1..] == [];
    assert Kept(s);
    assert [RewriteStep(s)] + [] == [RewriteStep(s)];
  }

  /** Steps are rewritten one by one, in their order. */
  lemma {:induction false} StepByStep(a: seq<Step>, b: seq<Step>)
    ensures RewriteSteps(a + b) == RewriteSteps(a) + RewriteSteps(b)
    ensures DroppedProse(a + b) == DroppedProse(a) + DroppedProse(b)
  {
    hide Kept, RewriteStep;
    if a == [] {
      assert a + b == b;
    } else {
      assert (a + b)[1..] == a[1..] + b;
      StepByStep(a[1..], b);
      var kept := if Kept(a[0]) then [RewriteStep(a[0])] else [];
      var dropped := if Kept(a[0]) then [] else [a[0].keyword + " " + RewriteStep(a[0]).text];
      assert kept + (RewriteSteps(a[1..]) + RewriteSteps(b)) == (kept + RewriteSteps(a[1..])) + RewriteSteps(b);
      assert dropped + (DroppedProse(a[1..]) + DroppedProse(b)) == (dropped + DroppedProse(a[1..])) + DroppedProse(b);
    }
  }

  // ------------------------------------------------------------------ names

  predicate NoV(s: string) {
    'v' !in s
  }

  lemma {:induction false} SpaceRunExact(pad: string, rest: string)
    requires AllSpace(pad) && (rest == "" || !IsSpace(rest[0]))
    ensures SpaceRun(pad + rest) == |pad|
  {
    hide IsSpace;
    if pad == "" {
      assert pad + rest == rest;
    } else {
      assert (pad + rest)[1..] == pad[1..] + rest;
      SpaceRunExact(pad[1..], rest);
    }
  }

  lemma ViaFrom(b: string, after: string)
    requires AllSpace(b) && b != "" && "<transport>" <= after
    ensures SpaceRun("via" + b + after) == 0 && ("via" + b + after)[3..] == b + after && SpaceRun(b + after) == |b|
  {
    hide IsSpace, AllSpace;
    LettersNoSpace();
    SpaceRunExact(b, after);
    assert ("via" + b + after)[0] == 'v';
  }

  lemma ViaAt(s: string, a: nat, b: nat, c: nat)
    requires SpaceRun(s) == a && "via" <= s[a..] && SpaceRun(s[a + 3..]) == b > 0
    requires "<transport>" <= s[a + 3 + b..] && SpaceRun(s[a + 3 + b + 11..]) == c
    ensures ViaTransport(s) == a + 3 + b + 11 + c
  {
    hide SpaceRun;
  }

  /** The cut at the start of the text. */
  lemma ViaHere(a: string, b: string, c: string, rest: string)
    requires AllSpace(a) && AllSpace(b) && b != "" && AllSpace(c) && (rest == "" || !IsSpace(rest[0]))
    ensures var s := a + ("via" + b + ("<transport>" + (c + rest)));
            ViaTransport(s) == |a| + 3 + |b| + 11 + |c| && s[ViaTransport(s)..] == rest
  {
    hide IsSpace, SpaceRun, AllSpace, ViaTransport;
    LettersNoSpace();
    var s3 := "<transport>" + (c + rest);
    var s1 := "via" + b + s3;
    var s := a + s1;
    SpaceRunExact(a, s1);
    ViaFrom(b, s3);
    SpaceRunExact(c, rest);
    assert s[|a|..] == s1;
    assert s[|a| + 3..] == s1[3..];
    assert s[|a| + 3 + |b|..] == s3;
    assert s[|a| + 3 + |b| + 11..] == c + rest;
    ViaAt(s, |a|, |b|, |c|);
    assert s[|a| + 3 + |b| + 11 + |c|..] == rest;
  }

  lemma LettersNoSpace()
    ensures !IsSpace('v') && !IsSpace('<') && !IsSpace('(')
  {
  }

  lemma {:induction false} NoCutWithout(s: string)
    requires NoV(s)
    ensures CutVia(s) == s
  {
    hide IsSpace, SpaceRun;
    if s != "" {
      assert s[0] in s && forall x | x in s[1..] :: x in s;
      var a := SpaceRun(s);
      if "via" <= s[a..] {
        HasV(s, a);
      }
      NoCutWithout(s[1..]);
      assert [s[0]] + s[1..] == s;
    }
  }

  lemma HasV(s: string, a: nat)
    requires a <= |s| && "via" <= s[a..]
    ensures 'v' in s
  {
    assert s[a..][0] == 'v' && s[a] == s[a..][0];
  }

  /** The cut behind some text without a `v` that does not end in white space. */
  lemma {:induction false} CutBehind(front: string, tail: string)
    requires NoV(front) && (front == "" || !IsSpace(front[|front| - 1]))
    ensures CutVia(front + tail) == front + CutVia(tail)
  {
    hide IsSpace, ViaTransport;
    if front == "" {
      assert front + tail == tail;
    } else {
      NoViaThere(front, tail);
      RestOfFront(front);
      CutBehind(front[1..], tail);
      CutSkips(front, tail);
      assert [front[0]] + (front[1..] + CutVia(tail)) == front + CutVia(tail);
    }
  }

  lemma RestOfFront(front: string)
    requires NoV(front) && front != "" && !IsSpace(front[|front| - 1])
    ensures NoV(front[1..]) && (front[1..] == "" || !IsSpace(front[1..][|front| - 2]))
  {
  }

  lemma CutSkips(front: string, tail: string)
    requires front != "" && ViaTransport(front + tail) == 0
    ensures CutVia(front + tail) == [front[0]] + CutVia(front[1..] + tail)
  {
    hide ViaTransport;
    assert (front + tail)[1..] == front[1..] + tail;
  }

  lemma NoViaThere(front: string, tail: string)
    requires front != "" && NoV(front) && !IsSpace(front[|front| - 1])
    ensures ViaTransport(front + tail) == 0
  {
    hide IsSpace;
    var s := front + tail;
    SpaceStops(s, |front| - 1);
    var a := SpaceRun(s);
    assert s[a] == front[a] && front[a] in front;
    assert s[a..][0] == s[a];
  }

  lemma {:induction false} SpaceStops(s: string, i: nat)
    requires i < |s| && !IsSpace(s[i])
    ensures SpaceRun(s) <= i
  {
    hide IsSpace;
    if i > 0 && IsSpace(s[0]) {
      SpaceStops(s[1..], i - 1);
    }
  }

  lemma {:induction false} ParensStay(s: string)
    requires '(' !in s
    ensures TightenParens(s) == s
  {
    hide IsSpace, SpaceRun;
    if s != "" {
      assert forall x | x in s[1..] :: x in s;
      var n := SpaceRun(s);
      assert n < |s| ==> s[n] in s;
      ParensStay(s[1..]);
      assert [s[0]] + s[1..] == s;
    }
  }

  predicate PlainPart(s: string) {
    s != "" && Trimmed(s) && 'v' !in s && '(' !in s
  }

  /** A match at the start becomes one blank, and the search goes on behind it. */
  lemma CutHere(a: string, b: string, c: string, rest: string)
    requires AllSpace(a) && AllSpace(b) && b != "" && AllSpace(c) && (rest == "" || !IsSpace(rest[0]))
    ensures CutVia(a + ("via" + b + ("<transport>" + (c + rest)))) == " " + CutVia(rest)
  {
    hide IsSpace, ViaTransport, AllSpace;
    ViaHere(a, b, c, rest);
  }

  lemma Regroup(p: string, a: string, m: string, b: string, t: string, c: string, r: string)
    ensures p + a + m + b + t + c + r == p + (a + (m + b + (t + (c + r))))
  {
    assert t + (c + r) == t + c + r;
    assert m + b + (t + c + r) == m + b + t + c + r;
    assert a + (m + b + t + c + r) == a + m + b + t + c + r;
  }

  lemma CutOnce(front: string, a: string, b: string, c: string, rest: string)
    requires NoV(front) && front != "" && !IsSpace(front[|front| - 1])
    requires AllSpace(a) && AllSpace(b) && b != "" && AllSpace(c) && NoV(rest) && (rest == "" || !IsSpace(rest[0]))
    ensures CutVia(front + a + "via" + b + "<transport>" + c + rest) == front + " " + rest
  {
    hide IsSpace, CutVia, AllSpace, NoV;
    var tail := a + ("via" + b + ("<transport>" + (c + rest)));
    Regroup(front, a, "via", b, "<transport>", c, rest);
    CutBehind(front, tail);
    CutHere(a, b, c, rest);
    NoCutWithout(rest);
    assert front + (" " + rest) == front + " " + rest;
  }

  /** `X via <transport>` becomes `X`, and `X via <transport> Y` becomes `X Y`, whatever the white space. */
  lemma NameCut(x: string, a: string, b: string, c: string, y: string)
    requires PlainPart(x) && (y == "" || PlainPart(y))
    requires AllSpace(a) && AllSpace(b) && b != "" && AllSpace(c)
    ensures NameWithoutTransport(x + a + "via" + b + "<transport>" + c + y) == if y == "" then x else x + " " + y
  {
    hide IsSpace, CutVia, Strip, TightenParens, AllSpace;
    CutOnce(x, a, b, c, y);
    BlankIsSpace();
    if y == "" {
      assert x + " " + y == "" + x + " ";
      NothingIsSpace();
      StripUnique("", x, " ");
      ParensStay(x);
    } else {
      var name := x + " " + y;
      assert name[0] == x[0] && name[|name| - 1] == y[|y| - 1];
      StripTrimmed(name);
      ParensStay(name);
    }
  }

  lemma TightenCore(x: string, pad: string, y: string)
    requires PlainPart(x) && AllSpace(pad) && pad != "" && PlainPart(y)
    ensures var name := x + (pad + ("(" + y)); Trimmed(name) && 'v' !in name
  {
    hide IsSpace;
    NoVInSpace(pad);
    var name := x + (pad + ("(" + y));
    assert name[0] == x[0] && name[|name| - 1] == y[|y| - 1];
  }

  lemma NoVInSpace(pad: string)
    requires AllSpace(pad)
    ensures 'v' !in pad
  {
  }

  /** And `X   (Y` in a name becomes `X (Y`. */
  lemma NameTightened(x: string, pad: string, y: string)
    requires PlainPart(x) && AllSpace(pad) && pad != "" && PlainPart(y)
    ensures NameWithoutTransport(x + (pad + ("(" + y))) == x + " (" + y
  {
    hide IsSpace, CutVia, Strip, TightenParens, AllSpace, Trimmed;
    TightenCore(x, pad, y);
    NoCutWithout(x + (pad + ("(" + y)));
    StripTrimmed(x + (pad + ("(" + y)));
    ParensTightened(x, pad, y) by {
      PartEnds(x);
    }
  }

  lemma PartEnds(x: string)
    requires PlainPart(x)
    ensures !IsSpace(x[|x| - 1])
  {
  }

  // ------------------------------------------------------------------ placeholders

  /** `<`, a word of letters, digits and underscores from `i + 1` to `j`, and `>`. */
  predicate PlaceholderAt(text: string, i: nat, j: nat) {
    i + 1 < j < |text| && text[i] == '<' && text[j] == '>' && forall k | i < k < j :: IsWord(text[k])
  }

  lemma {:induction false} WordRunFacts(s: string)
    ensures forall k | 0 <= k < WordRun(s) :: IsWord(s[k])
    ensures WordRun(s) < |s| ==> !IsWord(s[WordRun(s)])
  {
    hide IsWord;
    if s != "" && IsWord(s[0]) {
      WordRunFacts(s[1..]);
      assert forall k | 1 <= k < WordRun(s) :: s[k] == s[1..][k - 1];
    }
  }

  lemma PlaceholderHere(text: string)
    requires text != ""
    ensures (text[0] == '<' && var n := WordRun(text[1..]); n > 0 && n + 1 < |text| && text[n + 1] == '>')
       <==> exists j: nat :: PlaceholderAt(text, 0, j)
  {
    hide IsWord;
    var n := WordRun(text[1..]);
    WordRunFacts(text[1..]);
    assert forall k | 0 <= k < n :: text[k + 1] == text[1..][k];
    assert n + 1 < |text| ==> text[n + 1] == text[1..][n];
    CloseNoWord();
    if text[0] == '<' && n > 0 && n + 1 < |text| && text[n + 1] == '>' {
      assert PlaceholderAt(text, 0, n + 1);
    }
    if j: nat :| PlaceholderAt(text, 0, j) {
      assert text[1..][j - 1] == text[j];
    }
  }

  lemma CloseNoWord()
    ensures !IsWord('>')
  {
  }

  lemma PlaceholderShift(text: string, i: nat, j: nat)
    requires text != ""
    ensures PlaceholderAt(text, i + 1, j + 1) <==> PlaceholderAt(text[1..], i, j)
  {
    hide IsWord;
    if i + 1 < j < |text| - 1 {
      assert text[1..][i] == text[i + 1] && text[1..][j] == text[j + 1];
      assert forall k | i < k < j :: text[1..][k] == text[k + 1];
      if PlaceholderAt(text[1..], i, j) {
        forall k | i + 1 < k < j + 1 ensures IsWord(text[k]) {
          assert text[1..][k - 1] == text[k];
        }
      }
    }
  }

  ghost predicate Placeholder(text: string) {
    exists i: nat, j: nat :: PlaceholderAt(text, i, j)
  }

  /** A step text has a placeholder if and only if a word stands in angle brackets somewhere in it. */
  lemma {:induction false} PlaceholderExactly(text: string)
    ensures HasPlaceholder(text) <==> Placeholder(text)
  {
    hide PlaceholderAt, WordRun;
    if text == "" {
      NoneInNothing();
    } else {
      PlaceholderExactly(text[1..]);
      PlaceholderHere(text);
      if i: nat, j: nat :| PlaceholderAt(text, i, j) {
        BracketsApart(text, i, j);
        if i > 0 {
          PlaceholderShift(text, i - 1, j - 1);
        }
      }
      if i: nat, j: nat :| PlaceholderAt(text[1..], i, j) {
        PlaceholderShift(text, i, j);
      }
    }
  }

  lemma BracketsApart(text: string, i: nat, j: nat)
    requires PlaceholderAt(text, i, j)
    ensures i < j
  {
  }

  lemma NoneInNothing()
    ensures !Placeholder("")
  {
  }

  lemma BlankIsSpace()
    ensures AllSpace(" ")
  {
  }

  lemma NothingIsSpace()
    ensures AllSpace("")
  {
  }

  lemma NoParenNext(x: string, tail: string)
    requires x != "" && '(' !in x && !IsSpace(x[|x| - 1])
    ensures var s, n := x + tail, SpaceRun(x + tail); n < |s| && s[n] != '('
  {
    hide IsSpace;
    SpaceStops(x + tail, |x| - 1);
    var n := SpaceRun(x + tail);
    assert (x + tail)[n] == x[n] && x[n] in x;
  }

  lemma TightenSkips(x: string, tail: string)
    requires x != "" && var n := SpaceRun(x + tail); n < |x + tail| && (x + tail)[n] != '('
    ensures TightenParens(x + tail) == [x[0]] + TightenParens(x[1..] + tail)
  {
    hide SpaceRun;
    assert (x + tail)[1..] == x[1..] + tail;
  }

  lemma TightenHere(pad: string, y: string)
    requires AllSpace(pad) && pad != "" && '(' !in y
    ensures TightenParens(pad + ("(" + y)) == " (" + y
  {
    hide IsSpace, SpaceRun, AllSpace;
    LettersNoSpace();
    var s := pad + ("(" + y);
    SpaceRunExact(pad, "(" + y);
    assert s[|pad|] == '(' && s[|pad| + 1..] == y;
    ParensStay(y);
  }

  lemma RestOfText(x: string)
    requires x != "" && '(' !in x && !IsSpace(x[|x| - 1])
    ensures '(' !in x[1..] && (x[1..] == "" || !IsSpace(x[1..][|x| - 2]))
  {
  }

  /** White space in front of a parenthesis becomes one blank. */
  lemma {:induction false} ParensTightened(x: string, pad: string, y: string)
    requires '(' !in x && (x == "" || !IsSpace(x[|x| - 1])) && AllSpace(pad) && pad != "" && '(' !in y
    ensures TightenParens(x + (pad + ("(" + y))) == x + " (" + y
  {
    hide IsSpace, SpaceRun, TightenParens, AllSpace;
    var tail := pad + ("(" + y);
    if x == "" {
      assert x + tail == tail;
      TightenHere(pad, y);
    } else {
      NoParenNext(x, tail);
      RestOfText(x);
      ParensTightened(x[1..], pad, y);
      TightenSkips(x, tail);
      assert [x[0]] + (x[1..] + " (" + y) == x + " (" + y;
    }
  }

  // ------------------------------------------------------------------ table cells

  lemma {:induction false} BlanksAre(n: nat)
    ensures forall i | 0 <= i < n :: Blanks(n)[i] == ' '
  {
    if n > 0 {
      BlanksAre(n - 1);
    }
  }

  /** A cell is written with blanks behind it up to seventeen characters, and longer ones as they are. */
  lemma CellPadded(cell: string)
    ensures cell <= PadCell(cell)
    ensures |PadCell(cell)| == if |cell| < 17 then 17 else |cell|
    ensures forall i | |cell| <= i < |PadCell(cell)| :: PadCell(cell)[i] == ' '
  {
    if |cell| < 17 {
      BlanksAre(17 - |cell|);
    }
  }
}
