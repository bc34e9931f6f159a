/** The lines of a feature file on their text: what each recogniser takes, and what it does not. */
module LineText {
  import opened Text
  import opened Gherkin
  import opened GherkinFacts
  import opened FeatureParser

  // ------------------------------------------------------------------ heads

  lemma {:induction false} PadDropped(pad: string, text: string)
    requires AllSpace(pad) && (text == "" || !IsSpace(text[0]))
    ensures LStrip(pad + text) == text
  {
    hide IsSpace;
    LStripPad(pad, text);
    assert LStrip(text) == text;
  }

  /** A keyword, any white space, and the text make a step. */
  lemma StepText(keyword: string, pad: string, text: string)
    requires StepKeyword(keyword) && AllSpace(pad) && pad != "" && text != "" && !IsSpace(text[0])
    ensures StepHead(keyword + pad + text) == Some((keyword, text))
  {
    hide IsSpace, LStrip, AllSpace;
    var t := keyword + pad + text;
    assert t[|keyword|..] == pad + text && t[0] == keyword[0] && t[|keyword|] == pad[0];
    assert IsSpace(pad[0]) by {
      FirstSpace(pad);
    }
    PadDropped(pad, text);
    assert keyword <= t;
  }

  lemma FirstSpace(pad: string)
    requires AllSpace(pad) && pad != ""
    ensures IsSpace(pad[0])
  {
  }

  /** A word that only begins like a keyword, or a keyword alone, does not. */
  lemma NoStep(keyword: string, rest: string)
    requires StepKeyword(keyword) && (AllSpace(rest) || (rest != "" && !IsSpace(rest[0])))
    ensures StepHead(keyword + rest).None?
  {
    hide IsSpace, LStrip, AllSpace;
    var t := keyword + rest;
    assert t[|keyword|..] == rest && t[0] == keyword[0];
    if AllSpace(rest) {
      assert LStrip(rest) == "" by {
        SpaceGoes(rest);
      }
    } else {
      assert t[|keyword|] == rest[0];
    }
  }

  lemma SpaceGoes(s: string)
    requires AllSpace(s)
    ensures LStrip(s) == ""
  {
    LStripPad(s, "");
    assert s + "" == s;
  }

  /** A scenario line: one of the two keywords, a colon, any white space, and a name. */
  lemma ScenarioText(keyword: string, pad: string, name: string)
    requires (keyword == OUTLINE || keyword == SCENARIO) && AllSpace(pad) && (name == "" || !IsSpace(name[0]))
    ensures ScenarioHead(keyword + ":" + pad + name) == if name == "" then None else Some((keyword, name))
  {
    hide IsSpace, LStrip, AllSpace;
    var t := keyword + ":" + pad + name;
    PadDropped(pad, name);
    if keyword == OUTLINE {
      assert t == "Scenario Outline:" + (pad + name);
      assert t[17..] == pad + name;
      assert t[8] == ' ' && "Scenario:"[8] == ':';
    } else {
      assert t == "Scenario:" + (pad + name);
      assert t[9..] == pad + name;
      assert t[8] == ':' && "Scenario Outline:"[8] == ' ';
    }
  }

  /** A feature line has a name. */
  lemma FeatureText(pad: string, name: string)
    requires AllSpace(pad) && (name == "" || !IsSpace(name[0]))
    ensures IsFeature("Feature:" + pad + name) <==> name != ""
  {
    hide IsSpace, LStrip, AllSpace;
    var t := "Feature:" + pad + name;
    assert t[8..] == pad + name;
    PadDropped(pad, name);
  }

  /** An Examples header has its colon. */
  lemma ExamplesText(more: string)
    ensures IsExamples("Examples" + more) <==> more != "" && more[0] == ':'
  {
    var t := "Examples" + more;
    if more != "" {
      assert t[8] == more[0];
      if more[0] == ':' {
        assert t[..9] == "Examples:";
      }
    }
  }

  /** A table row is anything between two bars. */
  lemma RowText(inner: string, more: char)
    ensures IsTableRow("|" + inner + "|")
    ensures more != '|' ==> !IsTableRow("|" + inner + [more]) && !IsTableRow([more] + inner + "|")
  {
    var a, b, c := "|" + inner + "|", "|" + inner + [more], [more] + inner + "|";
    assert a[|a| - 1] == '|' && b[|b| - 1] == more && c[0] == more;
  }

  // ------------------------------------------------------------------ tags

  /** Tags with something else behind them are no tag line. */
  lemma MixedLine(tag: string, word: string)
    requires TagSafe(tag) && word != "" && !IsSpace(word[0]) && word[0] != '@'
    ensures !IsTagLine(tag + " " + word)
  {
    hide FindTags, IsSpace, RemoveTags, TagSafe;
    assert tag + " " + word == tag + (" " + word);
    FirstTag(tag, " " + word);
    SkipSpaceTags(word);
    var r := RemoveTags(tag + " " + word);
    WordStays(word);
    assert r == " " + RemoveTags(word);
    assert !IsSpace(r[1]);
    if Strip(r) == "" {
      EmptyStrips(r);
    }
  }

  lemma WordStays(word: string)
    requires word != "" && word[0] != '@'
    ensures RemoveTags(word) != "" && RemoveTags(word)[0] == word[0]
  {
  }

  /** A tag is `@` with letters, digits, underscores, dashes and dots, as long as they go. */
  lemma TagText(name: string, after: string)
    requires name != "" && forall i | 0 <= i < |name| :: TagLetter(name[i])
    requires after == "" || after[0] == ' '
    ensures FindTags("@" + name + after) == ["@" + name] + FindTags(after)
  {
    hide FindTags;
    forall i | 0 <= i < |name| ensures IsTagChar(name[i]) {
      assert TagLetter(name[i]);
    }
    FirstTag("@" + name, after);
  }

  predicate TagLetter(c: char) {
    var n := c as int;
    65 <= n <= 90 || 97 <= n <= 122 || 48 <= n <= 57 || n == 95 || n == 45 || n == 46
  }

  /** No other character goes into a tag. */
  lemma TagCharExactly(c: char)
    ensures IsTagChar(c) <==> TagLetter(c)
  {
  }

  // ------------------------------------------------------------------ character classes, by code point

  /** White space is what `str.isspace` takes. */
  lemma SpaceExactly(c: char)
    ensures IsSpace(c)
       <==> (var n := c as int;
             9 <= n <= 13 || 28 <= n <= 32 || n == 133 || n == 160 || n == 5760 || 8192 <= n <= 8202 || n == 8232
             || n == 8233 || n == 8239 || n == 8287 || n == 12288)
  {
  }

  /** Word characters are ASCII letters, digits and the underscore. */
  lemma WordExactly(c: char)
    ensures IsWord(c) <==> (var n := c as int; 65 <= n <= 90 || 97 <= n <= 122 || 48 <= n <= 57 || n == 95)
  {
  }

  // ------------------------------------------------------------------ two comments above one scenario

  /** Of several contextgit comments in a row the last one counts. */
  lemma LastCommentCounts(a: string, b: string, rest: seq<string>, contextgit: Option<ContextGit>, tags: seq<string>)
    requires ParseContextGit(Strip(a)).Some? && ParseContextGit(Strip(b)).Some?
    ensures ParseLead([a, b] + rest, contextgit, tags) == ParseLead(rest, ParseContextGit(Strip(b)), tags)
  {
    hide Strip, ParseContextGit;
    var lines := [a, b] + rest;
    assert lines[1..][0] == b && lines[1..][1..] == rest;
  }

  // ------------------------------------------------------------------ what ends a scenario

  /** A section rule ends the scenario in front of it and is no comment of it. */
  lemma RuleEnds(pad: string, more: string, rest: seq<string>)
    requires AllSpace(pad)
    ensures ParseBody([pad + "# =====" + more] + rest) == Body([], [], [], [pad + "# =====" + more] + rest)
  {
    hide IsSpace, AllSpace, ScenarioHead, ParseContextGit, IsTagLine, RStrip, LStrip, Strip;
    var line := pad + "# =====" + more;
    RuleStrips(pad, more);
    assert ([line] + rest)[0] == line;
  }

  lemma RuleStrips(pad: string, more: string)
    requires AllSpace(pad)
    ensures "# =====" <= Strip(pad + "# =====" + more)
  {
    hide IsSpace, AllSpace, Strip;
    var line := pad + "# =====" + more;
    var end := RStripParts(more);
    var core := "# =====" + RStrip(more);
    HashNoSpace();
    assert line == pad + core + end;
    assert core[0] == '#' && core[|core| - 1] == if RStrip(more) == "" then '=' else RStrip(more)[|RStrip(more)| - 1];
    StripUnique(pad, core, end);
  }

  lemma HashNoSpace()
    ensures !IsSpace('#') && !IsSpace('=')
  {
  }

  // ------------------------------------------------------------------ Examples

  lemma {:induction false} BlanksSkipped(blanks: seq<string>, rest: seq<string>)
    requires forall i | 0 <= i < |blanks| :: Strip(blanks[i]) == ""
    requires rest == [] || Strip(rest[0]) != ""
    ensures BlankRun(blanks + rest) == |blanks|
  {
    hide Strip;
    if blanks == [] {
      assert blanks + rest == rest;
    } else {
      assert (blanks + rest)[1..] == blanks[1..] + rest;
      assert forall i | 0 <= i < |blanks| - 1 :: blanks[1..][i] == blanks[i + 1];
      BlanksSkipped(blanks[1..], rest);
    }
  }

  lemma {:induction false} RowsTaken(rows: seq<string>, rest: seq<string>)
    requires forall i | 0 <= i < |rows| :: IsTableRow(Strip(rows[i]))
    requires rest == [] || !IsTableRow(Strip(rest[0]))
    ensures RowRun(rows + rest) == |rows|
  {
    hide Strip, IsTableRow;
    if rows == [] {
      assert rows + rest == rest;
    } else {
      assert (rows + rest)[1..] == rows[1..] + rest;
      assert forall i | 0 <= i < |rows| - 1 :: rows[1..][i] == rows[i + 1];
      RowsTaken(rows[1..], rest);
    }
  }

  lemma TableBehindBlanks(header: string, blanks: seq<string>, table: seq<string>)
    requires forall i | 0 <= i < |blanks| :: Strip(blanks[i]) == ""
    requires table == [] || Strip(table[0]) != ""
    ensures var lines := [header] + blanks + table;
            BlankRun(lines[1..]) == |blanks| && lines[1 + |blanks|..] == table
  {
    hide Strip, BlankRun;
    var lines := [header] + blanks + table;
    assert lines[1..] == blanks + table;
    BlanksSkipped(blanks, table);
  }

  lemma TableOf(lines: seq<string>, table: seq<string>, n: nat)
    requires lines != [] && lines[1 + BlankRun(lines[1..])..] == table && RowRun(table) == n
    ensures TakeExamples(lines) == (ExamplesBlock(RStrip(lines[0]), RStripAll(table[..n])), table[n..])
  {
    hide BlankRun, RowRun, RStrip, RStripAll;
  }

  /** The table of an Examples block may stand behind blank lines, and ends at the first line that is no row. */
  lemma ExamplesTaken(header: string, blanks: seq<string>, rows: seq<string>, rest: seq<string>)
    requires forall i | 0 <= i < |blanks| :: Strip(blanks[i]) == ""
    requires rows != [] && forall i | 0 <= i < |rows| :: IsTableRow(Strip(rows[i]))
    requires rest == [] || !IsTableRow(Strip(rest[0]))
    ensures TakeExamples([header] + blanks + (rows + rest)) == (ExamplesBlock(RStrip(header), RStripAll(rows)), rest)
  {
    hide Strip, IsTableRow, RStrip, RStripAll, TakeExamples, BlankRun, RowRun;
    var table := rows + rest;
    RowNotBlank(Strip(rows[0]));
    TableBehindBlanks(header, blanks, table);
    RowsTaken(rows, rest);
    TableOf([header] + blanks + table, table, |rows|);
    assert table[..|rows|] == rows && table[|rows|..] == rest;
  }

  lemma RowNotBlank(t: string)
    requires IsTableRow(t)
    ensures t != ""
  {
  }

  /** A step takes the rows directly under it and nothing more. */
  lemma StepTaken(line: string, rows: seq<string>, rest: seq<string>)
    requires StepHead(Strip(line)).Some?
    requires forall i | 0 <= i < |rows| :: IsTableRow(Strip(rows[i]))
    requires rest == [] || !IsTableRow(Strip(rest[0]))
    ensures var head := StepHead(Strip(line)).value;
            TakeStep([line] + rows + rest) == (Step(head.0, head.1, RStripAll(rows)), rest)
  {
    hide Strip, IsTableRow, RStripAll, StepHead;
    var lines := [line] + rows + rest;
    assert lines[1..] == rows + rest;
    RowsTaken(rows, rest);
    assert (rows + rest)[..|rows|] == rows && (rows + rest)[|rows|..] == rest;
  }
}

/** The use-case key on the text of the file name. */
module UseCaseText {
  import opened Text
  import opened UseCases

  lemma {:induction false} AllDigits(digits: string, after: string)
    requires forall i | 0 <= i < |digits| :: IsDigit(digits[i])
    requires after == "" || !IsDigit(after[0])
    ensures DigitRun(digits + after) == |digits|
  {
    hide IsDigit;
    if digits == "" {
      assert digits + after == after;
    } else {
      assert (digits + after)[1..] == digits[1..] + after;
      AllDigits(digits[1..], after);
    }
  }

  /** All digits behind the first `BR-UC-` are the number, whatever follows. */
  lemma {:induction false} KeyOfNumbered(before: string, digits: string, after: string)
    requires 'B' !in before && digits != "" && forall i | 0 <= i < |digits| :: IsDigit(digits[i])
    requires after == "" || !IsDigit(after[0])
    ensures UcNumber(before + "BR-UC-" + digits + after) == Some(digits)
    ensures UcKey(before + "BR-UC-" + digits + after) == "UC-" + digits
  {
    hide IsDigit;
    var name := before + "BR-UC-" + digits + after;
    if before == "" {
      assert name[6..] == digits + after;
      AllDigits(digits, after);
      assert name[6..6 + |digits|] == digits;
    } else {
      assert name[0] in before;
      assert name[1..] == before[1..] + "BR-UC-" + digits + after;
      assert forall c | c in before[1..] :: c in before;
      KeyOfNumbered(before[1..], digits, after);
    }
  }

  predicate NumberAt(name: string, i: nat) {
    i + 7 <= |name| && name[i..i + 6] == "BR-UC-" && IsDigit(name[i + 6])
  }

  /** A name has a number if and only if `BR-UC-` and a digit stand somewhere in it; any other name is its own key. */
  lemma {:induction false} NumberExactly(name: string)
    ensures UcNumber(name).Some? <==> exists i: nat :: NumberAt(name, i)
    ensures UcNumber(name).None? ==> UcKey(name) == name
  {
    hide IsDigit;
    if name != "" {
      NumberExactly(name[1..]);
      if i: nat :| NumberAt(name, i) {
        if i > 0 {
          NumberShift(name, i - 1);
        }
      }
      if i: nat :| NumberAt(name[1..], i) {
        NumberShift(name, i);
      }
      NumberHere(name);
    }
  }

  lemma NumberShift(name: string, i: nat)
    requires name != ""
    ensures NumberAt(name, i + 1) <==> NumberAt(name[1..], i)
  {
    if i + 8 <= |name| {
      assert name[1..][i..i + 6] == name[i + 1..i + 7];
    }
  }

  lemma NumberHere(name: string)
    ensures NumberAt(name, 0) <==> "BR-UC-" <= name && DigitRun(name[6..]) > 0
  {
    if |name| >= 6 {
      assert name[0..6] == name[..6];
    }
  }
}
