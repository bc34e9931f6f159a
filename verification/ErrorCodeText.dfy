/** Nothing is overlooked: each of the sentence and table forms, on its text, leads to a finding with the number of
    its line, and the gate fails on a code that is not canonical. */
module ErrorCodeText {
  import opened Text
  import opened Gherkin
  import opened ErrorCodes
  import opened ErrorCodeFacts

  // ------------------------------------------------------------------ the search

  /** A match that no earlier match runs into is found. */
  lemma {:induction false} MatchFound(p: Pattern, line: string, i: nat, j: nat)
    requires i <= j < |line| && MatchAt(p, line, j).Some?
    requires forall k | i <= k < j :: MatchAt(p, line, k).Some? ==> MatchAt(p, line, k).value.next <= j
    ensures var m := MatchAt(p, line, j).value; line[m.from..m.upTo] in FindAll(p, line, i)
    decreases j - i
  {
    hide MatchAt;
    if i < j {
      match MatchAt(p, line, i) {
        case None => MatchFound(p, line, i + 1, j);
        case Some(m) => MatchFound(p, line, m.next, j);
      }
    }
  }

  predicate NoQuote(s: string) {
    '"' !in s
  }

  lemma {:induction false} UntilQuoteExact(code: string, rest: string)
    requires NoQuote(code)
    ensures UntilQuote(code + "\"" + rest) == |code|
  {
    var s := code + "\"" + rest;
    if code == "" {
      assert s[0] == '"';
    } else {
      assert code[0] in code && forall c | c in code[1..] :: c in code;
      assert s[1..] == code[1..] + "\"" + rest;
      UntilQuoteExact(code[1..], rest);
    }
  }

  /** The quoted token behind some text. */
  lemma QuotedBehind(front: string, code: string, rest: string)
    requires code != "" && NoQuote(code)
    ensures var line := front + "\"" + code + "\"" + rest;
            QuotedAt(line, |front|) == Some(Match(|front| + 1, |front| + 1 + |code|, |front| + 2 + |code|))
            && line[|front| + 1..|front| + 1 + |code|] == code
  {
    var line := front + "\"" + code + "\"" + rest;
    assert line[|front| + 1..] == code + "\"" + rest;
    UntilQuoteExact(code, rest);
  }

  /** The first quote of a line. */
  lemma NoQuoteBefore(front: string, rest: string, j: nat)
    requires NoQuote(front) && j < |front|
    ensures QuotedAt(front + rest, j).None?
  {
    assert (front + rest)[j] == front[j] && front[j] in front;
  }

  lemma PhraseAt(before: string, phrase: string, rest: string)
    ensures OccursAt(phrase, before + phrase + rest, |before|)
  {
    var line := before + phrase + rest;
    assert line[|before|..|before| + |phrase|] == phrase;
  }

  /** Two phrases that overlap agree where they do. */
  lemma Overlap(a: string, b: string, line: string, k: nat, j: nat)
    requires OccursAt(a, line, k) && OccursAt(b, line, j) && k <= j < k + |a| && b != ""
    ensures a[j - k] == b[0]
  {
    CharAt(a, line, k, j - k);
    CharAt(b, line, j, 0);
  }

  lemma CharAt(phrase: string, line: string, j: nat, d: nat)
    requires OccursAt(phrase, line, j) && d < |phrase|
    ensures j + d < |line| && line[j + d] == phrase[d]
  {
    assert line[j..j + |phrase|][d] == line[j + d];
  }

  // ------------------------------------------------------------------ error code should be "X", error code is "X"

  const SHOULD := "error code should be "
  const IS := "error code is "

  lemma ShouldBeSkipsFront(before: string, phrase: string, code: string, after: string, k: nat)
    requires (phrase == SHOULD || phrase == IS) && NoQuote(before) && k < |before|
    ensures MatchAt(ShouldBe, before + phrase + "\"" + code + "\"" + after, k).None?
  {
    hide QuotedAt, OccursAt;
    var front := before + phrase;
    var rest := "\"" + code + "\"" + after;
    var line := before + phrase + "\"" + code + "\"" + after;
    assert line == front + rest;
    PhraseAt(before, phrase, rest);
    assert NoQuote(front) by {
      assert NoQuote(SHOULD) && NoQuote(IS);
    }
    if k + 21 < |front| {
      NoQuoteBefore(front, rest, k + 21);
    } else if OccursAt(SHOULD, line, k) {
      assert phrase == IS && k + 7 >= |before|;
      Overlap(SHOULD, phrase, line, k, |before|);
      ShouldLetters(|before| - k);
    }
    if k + 14 < |front| {
      NoQuoteBefore(front, rest, k + 14);
    }
  }

  lemma ShouldLetters(d: nat)
    requires 1 <= d <= 7
    ensures SHOULD[d] != IS[0]
  {
  }

  /** The quoted token of either sentence is found. */
  lemma ShouldBeFound(before: string, phrase: string, code: string, after: string)
    requires (phrase == SHOULD || phrase == IS) && NoQuote(before) && code != "" && NoQuote(code)
    ensures code in FindAll(ShouldBe, before + phrase + "\"" + code + "\"" + after, 0)
  {
    hide QuotedAt, OccursAt, FindAll, NoQuote;
    var line := before + phrase + "\"" + code + "\"" + after;
    var rest := "\"" + code + "\"" + after;
    assert line == before + phrase + rest;
    PhraseAt(before, phrase, rest);
    QuotedBehind(before + phrase, code, after);
    if phrase == IS && OccursAt(SHOULD, line, |before|) {
      BothPhrases(line, |before|);
    }
    forall k | 0 <= k < |before| ensures MatchAt(ShouldBe, line, k).None? {
      ShouldBeSkipsFront(before, phrase, code, after, k);
    }
    MatchFound(ShouldBe, line, 0, |before|);
  }

  lemma BothPhrases(line: string, j: nat)
    requires OccursAt(SHOULD, line, j)
    ensures !OccursAt(IS, line, j)
  {
    hide OccursAt;
    assert SHOULD[11] != IS[11];
    CharAt(SHOULD, line, j, 11);
    if OccursAt(IS, line, j) {
      CharAt(IS, line, j, 11);
    }
  }

  // ------------------------------------------------------------------ error "X" in a table row

  const ERROR := "error "

  /** The quoted token behind the word `error` is found, unless `response has` stands in front. */
  lemma CellFound(before: string, code: string, after: string)
    requires NoQuote(before) && code != "" && NoQuote(code)
    requires before == "" || !IsWord(before[|before| - 1])
    requires !EndsWith(before, "response has ")
    ensures code in FindAll(Cell, before + "error \"" + code + "\"" + after, 0)
  {
    hide QuotedAt, OccursAt, FindAll, IsWord, EndsWith;
    var line := before + "error \"" + code + "\"" + after;
    var rest := "\"" + code + "\"" + after;
    assert line == before + ERROR + rest && line == before + ERROR + "\"" + code + "\"" + after;
    PhraseAt(before, ERROR, rest);
    QuotedBehind(before + ERROR, code, after);
    assert line[..|before|] == before;
    forall k | 0 <= k < |before| ensures MatchAt(Cell, line, k).None? {
      assert NoQuote(before + ERROR);
      NoQuoteBefore(before + ERROR, rest, k + 6);
      assert line == (before + ERROR) + rest;
    }
    MatchFound(Cell, line, 0, |before|);
  }

  // ------------------------------------------------------------------ error should be X

  const BARE := "error should be "

  predicate Upper(c: char) {
    'A' <= c <= 'Z'
  }

  /** A bare code on its text. */
  predicate BareText(code: string) {
    code != "" && Upper(code[0])
    && forall i | 0 <= i < |code| :: Upper(code[i]) || '0' <= code[i] <= '9' || code[i] == '_'
  }

  lemma BareIsBare(code: string)
    ensures BareCode(code) <==> BareText(code)
  {
  }

  lemma {:induction false} CodeRunExact(code: string, after: string)
    requires forall i | 0 <= i < |code| :: IsCodeChar(code[i])
    requires after == "" || !IsCodeChar(after[0])
    ensures CodeRun(code + after) == |code|
  {
    hide IsCodeChar;
    if code == "" {
      assert code + after == after;
    } else {
      assert (code + after)[1..] == code[1..] + after;
      CodeRunExact(code[1..], after);
    }
  }

  lemma {:induction false} CodeRunChars(s: string)
    ensures forall i | 0 <= i < CodeRun(s) :: IsCodeChar(s[i])
  {
    hide IsCodeChar;
    if s != "" && IsCodeChar(s[0]) {
      CodeRunChars(s[1..]);
      forall i | 1 <= i < CodeRun(s) ensures IsCodeChar(s[i]) {
        assert s[i] == s[1..][i - 1];
      }
    }
  }

  lemma CodeRunAt(line: string, at: nat, j: nat)
    requires at <= |line| && at <= j < at + CodeRun(line[at..])
    ensures j < |line| && IsCodeChar(line[j])
  {
    CodeRunChars(line[at..]);
    assert line[j] == line[at..][j - at];
  }

  lemma BareLetters(d: nat)
    requires 1 <= d < 16
    ensures BARE[d] == 'e' ==> d == 14 && BARE[d + 1] != BARE[1]
  {
  }

  lemma SmallNotCode()
    ensures !IsCodeChar('e') && BARE[0] == 'e'
  {
  }

  /** An earlier match of the sentence ends before the next one begins. */
  lemma BareApart(line: string, k: nat, j: nat)
    requires k < j && j + 16 <= |line| && OccursAt(BARE, line, j)
    requires MatchAt(BareSentence, line, k).Some?
    ensures MatchAt(BareSentence, line, k).value.next <= j
  {
    hide IsWord, IsCodeChar, OccursAt;
    assert OccursAt(BARE, line, k);
    var n := CodeRun(line[k + 16..]);
    CharAt(BARE, line, j, 0);
    CharAt(BARE, line, j, 1);
    CharAt(BARE, line, k, 15);
    SmallNotCode();
    if j < k + 16 {
      CharAt(BARE, line, k, j - k);
      BareLetters(j - k);
    } else if j < k + 16 + n {
      CodeRunAt(line, k + 16, j);
    }
  }

  lemma BareHere(before: string, code: string, after: string)
    requires BareText(code) && (before == "" || !IsWord(before[|before| - 1]))
    requires after == "" || !IsCodeChar(after[0])
    ensures var line, j := before + BARE + (code + after), |before|;
            && OccursAt(BARE, line, j) && j + 16 <= |line|
            && MatchAt(BareSentence, line, j) == Some(Match(j + 16, j + 16 + |code|, j + 16 + |code|))
            && line[j + 16..j + 16 + |code|] == code
  {
    hide OccursAt, IsWord;
    var line, j := before + BARE + (code + after), |before|;
    PhraseAt(before, BARE, code + after);
    assert line[j + 16..] == code + after;
    CodeRunExact(code, after);
    assert line[j + 16] == code[0];
    assert before != "" ==> line[j - 1] == before[j - 1];
  }

  /** Every bare code of the sentence is found, whole, wherever it stands on the line. */
  lemma BareFound(before: string, code: string, after: string)
    requires BareText(code) && (before == "" || !IsWord(before[|before| - 1]))
    requires after == "" || !(Upper(after[0]) || '0' <= after[0] <= '9' || after[0] == '_')
    ensures code in FindAll(BareSentence, before + "error should be " + code + after, 0)
  {
    hide OccursAt, FindAll, IsWord, MatchAt, BareText;
    var line := before + BARE + (code + after);
    assert before + "error should be " + code + after == line;
    BareHere(before, code, after);
    forall k | 0 <= k < |before| && MatchAt(BareSentence, line, k).Some?
      ensures MatchAt(BareSentence, line, k).value.next <= |before| {
      BareApart(line, k, |before|);
    }
    MatchFound(BareSentence, line, 0, |before|);
  }

  // ------------------------------------------------------------------ every quoted token

  ghost predicate QuotingOk(first: string, rest: seq<(string, string)>) {
    NoQuote(first) && forall i | 0 <= i < |rest| :: rest[i].0 != "" && NoQuote(rest[i].0) && NoQuote(rest[i].1)
  }

  /** A line as text between quoted tokens. */
  function Quoting(first: string, rest: seq<(string, string)>): string
    decreases |rest|
  {
    if rest == [] then first else first + "\"" + rest[0].0 + "\"" + Quoting(rest[0].1, rest[1..])
  }

  function Tokens(rest: seq<(string, string)>): seq<string> {
    if rest == [] then [] else [rest[0].0] + Tokens(rest[1..])
  }

  lemma QuotedAtTail(front: string, s: string, i: nat)
    requires i < |s|
    ensures var m, moved := QuotedAt(s, i), QuotedAt(front + s, |front| + i);
            && (m.Some? <==> moved.Some?)
            && (m.Some? ==> moved.value == Match(m.value.from + |front|, m.value.upTo + |front|, m.value.next + |front|))
  {
    hide UntilQuote;
    assert (front + s)[|front| + i] == s[i] && (front + s)[|front| + i + 1..] == s[i + 1..];
  }

  lemma SliceTail(front: string, s: string, i: nat, j: nat)
    requires i <= j <= |s|
    ensures (front + s)[|front| + i..|front| + j] == s[i..j]
  {
  }

  lemma {:induction false} FindInTail(front: string, s: string, i: nat)
    requires i <= |s|
    ensures FindAll(AnyQuoted, front + s, |front| + i) == FindAll(AnyQuoted, s, i)
    decreases |s| - i
  {
    hide QuotedAt;
    if i < |s| {
      QuotedAtTail(front, s, i);
      assert MatchAt(AnyQuoted, s, i) == QuotedAt(s, i);
      match MatchAt(AnyQuoted, s, i) {
        case None => FindInTail(front, s, i + 1);
        case Some(m) =>
          FindInTail(front, s, m.next);
          SliceTail(front, s, m.from, m.upTo);
      }
    }
  }

  lemma {:induction false} SkipPlain(first: string, s: string, i: nat)
    requires NoQuote(first) && i <= |first|
    ensures FindAll(AnyQuoted, first + s, i) == FindAll(AnyQuoted, first + s, |first|)
    decreases |first| - i
  {
    hide QuotedAt;
    if i < |first| {
      NoQuoteBefore(first, s, i);
      SkipPlain(first, s, i + 1);
    }
  }

  /** All quoted tokens of a line are found, in order. */
  lemma {:induction false} QuotedFound(first: string, rest: seq<(string, string)>)
    requires QuotingOk(first, rest)
    ensures FindAll(AnyQuoted, Quoting(first, rest), 0) == Tokens(rest)
    decreases |rest|
  {
    hide QuotedAt, UntilQuote, NoQuote;
    var line := Quoting(first, rest);
    if rest == [] {
      assert line == first + "";
      SkipPlain(first, "", 0);
    } else {
      var code, tail := rest[0].0, Quoting(rest[0].1, rest[1..]);
      var s := "\"" + code + "\"" + tail;
      assert line == first + s && line == first + "\"" + code + "\"" + tail;
      assert forall i | 0 <= i < |rest| - 1 :: rest[1..][i] == rest[i + 1];
      SkipPlain(first, s, 0);
      QuotedBehind(first, code, tail);
      QuotedFound(rest[0].1, rest[1..]);
      var front := first + "\"" + code + "\"";
      assert line == front + tail;
      FindInTail(front, tail, 0);
    }
  }

  // ------------------------------------------------------------------ columns

  lemma {:induction false} AddCellKeeps(columns: seq<Column>, name: string, value: string, other: string, v: string)
    ensures v in ValuesOf(columns, other) ==> v in ValuesOf(AddCell(columns, name, value), other)
    ensures value in ValuesOf(AddCell(columns, name, value), name)
  {
    if columns != [] {
      AddCellKeeps(columns[1..], name, value, other, v);
      var more := AddCell(columns, name, value);
      if columns[0].name == name {
        assert more[1..] == columns[1..];
      } else {
        assert more[1..] == AddCell(columns[1..], name, value);
      }
    }
  }

  lemma {:induction false} AddRowKeeps(columns: seq<Column>, header: seq<string>, cells: seq<string>, other: string, v: string)
    requires v in ValuesOf(columns, other)
    ensures v in ValuesOf(AddRow(columns, header, cells), other)
    decreases |cells|
  {
    hide ValuesOf, AddCell;
    if header != [] && cells != [] {
      AddCellKeeps(columns, header[0], cells[0], other, v);
      AddRowKeeps(AddCell(columns, header[0], cells[0]), header[1..], cells[1..], other, v);
    }
  }

  lemma {:induction false} AddRowAdds(columns: seq<Column>, header: seq<string>, cells: seq<string>, k: nat)
    requires k < |header| && k < |cells|
    ensures cells[k] in ValuesOf(AddRow(columns, header, cells), header[k])
    decreases |cells|
  {
    hide ValuesOf, AddCell;
    var first := AddCell(columns, header[0], cells[0]);
    if k == 0 {
      AddCellKeeps(columns, header[0], cells[0], header[0], cells[0]);
      AddRowKeeps(first, header[1..], cells[1..], header[0], cells[0]);
    } else {
      AddRowAdds(first, header[1..], cells[1..], k - 1);
    }
  }

  /** A table among lines: it starts at `j` and goes on up to `i`. */
  predicate TableRows(lines: seq<string>, j: nat, i: nat) {
    j <= i < |lines| && (j == 0 || !RowStart(lines[j - 1])) && forall k | j <= k <= i :: RowStart(lines[k])
  }

  lemma {:induction false} HeaderKnown(lines: seq<string>, j: nat, i: nat)
    requires TableRows(lines, j, i)
    ensures AfterLines(Table([], None), lines[..i + 1]).header == Some(Cells(lines[j]))
    decreases i
  {
    hide RowStart, Cells, AddRow;
    assert lines[..i + 1][..i] == lines[..i] && lines[..i + 1][i] == lines[i];
    if i == j {
      NoHeaderBefore(lines, j);
    } else {
      HeaderKnown(lines, j, i - 1);
    }
  }

  lemma NoHeaderBefore(lines: seq<string>, j: nat)
    requires j <= |lines| && (j == 0 || !RowStart(lines[j - 1]))
    ensures AfterLines(Table([], None), lines[..j]).header == None
  {
    hide RowStart, Cells, AddRow;
    if j > 0 {
      assert lines[..j][..j - 1] == lines[..j - 1] && lines[..j][j - 1] == lines[j - 1];
    }
  }

  lemma {:induction false} ValuesStay(lines: seq<string>, n: nat, name: string, v: string)
    requires n <= |lines| && v in ValuesOf(AfterLines(Table([], None), lines[..n]).columns, name)
    ensures v in ValuesOf(BlockColumns(lines), name)
    decreases |lines| - n
  {
    hide RowStart, Cells, AddRow, ValuesOf;
    if n == |lines| {
      assert lines[..n] == lines;
    } else {
      assert lines[..n + 1][..n] == lines[..n] && lines[..n + 1][n] == lines[n];
      var before := AfterLines(Table([], None), lines[..n]);
      if RowStart(lines[n]) && before.header.Some? {
        AddRowKeeps(before.columns, before.header.value, Cells(lines[n]), name, v);
      }
      ValuesStay(lines, n + 1, name, v);
    }
  }

  /** Every cell under a header is a value of its column. */
  lemma ColumnFound(lines: seq<string>, j: nat, i: nat, k: nat)
    requires TableRows(lines, j, i) && j < i && k < |Cells(lines[j])| && k < |Cells(lines[i])|
    ensures Cells(lines[i])[k] in ValuesOf(BlockColumns(lines), Cells(lines[j])[k])
  {
    hide RowStart, Cells, AddRow, ValuesOf, BlockColumns;
    HeaderKnown(lines, j, i - 1);
    assert lines[..i + 1][..i] == lines[..i] && lines[..i + 1][i] == lines[i];
    var before := AfterLines(Table([], None), lines[..i]);
    assert lines[..i - 1 + 1] == lines[..i];
    AddRowAdds(before.columns, Cells(lines[j]), Cells(lines[i]), k);
    ValuesStay(lines, i + 1, Cells(lines[j])[k], Cells(lines[i])[k]);
  }

  // ------------------------------------------------------------------ from the line to the finding

  lemma {:induction false} Resolved(columns: seq<Column>, tokens: seq<string>, token: string)
    requires token in tokens
    ensures !IsPlaceholder(token) ==> token in Resolve(columns, tokens)
    ensures IsPlaceholder(token) ==> forall v | v in ValuesOf(columns, PlaceholderName(token)) :: v in Resolve(columns, tokens)
  {
    hide IsPlaceholder, ValuesOf;
    var n := |tokens| - 1;
    if token != tokens[n] {
      assert tokens == tokens[..n] + [tokens[n]];
      Resolved(columns, tokens[..n], token);
    }
  }

  lemma {:induction false} BlockOfLine(lines: seq<string>, at: nat, i: nat) returns (b: Block)
    requires i < |lines|
    ensures b in Blocks(lines, at) && b.start <= at + i < b.start + |b.lines| && b.lines[at + i - b.start] == lines[i]
    decreases |lines|
  {
    hide BodyRun, Blocks;
    var n := 1 + BodyRun(lines[1..]);
    BlocksUnroll(lines, at);
    if i < n {
      b := Block(at, lines[..n]);
    } else {
      b := BlockOfLine(lines[n..], at + n, i - n);
    }
  }

  lemma {:induction false} OfBlock(blocks: seq<Block>, b: Block, f: Finding)
    requires b in blocks && f in BlockCodes(b)
    ensures f in AllCodes(blocks)
  {
    hide BlockCodes;
    var n := |blocks| - 1;
    if b != blocks[n] {
      assert blocks == blocks[..n] + [blocks[n]];
      OfBlock(blocks[..n], b, f);
    }
  }

  lemma {:induction false} OfLine(columns: seq<Column>, lines: seq<string>, at: int, i: nat, code: string)
    requires i < |lines| && code in LineCodes(columns, lines[i])
    ensures Finding(at + i + 1, code) in LinesCodes(columns, lines, at)
  {
    hide LineCodes, On;
    var n := |lines| - 1;
    if i == n {
      OnMember(at + n + 1, LineCodes(columns, lines[n]), Finding(at + i + 1, code));
    } else {
      OfLine(columns, lines[..n], at, i, code);
    }
  }

  /** A code of a line of a block is a finding under the number of the line. */
  lemma LineReported(lines: seq<string>, b: Block, i: nat, code: string)
    requires b in Blocks(lines, 0) && i < |b.lines| && code in LineCodes(BlockColumns(b.lines), b.lines[i])
    ensures Finding(b.start + i + 1, code) in Codes(lines)
  {
    hide LineCodes, BlockColumns, LinesCodes, On, ColumnCodes, AllCodes, Blocks;
    OfLine(BlockColumns(b.lines), b.lines, b.start, i, code);
    OfBlock(Blocks(lines, 0), b, Finding(b.start + i + 1, code));
  }

  predicate Literal(code: string) {
    !(code != "" && code[0] == '<' && code[|code| - 1] == '>')
  }

  /** `error code should be "X"` or `error code is "X"`. */
  predicate SentenceForm(line: string, code: string, before: string, after: string) {
    && NoQuote(before) && NoQuote(code) && code != "" && Literal(code)
    && (line == before + "error code should be \"" + code + "\"" + after
        || line == before + "error code is \"" + code + "\"" + after)
  }

  /** `error "X"` in a table row, not behind `response has `. */
  predicate CellForm(line: string, code: string, before: string, after: string) {
    && NoQuote(before) && NoQuote(code) && code != "" && RowStart(line)
    && (before == "" || !IsWord(before[|before| - 1])) && !EndsWith(before, "response has ")
    && line == before + "error \"" + code + "\"" + after
  }

  /** `error should be X`, the code taken whole. */
  predicate BareForm(line: string, code: string, before: string, after: string) {
    && BareText(code) && (before == "" || !IsWord(before[|before| - 1]))
    && (after == "" || !(Upper(after[0]) || '0' <= after[0] <= '9' || after[0] == '_'))
    && line == before + "error should be " + code + after
  }

  /** One of the quoted tokens of a line with `error code "` and without `should be`. */
  ghost predicate ListForm(line: string, code: string, first: string, rest: seq<(string, string)>) {
    && line == Quoting(first, rest) && QuotingOk(first, rest) && code in Tokens(rest) && Literal(code)
    && Contains(line, "error code \"") && !Contains(line, "should be")
  }

  /** The line names the code. */
  ghost predicate Names(line: string, code: string) {
    || (exists before: string, after: string :: SentenceForm(line, code, before, after))
    || (exists before: string, after: string :: CellForm(line, code, before, after))
    || (exists before: string, after: string :: BareForm(line, code, before, after))
    || (exists first: string, rest: seq<(string, string)> :: ListForm(line, code, first, rest))
  }

  lemma NamedOnLine(columns: seq<Column>, line: string, code: string)
    requires Names(line, code)
    ensures code in LineCodes(columns, line)
  {
    hide SentenceForm, CellForm, BareForm, ListForm, FindAll, Resolve, Contains, RowStart;
    if before: string, after: string :| SentenceForm(line, code, before, after) {
      SentenceOnLine(columns, line, code, before, after);
    } else if before: string, after: string :| CellForm(line, code, before, after) {
      CellOnLine(line, code, before, after);
    } else if before: string, after: string :| BareForm(line, code, before, after) {
      BareOnLine(line, code, before, after);
    } else {
      var first: string, rest: seq<(string, string)> :| ListForm(line, code, first, rest);
      ListOnLine(columns, line, code, first, rest);
    }
  }

  lemma CellOnLine(line: string, code: string, before: string, after: string)
    requires CellForm(line, code, before, after)
    ensures RowStart(line) && code in FindAll(Cell, line, 0)
  {
    hide FindAll, RowStart, IsWord, EndsWith, NoQuote;
    CellFound(before, code, after);
  }

  lemma BareOnLine(line: string, code: string, before: string, after: string)
    requires BareForm(line, code, before, after)
    ensures code in FindAll(BareSentence, line, 0)
  {
    hide FindAll, IsWord, BareText;
    BareFound(before, code, after);
  }

  lemma ListOnLine(columns: seq<Column>, line: string, code: string, first: string, rest: seq<(string, string)>)
    requires ListForm(line, code, first, rest)
    ensures Contains(line, "error code \"") && !Contains(line, "should be")
    ensures code in Resolve(columns, FindAll(AnyQuoted, line, 0))
  {
    hide FindAll, Resolve, Contains, NoQuote, Quoting;
    QuotedFound(first, rest);
    Resolved(columns, FindAll(AnyQuoted, line, 0), code);
  }

  lemma SentenceOnLine(columns: seq<Column>, line: string, code: string, before: string, after: string)
    requires SentenceForm(line, code, before, after)
    ensures code in Resolve(columns, FindAll(ShouldBe, line, 0))
  {
    hide FindAll, Resolve, NoQuote;
    if line == before + "error code should be \"" + code + "\"" + after {
      assert line == before + SHOULD + "\"" + code + "\"" + after;
      ShouldBeFound(before, SHOULD, code, after);
    } else {
      assert line == before + IS + "\"" + code + "\"" + after;
      ShouldBeFound(before, IS, code, after);
    }
    Resolved(columns, FindAll(ShouldBe, line, 0), code);
  }

  /** No code that a line names in one of the forms is overlooked, wherever the line stands in the file. */
  lemma NamedIsFound(lines: seq<string>, i: nat, code: string)
    requires i < |lines| && Names(lines[i], code)
    ensures Finding(i + 1, code) in Codes(lines)
  {
    hide Names, LineCodes, BlockColumns, Blocks, Codes;
    var b := BlockOfLine(lines, 0, i);
    NamedOnLine(BlockColumns(b.lines), lines[i], code);
    LineReported(lines, b, i - b.start, code);
  }

  /** So the gate fails on a code-shaped one that is not canonical. */
  lemma GateCatches(lines: seq<string>, i: nat, code: string, canonical: set<string>)
    requires i < |lines| && Names(lines[i], code) && BareText(code) && code !in canonical
    ensures !GatePasses(lines, canonical)
  {
    hide Names, Codes, BareText, BareCode;
    NamedIsFound(lines, i, code);
    BareIsBare(code);
    var k :| 0 <= k < |Codes(lines)| && Codes(lines)[k] == Finding(i + 1, code);
    assert CodeShaped(Codes(lines)[k].code);
  }

  /** A placeholder stands for every value of its column in the tables of the same block. */
  lemma PlaceholderFound(lines: seq<string>, b: Block, n: nat, before: string, name: string, after: string,
                         j: nat, i: nat, k: nat)
    requires b in Blocks(lines, 0) && n < |b.lines| && NoQuote(before) && NoQuote(name)
    requires b.lines[n] == before + "error code should be \"<" + name + ">\"" + after
    requires TableRows(b.lines, j, i) && j < i && k < |Cells(b.lines[j])| && k < |Cells(b.lines[i])|
    requires Cells(b.lines[j])[k] == name
    ensures Finding(b.start + n + 1, Cells(b.lines[i])[k]) in Codes(lines)
  {
    hide FindAll, Resolve, Cells, ValuesOf, BlockColumns, Blocks, Codes, RowStart, Contains;
    var token := "<" + name + ">";
    var columns := BlockColumns(b.lines);
    ColumnFound(b.lines, j, i, k);
    assert b.lines[n] == before + SHOULD + "\"" + token + "\"" + after;
    ShouldBeFound(before, SHOULD, token, after);
    assert token[1..|token| - 1] == name;
    Resolved(columns, FindAll(ShouldBe, b.lines[n], 0), token);
    LineReported(lines, b, n, Cells(b.lines[i])[k]);
  }

  // ------------------------------------------------------------------ columns that declare error codes

  lemma {:induction false} BareOf(values: seq<string>, code: string)
    requires code in values && BareCode(code)
    ensures code in BareCodes(values)
  {
    hide BareCode;
    var n := |values| - 1;
    if code != values[n] {
      assert values == values[..n] + [values[n]];
      BareOf(values[..n], code);
    }
  }

  lemma {:induction false} NamedColumn(columns: seq<Column>, name: string, code: string)
    requires code in ValuesOf(columns, name)
    ensures exists c | c in columns :: c.name == name && code in c.values
  {
    if columns[0].name != name {
      NamedColumn(columns[1..], name, code);
      var c :| c in columns[1..] && c.name == name && code in c.values;
      assert c in columns;
    }
  }

  lemma {:induction false} OfColumn(columns: seq<Column>, c: Column, code: string)
    requires c in columns && ErrorColumn(c.name) && code in c.values && BareCode(code)
    ensures code in ColumnCodes(columns)
  {
    hide ErrorColumn, BareCode, BareCodes;
    var n := |columns| - 1;
    if c == columns[n] {
      BareOf(c.values, code);
    } else {
      assert columns == columns[..n] + [columns[n]];
      OfColumn(columns[..n], c, code);
    }
  }

  /** A bare code in a column called `error`, `error_code`, `expected_error` or `error_type`, in any case, is a
      finding on the first line of its block. */
  lemma DeclaredFound(lines: seq<string>, b: Block, j: nat, i: nat, k: nat)
    requires b in Blocks(lines, 0) && TableRows(b.lines, j, i) && j < i
    requires k < |Cells(b.lines[j])| && k < |Cells(b.lines[i])| && BareText(Cells(b.lines[i])[k])
    requires var name := Lower(Cells(b.lines[j])[k]);
             name == "error" || name == "error_code" || name == "expected_error" || name == "error_type"
    ensures Finding(b.start + 1, Cells(b.lines[i])[k]) in Codes(lines)
  {
    hide Cells, ValuesOf, BlockColumns, Blocks, BareText, RowStart, BareCode, LinesCodes, AllCodes, On, Lower, ColumnCodes;
    var name, code := Cells(b.lines[j])[k], Cells(b.lines[i])[k];
    var columns := BlockColumns(b.lines);
    ColumnFound(b.lines, j, i, k);
    NamedColumn(columns, name, code);
    var c :| c in columns && c.name == name && code in c.values;
    BareIsBare(code);
    OfColumn(columns, c, code);
    OnMember(b.start + 1, ColumnCodes(columns), Finding(b.start + 1, code));
    OfBlock(Blocks(lines, 0), b, Finding(b.start + 1, code));
  }

  // ------------------------------------------------------------------ nothing else is found

  /** The quoted token behind `front` on the line. */
  predicate QuotedForm(line: string, token: string, front: string, after: string) {
    token != "" && NoQuote(token) && line == front + "\"" + token + "\"" + after
  }

  lemma {:induction false} UntilQuoteFacts(s: string)
    ensures UntilQuote(s) < |s| ==> s[UntilQuote(s)] == '"'
    ensures NoQuote(s[..UntilQuote(s)])
  {
    if s != "" && s[0] != '"' {
      UntilQuoteFacts(s[1..]);
      var n := UntilQuote(s);
      assert s[..n] == [s[0]] + s[1..][..n - 1];
    }
  }

  lemma QuotedIs(line: string, j: nat)
    requires QuotedAt(line, j).Some?
    ensures var m := QuotedAt(line, j).value;
            m.from == j + 1 && m.upTo < |line| && QuotedForm(line, line[m.from..m.upTo], line[..j], line[m.upTo + 1..])
  {
    var m := QuotedAt(line, j).value;
    UntilQuoteFacts(line[j + 1..]);
    var token := line[m.from..m.upTo];
    assert token == line[j + 1..][..m.upTo - m.from];
    assert line[m.upTo] == '"';
    assert line == line[..j] + [line[j]] + token + [line[m.upTo]] + line[m.upTo + 1..];
  }

  lemma {:induction false} FoundByMatch(p: Pattern, line: string, i: nat, code: string)
    requires i <= |line| && code in FindAll(p, line, i)
    ensures exists j | i <= j < |line| :: MatchAt(p, line, j).Some?
              && code == line[MatchAt(p, line, j).value.from..MatchAt(p, line, j).value.upTo]
    decreases |line| - i
  {
    hide MatchAt;
    match MatchAt(p, line, i) {
      case None => FoundByMatch(p, line, i + 1, code);
      case Some(m) =>
        if code != line[m.from..m.upTo] {
          FoundByMatch(p, line, m.next, code);
        }
    }
  }

  /** A sentence about the error code, with its token. */
  ghost predicate SentenceToken(line: string, token: string) {
    exists before: string, after: string ::
      || QuotedForm(line, token, before + "error code should be ", after)
      || QuotedForm(line, token, before + "error code is ", after)
  }

  lemma PhraseBefore(line: string, phrase: string, j: nat)
    requires OccursAt(phrase, line, j)
    ensures line[..j + |phrase|] == line[..j] + phrase
  {
    assert line[j..j + |phrase|] == phrase;
  }

  lemma SentenceOnly(line: string, token: string)
    requires token in FindAll(ShouldBe, line, 0)
    ensures SentenceToken(line, token)
  {
    hide QuotedAt, OccursAt, QuotedForm, FindAll;
    FoundByMatch(ShouldBe, line, 0, token);
    var j :| 0 <= j < |line| && MatchAt(ShouldBe, line, j).Some?
             && token == line[MatchAt(ShouldBe, line, j).value.from..MatchAt(ShouldBe, line, j).value.upTo];
    if OccursAt(SHOULD, line, j) {
      PhraseBefore(line, SHOULD, j);
      QuotedIs(line, j + 21);
    } else {
      PhraseBefore(line, IS, j);
      QuotedIs(line, j + 14);
    }
  }

  /** `error "X"` with its word boundary, not behind `response has `. */
  ghost predicate CellToken(line: string, token: string) {
    exists before: string, after: string ::
      && QuotedForm(line, token, before + "error ", after)
      && (before == "" || !IsWord(before[|before| - 1])) && !EndsWith(before, "response has ")
  }

  lemma CellOnly(line: string, token: string)
    requires token in FindAll(Cell, line, 0)
    ensures CellToken(line, token)
  {
    hide QuotedAt, OccursAt, QuotedForm, FindAll, IsWord, EndsWith;
    FoundByMatch(Cell, line, 0, token);
    var j :| 0 <= j < |line| && MatchAt(Cell, line, j).Some?
             && token == line[MatchAt(Cell, line, j).value.from..MatchAt(Cell, line, j).value.upTo];
    PhraseBefore(line, ERROR, j);
    QuotedIs(line, j + 6);
    var before := line[..j];
    assert before != "" ==> before[|before| - 1] == line[j - 1];
  }

  /** `error should be X` with its word boundary, the code whole. */
  ghost predicate BareToken(line: string, code: string) {
    exists before: string, after: string :: BareForm(line, code, before, after)
  }

  lemma {:induction false} CodeRunStops(s: string)
    ensures CodeRun(s) < |s| ==> !IsCodeChar(s[CodeRun(s)])
  {
    hide IsCodeChar;
    if s != "" && IsCodeChar(s[0]) {
      CodeRunStops(s[1..]);
    }
  }

  lemma BareSplit(line: string, j: nat, n: nat)
    requires OccursAt(BARE, line, j) && j + 16 + n <= |line|
    ensures line == line[..j] + "error should be " + line[j + 16..j + 16 + n] + line[j + 16 + n..]
  {
    assert line[j..j + 16] == BARE;
  }

  lemma BareAt(line: string, j: nat)
    requires j <= |line| && MatchAt(BareSentence, line, j).Some?
    ensures var m := MatchAt(BareSentence, line, j).value;
            BareForm(line, line[m.from..m.upTo], line[..j], line[m.upTo..])
  {
    hide OccursAt, IsWord;
    var rest := line[j + 16..];
    var n := CodeRun(rest);
    CodeRunChars(rest);
    CodeRunStops(rest);
    BareSplit(line, j, n);
    var before, code, after := line[..j], line[j + 16..j + 16 + n], line[j + 16 + n..];
    assert forall i | 0 <= i < n :: code[i] == rest[i];
    assert after != "" ==> after[0] == rest[n];
    assert before != "" ==> before[|before| - 1] == line[j - 1];
  }

  lemma BareOnly(line: string, code: string)
    requires code in FindAll(BareSentence, line, 0)
    ensures BareToken(line, code)
  {
    hide MatchAt, FindAll, BareForm;
    FoundByMatch(BareSentence, line, 0, code);
    var j :| 0 <= j < |line| && MatchAt(BareSentence, line, j).Some?
             && code == line[MatchAt(BareSentence, line, j).value.from..MatchAt(BareSentence, line, j).value.upTo];
    BareAt(line, j);
  }

  /** A quoted token of a prose line. */
  ghost predicate ListToken(line: string, token: string) {
    && Contains(line, "error code \"") && !Contains(line, "should be")
    && exists before: string, after: string :: QuotedForm(line, token, before, after)
  }

  lemma ListOnly(line: string, token: string)
    requires token in FindAll(AnyQuoted, line, 0)
    ensures exists before: string, after: string :: QuotedForm(line, token, before, after)
  {
    hide QuotedAt, QuotedForm, FindAll;
    FoundByMatch(AnyQuoted, line, 0, token);
    var j :| 0 <= j < |line| && MatchAt(AnyQuoted, line, j).Some?
             && token == line[MatchAt(AnyQuoted, line, j).value.from..MatchAt(AnyQuoted, line, j).value.upTo];
    QuotedIs(line, j);
  }

  /** What a token stands for: itself, or as a placeholder a value of the named column. */
  ghost predicate Means(columns: seq<Column>, token: string, code: string) {
    if Literal(token) then code == token else code in ValuesOf(columns, token[1..|token| - 1])
  }

  lemma {:induction false} ResolvedOnly(columns: seq<Column>, tokens: seq<string>, code: string)
    requires code in Resolve(columns, tokens) && forall token | token in tokens :: token != ""
    ensures exists token | token in tokens :: Means(columns, token, code)
  {
    hide ValuesOf;
    var n := |tokens| - 1;
    assert tokens[n] in tokens && forall t | t in tokens[..n] :: t in tokens;
    if code in Resolve(columns, tokens[..n]) {
      ResolvedOnly(columns, tokens[..n], code);
    } else {
      assert PlaceholderOrLiteral(tokens[n]);
      assert Means(columns, tokens[n], code);
    }
  }

  predicate PlaceholderOrLiteral(token: string) {
    IsPlaceholder(token) || Literal(token)
  }

  lemma NonEmptyTokens(p: Pattern, line: string)
    requires p == ShouldBe || p == AnyQuoted
    ensures forall token | token in FindAll(p, line, 0) :: token != ""
  {
    hide FindAll, QuotedForm;
    forall token | token in FindAll(p, line, 0) ensures token != "" {
      if p == ShouldBe {
        SentenceOnly(line, token);
        SentenceNonEmpty(line, token);
      } else {
        ListOnly(line, token);
        var before: string, after: string :| QuotedForm(line, token, before, after);
        QuotedNonEmpty(line, token, before, after);
      }
    }
  }

  lemma QuotedNonEmpty(line: string, token: string, before: string, after: string)
    requires QuotedForm(line, token, before, after)
    ensures token != ""
  {
  }

  lemma SentenceNonEmpty(line: string, token: string)
    requires SentenceToken(line, token)
    ensures token != ""
  {
  }

  /** A line of a block gives a code only through one of the four forms. */
  ghost predicate LineGives(columns: seq<Column>, line: string, code: string) {
    || (exists token :: SentenceToken(line, token) && Means(columns, token, code))
    || (exists token :: ListToken(line, token) && Means(columns, token, code))
    || (RowStart(line) && CellToken(line, code))
    || BareToken(line, code)
  }

  lemma OnLineOnly(columns: seq<Column>, line: string, code: string)
    requires code in LineCodes(columns, line)
    ensures LineGives(columns, line, code)
  {
    hide FindAll, Resolve, SentenceToken, CellToken, BareToken, Means, RowStart, Contains, QuotedForm;
    if code in Resolve(columns, FindAll(ShouldBe, line, 0)) {
      NonEmptyTokens(ShouldBe, line);
      ResolvedOnly(columns, FindAll(ShouldBe, line, 0), code);
      var token :| token in FindAll(ShouldBe, line, 0) && Means(columns, token, code);
      SentenceOnly(line, token);
    } else if Contains(line, "error code \"") && !Contains(line, "should be")
              && code in Resolve(columns, FindAll(AnyQuoted, line, 0)) {
      NonEmptyTokens(AnyQuoted, line);
      ResolvedOnly(columns, FindAll(AnyQuoted, line, 0), code);
      var token :| token in FindAll(AnyQuoted, line, 0) && Means(columns, token, code);
      ListOnly(line, token);
    } else if RowStart(line) && code in FindAll(Cell, line, 0) {
      CellOnly(line, code);
    } else {
      BareOnly(line, code);
    }
  }

  /** A column that declares error codes gives its bare codes. */
  ghost predicate ColumnGives(columns: seq<Column>, code: string) {
    && BareText(code)
    && exists c | c in columns :: code in c.values
         && (Lower(c.name) == "error" || Lower(c.name) == "error_code" || Lower(c.name) == "expected_error"
             || Lower(c.name) == "error_type")
  }

  lemma {:induction false} ColumnOnly(columns: seq<Column>, code: string)
    requires code in ColumnCodes(columns)
    ensures ColumnGives(columns, code)
  {
    hide Lower, BareCodes, BareText, BareCode;
    var n := |columns| - 1;
    assert columns[n] in columns;
    if code in ColumnCodes(columns[..n]) {
      ColumnOnly(columns[..n], code);
      assert forall c | c in columns[..n] :: c in columns;
    } else {
      BareCodesIn(columns[n].values, code);
      BareIsBare(code);
    }
  }

  lemma {:induction false} OfLineOnly(columns: seq<Column>, lines: seq<string>, at: int, f: Finding)
    requires f in LinesCodes(columns, lines, at)
    ensures at < f.line <= at + |lines| && f.code in LineCodes(columns, lines[f.line - at - 1])
  {
    hide LineCodes, On;
    var n := |lines| - 1;
    OnMember(at + n + 1, LineCodes(columns, lines[n]), f);
    if f in LinesCodes(columns, lines[..n], at) {
      OfLineOnly(columns, lines[..n], at, f);
    }
  }

  /** Where a finding of a file comes from, exactly: the block that it is reported in, and there a line that gives the
      code in one of the four forms, or, on the block's first line, a column that declares error codes. */
  lemma FindingsOnlyNamed(lines: seq<string>, f: Finding) returns (b: Block)
    requires f in Codes(lines)
    ensures b in Blocks(lines, 0) && b.start < f.line <= b.start + |b.lines|
    ensures LineGives(BlockColumns(b.lines), b.lines[f.line - b.start - 1], f.code)
            || (f.line == b.start + 1 && ColumnGives(BlockColumns(b.lines), f.code))
  {
    hide Blocks, AllCodes, LinesCodes, BlockColumns, LineCodes, ColumnCodes, LineGives, ColumnGives, On, BlockOk;
    AllCodesSource(Blocks(lines, 0), f);
    b :| b in Blocks(lines, 0) && f in BlockCodes(b);
    var columns := BlockColumns(b.lines);
    BlocksPartition(lines, 0);
    BlockNotEmpty(b, lines);
    OnMember(b.start + 1, ColumnCodes(columns), f);
    if f in LinesCodes(columns, b.lines, b.start) {
      OfLineOnly(columns, b.lines, b.start, f);
      OnLineOnly(columns, b.lines[f.line - b.start - 1], f.code);
    } else {
      ColumnOnly(columns, f.code);
    }
  }

  lemma BlockNotEmpty(b: Block, lines: seq<string>)
    requires BlockOk(b, 0, lines)
    ensures b.lines != []
  {
  }

  // ------------------------------------------------------------------ what the gate looks at

  /** `x_error` in small letters. */
  ghost predicate SmallError(code: string) {
    exists stem: string :: stem != "" && code == stem + "_error" && 'a' <= stem[0] <= 'z' && SmallChars(stem)
  }

  predicate SmallChars(s: string) {
    forall i | 0 <= i < |s| :: 'a' <= s[i] <= 'z' || '0' <= s[i] <= '9' || s[i] == '_'
  }

  lemma StemOf(code: string)
    requires code != "" && 'a' <= code[0] <= 'z' && EndsWith(code[1..], "_error") && SmallChars(code)
    ensures SmallError(code)
  {
    var stem := code[..|code| - 6];
    assert code[1..][|code| - 7..] == code[|code| - 6..];
    assert code == stem + "_error";
    assert forall i | 0 <= i < |stem| :: stem[i] == code[i];
  }

  lemma StemGives(stem: string)
    requires stem != "" && 'a' <= stem[0] <= 'z' && SmallChars(stem)
    ensures var code := stem + "_error"; code[0] == stem[0] && EndsWith(code[1..], "_error") && SmallChars(code)
  {
    var code := stem + "_error";
    assert code[1..] == stem[1..] + "_error";
    assert code[1..][|stem| - 1..] == "_error";
    forall i | 0 <= i < |code| ensures 'a' <= code[i] <= 'z' || '0' <= code[i] <= '9' || code[i] == '_' {
      if i < |stem| {
        assert code[i] == stem[i];
      } else {
        TailLetters(i - |stem|);
      }
    }
  }

  /** Which findings the gate grades: capital codes, and small ones that end in `_error`. */
  lemma CodeShapedExactly(code: string)
    ensures CodeShaped(code) <==> BareText(code) || SmallError(code)
  {
    hide BareText, BareCode, EndsWith;
    BareIsBare(code);
    if CodeShaped(code) && !BareCode(code) {
      StemOf(code);
    }
    if SmallError(code) {
      var stem: string :| stem != "" && code == stem + "_error" && 'a' <= stem[0] <= 'z' && SmallChars(stem);
      StemGives(stem);
    }
  }

  lemma TailLetters(i: nat)
    requires i < 6
    ensures 'a' <= "_error"[i] <= 'z' || "_error"[i] == '_'
  {
  }

  // ------------------------------------------------------------------ block boundaries

  lemma BehindPad(pad: string, text: string)
    requires AllSpace(pad) && text != "" && !IsSpace(text[0])
    ensures LStrip(pad + text) == text
  {
    hide IsSpace;
    LStripPad(pad, text);
    assert LStrip(text) == text;
  }

  /** A block starts at one of the five words with a colon, behind any white space. */
  lemma BoundaryText(pad: string, word: string, rest: string)
    requires AllSpace(pad)
    requires word == "Feature" || word == "Rule" || word == "Background" || word == "Scenario" || word == "Scenario Outline"
    ensures Boundary(pad + word + ":" + rest)
  {
    hide IsSpace, LStrip;
    assert pad + word + ":" + rest == pad + (word + ":" + rest);
    WordLetters(word);
    BehindPad(pad, word + ":" + rest);
    var t := word + ":" + rest;
    assert t[..|word| + 1] == word + ":";
  }

  lemma WordLetters(word: string)
    requires word == "Feature" || word == "Rule" || word == "Background" || word == "Scenario" || word == "Scenario Outline"
    ensures word != "" && !IsSpace(word[0])
  {
  }

  /** A line that starts with another letter does not, and neither does a step, a tag or a row. */
  lemma NoBoundary(pad: string, text: string)
    requires AllSpace(pad) && (text == "" || (!IsSpace(text[0]) && text[0] !in "FRBS"))
    ensures !Boundary(pad + text)
  {
    hide IsSpace, LStrip;
    if text == "" {
      NothingLeft(pad);
      assert pad + text == pad;
    } else {
      BehindPad(pad, text);
      OtherLetter(text);
    }
  }

  lemma OtherLetter(t: string)
    requires t != "" && t[0] !in "FRBS"
    ensures !("Feature:" <= t) && !("Rule:" <= t) && !("Background:" <= t) && !("Scenario:" <= t) && !("Scenario Outline:" <= t)
  {
    assert "FRBS"[0] == 'F' && "FRBS"[1] == 'R' && "FRBS"[2] == 'B' && "FRBS"[3] == 'S';
  }

  lemma NothingLeft(pad: string)
    requires AllSpace(pad)
    ensures LStrip(pad) == ""
  {
    LStripPad(pad, "");
    assert pad + "" == pad;
  }
}
