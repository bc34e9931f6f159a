/** What each recogniser answers on the lines the printer writes. */
module GherkinFacts {
  import opened Text
  import opened Gherkin

  // ------------------------------------------------------------------ contextgit

  lemma {:induction false} NoHashNoContextGit(t: string)
    requires '#' !in t
    ensures ParseContextGit(t).None?
  {
    if t != "" {
      assert t[0] in t;
      assert forall c | c in t[1..] :: c in t;
      NoHashNoContextGit(t[1..]);
    }
  }

  lemma {:induction false} LStripExtend(a: string, b: string)
    requires LStrip(a) != ""
    ensures LStrip(a + b) == LStrip(a) + b
  {
    if IsSpace(a[0]) {
      assert (a + b)[1..] == a[1..] + b;
      LStripExtend(a[1..], b);
    }
  }

  lemma HeadExtend(u: string, more: string)
    requires ContextGitHead(u)
    ensures ContextGitHead(u + more)
  {
    hide IsSpace;
    var a := LStrip(u[1..]);
    assert (u + more)[1..] == u[1..] + more;
    LStripExtend(u[1..], more);
    var b := a[11..];
    assert (a + more)[11..] == b + more;
    LStripExtend(b, more);
  }

  /** A comment that a line carries is still there when the line is longer. */
  lemma {:induction false} ContextGitExtend(t: string, more: string)
    requires ParseContextGit(t).Some?
    ensures ParseContextGit(t + more).Some?
  {
    if ContextGitHead(t) {
      HeadExtend(t, more);
    } else {
      assert (t + more)[1..] == t[1..] + more;
      ContextGitExtend(t[1..], more);
    }
  }

  /** So cutting a line short introduces none. */
  lemma NoContextGitPrefix(t: string, n: nat)
    requires n <= |t| && ParseContextGit(t).None?
    ensures ParseContextGit(t[..n]).None?
  {
    if ParseContextGit(t[..n]).Some? {
      assert t == t[..n] + t[n..];
      ContextGitExtend(t[..n], t[n..]);
    }
  }

  // ------------------------------------------------------------------ tags

  lemma {:induction false} TagRunExact(s: string, tail: string)
    requires forall i | 0 <= i < |s| :: IsTagChar(s[i])
    requires tail == "" || !IsTagChar(tail[0])
    ensures TagRun(s + tail) == |s|
  {
    if s == "" {
      assert s + tail == tail;
    } else {
      assert (s + tail)[1..] == s[1..] + tail;
      TagRunExact(s[1..], tail);
    }
  }

  lemma FirstTag(tag: string, tail: string)
    requires TagSafe(tag)
    requires tail == "" || tail[0] == ' '
    ensures FindTags(tag + tail) == [tag] + FindTags(tail)
    ensures RemoveTags(tag + tail) == RemoveTags(tail)
  {
    var s := tag + tail;
    assert s[1..] == tag[1..] + tail;
    TagRunExact(tag[1..], tail);
    assert s[..|tag|] == tag;
    assert s[|tag|..] == tail;
  }

  lemma SkipSpaceTags(tail: string)
    ensures FindTags(" " + tail) == FindTags(tail)
    ensures RemoveTags(" " + tail) == " " + RemoveTags(tail)
  {
    assert (" " + tail)[1..] == tail;
  }

  ghost predicate AllTagSafe(tags: seq<string>) {
    forall i | 0 <= i < |tags| :: TagSafe(tags[i])
  }

  lemma {:induction false} JoinedTagsShape(tags: seq<string>)
    requires AllTagSafe(tags) && tags != []
    ensures var j := Join(" ", tags); j != "" && j[0] == '@' && IsTagChar(j[|j| - 1])
    ensures '#' !in Join(" ", tags)
  {
    assert '#' !in tags[0];
    if |tags| > 1 {
      JoinedTagsShape(tags[1..]);
      assert '#' !in " ";
    }
  }

  lemma {:induction false} JoinedTags(tags: seq<string>)
    requires AllTagSafe(tags)
    ensures FindTags(Join(" ", tags)) == tags
    ensures AllSpace(RemoveTags(Join(" ", tags)))
  {
    hide FindTags, RemoveTags, IsTagChar, TagSafe;
    if tags == [] {
      EmptyTags();
    } else if |tags| == 1 {
      assert tags[0] + "" == tags[0];
      FirstTag(tags[0], "");
      EmptyTags();
      assert tags == [tags[0]];
    } else {
      JoinedTags(tags[1..]);
      var rest := Join(" ", tags[1..]);
      assert tags[0] + " " + rest == tags[0] + (" " + rest);
      SkipSpaceTags(rest);
      FirstTag(tags[0], " " + rest);
      assert tags == [tags[0]] + tags[1..];
    }
  }

  lemma EmptyTags()
    ensures FindTags("") == [] && RemoveTags("") == ""
  {
  }

  lemma {:induction false} FoundTagsSafe(s: string)
    ensures AllTagSafe(FindTags(s))
    decreases |s|
  {
    if s != "" {
      if s[0] == '@' && TagRun(s[1..]) > 0 {
        var n := 1 + TagRun(s[1..]);
        assert TagSafe(s[..n]);
        FoundTagsSafe(s[n..]);
      } else {
        FoundTagsSafe(s[1..]);
      }
    }
  }

  /** The tag line the printer writes is read back as the same tags. */
  lemma TagLineReadsBack(tags: seq<string>)
    requires AllTagSafe(tags) && tags != []
    ensures var t := Join(" ", tags);
            Trimmed(t) && IsTagLine(t) && FindTags(t) == tags && ParseContextGit(t).None?
            && t != "" && !IsComment(t)
  {
    JoinedTags(tags);
    JoinedTagsShape(tags);
    var t := Join(" ", tags);
    AllSpaceStrips(RemoveTags(t));
    NoHashNoContextGit(t);
  }

  /** A line that does not start with `@` is never a tag line. */
  lemma NotATagLine(t: string)
    requires t != "" && t[0] != '@' && !IsSpace(t[0])
    ensures !IsTagLine(t)
  {
    var r := RemoveTags(t);
    assert r[0] == t[0];
    if Strip(r) == "" {
      EmptyStrips(r);
      assert false;
    }
  }

  // ------------------------------------------------------------------ line heads

  /** A printed scenario line: keyword, colon, name. */
  lemma ScenarioHeadReadsBack(keyword: string, name: string)
    requires keyword == OUTLINE || keyword == SCENARIO
    requires name != "" && Trimmed(name)
    ensures var t := keyword + ": " + name;
            Trimmed(t) && ScenarioHead(t) == Some((keyword, name)) && !IsTagLine(t) && !IsComment(t)
            && t != "" && !IsBackground(t)
  {
    var t := keyword + ": " + name;
    var rest := " " + name;
    assert rest[1..] == name;
    assert LStrip(rest) == name;
    if keyword == OUTLINE {
      assert t == "Scenario Outline:" + rest;
      assert t[17..] == rest;
    } else {
      assert t == "Scenario:" + rest;
      assert t[9..] == rest;
      assert t[8] == ':';
    }
    assert t[0] == 'S';
    NotATagLine(t);
  }

  predicate StepKeyword(keyword: string) {
    keyword == "Given" || keyword == "When" || keyword == "Then" || keyword == "And" || keyword == "But"
  }

  lemma KeywordReadsBack(keyword: string, text: string)
    requires StepKeyword(keyword) && text != "" && !IsSpace(text[0])
    ensures var t := keyword + " " + text;
            IsKeyword(keyword, t) && LStrip(t[|keyword|..]) == text
  {
    var t := keyword + " " + text;
    assert t[|keyword|..] == " " + text;
    assert (" " + text)[1..] == text;
    assert LStrip(" " + text) == text;
  }

  lemma KeywordStart(keyword: string)
    requires StepKeyword(keyword)
    ensures !IsSpace(keyword[0])
  {
  }

  /** A printed step line: keyword, blank, text. */
  lemma StepHeadReadsBack(keyword: string, text: string)
    requires StepKeyword(keyword) && text != "" && Trimmed(text)
    ensures var t := keyword + " " + text;
            Trimmed(t) && t != "" && StepHead(t) == Some((keyword, text)) && ScenarioHead(t).None?
            && !IsTagLine(t) && !IsSectionRule(t) && !IsExamples(t) && !IsTableRow(t)
  {
    hide LStrip, IsSpace, IsTagLine;
    var t := keyword + " " + text;
    KeywordReadsBack(keyword, text);
    KeywordStart(keyword);
    assert t[0] == keyword[0];
    assert t[1] == keyword[1];
    NotATagLine(t);
    assert t[|t| - 1] == text[|text| - 1];
  }

  /** An Examples header is none of the other kinds of line. */
  lemma ExamplesHeadApart(t: string)
    requires IsExamples(t)
    ensures t != "" && ScenarioHead(t).None? && !IsTagLine(t) && !IsSectionRule(t) && !IsTableRow(t)
  {
    assert t[0] == 'E';
    NotATagLine(t);
  }

  /** A comment line is none of the other kinds of line. */
  lemma CommentApart(t: string)
    requires IsComment(t)
    ensures ScenarioHead(t).None? && !IsTagLine(t) && !IsExamples(t) && StepHead(t).None? && !IsTableRow(t)
  {
    assert t[0] == '#';
  }

  lemma RowApart(t: string)
    requires IsTableRow(t)
    ensures t != "" && !IsSpace(t[|t| - 1])
  {
  }

  lemma BlankApart()
    ensures ScenarioHead("").None? && ParseContextGit("").None? && !IsTagLine("") && !IsSectionRule("")
    ensures !IsExamples("") && StepHead("").None? && !IsComment("") && !IsTableRow("") && Strip("") == ""
    ensures RStrip("") == "" && !IsBackground("") && !IsFeature("")
  {
  }
}
