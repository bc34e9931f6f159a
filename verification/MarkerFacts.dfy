/** What the hand-edit marker is, on the text of tags and comments, and what it decides. */
module MarkerFacts {
  import opened Text
  import opened Gherkin
  import opened Merge

  const MARK := "hand-edited"

  /** The tag form at `i`: `@` and the mark in any case, then the end or no word character. */
  predicate TagMarkAt(x: string, i: nat) {
    && i + 12 <= |x| && x[i] == '@' && Lower(x[i + 1..i + 12]) == MARK
    && (i + 12 == |x| || !IsWord(x[i + 12]))
  }

  /** The comment form: `#` at `i`, white space up to `j`, and the mark in any case. */
  predicate CommentMarkAt(x: string, i: nat, j: nat) {
    i < j && j + 11 <= |x| && x[i] == '#' && AllSpace(x[i + 1..j]) && Lower(x[j..j + 11]) == MARK
  }

  lemma SameLower(a: string, b: string)
    requires |a| == |b| && forall i | 0 <= i < |a| :: LowerChar(a[i]) == LowerChar(b[i])
    ensures Lower(a) == Lower(b)
  {
    hide Lower, LowerChar;
    assert forall i | 0 <= i < |a| :: Lower(a)[i] == Lower(b)[i];
  }

  lemma LowerSlice(s: string, i: nat, j: nat)
    requires i <= j <= |s|
    ensures Lower(s)[i..j] == Lower(s[i..j])
  {
    hide Lower, LowerChar;
    assert forall k | 0 <= k < j - i :: Lower(s)[i..j][k] == LowerChar(s[i + k]) && s[i..j][k] == s[i + k];
  }

  lemma MarkStart(m: string)
    requires |m| >= 11 && Lower(m[..11]) == MARK
    ensures !IsSpace(m[0])
  {
    assert LowerChar(m[0]) == 'h' by {
      assert LowerChar(m[..11][0]) == Lower(m[..11])[0];
    }
  }

  lemma TagHere(u: string)
    requires u != "" && u[0] == '@'
    ensures MarkerAt(u) <==> TagMarkAt(u, 0)
  {
    hide IsWord, Lower, LowerChar;
    if |u| >= 12 {
      var l := Lower(u);
      LowerSlice(u, 0, 12);
      LowerSlice(u, 1, 12);
      AtStaysAt();
      assert l[0] == '@';
      assert l[..12] == [l[0]] + l[1..12];
      assert "@hand-edited" == ['@'] + MARK;
      SameTail(l[..12], "@hand-edited");
      assert l[..12][1..] == l[1..12] && "@hand-edited"[1..] == MARK;
    }
  }

  lemma SameTail(a: string, b: string)
    requires a != "" && b != "" && a[0] == b[0]
    ensures a == b <==> a[1..] == b[1..]
  {
    assert a == [a[0]] + a[1..] && b == [b[0]] + b[1..];
  }

  lemma AtStaysAt()
    ensures LowerChar('@') == '@'
  {
  }

  lemma CommentHere(u: string)
    requires u != "" && u[0] == '#'
    ensures MarkerAt(u) <==> exists j: nat :: CommentMarkAt(u, 0, j)
  {
    hide IsSpace, IsWord, Lower, LowerChar;
    var pad := LStripParts(u[1..]);
    var v := LStrip(u[1..]);
    if MarkerAt(u) {
      LowerSlice(v, 0, 11);
      assert Lower(v[..11]) == MARK;
      var j := 1 + |pad|;
      assert u[j..j + 11] == v[..11] && u[1..j] == pad;
      assert CommentMarkAt(u, 0, j);
    }
    if j: nat :| CommentMarkAt(u, 0, j) {
      assert u[1..] == u[1..j] + u[j..];
      assert u[j..][..11] == u[j..j + 11];
      MarkStart(u[j..]);
      LStripPad(u[1..j], u[j..]);
      assert v == u[j..];
      LowerSlice(v, 0, 11);
      assert MARK <= Lower(v);
    }
  }

  lemma TagShift(x: string, i: nat)
    requires x != ""
    ensures TagMarkAt(x, i + 1) <==> TagMarkAt(x[1..], i)
  {
    hide IsWord, Lower;
    if i + 13 <= |x| {
      assert x[1..][i + 1..i + 12] == x[i + 2..i + 13];
    }
  }

  lemma CommentShift(x: string, i: nat, j: nat)
    requires x != "" && i < j
    ensures CommentMarkAt(x, i + 1, j + 1) <==> CommentMarkAt(x[1..], i, j)
  {
    hide AllSpace, Lower;
    if j + 12 <= |x| {
      assert x[1..][i + 1..j] == x[i + 2..j + 1] && x[1..][j..j + 11] == x[j + 1..j + 12];
    }
  }

  ghost predicate TagMarked(x: string) {
    exists i: nat :: TagMarkAt(x, i)
  }

  ghost predicate CommentMarked(x: string) {
    exists i: nat, j: nat :: CommentMarkAt(x, i, j)
  }

  lemma Shifts(x: string)
    requires x != ""
    ensures TagMarked(x) <==> TagMarkAt(x, 0) || TagMarked(x[1..])
    ensures CommentMarked(x) <==> (exists j: nat :: CommentMarkAt(x, 0, j)) || CommentMarked(x[1..])
  {
    hide TagMarkAt, CommentMarkAt;
    if i: nat :| TagMarkAt(x, i) {
      if i > 0 {
        TagShift(x, i - 1);
      }
    }
    if i: nat :| TagMarkAt(x[1..], i) {
      TagShift(x, i);
    }
    if i: nat, j: nat :| CommentMarkAt(x, i, j) {
      MarkAfter(x, i, j);
      if i > 0 {
        CommentShift(x, i - 1, j - 1);
      }
    }
    if i: nat, j: nat :| CommentMarkAt(x[1..], i, j) {
      MarkAfter(x[1..], i, j);
      CommentShift(x, i, j);
    }
  }

  lemma MarkAfter(x: string, i: nat, j: nat)
    requires CommentMarkAt(x, i, j)
    ensures i < j
  {
  }

  /** The search finds a marker if and only if the text has one of the two forms somewhere. */
  lemma {:induction false} MarkerExactly(x: string)
    ensures HasMarker(x) <==> TagMarked(x) || CommentMarked(x)
  {
    hide MarkerAt, TagMarked, CommentMarked;
    if x == "" {
      NothingMarked();
    } else {
      MarkerExactly(x[1..]);
      Shifts(x);
      MarkerHere(x);
    }
  }

  lemma NothingMarked()
    ensures !TagMarked("") && !CommentMarked("")
  {
  }

  lemma MarkerHere(x: string)
    requires x != ""
    ensures MarkerAt(x) <==> TagMarkAt(x, 0) || exists j: nat :: CommentMarkAt(x, 0, j)
  {
    hide Lower, IsWord, LStrip, AllSpace;
    if x[0] == '@' {
      TagHere(x);
    } else if x[0] == '#' {
      CommentHere(x);
    }
  }

  // ------------------------------------------------------------------ what it decides

  /** A LEGACY-only scenario is preserved if and only if one of its tags or comments has a marker, else deleted. */
  lemma PreservedExactly(s: Scenario)
    ensures Classify(Some(s), None) == LegacyPreserve
       <==> ((exists k | 0 <= k < |s.tags| :: TagMarked(s.tags[k]) || CommentMarked(s.tags[k]))
             || (exists k | 0 <= k < |s.commentLines| :: TagMarked(s.commentLines[k]) || CommentMarked(s.commentLines[k])))
    ensures Classify(Some(s), None) != LegacyPreserve ==> Classify(Some(s), None) == LegacyDelete
  {
    hide HasMarker, TagMarked, CommentMarked;
    forall k | 0 <= k < |s.tags| ensures HasMarker(s.tags[k]) <==> TagMarked(s.tags[k]) || CommentMarked(s.tags[k]) {
      MarkerExactly(s.tags[k]);
    }
    forall k | 0 <= k < |s.commentLines|
      ensures HasMarker(s.commentLines[k]) <==> TagMarked(s.commentLines[k]) || CommentMarked(s.commentLines[k]) {
      MarkerExactly(s.commentLines[k]);
    }
  }

  /** The comment form on the text: anything, `#`, white space, the mark in any case, anything. */
  lemma CommentPreserves(s: Scenario, k: nat, before: string, space: string, mark: string, after: string)
    requires k < |s.commentLines| && s.commentLines[k] == before + "#" + space + mark + after
    requires AllSpace(space) && Lower(mark) == "hand-edited"
    ensures HandEdited(s) && Classify(Some(s), None) == LegacyPreserve
  {
    hide AllSpace, Lower, HasMarker, TagMarked;
    var x := s.commentLines[k];
    var i, j := |before|, |before| + 1 + |space|;
    assert |mark| == 11;
    assert x[i + 1..j] == space && x[j..j + 11] == mark;
    assert CommentMarkAt(x, i, j);
    MarkerExactly(x);
  }

  /** The tag form on the text: anything, `@`, the mark in any case, then the end or no word character. */
  lemma TagPreserves(s: Scenario, k: nat, before: string, mark: string, after: string)
    requires k < |s.tags| && s.tags[k] == before + "@" + mark + after
    requires Lower(mark) == "hand-edited" && (after == "" || !IsWord(after[0]))
    ensures HandEdited(s) && Classify(Some(s), None) == LegacyPreserve
  {
    hide Lower, HasMarker, CommentMarked, IsWord;
    var x := s.tags[k];
    var i := |before|;
    assert |mark| == 11;
    assert x[i + 1..i + 12] == mark;
    assert TagMarkAt(x, i);
    MarkerExactly(x);
  }

  lemma MarkInside(x: string, i: nat)
    requires i + 11 <= |x| && Lower(x[i..i + 11]) == MARK
    ensures Contains(Lower(x), MARK)
  {
    hide Lower;
    LowerSlice(x, i, i + 11);
    assert OccursAt(MARK, Lower(x), i);
  }

  lemma UnmarkedText(x: string)
    requires !Contains(Lower(x), "hand-edited")
    ensures !HasMarker(x)
  {
    hide Lower, AllSpace, IsWord, HasMarker, Contains;
    MarkerExactly(x);
    if i: nat :| TagMarkAt(x, i) {
      MarkInside(x, i + 1);
    }
    if i: nat, j: nat :| CommentMarkAt(x, i, j) {
      MarkInside(x, j);
    }
  }

  /** A scenario that mentions the mark nowhere, in no case, is deleted. */
  lemma UnmarkedDeleted(s: Scenario)
    requires forall k | 0 <= k < |s.tags| :: !Contains(Lower(s.tags[k]), "hand-edited")
    requires forall k | 0 <= k < |s.commentLines| :: !Contains(Lower(s.commentLines[k]), "hand-edited")
    ensures !HandEdited(s) && Classify(Some(s), None) == LegacyDelete
  {
    hide HasMarker, Contains, Lower;
    forall k | 0 <= k < |s.tags| ensures !HasMarker(s.tags[k]) {
      UnmarkedText(s.tags[k]);
    }
    forall k | 0 <= k < |s.commentLines| ensures !HasMarker(s.commentLines[k]) {
      UnmarkedText(s.commentLines[k]);
    }
  }
}
