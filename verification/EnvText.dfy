/** The `.env` lines on their text: what an assignment is read as with and without quotes, which template lines are
    slots, and what a bootstrap makes of a quoted value. */
module EnvText {
  import opened Text
  import opened EnvFile
  import opened EnvFacts

  // ------------------------------------------------------------------ reading one line

  predicate IsQuote(q: char) {
    q == '"' || q == '\''
  }

  lemma QuoteNoSpace(q: char)
    requires IsQuote(q)
    ensures !IsSpace(q)
  {
  }

  /** A value in quotes is read without them, whatever is between. */
  lemma QuotedRead(key: string, q: char, v: string)
    requires KeyOk(key) && IsQuote(q)
    ensures LineEntry(key + "=" + [q] + v + [q]) == Some((key, v))
  {
    hide IsSpace, KeyOk, LineEntry, Strip;
    var quoted := [q] + v + [q];
    assert key + "=" + [q] + v + [q] == Assignment(key, quoted);
    AssignmentReadsBack(key, quoted);
    QuoteNoSpace(q);
    StripTrimmed(quoted);
    assert quoted[1..|quoted| - 1] == v;
  }

  /** Without quotes around it, a value is read as it stands. */
  lemma PlainRead(key: string, v: string)
    requires KeyOk(key) && Trimmed(v) && (|v| >= 2 && v[0] == v[|v| - 1] ==> !IsQuote(v[0]))
    ensures LineEntry(key + "=" + v) == Some((key, v))
  {
    hide KeyOk, LineEntry;
    AssignmentReadsBack(key, v);
    SettledExactly(v);
  }

  /** White space around the line, the key and the value does not matter. */
  lemma SpacedRead(a: string, key: string, b: string, c: string, value: string, d: string)
    requires AllSpace(a) && AllSpace(b) && AllSpace(c) && AllSpace(d)
    requires KeyOk(key) && key != "" && Trimmed(value) && value != ""
    ensures LineEntry(a + key + b + "=" + c + value + d) == LineEntry(key + "=" + value)
  {
    hide IsSpace, IndexOf, Unquote, AllSpace, KeyOk, Strip;
    KeyFacts(key);
    AssignmentReadsBack(key, value);
    var line := key + b + "=" + c + value;
    assert line[0] == key[0] && line[|line| - 1] == value[|value| - 1];
    StripUnique(a, line, d);
    assert a + key + b + "=" + c + value + d == a + line + d;
    SpaceHasNoEquals(b);
    assert key + b + ['='] + (c + value) == line;
    IndexOfFirst(key + b, '=', c + value);
    assert line[..|key + b|] == key + b && line[|key + b| + 1..] == c + value;
    EmptyIsSpace();
    StripUnique("", key, b);
    assert "" + key + b == key + b;
    StripIndented(c, value);
    StripTrimmed(value);
  }

  lemma SpaceHasNoEquals(s: string)
    requires AllSpace(s)
    ensures forall i | 0 <= i < |s| :: s[i] != '='
  {
  }

  predicate StartsComment(line: string) {
    LStrip(line) != "" && LStrip(line)[0] == '#'
  }

  /** Blank lines, comments and lines without `=` contribute nothing, all others do. */
  lemma NoEntryExactly(line: string)
    ensures LineEntry(line).None? <==> (AllSpace(line) || StartsComment(line) || '=' !in line)
  {
    hide IsSpace, Settle, LStrip, RStrip;
    var left := LStripParts(line);
    var s := LStrip(line);
    var right := RStripParts(s);
    var t := Strip(line);
    if t == "" {
      EmptyStrips(line);
    } else {
      SomethingThere(line);
      assert s[0] == t[0];
      SpaceHasNoEquals(left);
      SpaceHasNoEquals(right);
      assert line == left + t + right;
      assert '=' in line <==> '=' in t;
      assert IndexOf(t, '=') == |t| <==> '=' !in t;
    }
  }

  lemma SomethingThere(line: string)
    requires Strip(line) != ""
    ensures !AllSpace(line)
  {
    if AllSpace(line) {
      AllSpaceStrips(line);
    }
  }

  // ------------------------------------------------------------------ slots of the template

  predicate Hashes(s: string) {
    forall i | 0 <= i < |s| :: s[i] == '#'
  }

  lemma {:induction false} HashesDropped(hashes: string, rest: string)
    requires Hashes(hashes) && (rest == "" || rest[0] != '#')
    ensures DropHashes(hashes + rest) == rest
  {
    if hashes == "" {
      assert hashes + rest == rest;
    } else {
      assert (hashes + rest)[1..] == hashes[1..] + rest;
      HashesDropped(hashes[1..], rest);
    }
  }

  lemma HashNoSpace()
    ensures !IsSpace('#') && !IsSpace('=')
  {
  }

  lemma BodyKey(key: string, rest: string)
    requires KeyOk(key) && key != ""
    ensures var body := Strip(key + "=" + rest);
            && body != "" && body[0] != '#' && IndexOf(body, '=') == |key| < |body| && Strip(body[..|key|]) == key
  {
    hide IsSpace, IndexOf, KeyOk, Strip, RStrip;
    AssignmentStrips(key, rest);
    KeyFacts(key);
    var body := key + "=" + RStrip(rest);
    assert key + ['='] + RStrip(rest) == body;
    IndexOfFirst(key, '=', RStrip(rest));
    assert body[..|key|] == key && body[0] == key[0];
    StripTrimmed(key);
  }

  /** An assignment in the template is the slot of its key, commented out or not. */
  lemma SlotRead(pad: string, hashes: string, gap: string, key: string, rest: string)
    requires AllSpace(pad) && Hashes(hashes) && AllSpace(gap) && KeyOk(key) && key != ""
    ensures SlotKey(pad + hashes + gap + key + "=" + rest) == Some(key)
  {
    hide IsSpace, IndexOf, KeyOk, Strip, RStrip, DropHashes, AllSpace;
    BodyKey(key, rest);
    var line := key + "=" + rest;
    LineStart(key, rest, gap);
    var raw := pad + hashes + gap + key + "=" + rest;
    if hashes == "" {
      StripPad(pad + gap, line) by {
        BothSpace(pad, gap);
      }
      assert raw == pad + gap + line;
    } else {
      assert raw == pad + (hashes + (gap + line));
      StripPad(pad, hashes + (gap + line));
      StripHashes(hashes, gap + line);
      StripAfterRStrip(gap + line);
      DroppedHashes(hashes, gap, line);
      StripPad(gap, line);
    }
  }

  lemma LineStart(key: string, rest: string, gap: string)
    requires KeyOk(key) && key != ""
    ensures var line := key + "=" + rest; line[0] != '#' && RStrip(gap + line) != ""
  {
    hide IsSpace, RStrip;
    var line := key + "=" + rest;
    assert line[0] == key[0];
    assert !IsSpace((gap + line)[|gap|]);
    if RStrip(gap + line) == "" {
      EmptyStrips(gap + line);
    }
  }

  lemma BothSpace(a: string, b: string)
    requires AllSpace(a) && AllSpace(b)
    ensures AllSpace(a + b)
  {
  }

  lemma StripPad(pad: string, s: string)
    requires AllSpace(pad)
    ensures Strip(pad + s) == Strip(s)
  {
    LStripPad(pad, s);
  }

  lemma StripHashes(hashes: string, rest: string)
    requires Hashes(hashes) && hashes != "" && RStrip(rest) != ""
    ensures Strip(hashes + rest) == hashes + RStrip(rest)
  {
    hide IsSpace, AllSpace, Strip, RStrip;
    HashNoSpace();
    var end := RStripParts(rest);
    var core := hashes + RStrip(rest);
    assert core[0] == '#' && core[|core| - 1] == RStrip(rest)[|RStrip(rest)| - 1];
    EmptyIsSpace();
    StripUnique("", core, end);
    assert "" + core + end == hashes + rest;
  }

  lemma DroppedHashes(hashes: string, gap: string, line: string)
    requires Hashes(hashes) && AllSpace(gap) && line != "" && line[0] != '#'
    ensures DropHashes(hashes + RStrip(gap + line)) == RStrip(gap + line)
  {
    hide RStrip, DropHashes;
    HashNoSpace();
    var end := RStripParts(gap + line);
    var rest := RStrip(gap + line);
    if rest != "" {
      assert (gap + line)[0] == rest[0];
    }
    HashesDropped(hashes, rest);
  }

  /** The rendering puts the value of a slot's key there, and nothing else on that line. */
  lemma SlotFilled(template: seq<string>, values: map<string, string>, i: nat,
                   pad: string, hashes: string, gap: string, key: string, rest: string)
    requires i < |template| && template[i] == pad + hashes + gap + key + "=" + rest
    requires AllSpace(pad) && Hashes(hashes) && AllSpace(gap) && KeyOk(key) && key != "" && key in values
    ensures |Render(Some(template), values)| >= |template|
    ensures Render(Some(template), values)[i] == key + "=" + values[key]
  {
    hide Render, SlotKey, KeyOk, AllSpace, Hashes;
    TemplateKept(template, values, i);
    SlotRead(pad, hashes, gap, key, rest);
  }

  // ------------------------------------------------------------------ over a bootstrap

  lemma {:induction false} NotAssigned(rest: seq<string>, key: string)
    requires forall i | 0 <= i < |rest| :: LineEntry(rest[i]).Some? ==> LineEntry(rest[i]).value.0 != key
    ensures key !in Parse(rest)
  {
    hide LineEntry;
    if rest != [] {
      NotAssigned(rest[..|rest| - 1], key);
    }
  }

  lemma LastAssignment(front: seq<string>, line: string, rest: seq<string>, key: string, v: string)
    requires LineEntry(line) == Some((key, v))
    requires forall i | 0 <= i < |rest| :: LineEntry(rest[i]).Some? ==> LineEntry(rest[i]).value.0 != key
    ensures At(Parse(front + [line] + rest), key) == Some(v)
  {
    hide LineEntry;
    NotAssigned(rest, key);
    ParseAppend(front + [line], rest, key);
    ParseSnoc(front, line);
  }

  /** A quoted value whose assignment is the last one of its key in the file: after one bootstrap it is still what was
      between the quotes when nothing is rewritten, and else what a plain assignment of it is read as. */
  lemma QuotedKept(front: seq<string>, key: string, q: char, v: string, rest: seq<string>, b: Boot)
    requires KeyOk(key) && IsQuote(q) && (IsSecret(key) ==> v != "")
    requires forall i | 0 <= i < |rest| :: LineEntry(rest[i]).Some? ==> LineEntry(rest[i]).value.0 != key
    ensures var file := Some(front + [key + "=" + [q] + v + [q]] + rest);
            var after := ParseFile(Bootstrapped(file, b.template, b.flask, b.encryption));
            && key in after
            && (UpToDate(file, b.template, b.flask, b.encryption) ==> after[key] == v)
            && (!UpToDate(file, b.template, b.flask, b.encryption) ==> LineEntry(key + "=" + v) == Some((key, after[key])))
  {
    hide LineEntry, Parse, Bootstrapped, UpToDate, KeyOk, Settle, IsQuote;
    var line := key + "=" + [q] + v + [q];
    QuotedRead(key, q, v);
    LastAssignment(front, line, rest, key, v);
    OneBootKeeps(Some(front + [line] + rest), b, key);
    AssignmentReadsBack(key, v);
  }

  /** So a quoted value that is trimmed and not itself in quotes stays, whatever the bootstrap does. */
  lemma QuotedStays(front: seq<string>, key: string, q: char, v: string, rest: seq<string>, b: Boot)
    requires KeyOk(key) && IsQuote(q) && (IsSecret(key) ==> v != "")
    requires Trimmed(v) && (|v| >= 2 && v[0] == v[|v| - 1] ==> !IsQuote(v[0]))
    requires forall i | 0 <= i < |rest| :: LineEntry(rest[i]).Some? ==> LineEntry(rest[i]).value.0 != key
    ensures var file := Some(front + [key + "=" + [q] + v + [q]] + rest);
            var after := ParseFile(Bootstrapped(file, b.template, b.flask, b.encryption));
            key in after && after[key] == v
  {
    hide LineEntry, Parse, Bootstrapped, UpToDate, KeyOk;
    QuotedKept(front, key, q, v, rest, b);
    PlainRead(key, v);
  }

  // ------------------------------------------------------------------ the order of the appended keys

  /** `a` is a beginning of `b`, or smaller at the first place where they differ. */
  ghost predicate InOrder(a: string, b: string) {
    a <= b || exists i: nat | i < |a| && i < |b| :: a[..i] == b[..i] && a[i] < b[i]
  }

  /** The keys are sorted as Python sorts strings. */
  lemma {:induction false} LeExactly(a: string, b: string)
    ensures Le(a, b) <==> InOrder(a, b)
  {
    if a != "" && b != "" && a[0] == b[0] {
      LeExactly(a[1..], b[1..]);
      SameFirst(a, b);
    } else if a != "" && b != "" {
      assert a[..0] == b[..0];
    }
  }

  lemma SameFirst(a: string, b: string)
    requires a != "" && b != "" && a[0] == b[0]
    ensures InOrder(a, b) <==> InOrder(a[1..], b[1..])
  {
    if a <= b || a[1..] <= b[1..] {
      assert a == [a[0]] + a[1..] && b == [b[0]] + b[1..];
    }
    if i: nat :| i < |a| && i < |b| && a[..i] == b[..i] && a[i] < b[i] {
      assert i > 0;
      assert a[1..][..i - 1] == a[..i][1..] && b[1..][..i - 1] == b[..i][1..];
      assert a[1..][i - 1] < b[1..][i - 1];
    }
    if i: nat :| i < |a[1..]| && i < |b[1..]| && a[1..][..i] == b[1..][..i] && a[1..][i] < b[1..][i] {
      assert a[..i + 1] == [a[0]] + a[1..][..i] && b[..i + 1] == [b[0]] + b[1..][..i];
      assert a[i + 1] < b[i + 1];
    }
  }

  // ------------------------------------------------------------------ two concrete files

  lemma {:induction false} TwoSorted(a: string, b: string)
    requires a != b && Le(a, b)
    ensures Sorted({a, b}) == [a, b] && Sorted({a}) == [a]
  {
    hide Le;
    OneSorted(a);
    OneSorted(b);
    LeTotal(a, a);
    LeastUnique(a, {a, b});
    assert {a, b} - {a} == {b};
  }

  lemma OneSorted(a: string)
    ensures Sorted({a}) == [a]
  {
    hide Le;
    LeTotal(a, a);
    LeastUnique(a, {a});
    assert {a} - {a} == {};
  }

  lemma OneAssigned(front: seq<string>, key: string, values: map<string, string>)
    requires (forall k | k in front :: k in values) && key in values
    ensures Assignments(front + [key], values) == Assignments(front, values) + [key + "=" + values[key]]
  {
    assert (front + [key])[..|front|] == front;
  }

  lemma TwoAssigned(a: string, b: string, values: map<string, string>)
    requires a in values && b in values
    ensures Assignments([a, b], values) == [a + "=" + values[a], b + "=" + values[b]]
    ensures Assignments([a], values) == [a + "=" + values[a]]
  {
    hide Assignments;
    NothingAssigned(values);
    OneAssigned([], a, values);
    OneAssigned([a], b, values);
    assert [] + [a] == [a] && [a] + [b] == [a, b];
  }

  lemma NothingAssigned(values: map<string, string>)
    ensures Assignments([], values) == []
  {
  }

  /** The first bootstrap without a template writes the two secrets, in this order. */
  lemma FirstBootstrap(flask: string, encryption: string)
    requires flask != "" && encryption != ""
    ensures Bootstrapped(None, None, flask, encryption)
            == Some(["ENCRYPTION_KEY" + "=" + encryption, "FLASK_SECRET_KEY" + "=" + flask])
  {
    hide Le, Assignments;
    var wanted := Wanted(None, None, flask, encryption);
    assert |FLASK_KEY| != |ENCRYPTION_KEY|;
    assert wanted == map[FLASK_KEY := flask, ENCRYPTION_KEY := encryption];
    assert wanted.Keys == {ENCRYPTION_KEY, FLASK_KEY};
    assert Le("ENCRYPTION_KEY", "FLASK_SECRET_KEY") by {
      FirstLetter("ENCRYPTION_KEY", "FLASK_SECRET_KEY");
    }
    TwoSorted("ENCRYPTION_KEY", "FLASK_SECRET_KEY");
    TwoAssigned("ENCRYPTION_KEY", "FLASK_SECRET_KEY", wanted);
  }

  lemma FirstLetter(a: string, b: string)
    requires a != "" && b != "" && a[0] < b[0]
    ensures Le(a, b)
  {
  }

  /** A value without a slot goes under the header at the end of the file. */
  lemma AppendedUnderHeader(template: seq<string>, key: string, value: string)
    requires forall i | 0 <= i < |template| :: SlotKey(template[i]) != Some(key)
    ensures var rule := "#" + " ============================================";
            Render(Some(template), map[key := value])
            == template + (["", rule, "#" + " [AUTO-GENERATED] Additional settings", rule] + [key + "=" + value])
  {
    hide SlotKey, Le, Assignments, Sorted;
    var values := map[key := value];
    NothingFilled(template, values);
    assert values.Keys - {} == {key};
    OneSorted(key);
    TwoAssigned(key, key, values);
  }

  lemma {:induction false} NothingFilled(template: seq<string>, values: map<string, string>)
    requires forall i | 0 <= i < |template| :: !Fills(template[i], values)
    ensures FillLines(template, values) == template && UsedKeys(template, values) == {}
  {
    hide Fills;
    if template != [] {
      NothingFilled(template[..|template| - 1], values);
      assert template[..|template| - 1] + [template[|template| - 1]] == template;
    }
  }
}
