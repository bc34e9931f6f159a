/** What the `.env` bootstrap promises: the parser undoes the renderer, a second run has nothing to do, and
    values stay what they are over any number of runs. */
module EnvFacts {
  import opened Text
  import opened EnvFile

  // ------------------------------------------------------------------ keys and lines

  /** The shape of every key the parser returns. */
  predicate KeyOk(key: string) {
    Trimmed(key) && (forall i | 0 <= i < |key| :: key[i] != '=') && (key == "" || key[0] != '#')
  }

  ghost predicate KeysOk(values: map<string, string>) {
    forall k | k in values :: KeyOk(k)
  }

  lemma {:induction false} IndexOfFirst(prefix: string, c: char, rest: string)
    requires forall i | 0 <= i < |prefix| :: prefix[i] != c
    ensures IndexOf(prefix + [c] + rest, c) == |prefix|
  {
    var s := prefix + [c] + rest;
    assert s[|prefix|] == c;
    forall i | 0 <= i < |prefix| ensures s[i] != c {
      assert s[i] == prefix[i];
    }
  }

  lemma NoSpace(c: char)
    ensures c == '=' || c == '#' ==> !IsSpace(c)
  {
  }

  /** An assignment is read as its key and its settled value. */
  lemma AssignmentReadsBack(key: string, value: string)
    requires KeyOk(key)
    ensures LineEntry(Assignment(key, value)) == Some((key, Settle(value)))
  {
    hide IsSpace, IndexOf, Unquote, AllSpace, KeyOk, Strip, RStrip, Trimmed;
    var line := key + "=" + RStrip(value);
    AssignmentStrips(key, value);
    assert key + ['='] + RStrip(value) == line;
    KeyFacts(key);
    IndexOfFirst(key, '=', RStrip(value));
    assert line[..|key|] == key && line[|key| + 1..] == RStrip(value);
    assert line[0] == if key == "" then '=' else key[0];
    StripTrimmed(key);
    StripAfterRStrip(value);
  }

  lemma KeyFacts(key: string)
    requires KeyOk(key)
    ensures Trimmed(key) && (forall i | 0 <= i < |key| :: key[i] != '=') && (key == "" || key[0] != '#')
  {
  }

  lemma AssignmentStrips(key: string, value: string)
    requires KeyOk(key)
    ensures Strip(Assignment(key, value)) == key + "=" + RStrip(value)
  {
    hide IsSpace, AllSpace, Strip, RStrip;
    NoSpace('=');
    var pad := RStripParts(value);
    var line := key + "=" + RStrip(value);
    assert Assignment(key, value) == "" + line + pad;
    assert line[0] == if key == "" then '=' else key[0];
    assert line[|line| - 1] == if RStrip(value) == "" then '=' else RStrip(value)[|RStrip(value)| - 1];
    assert AllSpace("") by {
      EmptyIsSpace();
    }
    StripUnique("", line, pad);
  }

  lemma EmptyIsSpace()
    ensures AllSpace("")
  {
  }

  lemma NoLeftPad(s: string, left: string, rest: string)
    requires LTrimmed(s) && AllSpace(left) && s == left + rest
    ensures left == ""
  {
    hide IsSpace;
    assert s[..|left|] == left;
    assert forall i | 0 <= i < |left| :: IsSpace(s[i]);
  }

  /** Cutting a trimmed text before a character leaves its first character in place. */
  lemma CutFront(s: string, n: nat)
    requires LTrimmed(s) && n <= |s|
    ensures Strip(s[..n]) != "" ==> Strip(s[..n])[0] == s[0]
    ensures forall i | 0 <= i < |Strip(s[..n])| :: Strip(s[..n])[i] in s[..n]
  {
    hide IsSpace;
    var left, right := StripParts(s[..n]);
    var core := Strip(s[..n]);
    assert s[..n] == left + core + right;
    NoLeftPad(s, left, core + right + s[n..]);
    if core != "" {
      assert s[..n][0] == core[0];
    }
    forall i | 0 <= i < |core| ensures core[i] in s[..n] {
      assert s[..n][|left| + i] == core[i];
    }
  }

  lemma EntryKeyOk(raw: string)
    ensures var e := LineEntry(raw); e.Some? ==> KeyOk(e.value.0)
  {
    hide IsSpace, IndexOf, Settle;
    var line := Strip(raw);
    StripTrimmed(raw);
    var sep := IndexOf(line, '=');
    if line != "" {
      CutFront(line, sep);
      StripTrimmed(line[..sep]);
    }
  }

  lemma {:induction false} ParsedKeysOk(lines: seq<string>)
    ensures KeysOk(Parse(lines))
  {
    hide LineEntry, KeyOk;
    if lines != [] {
      ParsedKeysOk(lines[..|lines| - 1]);
      EntryKeyOk(lines[|lines| - 1]);
    }
  }

  // ------------------------------------------------------------------ the parser undoes the renderer

  function At(m: map<string, string>, key: string): Option<string> {
    if key in m then Some(m[key]) else None
  }

  /** A line that is not filled contributes no value of a non-empty key of `values`. */
  lemma PassedLine(raw: string, values: map<string, string>)
    requires !Fills(raw, values)
    ensures var e := LineEntry(raw); e.Some? ==> e.value.0 == "" || e.value.0 !in values
  {
    hide Strip, IndexOf, DropHashes, Settle;
  }

  lemma FilledKey(raw: string)
    ensures var k := SlotKey(raw); k.Some? ==> k.value != ""
  {
  }

  lemma {:induction false} FilledParse(template: seq<string>, values: map<string, string>, key: string)
    requires KeysOk(values)
    ensures key !in values ==> At(Parse(FillLines(template, values)), key) == At(Parse(template), key)
    ensures key in UsedKeys(template, values) ==>
              key in values && key != "" && At(Parse(FillLines(template, values)), key) == Some(Settle(values[key]))
  {
    hide LineEntry, SlotKey, Settle, KeyOk, Assignment;
    if template != [] {
      var front, last := template[..|template| - 1], template[|template| - 1];
      FilledParse(front, values, key);
      ParseSnoc(FillLines(front, values), FilledLine(last, values));
      FilledKey(last);
      if Fills(last, values) {
        var slot := SlotKey(last).value;
        AssignmentReadsBack(slot, values[slot]);
        SlotAgrees(last);
      } else {
        PassedLine(last, values);
      }
    }
  }

  /** The entry of an uncommented line is under its slot. */
  lemma SlotAgrees(raw: string)
    ensures var e, k := LineEntry(raw), SlotKey(raw); e.Some? && k.Some? ==> e.value.0 == k.value
  {
    hide Strip, IndexOf, DropHashes, Settle;
  }

  lemma {:induction false} ParseAppend(a: seq<string>, b: seq<string>, key: string)
    ensures At(Parse(a + b), key) == if key in Parse(b) then Some(Parse(b)[key]) else At(Parse(a), key)
  {
    hide LineEntry;
    if b == [] {
      assert a + b == a;
    } else {
      var front := b[..|b| - 1];
      assert (a + b)[..|a + b| - 1] == a + front;
      ParseAppend(a, front, key);
    }
  }

  lemma {:induction false} AssignmentsParse(keys: seq<string>, values: map<string, string>)
    requires KeysOk(values) && forall k | k in keys :: k in values
    ensures forall k :: At(Parse(Assignments(keys, values)), k) == if k in keys then Some(Settle(values[k])) else None
  {
    hide LineEntry, Settle, KeyOk, Assignment;
    if keys != [] {
      var front, last := keys[..|keys| - 1], keys[|keys| - 1];
      assert keys == front + [last];
      AssignmentsParse(front, values);
      ParseSnoc(Assignments(front, values), Assignment(last, values[last]));
      AssignmentReadsBack(last, values[last]);
      var all := Parse(Assignments(keys, values));
      forall k ensures At(all, k) == if k in keys then Some(Settle(values[k])) else None {
        assert k in keys <==> k in front || k == last;
        assert At(Parse(Assignments(front, values)), k) == if k in front then Some(Settle(values[k])) else None;
      }
    }
  }

  lemma CommentNoEntry(line: string)
    requires line != "" && line[0] == '#'
    ensures LineEntry(line).None?
  {
    hide IsSpace, IndexOf, Settle;
    NoSpace('#');
    assert LStrip(line) == line;
    var pad := RStripParts(line);
  }

  lemma HeaderParsesEmpty()
    ensures Parse(EXTRA_HEADER) == map[]
  {
    hide Strip, IndexOf, Settle;
    AllSpaceStrips("");
    CommentNoEntry(EXTRA_RULE);
    CommentNoEntry(EXTRA_TITLE);
    var h := EXTRA_HEADER;
    forall i | 0 <= i < |h| ensures LineEntry(h[i]).None? {
      assert h[i] == "" || h[i] == EXTRA_RULE || h[i] == EXTRA_TITLE;
    }
    NoEntries(h, 4);
    assert h[..4] == h;
  }

  lemma {:induction false} NoEntries(lines: seq<string>, n: nat)
    requires n <= |lines| && forall i | 0 <= i < |lines| :: LineEntry(lines[i]).None?
    ensures Parse(lines[..n]) == map[]
  {
    hide LineEntry;
    if n > 0 {
      NoEntries(lines, n - 1);
      assert lines[..n][..n - 1] == lines[..n - 1];
    }
  }

  lemma ExtraParse(keys: set<string>, values: map<string, string>)
    requires KeysOk(values) && keys <= values.Keys
    ensures forall k :: At(Parse(ExtraLines(keys, values)), k) == if k in keys then Some(Settle(values[k])) else None
  {
    hide LineEntry, Settle, KeyOk, Parse, Sorted, Assignments;
    SortedMembers(keys);
    if keys == {} {
      NothingParsed();
    } else {
      AssignmentsParse(Sorted(keys), values);
      HeaderParsesEmpty();
      forall k ensures At(Parse(ExtraLines(keys, values)), k) == if k in keys then Some(Settle(values[k])) else None {
        ParseAppend(EXTRA_HEADER, Assignments(Sorted(keys), values), k);
        assert At(Parse(Assignments(Sorted(keys), values)), k) == if k in Sorted(keys) then Some(Settle(values[k])) else None;
      }
    }
  }

  /** Parsing what was rendered, for every template and all values: each value comes back settled, and a
      template default survives exactly where no value is given. */
  lemma ParseRender(template: Option<seq<string>>, values: map<string, string>)
    requires KeysOk(values)
    ensures Parse(Render(template, values)).Keys == ParseFile(template).Keys + values.Keys
    ensures forall k | k in Parse(Render(template, values)) ::
              Parse(Render(template, values))[k] == if k in values then Settle(values[k]) else ParseFile(template)[k]
  {
    hide LineEntry, Settle, KeyOk, Parse, Sorted, Assignments, FillLines, UsedKeys, ExtraLines;
    var read := Parse(Render(template, values));
    forall k ensures At(read, k) == if k in values then Some(Settle(values[k])) else At(ParseFile(template), k) {
      SortedMembers(values.Keys);
      match template
      case None =>
        AssignmentsParse(Sorted(values.Keys), values);
        assert At(Parse(Assignments(Sorted(values.Keys), values)), k)
               == if k in Sorted(values.Keys) then Some(Settle(values[k])) else None;
      case Some(lines) =>
        var extra := values.Keys - UsedKeys(lines, values);
        FilledParse(lines, values, k);
        ExtraParse(extra, values);
        ParseAppend(FillLines(lines, values), ExtraLines(extra, values), k);
        assert At(Parse(ExtraLines(extra, values)), k) == if k in extra then Some(Settle(values[k])) else None;
    }
    KeysFromAt(read, values, ParseFile(template));
  }

  lemma KeysFromAt(read: map<string, string>, values: map<string, string>, defaults: map<string, string>)
    requires forall k :: At(read, k) == if k in values then Some(Settle(values[k])) else At(defaults, k)
    ensures read.Keys == defaults.Keys + values.Keys
    ensures forall k | k in read :: read[k] == if k in values then Settle(values[k]) else defaults[k]
  {
    hide Settle;
    forall k ensures k in read.Keys <==> k in defaults.Keys + values.Keys {
      assert At(read, k) == if k in values then Some(Settle(values[k])) else At(defaults, k);
    }
    forall k | k in read ensures read[k] == if k in values then Settle(values[k]) else defaults[k] {
      assert At(read, k) == if k in values then Some(Settle(values[k])) else At(defaults, k);
    }
  }

  /** The template keeps its shape: every line stands where it stood, and only the slots of given values are
      rewritten. */
  lemma {:induction false} TemplateKept(template: seq<string>, values: map<string, string>, i: nat)
    requires i < |template|
    ensures |Render(Some(template), values)| >= |template|
    ensures Render(Some(template), values)[i] == FilledLine(template[i], values)
    ensures !Fills(template[i], values) ==> Render(Some(template), values)[i] == template[i]
  {
    hide Fills, SlotKey, ExtraLines, UsedKeys, Assignment;
    FilledAt(template, values, i);
    SortedMembers(values.Keys);
  }

  lemma {:induction false} FilledAt(template: seq<string>, values: map<string, string>, i: nat)
    requires i < |template|
    ensures FillLines(template, values)[i] == FilledLine(template[i], values)
  {
    hide FilledLine;
    if i < |template| - 1 {
      FilledAt(template[..|template| - 1], values, i);
    }
  }

  /** The appended keys stand in code-point order, each once. */
  lemma {:induction false} SortedInOrder(keys: set<string>)
    ensures |Sorted(keys)| == |keys|
    ensures forall i, j | 0 <= i < j < |Sorted(keys)| :: Le(Sorted(keys)[i], Sorted(keys)[j]) && Sorted(keys)[i] != Sorted(keys)[j]
  {
    hide Le;
    if keys != {} {
      var first := Sorted(keys)[0];
      assert Least(first, keys);
      var rest := keys - {first};
      SortedInOrder(rest);
      SortedMembers(rest);
      var all := Sorted(keys);
      forall i, j | 0 <= i < j < |all| ensures Le(all[i], all[j]) && all[i] != all[j] {
        assert all[j] == Sorted(rest)[j - 1] && all[j] in rest;
      }
    }
  }

  /** A value reads back unchanged if and only if it is trimmed and not itself wrapped in quotes. */
  lemma SettledExactly(v: string)
    ensures Settle(v) == v <==> Trimmed(v) && !QuoteWrapped(v)
  {
    StripTrimmed(v);
    var left, right := StripParts(v);
    if Settle(v) == v {
      assert |Strip(v)| <= |v|;
    }
  }

  // ------------------------------------------------------------------ the bootstrap, once and again

  function Settled(values: map<string, string>): map<string, string> {
    map k | k in values :: Settle(values[k])
  }

  lemma WantedFacts(file: Option<seq<string>>, template: Option<seq<string>>, flask: string, encryption: string)
    ensures var wanted := Wanted(file, template, flask, encryption);
            && KeysOk(wanted)
            && wanted.Keys == ParseFile(template).Keys + ParseFile(file).Keys + {FLASK_KEY, ENCRYPTION_KEY}
  {
    hide Parse, KeyOk, Missing;
    if file.Some? {
      ParsedKeysOk(file.value);
    }
    if template.Some? {
      ParsedKeysOk(template.value);
    }
    SecretKeysOk();
    SecretKeysAdded(ParseFile(template) + ParseFile(file), flask, encryption);
  }

  lemma SecretKeysAdded(env: map<string, string>, flask: string, encryption: string)
    ensures WithSecrets(env, flask, encryption).Keys == env.Keys + {FLASK_KEY, ENCRYPTION_KEY}
  {
  }

  lemma SecretKeysOk()
    ensures KeyOk(FLASK_KEY) && KeyOk(ENCRYPTION_KEY)
  {
  }

  /** What the next run finds in the file. */
  lemma BootstrapWrites(file: Option<seq<string>>, template: Option<seq<string>>, flask: string, encryption: string)
    ensures var wanted := Wanted(file, template, flask, encryption);
            ParseFile(Bootstrapped(file, template, flask, encryption))
            == if UpToDate(file, template, flask, encryption) then wanted else Settled(wanted)
  {
    hide Parse, Render, Wanted, Settle, KeyOk;
    var wanted := Wanted(file, template, flask, encryption);
    WantedFacts(file, template, flask, encryption);
    ParseRender(template, wanted);
  }

  /** The value a key has before secrets are generated: the file's, else the template's default, else none. */
  function Given(file: Option<seq<string>>, template: Option<seq<string>>, key: string): string {
    if key in ParseFile(file) then ParseFile(file)[key]
    else if key in ParseFile(template) then ParseFile(template)[key]
    else ""
  }

  /** The secret a run wants: the given value, or a generated one in place of an empty or missing one. */
  function Secret(file: Option<seq<string>>, template: Option<seq<string>>, key: string, generated: string): string {
    if Given(file, template, key) == "" then generated else Given(file, template, key)
  }

  lemma WantedSecrets(file: Option<seq<string>>, template: Option<seq<string>>, flask: string, encryption: string)
    ensures var wanted := Wanted(file, template, flask, encryption);
            && FLASK_KEY in wanted && ENCRYPTION_KEY in wanted
            && wanted[FLASK_KEY] == Secret(file, template, FLASK_KEY, flask)
            && wanted[ENCRYPTION_KEY] == Secret(file, template, ENCRYPTION_KEY, encryption)
  {
    hide ParseFile;
    assert |FLASK_KEY| != |ENCRYPTION_KEY|;
  }

  /** A run that has nothing to do still has nothing to do whatever secrets the next one would generate. */
  lemma NothingToDoStays(file: Option<seq<string>>, template: Option<seq<string>>,
                         flask: string, encryption: string, flask2: string, encryption2: string)
    requires flask != "" && encryption != "" && flask2 != "" && encryption2 != ""
    requires UpToDate(file, template, flask, encryption)
    ensures UpToDate(file, template, flask2, encryption2)
  {
    hide ParseFile, WithSecrets;
    var env := ParseFile(template) + ParseFile(file);
    NeverEmpty(env, flask, encryption);
    assert env == WithSecrets(env, flask, encryption) by {
      CoveredDefaults(env, ParseFile(template), ParseFile(file), flask, encryption);
    }
    SecretsThere(env, flask2, encryption2);
  }

  lemma CoveredDefaults(env: map<string, string>, defaults: map<string, string>, existing: map<string, string>,
                        flask: string, encryption: string)
    requires env == defaults + existing && existing == WithSecrets(env, flask, encryption)
    ensures env == existing
  {
    hide Missing;
    SecretKeysAdded(env, flask, encryption);
    assert defaults.Keys <= existing.Keys;
  }

  /** A second run with the same template has nothing to do if and only if the first had nothing to do, or
      neither secret is empty after it has been written and read back. */
  lemma SecondBootstrapIsNoOp(file: Option<seq<string>>, template: Option<seq<string>>,
                              flask: string, encryption: string, flask2: string, encryption2: string)
    requires flask != "" && encryption != "" && flask2 != "" && encryption2 != ""
    ensures UpToDate(Bootstrapped(file, template, flask, encryption), template, flask2, encryption2)
       <==> (UpToDate(file, template, flask, encryption)
             || (Settle(Secret(file, template, FLASK_KEY, flask)) != ""
                 && Settle(Secret(file, template, ENCRYPTION_KEY, encryption)) != ""))
  {
    hide Parse, Render, Settle, KeyOk, Bootstrapped, Wanted, Secret, WithSecrets;
    var wanted := Wanted(file, template, flask, encryption);
    var again := Bootstrapped(file, template, flask, encryption);
    if UpToDate(file, template, flask, encryption) {
      Unchanged(file, template, flask, encryption);
      NothingToDoStays(file, template, flask, encryption, flask2, encryption2);
    } else {
      BootstrapWrites(file, template, flask, encryption);
      WantedFacts(file, template, flask, encryption);
      WantedSecrets(file, template, flask, encryption);
      RewrittenAgain(again, template, wanted, flask2, encryption2);
    }
  }

  lemma RewrittenAgain(again: Option<seq<string>>, template: Option<seq<string>>, wanted: map<string, string>,
                       flask2: string, encryption2: string)
    requires ParseFile(again) == Settled(wanted) && ParseFile(template).Keys <= wanted.Keys
    requires FLASK_KEY in wanted && ENCRYPTION_KEY in wanted && flask2 != "" && encryption2 != ""
    ensures UpToDate(again, template, flask2, encryption2)
       <==> Settle(wanted[FLASK_KEY]) != "" && Settle(wanted[ENCRYPTION_KEY]) != ""
  {
    hide ParseFile, Settle, WithSecrets;
    assert ParseFile(template) + Settled(wanted) == Settled(wanted);
    SecretsThere(Settled(wanted), flask2, encryption2);
  }

  lemma Unchanged(file: Option<seq<string>>, template: Option<seq<string>>, flask: string, encryption: string)
    ensures UpToDate(file, template, flask, encryption) ==> Bootstrapped(file, template, flask, encryption) == file
  {
    hide UpToDate, Render, Wanted;
  }

  lemma SecretsThere(env: map<string, string>, flask: string, encryption: string)
    requires flask != "" && encryption != ""
    ensures WithSecrets(env, flask, encryption) == env <==> !Missing(env, FLASK_KEY) && !Missing(env, ENCRYPTION_KEY)
  {
    var r := WithSecrets(env, flask, encryption);
    assert FLASK_KEY != ENCRYPTION_KEY by {
      assert |FLASK_KEY| != |ENCRYPTION_KEY|;
    }
    assert Missing(env, FLASK_KEY) ==> r[FLASK_KEY] == flask;
    assert Missing(env, ENCRYPTION_KEY) ==> r[ENCRYPTION_KEY] == encryption;
  }

  /** In particular, with generated secrets that are non-empty and settled and values that are settled, two
      runs are one run. */
  lemma BootstrapIsIdempotent(file: Option<seq<string>>, template: Option<seq<string>>,
                              flask: string, encryption: string, flask2: string, encryption2: string)
    requires flask2 != "" && encryption2 != ""
    requires flask != "" && encryption != "" && Settle(flask) == flask && Settle(encryption) == encryption
    requires forall k | k in ParseFile(file) :: Settle(ParseFile(file)[k]) == ParseFile(file)[k]
    requires forall k | k in ParseFile(template) :: Settle(ParseFile(template)[k]) == ParseFile(template)[k]
    ensures var again := Bootstrapped(file, template, flask, encryption);
            && ParseFile(again) == Wanted(file, template, flask, encryption)
            && Bootstrapped(again, template, flask2, encryption2) == again
  {
    hide Parse, Render, Settle, KeyOk, Bootstrapped;
    var wanted := Wanted(file, template, flask, encryption);
    BootstrapWrites(file, template, flask, encryption);
    WantedFacts(file, template, flask, encryption);
    assert Settled(wanted) == wanted;
    var again := Bootstrapped(file, template, flask, encryption);
    assert ParseFile(template) + wanted == wanted;
    assert wanted[FLASK_KEY] != "" && wanted[ENCRYPTION_KEY] != "" by {
      NeverEmpty(ParseFile(template) + ParseFile(file), flask, encryption);
    }
    SecretsThere(wanted, flask2, encryption2);
    Unchanged(again, template, flask2, encryption2);
  }

  lemma NeverEmpty(env: map<string, string>, flask: string, encryption: string)
    requires flask != "" && encryption != ""
    ensures var r := WithSecrets(env, flask, encryption);
            FLASK_KEY in r && ENCRYPTION_KEY in r && r[FLASK_KEY] != "" && r[ENCRYPTION_KEY] != ""
  {
    assert |FLASK_KEY| != |ENCRYPTION_KEY|;
  }

  /** A secret that was a pair of quotes inside quotes defeats it: the first rewriting run keeps it, the second
      run finds it empty and writes a new one. */
  lemma QuotedQuotesRegenerate(file: Option<seq<string>>, template: Option<seq<string>>,
                               flask: string, encryption: string, flask2: string, encryption2: string)
    requires flask != "" && encryption != ""
    requires FLASK_KEY in ParseFile(file) && ParseFile(file)[FLASK_KEY] == "\"\""
    requires !UpToDate(file, template, flask, encryption) && flask2 != "" && encryption2 != ""
    ensures !UpToDate(Bootstrapped(file, template, flask, encryption), template, flask2, encryption2)
  {
    hide ParseFile, Render, Bootstrapped, UpToDate;
    SecondBootstrapIsNoOp(file, template, flask, encryption, flask2, encryption2);
    StripTrimmed("\"\"");
  }

  // ------------------------------------------------------------------ any number of runs

  /** One run of the script: the template of the day and the secrets it would generate. */
  datatype Boot = Boot(template: Option<seq<string>>, flask: string, encryption: string)

  ghost function AfterBoots(file: Option<seq<string>>, boots: seq<Boot>): Option<seq<string>>
    decreases |boots|
  {
    if boots == [] then file
    else AfterBoots(Bootstrapped(file, boots[0].template, boots[0].flask, boots[0].encryption), boots[1..])
  }

  predicate IsSecret(key: string) {
    key == FLASK_KEY || key == ENCRYPTION_KEY
  }

  /** One run leaves a key with the value the file had, or, when it rewrites the file, with that value
      settled; only an empty secret is replaced. */
  lemma OneBootKeeps(file: Option<seq<string>>, b: Boot, key: string)
    requires key in ParseFile(file) && (IsSecret(key) ==> ParseFile(file)[key] != "")
    ensures var after := ParseFile(Bootstrapped(file, b.template, b.flask, b.encryption));
            key in after
            && after[key] == if UpToDate(file, b.template, b.flask, b.encryption) then ParseFile(file)[key]
                             else Settle(ParseFile(file)[key])
  {
    hide Parse, Render, Settle, KeyOk, Bootstrapped;
    BootstrapWrites(file, b.template, b.flask, b.encryption);
    WantedFacts(file, b.template, b.flask, b.encryption);
    var env := ParseFile(b.template) + ParseFile(file);
    assert env[key] == ParseFile(file)[key];
    SecretsKeep(env, b.flask, b.encryption, key);
  }

  lemma SecretsKeep(env: map<string, string>, flask: string, encryption: string, key: string)
    requires key in env && (IsSecret(key) ==> env[key] != "")
    ensures key in WithSecrets(env, flask, encryption) && WithSecrets(env, flask, encryption)[key] == env[key]
  {
  }

  /** Over any number of runs, with any templates: a settled value, secret or not, never changes. */
  lemma {:induction false} ValuesAreStable(file: Option<seq<string>>, boots: seq<Boot>, key: string)
    requires key in ParseFile(file) && (IsSecret(key) ==> ParseFile(file)[key] != "")
    requires Settle(ParseFile(file)[key]) == ParseFile(file)[key]
    ensures key in ParseFile(AfterBoots(file, boots))
    ensures ParseFile(AfterBoots(file, boots))[key] == ParseFile(file)[key]
    decreases |boots|
  {
    hide ParseFile, Settle, Bootstrapped, UpToDate;
    if boots != [] {
      OneBootKeeps(file, boots[0], key);
      ValuesAreStable(Bootstrapped(file, boots[0].template, boots[0].flask, boots[0].encryption), boots[1..], key);
    }
  }

  /** A secret that a run generated is still there after any further runs. */
  lemma GeneratedSecretsStay(file: Option<seq<string>>, b: Boot, boots: seq<Boot>)
    requires b.flask != "" && Settle(b.flask) == b.flask && Missing(ParseFile(b.template) + ParseFile(file), FLASK_KEY)
    ensures var after := ParseFile(AfterBoots(file, [b] + boots));
            FLASK_KEY in after && after[FLASK_KEY] == b.flask
  {
    hide Parse, Render, Settle, KeyOk, Bootstrapped;
    var wanted := Wanted(file, b.template, b.flask, b.encryption);
    BootstrapWrites(file, b.template, b.flask, b.encryption);
    assert |FLASK_KEY| != |ENCRYPTION_KEY|;
    assert wanted[FLASK_KEY] == b.flask;
    assert ([b] + boots)[1..] == boots;
    ValuesAreStable(Bootstrapped(file, b.template, b.flask, b.encryption), boots, FLASK_KEY);
  }
}
