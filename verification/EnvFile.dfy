/** `.env` handling of `scripts/setup-dev.py`: the parser, the template renderer and the bootstrap step.
    A file is the list of its lines. */
module EnvFile {
  import opened Text

  // ------------------------------------------------------------------ one line

  /** `str.find` for one character; the length when it does not occur. */
  function IndexOf(s: string, c: char): (n: nat)
    ensures n <= |s| && (n < |s| ==> s[n] == c)
    ensures forall i | 0 <= i < n :: s[i] != c
  {
    if s == "" || s[0] == c then 0 else 1 + IndexOf(s[1..], c)
  }

  predicate QuoteWrapped(v: string) {
    |v| >= 2 && v[0] == v[|v| - 1] && (v[0] == '"' || v[0] == '\'')
  }

  function Unquote(v: string): string {
    if QuoteWrapped(v) then v[1..|v| - 1] else v
  }

  /** What a raw value becomes when it is read. */
  function Settle(v: string): string {
    Unquote(Strip(v))
  }

  /** The entry a line contributes. */
  function LineEntry(raw: string): Option<(string, string)> {
    var line := Strip(raw);
    if line == "" || line[0] == '#' then None
    else
      var sep := IndexOf(line, '=');
      if sep == |line| then None else Some((Strip(line[..sep]), Settle(line[sep + 1..])))
  }

  /** `_parse_env_lines`: later lines win. */
  function Parse(lines: seq<string>): map<string, string> {
    if lines == [] then map[]
    else
      var before := Parse(lines[..|lines| - 1]);
      match LineEntry(lines[|lines| - 1])
      case None => before
      case Some(e) => before[e.0 := e.1]
  }

  function DropHashes(s: string): (r: string)
    ensures |r| <= |s|
  {
    if s != "" && s[0] == '#' then DropHashes(s[1..]) else s
  }

  /** The key whose slot a template line is, commented out or not. */
  function SlotKey(raw: string): Option<string> {
    var stripped := Strip(raw);
    var body := if stripped != "" && stripped[0] == '#' then Strip(DropHashes(stripped)) else stripped;
    var sep := IndexOf(body, '=');
    if sep == |body| || Strip(body[..sep]) == "" then None else Some(Strip(body[..sep]))
  }

  function Assignment(key: string, value: string): string {
    key + "=" + value
  }

  predicate Fills(raw: string, values: map<string, string>) {
    SlotKey(raw).Some? && SlotKey(raw).value in values
  }

  function FilledLine(raw: string, values: map<string, string>): string {
    if Fills(raw, values) then Assignment(SlotKey(raw).value, values[SlotKey(raw).value]) else raw
  }

  // ------------------------------------------------------------------ sorted keys

  /** Code-point order of strings. */
  predicate Le(a: string, b: string) {
    a == "" || (b != "" && (a[0] < b[0] || (a[0] == b[0] && Le(a[1..], b[1..]))))
  }

  lemma {:induction false} LeTotal(a: string, b: string)
    ensures Le(a, b) || Le(b, a)
    ensures Le(a, b) && Le(b, a) ==> a == b
  {
    if a != "" && b != "" && a[0] == b[0] {
      LeTotal(a[1..], b[1..]);
      assert a == [a[0]] + a[1..] && b == [b[0]] + b[1..];
    }
  }

  lemma {:induction false} LeTransitive(a: string, b: string, c: string)
    requires Le(a, b) && Le(b, c)
    ensures Le(a, c)
  {
    if a != "" && a[0] == b[0] && b[0] == c[0] {
      LeTransitive(a[1..], b[1..], c[1..]);
    }
  }

  predicate Least(key: string, keys: set<string>) {
    key in keys && forall other | other in keys :: Le(key, other)
  }

  lemma {:induction false} LeastExists(keys: set<string>) returns (key: string)
    requires keys != {}
    ensures Least(key, keys)
    decreases keys
  {
    hide Le;
    var some :| some in keys;
    LeTotal(some, some);
    if keys == {some} {
      key := some;
    } else {
      var other := LeastExists(keys - {some});
      LeTotal(some, other);
      key := if Le(some, other) then some else other;
      forall k | k in keys ensures Le(key, k) {
        if k != some && key == some {
          LeTransitive(some, other, k);
        }
      }
    }
  }

  /** `sorted` on a set of keys. */
  ghost function Sorted(keys: set<string>): seq<string> {
    if keys == {} then []
    else
      assert exists key :: Least(key, keys) by {
        var key := LeastExists(keys);
      }
      var key :| Least(key, keys);
      [key] + Sorted(keys - {key})
  }

  method SortKeys(keys: set<string>) returns (sorted: seq<string>)
    ensures sorted == Sorted(keys)
  {
    hide Le;
    sorted := [];
    var rest := keys;
    while rest != {}
      invariant Sorted(keys) == sorted + Sorted(rest)
      decreases rest
    {
      ghost var least := LeastExists(rest);
      var key: string :| key in rest && forall other | other in rest :: Le(key, other);
      LeastUnique(key, rest);
      rest := rest - {key};
      sorted := sorted + [key];
    }
  }

  lemma LeastUnique(key: string, keys: set<string>)
    requires Least(key, keys)
    ensures Sorted(keys) == [key] + Sorted(keys - {key})
  {
    hide Le;
    var first := Sorted(keys)[0];
    assert Least(first, keys);
    LeTotal(key, first);
  }

  // ------------------------------------------------------------------ rendering

  function FillLines(template: seq<string>, values: map<string, string>): (r: seq<string>)
    ensures |r| == |template|
  {
    if template == [] then []
    else FillLines(template[..|template| - 1], values) + [FilledLine(template[|template| - 1], values)]
  }

  function UsedKeys(template: seq<string>, values: map<string, string>): set<string> {
    if template == [] then {}
    else
      var last := template[|template| - 1];
      UsedKeys(template[..|template| - 1], values) + (if Fills(last, values) then {SlotKey(last).value} else {})
  }

  const EXTRA_RULE := "#" + " ============================================"
  const EXTRA_TITLE := "#" + " [AUTO-GENERATED] Additional settings"
  const EXTRA_HEADER := ["", EXTRA_RULE, EXTRA_TITLE, EXTRA_RULE]

  function Assignments(keys: seq<string>, values: map<string, string>): seq<string>
    requires forall k | k in keys :: k in values
  {
    if keys == [] then []
    else Assignments(keys[..|keys| - 1], values) + [Assignment(keys[|keys| - 1], values[keys[|keys| - 1]])]
  }

  lemma {:induction false} SortedMembers(keys: set<string>)
    ensures forall k :: k in Sorted(keys) <==> k in keys
  {
    hide Le;
    if keys != {} {
      var first := Sorted(keys)[0];
      assert Least(first, keys);
      SortedMembers(keys - {first});
    }
  }

  /** The extra keys under their header. */
  ghost function ExtraLines(keys: set<string>, values: map<string, string>): seq<string>
    requires keys <= values.Keys
  {
    SortedMembers(keys);
    if keys == {} then [] else EXTRA_HEADER + Assignments(Sorted(keys), values)
  }

  /** `render_env_from_template`; without a template, `serialize_env`. */
  ghost function Render(template: Option<seq<string>>, values: map<string, string>): seq<string> {
    SortedMembers(values.Keys);
    match template
    case None => Assignments(Sorted(values.Keys), values)
    case Some(lines) => FillLines(lines, values) + ExtraLines(values.Keys - UsedKeys(lines, values), values)
  }

  // ------------------------------------------------------------------ the script's loops

  lemma ParseSnoc(lines: seq<string>, last: string)
    ensures Parse(lines + [last])
            == match LineEntry(last) case None => Parse(lines) case Some(e) => Parse(lines)[e.0 := e.1]
  {
    assert (lines + [last])[..|lines|] == lines;
  }

  method ParseEnvLines(lines: seq<string>) returns (entries: map<string, string>)
    ensures entries == Parse(lines)
  {
    hide Parse, Strip, IndexOf;
    entries := map[];
    assert Parse([]) == map[] by {
      NothingParsed();
    }
    for k := 0 to |lines|
      invariant entries == Parse(lines[..k])
    {
      assert lines[..k + 1] == lines[..k] + [lines[k]];
      ParseSnoc(lines[..k], lines[k]);
      var line := Strip(lines[k]);
      if line == "" || line[0] == '#' {
        continue;
      }
      var sep := IndexOf(line, '=');
      if sep == |line| {
        continue;
      }
      var key := Strip(line[..sep]);
      var value := Strip(line[sep + 1..]);
      if |value| >= 2 && value[0] == value[|value| - 1] && (value[0] == '"' || value[0] == '\'') {
        value := value[1..|value| - 1];
      }
      entries := entries[key := value];
    }
    assert lines[..|lines|] == lines;
  }

  lemma NothingParsed()
    ensures Parse([]) == map[]
  {
  }

  method AssignAll(keys: seq<string>, values: map<string, string>) returns (lines: seq<string>)
    requires forall k | k in keys :: k in values
    ensures lines == Assignments(keys, values)
  {
    lines := [];
    for i := 0 to |keys|
      invariant lines == Assignments(keys[..i], values)
    {
      assert keys[..i + 1][..i] == keys[..i];
      lines := lines + [keys[i] + "=" + values[keys[i]]];
    }
    assert keys[..|keys|] == keys;
  }

  /** The loop over the template: each line is looked at commented out first, then as it stands. */
  method FillTemplate(template: seq<string>, values: map<string, string>)
    returns (output: seq<string>, used: set<string>)
    ensures output == FillLines(template, values) && used == UsedKeys(template, values)
  {
    hide Strip, IndexOf, DropHashes;
    output, used := [], {};
    for i := 0 to |template|
      invariant output == FillLines(template[..i], values) && used == UsedKeys(template[..i], values)
    {
      var line := template[i];
      assert template[..i + 1][..i] == template[..i] && template[..i + 1][i] == line;
      var stripped := Strip(line);
      if stripped != "" && stripped[0] == '#' {
        var uncommented := Strip(DropHashes(stripped));
        var sep := IndexOf(uncommented, '=');
        if sep != |uncommented| {
          var key := Strip(uncommented[..sep]);
          if key != "" && key in values {
            output := output + [key + "=" + values[key]];
            used := used + {key};
            continue;
          }
        }
      }
      if stripped != "" && stripped[0] != '#' {
        var sep := IndexOf(stripped, '=');
        if sep != |stripped| {
          var key := Strip(stripped[..sep]);
          if key != "" && key in values {
            output := output + [key + "=" + values[key]];
            used := used + {key};
            continue;
          }
        }
      }
      assert !Fills(line, values) by {
        EmptyHasNoKey();
      }
      output := output + [line];
    }
    assert template[..|template|] == template;
  }

  lemma EmptyHasNoKey()
    ensures IndexOf("", '=') == 0
  {
  }

  method RenderEnv(template: Option<seq<string>>, values: map<string, string>) returns (text: seq<string>)
    ensures text == Render(template, values)
  {
    hide FillLines, UsedKeys, Sorted, Assignments;
    if template.None? {
      var all := SortKeys(values.Keys);
      SortedMembers(values.Keys);
      text := AssignAll(all, values);
      return;
    }
    var output, used := FillTemplate(template.value, values);
    var extra := SortKeys(values.Keys - used);
    SortedMembers(values.Keys - used);
    SortedEmpty(values.Keys - used);
    if extra != [] {
      var lines := AssignAll(extra, values);
      output := output + EXTRA_HEADER + lines;
    }
    text := output;
  }

  lemma SortedEmpty(keys: set<string>)
    ensures Sorted(keys) == [] <==> keys == {}
  {
    SortedMembers(keys);
  }

  // ------------------------------------------------------------------ the bootstrap step

  const FLASK_KEY := "FLASK_SECRET_KEY"
  const ENCRYPTION_KEY := "ENCRYPTION_KEY"

  function ParseFile(file: Option<seq<string>>): map<string, string> {
    match file case None => map[] case Some(lines) => Parse(lines)
  }

  predicate Missing(env: map<string, string>, key: string) {
    key !in env || env[key] == ""
  }

  /** `ensure_env_secrets`, with the values that would be generated. */
  method EnsureSecrets(env: map<string, string>, flask: string, encryption: string) returns (r: map<string, string>)
    ensures r.Keys == env.Keys + {FLASK_KEY, ENCRYPTION_KEY}
    ensures forall k | k in r :: r[k] == if k == FLASK_KEY && Missing(env, k) then flask
                                         else if k == ENCRYPTION_KEY && Missing(env, k) then encryption
                                         else env[k]
    ensures r == WithSecrets(env, flask, encryption)
  {
    assert FLASK_KEY != ENCRYPTION_KEY by {
      assert |FLASK_KEY| != |ENCRYPTION_KEY|;
    }
    r := env;
    if Missing(r, FLASK_KEY) {
      r := r[FLASK_KEY := flask];
    }
    if Missing(r, ENCRYPTION_KEY) {
      r := r[ENCRYPTION_KEY := encryption];
    }
  }

  function WithSecrets(env: map<string, string>, flask: string, encryption: string): map<string, string> {
    env + (if Missing(env, FLASK_KEY) then map[FLASK_KEY := flask] else map[])
        + (if Missing(env, ENCRYPTION_KEY) then map[ENCRYPTION_KEY := encryption] else map[])
  }

  /** What the bootstrap wants the file to say: the template's defaults under the existing values, and the
      secrets. */
  function Wanted(file: Option<seq<string>>, template: Option<seq<string>>, flask: string, encryption: string)
    : map<string, string>
  {
    WithSecrets(ParseFile(template) + ParseFile(file), flask, encryption)
  }

  predicate UpToDate(file: Option<seq<string>>, template: Option<seq<string>>, flask: string, encryption: string) {
    ParseFile(file) == Wanted(file, template, flask, encryption)
  }

  ghost function Bootstrapped(file: Option<seq<string>>, template: Option<seq<string>>, flask: string, encryption: string)
    : Option<seq<string>>
  {
    if UpToDate(file, template, flask, encryption) then file
    else Some(Render(template, Wanted(file, template, flask, encryption)))
  }

  /** `ensure_env`. */
  method EnsureEnv(file: Option<seq<string>>, template: Option<seq<string>>, flask: string, encryption: string)
    returns (written: Option<seq<string>>, skipped: bool)
    ensures written == Bootstrapped(file, template, flask, encryption)
    ensures skipped <==> UpToDate(file, template, flask, encryption)
  {
    hide Parse, Render, WithSecrets;
    var existing, defaults: map<string, string> := map[], map[];
    if file.Some? {
      existing := ParseEnvLines(file.value);
    }
    if template.Some? {
      defaults := ParseEnvLines(template.value);
    }
    var merged := EnsureSecrets(defaults + existing, flask, encryption);
    if existing == merged {
      return file, true;
    }
    var text := RenderEnv(template, merged);
    return Some(text), false;
  }
}
