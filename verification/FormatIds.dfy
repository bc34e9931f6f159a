/** JSON values and the PostgreSQL operators on them that the migrations use. */
module Json {
  import opened Text

  datatype Json =
    | Null
    | Bool(flag: bool)
    | Number(value: real)
    | Str(text: string)
    | Arr(items: seq<Json>)
    | Obj(fields: map<string, Json>)

  /** `j ? key`: a key of an object, a string element of an array, or the string itself. */
  predicate HasKey(j: Json, key: string) {
    match j
    case Obj(fields) => key in fields
    case Arr(items) => Str(key) in items
    case Str(text) => text == key
    case _ => false
  }

  /** `j -> key`; None is SQL NULL. */
  function Field(j: Json, key: string): Option<Json> {
    if j.Obj? && key in j.fields then Some(j.fields[key]) else None
  }

  /** `j ->> key`, with `show` for how values other than strings look as text. */
  function TextField(j: Json, key: string, show: Json -> string): Option<string> {
    match Field(j, key)
    case None => None
    case Some(v) => if v.Null? then None else if v.Str? then Some(v.text) else Some(show(v))
  }

  /** `jsonb_typeof`. */
  function TypeOf(j: Json): string {
    match j
    case Null => "null"
    case Bool(_) => "boolean"
    case Number(_) => "number"
    case Str(_) => "string"
    case Arr(_) => "array"
    case Obj(_) => "object"
  }

  /** SQL truth values. */
  datatype Truth = True | False | Unknown

  function Not(a: Truth): Truth {
    match a case True => False case False => True case Unknown => Unknown
  }

  function Or(a: Truth, b: Truth): Truth {
    if a.True? || b.True? then True else if a.Unknown? || b.Unknown? then Unknown else False
  }

  function Of(b: bool): Truth {
    if b then True else False
  }
}

/** The four revisions that turn lists of format names into checked references. */
module FormatIds {
  import opened Text
  import opened Json

  const AGENT_URL := "agent_url"
  const FORMAT_ID := "format_id"
  const ID := "id"
  const DEFAULT_AGENT_URL := "https://creative.adcontextprotocol.org"

  datatype Result<+T> = Ok(value: T) | Raises

  // ------------------------------------------------------------------ deb82ef8a598: strings to references

  predicate AlreadyMigrated(formats: seq<Json>) {
    formats != [] && formats[0].Obj? && AGENT_URL in formats[0].fields
  }

  /** One element; `in` and item assignment raise `TypeError` on what is neither a dict nor a list naming
      `agent_url`. */
  function Reference(f: Json): Result<Json> {
    match f
    case Str(_) => Ok(Obj(map[AGENT_URL := Str(DEFAULT_AGENT_URL), FORMAT_ID := f]))
    case Obj(fields) =>
      if AGENT_URL in fields then Ok(f) else Ok(Obj(fields[AGENT_URL := Str(DEFAULT_AGENT_URL)]))
    case Arr(items) => if Str(AGENT_URL) in items then Ok(f) else Raises
    case _ => Raises
  }

  function References(formats: seq<Json>): Result<seq<Json>> {
    if formats == [] then Ok([])
    else
      match References(formats[..|formats| - 1])
      case Raises => Raises
      case Ok(before) =>
        match Reference(formats[|formats| - 1])
        case Raises => Raises
        case Ok(r) => Ok(before + [r])
  }

  function Migrated(formats: seq<Json>): Result<seq<Json>> {
    if AlreadyMigrated(formats) then Ok(formats) else References(formats)
  }

  lemma {:induction false} ReferencesRaise(formats: seq<Json>, i: nat)
    requires i < |formats| && Reference(formats[i]).Raises?
    ensures References(formats).Raises?
  {
    if i < |formats| - 1 {
      ReferencesRaise(formats[..|formats| - 1], i);
    }
  }

  method MigrateFormats(formats: seq<Json>) returns (r: Result<seq<Json>>)
    ensures r == Migrated(formats)
  {
    if AlreadyMigrated(formats) {
      return Ok(formats);
    }
    var newFormats: seq<Json> := [];
    for i := 0 to |formats|
      invariant References(formats[..i]) == Ok(newFormats)
    {
      assert formats[..i + 1][..i] == formats[..i];
      var f := formats[i];
      match f {
        case Str(_) =>
          newFormats := newFormats + [Obj(map[AGENT_URL := Str(DEFAULT_AGENT_URL), FORMAT_ID := f])];
        case Obj(fields) =>
          if AGENT_URL !in fields {
            f := Obj(fields[AGENT_URL := Str(DEFAULT_AGENT_URL)]);
          }
          newFormats := newFormats + [f];
        case Arr(items) =>
          if Str(AGENT_URL) !in items {
            ReferencesRaise(formats, i);
            return Raises;
          }
          newFormats := newFormats + [f];
        case _ =>
          ReferencesRaise(formats, i);
          return Raises;
      }
    }
    assert formats[..|formats|] == formats;
    r := Ok(newFormats);
  }

  /** The revision over all products; an error rolls every row back. */
  method MigrateProducts(products: array<seq<Json>>) returns (ok: bool)
    modifies products
    ensures ok <==> forall i | 0 <= i < products.Length :: Migrated(old(products[i])).Ok?
    ensures ok ==> forall i | 0 <= i < products.Length :: Migrated(old(products[i])) == Ok(products[i])
    ensures !ok ==> products[..] == old(products[..])
  {
    hide Migrated;
    var before := products[..];
    for i := 0 to products.Length
      invariant forall k | 0 <= k < i :: Migrated(before[k]) == Ok(products[k])
      invariant forall k | i <= k < products.Length :: products[k] == before[k]
    {
      var r := MigrateFormats(products[i]);
      if r.Raises? {
        forall k | 0 <= k < products.Length {
          products[k] := before[k];
        }
        assert Migrated(old(products[i])).Raises?;
        return false;
      }
      products[i] := r.value;
    }
    ok := true;
  }

  /** `downgrade`: references back to names; elements of another shape are dropped. */
  function Names(formats: seq<Json>): seq<Json> {
    if formats == [] then []
    else
      var last := formats[|formats| - 1];
      Names(formats[..|formats| - 1])
      + (if last.Obj? && FORMAT_ID in last.fields then [last.fields[FORMAT_ID]] else if last.Str? then [last] else [])
  }

  function Reverted(formats: seq<Json>): seq<Json> {
    if formats != [] && formats[0].Str? then formats else Names(formats)
  }

  predicate AllStrings(formats: seq<Json>) {
    forall i | 0 <= i < |formats| :: formats[i].Str?
  }

  lemma KeysDiffer()
    ensures AGENT_URL != FORMAT_ID && AGENT_URL != ID && FORMAT_ID != ID
  {
    assert |ID| == 2 && |AGENT_URL| == 9 && |FORMAT_ID| == 9 && AGENT_URL[0] != FORMAT_ID[0];
  }

  function NameReference(name: Json): Json {
    Obj(map[AGENT_URL := Str(DEFAULT_AGENT_URL), FORMAT_ID := name])
  }

  lemma StringReferenced(name: Json)
    requires name.Str?
    ensures Reference(name) == Ok(NameReference(name))
    ensures var r := NameReference(name); r.Obj? && FORMAT_ID in r.fields && r.fields[FORMAT_ID] == name
  {
  }

  lemma {:induction false} StringsReferenced(formats: seq<Json>)
    requires AllStrings(formats)
    ensures References(formats).Ok? && |References(formats).value| == |formats|
    ensures forall i | 0 <= i < |formats| :: References(formats).value[i] == NameReference(formats[i])
    ensures Names(References(formats).value) == formats
  {
    hide Reference, NameReference;
    if formats != [] {
      var front, last := formats[..|formats| - 1], formats[|formats| - 1];
      StringsReferenced(front);
      StringReferenced(last);
      var refs := References(formats).value;
      assert refs[..|refs| - 1] == References(front).value;
      assert front + [last] == formats;
    }
  }

  /** Downgrade after upgrade gives back every list of names, and a second upgrade changes nothing. */
  lemma NamesRoundTrip(formats: seq<Json>)
    requires AllStrings(formats)
    ensures Migrated(formats).Ok? && Reverted(Migrated(formats).value) == formats
    ensures Migrated(Migrated(formats).value) == Migrated(formats)
  {
    StringsReferenced(formats);
    var refs := Migrated(formats).value;
    if formats == [] {
      assert References([]) == Ok([]);
    } else {
      assert AlreadyMigrated(refs);
    }
  }

  // ------------------------------------------------------------------ 0d4fe6eb03ab: format_id to id

  predicate WantsRename(f: Json) {
    HasKey(f, FORMAT_ID) && !HasKey(f, ID)
  }

  /** The CASE expression: deleting a key from a scalar raises, and `jsonb_set` of an array with a NULL value is
      NULL. */
  function Renamed(f: Json): Result<Json> {
    if !WantsRename(f) then Ok(f)
    else match f
      case Obj(fields) => Ok(Obj((fields - {FORMAT_ID})[ID := fields[FORMAT_ID]]))
      case Arr(_) => Ok(Null)
      case _ => Raises
  }

  function RenameEach(formats: seq<Json>): Result<seq<Json>> {
    if formats == [] then Ok([])
    else match (Renamed(formats[0]), RenameEach(formats[1..]))
      case (Ok(r), Ok(rest)) => Ok([r] + rest)
      case _ => Raises
  }

  /** The UPDATE: rows without any element to rename are not touched. */
  function RenamedAll(formats: seq<Json>): Result<seq<Json>> {
    if exists i | 0 <= i < |formats| :: WantsRename(formats[i]) then RenameEach(formats) else Ok(formats)
  }

  lemma {:induction false} RenameEachAt(formats: seq<Json>)
    requires forall i | 0 <= i < |formats| :: Renamed(formats[i]).Ok?
    ensures RenameEach(formats).Ok? && |RenameEach(formats).value| == |formats|
    ensures forall i | 0 <= i < |formats| :: RenameEach(formats).value[i] == Renamed(formats[i]).value
  {
    hide Renamed;
    if formats != [] {
      assert forall i | 0 <= i < |formats| - 1 :: formats[1..][i] == formats[i + 1];
      RenameEachAt(formats[1..]);
    }
  }

  /** Row by row, the guard changes nothing: the UPDATE renames every element that wants it. */
  lemma RenamedAllAt(formats: seq<Json>)
    requires forall i | 0 <= i < |formats| :: Renamed(formats[i]).Ok?
    ensures RenamedAll(formats).Ok? && |RenamedAll(formats).value| == |formats|
    ensures forall i | 0 <= i < |formats| :: RenamedAll(formats).value[i] == Renamed(formats[i]).value
  {
    hide WantsRename;
    RenameEachAt(formats);
  }

  /** Renaming twice is renaming once, for objects of any content. */
  lemma RenameIsIdempotent(f: Json)
    requires f.Obj?
    ensures Renamed(f).Ok? && Renamed(f).value.Obj? && Renamed(Renamed(f).value) == Renamed(f)
  {
    KeysDiffer();
  }

  // ------------------------------------------------------------------ rename_formats_to_format_ids: the checked shape

  predicate WantsRebuild(f: Json) {
    HasKey(f, FORMAT_ID) || !HasKey(f, ID)
  }

  function OrNull(t: Option<string>): Json {
    match t case None => Null case Some(s) => Str(s)
  }

  /** `jsonb_build_object` of one element. */
  function Rebuilt(f: Json, show: Json -> string): Json {
    var url := TextField(f, AGENT_URL, show);
    var id := TextField(f, FORMAT_ID, show);
    Obj(map[AGENT_URL := if url.Some? then Str(url.value) else Str(DEFAULT_AGENT_URL),
            ID := OrNull(if id.Some? then id else TextField(f, ID, show))])
  }

  function RebuiltAll(formats: seq<Json>, show: Json -> string): (r: seq<Json>)
    ensures |r| == |formats|
  {
    if exists i | 0 <= i < |formats| :: WantsRebuild(formats[i]) then
      seq(|formats|, i requires 0 <= i < |formats| => Rebuilt(formats[i], show))
    else formats
  }

  // ------------------------------------------------------------------ the validators, in three-valued logic

  /** `array_agg` over `jsonb_object_keys`: NULL for an object without keys. */
  function KeyArray(f: Json): Option<set<string>>
    requires f.Obj?
  {
    if f.fields.Keys == {} then None else Some(f.fields.Keys)
  }

  function HasAll(keys: Option<set<string>>, wanted: set<string>): Truth {
    match keys case None => Unknown case Some(k) => Of(wanted <= k)
  }

  function HasOnly(keys: Option<set<string>>, allowed: set<string>): Truth {
    match keys case None => Unknown case Some(k) => Of(k <= allowed)
  }

  function CountIsNot2(keys: Option<set<string>>): Truth {
    match keys case None => Unknown case Some(k) => Of(|k| != 2)
  }

  function NotAString(v: Option<Json>): Truth {
    match v case None => Unknown case Some(j) => Of(TypeOf(j) != "string")
  }

  /** `length(f ->> key) = 0`. */
  function IsEmptyText(v: Option<string>): Truth {
    match v case None => Unknown case Some(t) => Of(t == "")
  }

  /** The checks on `agent_url` and `id` that both validators end with; an IF raises only on true. */
  predicate TextChecksPass(f: Json, show: Json -> string) {
    && NotAString(Field(f, AGENT_URL)) != True
    && NotAString(Field(f, ID)) != True
    && IsEmptyText(TextField(f, AGENT_URL, show)) != True
    && IsEmptyText(TextField(f, ID, show)) != True
  }

  const REQUIRED := {AGENT_URL, ID}
  const ALLOWED := {AGENT_URL, ID, "width", "height", "duration_ms"}

  predicate StrictAccepts(f: Json, show: Json -> string) {
    && f.Obj?
    && Or(CountIsNot2(KeyArray(f)), Not(HasAll(KeyArray(f), REQUIRED))) != True
    && TextChecksPass(f, show)
  }

  predicate PositiveIfPresent(f: Json, key: string)
    requires f.Obj?
  {
    key in f.fields ==> f.fields[key].Number? && f.fields[key].value > 0.0
  }

  predicate RelaxedAccepts(f: Json, show: Json -> string) {
    && f.Obj?
    && Not(HasAll(KeyArray(f), REQUIRED)) != True
    && Not(HasOnly(KeyArray(f), ALLOWED)) != True
    && TextChecksPass(f, show)
    && PositiveIfPresent(f, "width") && PositiveIfPresent(f, "height") && PositiveIfPresent(f, "duration_ms")
  }

  /** `validate_format_ids`: SQL NULL passes, JSON that is not an array raises. */
  predicate StrictValid(formats: Option<Json>, show: Json -> string) {
    formats.None? || (formats.value.Arr? && forall i | 0 <= i < |formats.value.items| :: StrictAccepts(formats.value.items[i], show))
  }

  predicate RelaxedValid(formats: Option<Json>, show: Json -> string) {
    formats.None? || (formats.value.Arr? && forall i | 0 <= i < |formats.value.items| :: RelaxedAccepts(formats.value.items[i], show))
  }

  /** The loop of `validate_format_ids`; false stands for a raised exception. */
  method ValidateStrict(formats: Option<Json>, show: Json -> string) returns (accepted: bool)
    ensures accepted == StrictValid(formats, show)
  {
    if formats.None? {
      return true;
    }
    if !formats.value.Arr? {
      return false;
    }
    var items := formats.value.items;
    for i := 0 to |items|
      invariant forall k | 0 <= k < i :: StrictAccepts(items[k], show)
    {
      var f := items[i];
      if !f.Obj? {
        return false;
      }
      var keys := KeyArray(f);
      if Or(CountIsNot2(keys), Not(HasAll(keys, REQUIRED))) == True {
        return false;
      }
      if NotAString(Field(f, AGENT_URL)) == True || NotAString(Field(f, ID)) == True {
        return false;
      }
      if IsEmptyText(TextField(f, AGENT_URL, show)) == True || IsEmptyText(TextField(f, ID, show)) == True {
        return false;
      }
    }
    accepted := true;
  }

  /** The loop of the relaxed `validate_format_ids`. */
  method ValidateRelaxed(formats: Option<Json>, show: Json -> string) returns (accepted: bool)
    ensures accepted == RelaxedValid(formats, show)
  {
    if formats.None? {
      return true;
    }
    if !formats.value.Arr? {
      return false;
    }
    var items := formats.value.items;
    for i := 0 to |items|
      invariant forall k | 0 <= k < i :: RelaxedAccepts(items[k], show)
    {
      var f := items[i];
      if !f.Obj? {
        return false;
      }
      var keys := KeyArray(f);
      if Not(HasAll(keys, REQUIRED)) == True || Not(HasOnly(keys, ALLOWED)) == True {
        return false;
      }
      if !TextChecksPass(f, show) {
        return false;
      }
      if !PositiveIfPresent(f, "width") || !PositiveIfPresent(f, "height") || !PositiveIfPresent(f, "duration_ms") {
        return false;
      }
    }
    accepted := true;
  }

  predicate NonEmptyText(f: Json, key: string) {
    f.Obj? && key in f.fields && f.fields[key].Str? && f.fields[key].text != ""
  }

  /** The intended shape: exactly the two properties, both non-empty strings. */
  predicate CheckedShape(f: Json) {
    NonEmptyText(f, AGENT_URL) && NonEmptyText(f, ID) && f.fields.Keys == REQUIRED
  }

  lemma TwoKeys(keys: set<string>)
    requires REQUIRED <= keys
    ensures |keys| == 2 <==> keys == REQUIRED
  {
    KeysDiffer();
    assert |REQUIRED| == 2;
    var rest := keys - REQUIRED;
    assert keys == REQUIRED + rest && REQUIRED * rest == {};
    assert |REQUIRED + rest| == |REQUIRED| + |rest|;
  }

  /** What the strict validator really accepts: the intended shape, and the empty object, on which every check
      is unknown. */
  lemma StrictExactly(f: Json, show: Json -> string)
    ensures StrictAccepts(f, show) <==> CheckedShape(f) || f == Obj(map[])
  {
    if f.Obj? {
      if f.fields.Keys == {} {
        assert f.fields == map[];
      } else {
        if REQUIRED <= f.fields.Keys {
          TwoKeys(f.fields.Keys);
        }
        TypeNames(f);
      }
    }
  }

  lemma TypeNames(f: Json)
    ensures forall j :: TypeOf(j) == "string" <==> j.Str?
  {
    assert |"string"| == |"number"| == |"object"| == 6 && "string"[0] != "number"[0] && "string"[0] != "object"[0];
    assert |"null"| == 4 && |"boolean"| == 7 && |"array"| == 5;
  }

  /** The relaxed validator accepts the empty object too, and otherwise the two required non-empty strings with
      positive `width`, `height` and `duration_ms` at most. */
  lemma RelaxedExactly(f: Json, show: Json -> string)
    ensures RelaxedAccepts(f, show)
       <==> (f == Obj(map[])
             || (NonEmptyText(f, AGENT_URL) && NonEmptyText(f, ID) && f.fields.Keys <= ALLOWED
                 && PositiveIfPresent(f, "width") && PositiveIfPresent(f, "height") && PositiveIfPresent(f, "duration_ms")))
  {
    if f.Obj? {
      TypeNames(f);
      if f.fields.Keys == {} {
        assert f.fields == map[];
      } else {
        assert REQUIRED <= f.fields.Keys <==> AGENT_URL in f.fields && ID in f.fields;
      }
    }
  }

  /** Relaxing loses nothing: whatever passed the strict check passes the relaxed one. */
  lemma StrictImpliesRelaxed(formats: Option<Json>, show: Json -> string)
    requires StrictValid(formats, show)
    ensures RelaxedValid(formats, show)
  {
    hide StrictAccepts, RelaxedAccepts, TextChecksPass;
    if formats.Some? {
      forall i | 0 <= i < |formats.value.items| ensures RelaxedAccepts(formats.value.items[i], show) {
        StrictExactly(formats.value.items[i], show);
        RelaxedExactly(formats.value.items[i], show);
        OtherKeys();
      }
    }
  }

  lemma OtherKeys()
    ensures "width" !in REQUIRED && "height" !in REQUIRED && "duration_ms" !in REQUIRED && REQUIRED <= ALLOWED
  {
    assert |"width"| == 5 && |"height"| == 6 && |"duration_ms"| == 11 && |ID| == 2 && |AGENT_URL| == 9;
  }

  // ------------------------------------------------------------------ the chain

  /** The three rewrites in order. */
  function Chain(formats: seq<Json>, show: Json -> string): Result<seq<Json>> {
    match Migrated(formats)
    case Raises => Raises
    case Ok(a) =>
      match RenamedAll(a)
      case Raises => Raises
      case Ok(b) => Ok(RebuiltAll(b, show))
  }

  /** A format as the first revision may find it: a name, or a reference under the old key with or without an
      agent. */
  predicate OldFormat(f: Json) {
    || (f.Str? && f.text != "")
    || (NonEmptyText(f, FORMAT_ID)
        && (f.fields.Keys == {FORMAT_ID} || (f.fields.Keys == {FORMAT_ID, AGENT_URL} && NonEmptyText(f, AGENT_URL))))
  }

  predicate HasAgent(f: Json) {
    f.Obj? && AGENT_URL in f.fields
  }

  function NameOf(f: Json): Json
    requires OldFormat(f)
  {
    if f.Str? then f else f.fields[FORMAT_ID]
  }

  function AgentOf(f: Json): Json
    requires OldFormat(f)
  {
    if HasAgent(f) then f.fields[AGENT_URL] else Str(DEFAULT_AGENT_URL)
  }

  predicate AllOld(formats: seq<Json>) {
    forall i | 0 <= i < |formats| :: OldFormat(formats[i])
  }

  /** The first revision skips a product when its first format has an agent; that is only right when all do. */
  predicate Uniform(formats: seq<Json>) {
    formats != [] && HasAgent(formats[0]) ==> forall i | 0 <= i < |formats| :: HasAgent(formats[i])
  }

  lemma {:induction false} ReferencesAt(formats: seq<Json>)
    requires forall i | 0 <= i < |formats| :: Reference(formats[i]).Ok?
    ensures References(formats).Ok? && |References(formats).value| == |formats|
    ensures forall i | 0 <= i < |formats| :: References(formats).value[i] == Reference(formats[i]).value
  {
    hide Reference;
    if formats != [] {
      ReferencesAt(formats[..|formats| - 1]);
    }
  }

  function Checked(f: Json): Json
    requires OldFormat(f)
  {
    Obj(map[AGENT_URL := AgentOf(f), ID := NameOf(f)])
  }

  lemma OldReference(f: Json)
    requires OldFormat(f)
    ensures Reference(f).Ok? && (HasAgent(f) ==> Reference(f) == Ok(f))
    ensures Renamed(Reference(f).value) == Ok(Checked(f))
    ensures CheckedShape(Checked(f)) && !WantsRebuild(Checked(f))
  {
    KeysDiffer();
    assert DEFAULT_AGENT_URL != "" by {
      assert |DEFAULT_AGENT_URL| > 0;
    }
    var r := Reference(f).value;
    assert r == Obj(map[AGENT_URL := AgentOf(f), FORMAT_ID := NameOf(f)]);
    assert r.fields - {FORMAT_ID} == map[AGENT_URL := AgentOf(f)];
  }

  /** Uniform lists of old formats reach the checked shape: the same names in the same order, under their own
      agent or the default one. */
  lemma ChainReachesShape(formats: seq<Json>, show: Json -> string)
    requires AllOld(formats) && Uniform(formats)
    ensures Chain(formats, show).Ok?
    ensures var r := Chain(formats, show).value;
            && |r| == |formats| && (forall i | 0 <= i < |r| :: r[i] == Checked(formats[i]))
            && StrictValid(Some(Arr(r)), show) && RelaxedValid(Some(Arr(r)), show)
  {
    hide OldFormat, Reference, Renamed, Checked, CheckedShape, WantsRebuild, WantsRename, StrictAccepts, RelaxedAccepts,
         References, RenamedAll;
    forall i | 0 <= i < |formats|
      ensures Reference(formats[i]).Ok? && (HasAgent(formats[i]) ==> Reference(formats[i]) == Ok(formats[i]))
      ensures Renamed(Reference(formats[i]).value) == Ok(Checked(formats[i]))
      ensures CheckedShape(Checked(formats[i])) && !WantsRebuild(Checked(formats[i])) {
      OldReference(formats[i]);
    }
    ReferencesAt(formats);
    var a := Migrated(formats).value;
    RenamedAllAt(a);
    var b := RenamedAll(a).value;
    var r := Chain(formats, show).value;
    assert r == b;
    forall i | 0 <= i < |r| ensures StrictAccepts(r[i], show) {
      StrictExactly(r[i], show);
    }
    StrictImpliesRelaxed(Some(Arr(r)), show);
  }

  predicate Accepted(f: Json) {
    CheckedShape(f) || f == Obj(map[])
  }

  /** What becomes of one old format in a product that the first revision skipped. */
  lemma SkippedFormat(f: Json, show: Json -> string)
    requires OldFormat(f) && Renamed(f).Ok?
    ensures !HasAgent(f) ==> !Accepted(Renamed(f).value)
    ensures WantsRebuild(Renamed(f).value) ==> !Accepted(Rebuilt(Renamed(f).value, show))
  {
    KeysDiffer();
    if f.Obj? {
      var g := Renamed(f).value;
      assert ID in g.fields && FORMAT_ID !in g.fields;
    } else {
      var g := Rebuilt(f, show);
      assert g.fields[ID] == Null && ID in g.fields.Keys;
    }
  }

  lemma {:induction false} RenameEachRaises(formats: seq<Json>, i: nat)
    requires i < |formats| && Renamed(formats[i]).Raises?
    ensures RenameEach(formats).Raises?
  {
    hide Renamed;
    if i > 0 {
      RenameEachRaises(formats[1..], i - 1);
    }
  }

  /** In any other list of old formats a name behind a reference with an agent loses its id, or a reference
      without an agent never gets one. */
  lemma OtherwiseRejected(formats: seq<Json>, show: Json -> string)
    requires AllOld(formats) && !Uniform(formats) && Chain(formats, show).Ok?
    ensures !StrictValid(Some(Arr(Chain(formats, show).value)), show)
  {
    hide OldFormat, Renamed, StrictAccepts, References, WantsRebuild, Rebuilt, RenameEach, HasAgent, Accepted, WantsRename;
    FirstDecides(formats);
    assert WantsRename(formats[0]) by {
      KeysDiffer();
      FirstWantsRename(formats[0]);
    }
    forall i | 0 <= i < |formats| ensures Renamed(formats[i]).Ok? {
      if Renamed(formats[i]).Raises? {
        RenameEachRaises(formats, i);
      }
    }
    RenamedAllAt(formats);
    var b := RenamedAll(formats).value;
    var r := Chain(formats, show).value;
    var i :| 0 <= i < |formats| && !HasAgent(formats[i]);
    if k :| 0 <= k < |b| && WantsRebuild(b[k]) {
      SkippedFormat(formats[k], show);
      RejectedByStrict(r, k, show);
    } else {
      SkippedFormat(formats[i], show);
      RejectedByStrict(r, i, show);
    }
  }

  lemma FirstDecides(formats: seq<Json>)
    requires formats != []
    ensures AlreadyMigrated(formats) <==> HasAgent(formats[0])
  {
  }

  lemma FirstWantsRename(f: Json)
    requires OldFormat(f) && HasAgent(f)
    ensures WantsRename(f)
  {
    KeysDiffer();
  }

  lemma RejectedByStrict(r: seq<Json>, k: nat, show: Json -> string)
    requires k < |r| && !Accepted(r[k])
    ensures !StrictValid(Some(Arr(r)), show)
  {
    hide StrictAccepts, CheckedShape;
    StrictExactly(r[k], show);
    var j := Arr(r);
    assert !StrictAccepts(j.items[k], show);
  }

  /** So lists of old formats pass the constraint that the last revision adds if and only if they are uniform. */
  lemma ChainExactly(formats: seq<Json>, show: Json -> string)
    requires AllOld(formats)
    ensures Uniform(formats)
       <==> (Chain(formats, show).Ok? && StrictValid(Some(Arr(Chain(formats, show).value)), show))
  {
    hide Chain, Uniform, StrictValid, AllOld;
    if Uniform(formats) {
      ChainReachesShape(formats, show);
    } else if Chain(formats, show).Ok? {
      OtherwiseRejected(formats, show);
    }
  }

  /** In particular every list of non-empty names. */
  lemma NamesReachShape(formats: seq<Json>, show: Json -> string)
    requires forall i | 0 <= i < |formats| :: formats[i].Str? && formats[i].text != ""
    ensures Chain(formats, show)
         == Ok(seq(|formats|, i requires 0 <= i < |formats| => Obj(map[AGENT_URL := Str(DEFAULT_AGENT_URL), ID := formats[i]])))
  {
    hide Chain, StrictValid, RelaxedValid;
    ChainReachesShape(formats, show);
    var r := Chain(formats, show).value;
    var wanted := seq(|formats|, i requires 0 <= i < |formats| => Obj(map[AGENT_URL := Str(DEFAULT_AGENT_URL), ID := formats[i]]));
    assert forall i | 0 <= i < |formats| :: r[i] == wanted[i];
    assert r == wanted;
  }
}
