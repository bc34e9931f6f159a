/** Migration 4b8c3ffb6ae7: legacy creatives to asset objects and back. A row's `data` is a JSON object. */
module Creatives {
  import opened Text
  import opened Json

  type Data = map<string, Json>

  datatype Result<+T> = Ok(value: T) | Raises

  // ------------------------------------------------------------------ Python on decoded JSON

  predicate Truthy(j: Json) {
    match j
    case Null => false
    case Bool(b) => b
    case Number(v) => v != 0.0
    case Str(s) => s != ""
    case Arr(items) => items != []
    case Obj(fields) => fields != map[]
  }

  /** `d.get(key)`; a missing key reads as None, like a JSON null. */
  function Get(d: Data, key: string): Json {
    if key in d then d[key] else Null
  }

  /** `a or b`. */
  function PyOr(a: Json, b: Json): Json {
    if Truthy(a) then a else b
  }

  /** `int` of a number: towards zero. */
  function Truncated(v: real): real {
    if v >= 0.0 then v.Floor as real else -((-v).Floor as real)
  }

  /** What Python does with values of the wrong type: `int` of a text, `str` of a value. */
  datatype Convert = Convert(toInt: string -> Option<int>, show: Json -> string)

  /** A dimension as it is stored, if it is: `bool` is an `int`, and what `int` refuses is skipped. */
  function Dimension(j: Json, c: Convert): Option<Json> {
    match j
    case Number(v) => Some(Number(Truncated(v)))
    case Bool(_) => Some(j)
    case Str(s) => (match c.toInt(s) case None => None case Some(n) => Some(Number(n as real)))
    case _ => None
  }

  function ShowText(j: Json, c: Convert): string {
    if j.Str? then j.text else c.show(j)
  }

  // ------------------------------------------------------------------ keys

  const URL := "url"
  const MEDIA_URL := "media_url"
  const WIDTH := "width"
  const HEIGHT := "height"
  const CLICK_URL := "click_url"
  const CLICKTHROUGH_URL := "clickthrough_url"
  const SNIPPET := "snippet"
  const VARIABLES := "template_variables"
  const ASSETS := "assets"
  const LEGACY := {URL, MEDIA_URL, WIDTH, HEIGHT, CLICK_URL, CLICKTHROUGH_URL, SNIPPET, VARIABLES}

  const PRIMARY := "primary"
  const CLICKTHROUGH := "clickthrough"
  const HTML := "html_content"
  const TEXT_ := "text_"

  const ASSET_TYPE := "asset_type"
  const CONTENT := "content"
  const VARIABLE := "variable_name"
  const TEXT_TYPE := "text"

  // ------------------------------------------------------------------ upgrade

  /** The WHERE clause. */
  predicate IsLegacy(d: Data) {
    && (URL in d || WIDTH in d || HEIGHT in d || CLICK_URL in d || SNIPPET in d)
    && (ASSETS in d ==> !d[ASSETS].Obj?)
  }

  const VIDEO_ENDINGS := [".mp4", ".webm", ".mov", ".avi"]

  function AssetType(url: Json): Json {
    if url.Str? && exists i | 0 <= i < |VIDEO_ENDINGS| :: Contains(Lower(url.text), VIDEO_ENDINGS[i]) then Str("video")
    else Str("image")
  }

  function Put(m: map<string, Json>, key: string, value: Option<Json>): map<string, Json> {
    if value.Some? then m[key := value.value] else m
  }

  function PrimaryAsset(url: Json, width: Json, height: Json, c: Convert): Json {
    Obj(Put(Put(map[ASSET_TYPE := AssetType(url), URL := url], WIDTH, Dimension(width, c)), HEIGHT, Dimension(height, c)))
  }

  function ClickAsset(url: Json): Json {
    Obj(map[ASSET_TYPE := Str("url"), URL := url, "url_type" := Str("clickthrough")])
  }

  function HtmlAsset(snippet: Json): Json {
    Obj(map[ASSET_TYPE := Str("html"), CONTENT := snippet])
  }

  function TextAsset(key: string, value: Json, c: Convert): Json {
    Obj(map[ASSET_TYPE := Str(TEXT_TYPE), CONTENT := Str(ShowText(value, c)), VARIABLE := Str(key)])
  }

  function MainUrl(d: Data): Json {
    PyOr(Get(d, URL), Get(d, MEDIA_URL))
  }

  function ClickUrl(d: Data): Json {
    PyOr(Get(d, CLICK_URL), Get(d, CLICKTHROUGH_URL))
  }

  /** The template variables, if they are a dict. */
  function Variables(d: Data): map<string, Json> {
    if Get(d, VARIABLES).Obj? then Get(d, VARIABLES).fields else map[]
  }

  function WhenTruthy(condition: Json, value: Json): Option<Json> {
    if Truthy(condition) then Some(value) else None
  }

  function FixedAssets(d: Data, c: Convert): map<string, Json> {
    var url, click, snippet := MainUrl(d), ClickUrl(d), Get(d, SNIPPET);
    Put(Put(Put(map[], PRIMARY, WhenTruthy(url, PrimaryAsset(url, Get(d, WIDTH), Get(d, HEIGHT), c))),
            CLICKTHROUGH, WhenTruthy(click, ClickAsset(click))),
        HTML, WhenTruthy(snippet, HtmlAsset(snippet)))
  }

  /** The text assets are added in the order in which the dict of variables is walked. */
  function WithTexts(assets: map<string, Json>, variables: map<string, Json>, order: seq<string>, c: Convert): map<string, Json> {
    if order == [] then assets
    else
      var key := order[|order| - 1];
      WithTexts(assets, variables, order[..|order| - 1], c)[TEXT_ + key := TextAsset(key, Get(variables, key), c)]
  }

  function Upgraded(d: Data, order: seq<string>, c: Convert): Data {
    d[ASSETS := Obj(WithTexts(FixedAssets(d, c), Variables(d), order, c))] - LEGACY
  }

  /** One legacy creative: the assets are built by assignment. */
  method UpgradeCreative(d: Data, order: seq<string>, c: Convert) returns (newData: Data)
    requires forall k :: k in order <==> k in Variables(d)
    ensures newData == Upgraded(d, order, c)
  {
    hide AssetType, Dimension, Truthy, ShowText, ClickAsset, HtmlAsset, TextAsset;
    var assets: map<string, Json> := map[];
    var url := PyOr(Get(d, URL), Get(d, MEDIA_URL));
    if Truthy(url) {
      var primary := map[ASSET_TYPE := AssetType(url), URL := url];
      var w, h := Dimension(Get(d, WIDTH), c), Dimension(Get(d, HEIGHT), c);
      if w.Some? {
        primary := primary[WIDTH := w.value];
      }
      if h.Some? {
        primary := primary[HEIGHT := h.value];
      }
      assets := assets[PRIMARY := Obj(primary)];
    }
    var click := PyOr(Get(d, CLICK_URL), Get(d, CLICKTHROUGH_URL));
    if Truthy(click) {
      assets := assets[CLICKTHROUGH := ClickAsset(click)];
    }
    var snippet := Get(d, SNIPPET);
    if Truthy(snippet) {
      assets := assets[HTML := HtmlAsset(snippet)];
    }
    assert assets == FixedAssets(d, c);
    var variables := Variables(d);
    for i := 0 to |order|
      invariant assets == WithTexts(FixedAssets(d, c), variables, order[..i], c)
    {
      assert order[..i + 1][..i] == order[..i];
      var key := order[i];
      assert key in variables;
      assets := assets[TEXT_ + key := TextAsset(key, variables[key], c)];
    }
    assert order[..|order|] == order;
    newData := d[ASSETS := Obj(assets)] - LEGACY;
  }

  // ------------------------------------------------------------------ downgrade

  /** `assets.get(id, {})`, on which `.get` is called: it must be a dict. */
  function AssetFields(assets: map<string, Json>, id: string): Result<map<string, Json>> {
    if id !in assets then Ok(map[]) else if assets[id].Obj? then Ok(assets[id].fields) else Raises
  }

  /** The key of a text asset; a list or dict cannot be one. */
  function VariableName(id: string, fields: map<string, Json>, c: Convert): Result<string> {
    var name := PyOr(Get(fields, VARIABLE), Str(Replace(id, TEXT_, "")));
    if name.Arr? || name.Obj? then Raises else Ok(ShowText(name, c))
  }

  predicate IsTextAsset(asset: Json) {
    asset.Obj? && Get(asset.fields, ASSET_TYPE) == Str(TEXT_TYPE)
  }

  /** The text assets, walked in the given order; later ones win. */
  function TextVariables(assets: map<string, Json>, order: seq<string>, c: Convert): Result<map<string, Json>> {
    if order == [] then Ok(map[])
    else
      var id := order[|order| - 1];
      match TextVariables(assets, order[..|order| - 1], c)
      case Raises => Raises
      case Ok(before) =>
        if id !in assets || !IsTextAsset(assets[id]) then Ok(before)
        else
          var fields := assets[id].fields;
          match VariableName(id, fields, c)
          case Raises => Raises
          case Ok(name) => Ok(before[name := if CONTENT in fields then fields[CONTENT] else Str("")])
  }

  function PutIfTruthy(d: Data, key: string, value: Json): Data {
    if Truthy(value) then d[key := value] else d
  }

  /** One creative with an assets object. */
  function Downgraded(d: Data, order: seq<string>, c: Convert): Result<Data>
    requires ASSETS in d && d[ASSETS].Obj?
  {
    var assets := d[ASSETS].fields;
    match (AssetFields(assets, PRIMARY), AssetFields(assets, CLICKTHROUGH), AssetFields(assets, HTML),
           TextVariables(assets, order, c))
    case (Ok(primary), Ok(click), Ok(html), Ok(variables)) =>
      var d1 := PutIfTruthy(d, URL, Get(primary, URL));
      var d2 := PutIfTruthy(d1, WIDTH, Get(primary, WIDTH));
      var d3 := PutIfTruthy(d2, HEIGHT, Get(primary, HEIGHT));
      var d4 := PutIfTruthy(d3, CLICK_URL, Get(click, URL));
      var d5 := PutIfTruthy(d4, SNIPPET, Get(html, CONTENT));
      Ok(PutIfTruthy(d5, VARIABLES, Obj(variables)) - {ASSETS})
    case _ => Raises
  }

  method DowngradeCreative(d: Data, order: seq<string>, c: Convert) returns (r: Result<Data>)
    requires ASSETS in d && d[ASSETS].Obj?
    ensures r == Downgraded(d, order, c)
  {
    hide TextVariables, Truthy;
    var assets := d[ASSETS].fields;
    var primary := AssetFields(assets, PRIMARY);
    var click := AssetFields(assets, CLICKTHROUGH);
    var html := AssetFields(assets, HTML);
    var variables := CollectVariables(assets, order, c);
    if primary.Raises? || click.Raises? || html.Raises? || variables.Raises? {
      return Raises;
    }
    var newData := d;
    if Truthy(Get(primary.value, URL)) {
      newData := newData[URL := Get(primary.value, URL)];
    }
    if Truthy(Get(primary.value, WIDTH)) {
      newData := newData[WIDTH := Get(primary.value, WIDTH)];
    }
    if Truthy(Get(primary.value, HEIGHT)) {
      newData := newData[HEIGHT := Get(primary.value, HEIGHT)];
    }
    if Truthy(Get(click.value, URL)) {
      newData := newData[CLICK_URL := Get(click.value, URL)];
    }
    if Truthy(Get(html.value, CONTENT)) {
      newData := newData[SNIPPET := Get(html.value, CONTENT)];
    }
    if Truthy(Obj(variables.value)) {
      newData := newData[VARIABLES := Obj(variables.value)];
    }
    r := Ok(newData - {ASSETS});
  }

  method CollectVariables(assets: map<string, Json>, order: seq<string>, c: Convert) returns (r: Result<map<string, Json>>)
    ensures r == TextVariables(assets, order, c)
  {
    hide IsTextAsset, VariableName;
    var variables: map<string, Json> := map[];
    for i := 0 to |order|
      invariant TextVariables(assets, order[..i], c) == Ok(variables)
    {
      ghost var longer := order[..i + 1];
      var id := order[i];
      assert longer[..|longer| - 1] == order[..i] && longer[|longer| - 1] == id;
      if id in assets && IsTextAsset(assets[id]) {
        assert assets[id].Obj? by {
          TextAssetIsObject(assets[id]);
        }
        var fields := assets[id].fields;
        var name := VariableName(id, fields, c);
        if name.Raises? {
          VariablesRaise(assets, longer, order, c);
          return Raises;
        }
        variables := variables[name.value := if CONTENT in fields then fields[CONTENT] else Str("")];
      }
    }
    assert order[..|order|] == order;
    r := Ok(variables);
  }

  lemma TextAssetIsObject(asset: Json)
    requires IsTextAsset(asset)
    ensures asset.Obj?
  {
  }

  lemma {:induction false} VariablesRaise(assets: map<string, Json>, front: seq<string>, order: seq<string>, c: Convert)
    requires front <= order && TextVariables(assets, front, c).Raises?
    ensures TextVariables(assets, order, c).Raises?
  {
    hide IsTextAsset, VariableName;
    if front != order {
      VariablesRaise(assets, front, order[..|order| - 1], c);
    }
  }

  // ------------------------------------------------------------------ the table

  /** What each row becomes; rows that the WHERE clause leaves out stay as they are. */
  function UpgradedRow(d: Data, order: seq<string>, c: Convert): Data {
    if IsLegacy(d) then Upgraded(d, order, c) else d
  }

  method UpgradeCreatives(table: array<Data>, orders: seq<seq<string>>, c: Convert)
    requires |orders| == table.Length
    requires forall i | 0 <= i < table.Length :: forall k :: k in orders[i] <==> k in Variables(table[i])
    modifies table
    ensures forall i | 0 <= i < table.Length :: table[i] == UpgradedRow(old(table[i]), orders[i], c)
  {
    hide Upgraded, Variables, IsLegacy;
    for i := 0 to table.Length
      invariant forall k | 0 <= k < i :: table[k] == UpgradedRow(old(table[k]), orders[k], c)
      invariant forall k | i <= k < table.Length :: table[k] == old(table[k])
    {
      if IsLegacy(table[i]) {
        table[i] := UpgradeCreative(table[i], orders[i], c);
      }
    }
  }
}

/** Which creatives come back from a downgrade as they were. */
module CreativeRoundTrip {
  import opened Text
  import opened Json
  import opened Creatives

  function At(d: Data, key: string): Option<Json> {
    if key in d then Some(d[key]) else None
  }

  // ------------------------------------------------------------------ keys are different

  lemma LegacyKeysDiffer()
    ensures URL != MEDIA_URL && URL != WIDTH && URL != HEIGHT && URL != CLICK_URL && URL != CLICKTHROUGH_URL
    ensures URL != SNIPPET && URL != VARIABLES && WIDTH != HEIGHT && WIDTH != CLICK_URL && WIDTH != SNIPPET
    ensures HEIGHT != CLICK_URL && HEIGHT != SNIPPET && CLICK_URL != SNIPPET
    ensures VARIABLES != WIDTH && VARIABLES != HEIGHT && VARIABLES != CLICK_URL && VARIABLES != SNIPPET
    ensures VARIABLES != MEDIA_URL && VARIABLES != CLICKTHROUGH_URL
    ensures ASSETS !in LEGACY
  {
    assert |URL| == 3 && |MEDIA_URL| == 9 && |WIDTH| == 5 && |HEIGHT| == 6 && |CLICK_URL| == 9;
    assert |CLICKTHROUGH_URL| == 16 && |SNIPPET| == 7 && |VARIABLES| == 18 && |ASSETS| == 6;
    assert HEIGHT[0] == 'h' && ASSETS[0] == 'a';
  }

  lemma AssetKeysDiffer(key: string)
    ensures PRIMARY != CLICKTHROUGH && PRIMARY != HTML && CLICKTHROUGH != HTML
    ensures TEXT_ + key != PRIMARY && TEXT_ + key != CLICKTHROUGH && TEXT_ + key != HTML
    ensures ASSET_TYPE != URL && ASSET_TYPE != WIDTH && ASSET_TYPE != HEIGHT && ASSET_TYPE != CONTENT && ASSET_TYPE != VARIABLE
    ensures URL != WIDTH && URL != HEIGHT && WIDTH != HEIGHT && URL != "url_type" && ASSET_TYPE != "url_type"
    ensures CONTENT != VARIABLE && CONTENT != URL
  {
    assert |PRIMARY| == 7 && |CLICKTHROUGH| == 12 && |HTML| == 12 && CLICKTHROUGH[0] == 'c' && HTML[0] == 'h';
    assert (TEXT_ + key)[0] == 't' && PRIMARY[0] == 'p';
    assert |URL| == 3 && |WIDTH| == 5 && |HEIGHT| == 6 && |ASSET_TYPE| == 10 && |CONTENT| == 7 && |VARIABLE| == 13;
    assert |"url_type"| == 8;
  }

  // ------------------------------------------------------------------ what the downgrade reads

  lemma {:induction false} TextsAt(assets: map<string, Json>, variables: map<string, Json>, order: seq<string>, c: Convert, id: string)
    ensures var all := WithTexts(assets, variables, order, c);
            && (forall key | key in order && id == TEXT_ + key :: At(all, id) == Some(TextAsset(key, Get(variables, key), c)))
            && ((forall key | key in order :: id != TEXT_ + key) ==> At(all, id) == At(assets, id))
  {
    hide TextAsset;
    if order != [] {
      var front, last := order[..|order| - 1], order[|order| - 1];
      TextsAt(assets, variables, front, c, id);
      assert order == front + [last];
      assert last in order;
      forall key | key in order && id == TEXT_ + key
        ensures At(WithTexts(assets, variables, order, c), id) == Some(TextAsset(key, Get(variables, key), c)) {
        if id == TEXT_ + last {
          assert key == (TEXT_ + key)[5..] == (TEXT_ + last)[5..] == last;
        }
      }
    }
  }

  predicate FixedType(asset: Json) {
    asset.Obj? && Get(asset.fields, ASSET_TYPE).Str? && Get(asset.fields, ASSET_TYPE).text != TEXT_TYPE
  }

  lemma FixedTypes(d: Data, c: Convert)
    ensures FixedType(PrimaryAsset(MainUrl(d), Get(d, WIDTH), Get(d, HEIGHT), c))
    ensures FixedType(ClickAsset(ClickUrl(d))) && FixedType(HtmlAsset(Get(d, SNIPPET)))
  {
    hide Dimension, MainUrl, ClickUrl, Contains;
    AssetKeysDiffer("");
    assert "video" != TEXT_TYPE && "image" != TEXT_TYPE && "url" != TEXT_TYPE && "html" != TEXT_TYPE by {
      assert |TEXT_TYPE| == 4 && |"video"| == 5 && |"image"| == 5 && |"url"| == 3 && "html"[0] == 'h' && TEXT_TYPE[0] == 't';
    }
  }

  lemma FixedAt(d: Data, c: Convert)
    ensures var f := FixedAssets(d, c);
            && At(f, PRIMARY) == WhenTruthy(MainUrl(d), PrimaryAsset(MainUrl(d), Get(d, WIDTH), Get(d, HEIGHT), c))
            && At(f, CLICKTHROUGH) == WhenTruthy(ClickUrl(d), ClickAsset(ClickUrl(d)))
            && At(f, HTML) == WhenTruthy(Get(d, SNIPPET), HtmlAsset(Get(d, SNIPPET)))
            && f.Keys <= {PRIMARY, CLICKTHROUGH, HTML}
  {
    hide PrimaryAsset, ClickAsset, HtmlAsset, MainUrl, ClickUrl, Truthy;
    AssetKeysDiffer("");
  }

  function AllAssets(d: Data, order: seq<string>, c: Convert): map<string, Json> {
    WithTexts(FixedAssets(d, c), Variables(d), order, c)
  }

  /** The three fixed assets are found again, whatever the variables are called. */
  lemma AssetsAt(d: Data, order: seq<string>, c: Convert)
    ensures var all := AllAssets(d, order, c);
            && At(all, PRIMARY) == WhenTruthy(MainUrl(d), PrimaryAsset(MainUrl(d), Get(d, WIDTH), Get(d, HEIGHT), c))
            && At(all, CLICKTHROUGH) == WhenTruthy(ClickUrl(d), ClickAsset(ClickUrl(d)))
            && At(all, HTML) == WhenTruthy(Get(d, SNIPPET), HtmlAsset(Get(d, SNIPPET)))
  {
    hide PrimaryAsset, ClickAsset, HtmlAsset, MainUrl, ClickUrl, Truthy, FixedAssets, WithTexts, TextAsset, WhenTruthy;
    FixedAt(d, c);
    forall key ensures TEXT_ + key != PRIMARY && TEXT_ + key != CLICKTHROUGH && TEXT_ + key != HTML {
      AssetKeysDiffer(key);
    }
    TextsAt(FixedAssets(d, c), Variables(d), order, c, PRIMARY);
    TextsAt(FixedAssets(d, c), Variables(d), order, c, CLICKTHROUGH);
    TextsAt(FixedAssets(d, c), Variables(d), order, c, HTML);
  }

  // ------------------------------------------------------------------ the variables come back

  lemma {:induction false} ReplaceSelf(text: string)
    requires text != ""
    ensures Replace(text, text, "") == ""
  {
    assert text[|text|..] == "";
  }

  lemma TextAssetName(key: string, value: Json, c: Convert)
    ensures var asset := TextAsset(key, value, c);
            && IsTextAsset(asset) && VariableName(TEXT_ + key, asset.fields, c) == Ok(key)
            && CONTENT in asset.fields && asset.fields[CONTENT] == Str(ShowText(value, c))
  {
    hide Replace;
    AssetKeysDiffer("");
    if key == "" {
      assert TEXT_ + key == TEXT_;
      ReplaceSelf(TEXT_);
    }
  }

  /** Every asset is one of the three fixed ones, which are not text, or the text asset of a variable. */
  lemma AssetKind(d: Data, order: seq<string>, c: Convert, id: string)
    requires id in AllAssets(d, order, c)
    ensures var asset := AllAssets(d, order, c)[id];
            || (exists key | key in order :: id == TEXT_ + key && asset == TextAsset(key, Get(Variables(d), key), c))
            || (FixedType(asset) && forall key | key in order :: id != TEXT_ + key)
  {
    hide PrimaryAsset, ClickAsset, HtmlAsset, MainUrl, ClickUrl, Truthy, FixedAssets, WithTexts, TextAsset, FixedType, Variables;
    TextsAt(FixedAssets(d, c), Variables(d), order, c, id);
    if forall key | key in order :: id != TEXT_ + key {
      FixedAt(d, c);
      FixedTypes(d, c);
    }
  }

  function ShownAt(variables: map<string, Json>, key: string, c: Convert): Option<Json> {
    if key in variables then Some(Str(ShowText(variables[key], c))) else None
  }

  lemma FixedIsNoText(asset: Json)
    requires FixedType(asset)
    ensures !IsTextAsset(asset)
  {
  }

  lemma {:induction false} VariablesAt(d: Data, order: seq<string>, c: Convert, walk: seq<string>)
    requires forall k :: k in order <==> k in Variables(d)
    ensures TextVariables(AllAssets(d, order, c), walk, c).Ok?
    ensures forall key :: At(TextVariables(AllAssets(d, order, c), walk, c).value, key)
                       == if TEXT_ + key in walk then ShownAt(Variables(d), key, c) else None
  {
    hide AllAssets, TextAsset, FixedType, IsTextAsset, VariableName, ShowText, Variables;
    var assets := AllAssets(d, order, c);
    if walk != [] {
      var front, id := walk[..|walk| - 1], walk[|walk| - 1];
      assert walk == front + [id];
      VariablesAt(d, order, c, front);
      if id in assets {
        AssetKind(d, order, c, id);
        if key :| key in order && id == TEXT_ + key && assets[id] == TextAsset(key, Get(Variables(d), key), c) {
          TextAssetName(key, Get(Variables(d), key), c);
          forall other | TEXT_ + other == id ensures other == key {
            assert other == (TEXT_ + other)[5..] == (TEXT_ + key)[5..] == key;
          }
        } else {
          FixedIsNoText(assets[id]);
        }
      } else {
        forall key | TEXT_ + key == id ensures key !in Variables(d) {
          if key in order {
            MissingText(d, order, c, key);
          }
        }
      }
    }
  }

  lemma MissingText(d: Data, order: seq<string>, c: Convert, key: string)
    requires key in order
    ensures TEXT_ + key in AllAssets(d, order, c)
  {
    hide TextAsset, FixedAssets, WithTexts, Variables;
    TextsAt(FixedAssets(d, c), Variables(d), order, c, TEXT_ + key);
    assert At(AllAssets(d, order, c), TEXT_ + key).Some?;
  }

  // ------------------------------------------------------------------ what comes back

  /** The dimension that comes back, if any. */
  function DimensionBack(d: Data, key: string, c: Convert): Option<Json> {
    var stored := Dimension(Get(d, key), c);
    if Truthy(MainUrl(d)) && stored.Some? && Truthy(stored.value) then stored else None
  }

  function VariablesBack(d: Data, c: Convert): Option<Json> {
    var variables := Variables(d);
    if variables == map[] then None
    else Some(Obj(map key | key in variables :: Str(ShowText(variables[key], c))))
  }

  /** A creative after both migrations, field by field. */
  function BackAt(d: Data, key: string, c: Convert): Option<Json> {
    if key == URL then WhenTruthy(MainUrl(d), MainUrl(d))
    else if key == WIDTH || key == HEIGHT then DimensionBack(d, key, c)
    else if key == CLICK_URL then WhenTruthy(ClickUrl(d), ClickUrl(d))
    else if key == SNIPPET then WhenTruthy(Get(d, SNIPPET), Get(d, SNIPPET))
    else if key == VARIABLES then VariablesBack(d, c)
    else if key == MEDIA_URL || key == CLICKTHROUGH_URL || key == ASSETS then None
    else At(d, key)
  }

  lemma UpgradedAt(d: Data, order: seq<string>, c: Convert, key: string)
    ensures At(Upgraded(d, order, c), key)
         == if key in LEGACY then None else if key == ASSETS then Some(Obj(AllAssets(d, order, c))) else At(d, key)
  {
    hide FixedAssets, WithTexts, Variables;
    LegacyKeysDiffer();
  }

  /** What is under a key after the downgrade, given what it read from the assets. */
  function PutAt(d: Data, key: string, url: Json, width: Json, height: Json, click: Json, html: Json, variables: Json): Option<Json> {
    if key == ASSETS then None
    else if key == VARIABLES && Truthy(variables) then Some(variables)
    else if key == SNIPPET && Truthy(html) then Some(html)
    else if key == CLICK_URL && Truthy(click) then Some(click)
    else if key == HEIGHT && Truthy(height) then Some(height)
    else if key == WIDTH && Truthy(width) then Some(width)
    else if key == URL && Truthy(url) then Some(url)
    else At(d, key)
  }

  lemma DowngradedAt(d: Data, order: seq<string>, c: Convert, key: string)
    requires ASSETS in d && d[ASSETS].Obj?
    requires var assets := d[ASSETS].fields;
             && AssetFields(assets, PRIMARY).Ok? && AssetFields(assets, CLICKTHROUGH).Ok? && AssetFields(assets, HTML).Ok?
             && TextVariables(assets, order, c).Ok?
    ensures var assets := d[ASSETS].fields;
            var primary := AssetFields(assets, PRIMARY).value;
            && Downgraded(d, order, c).Ok?
            && At(Downgraded(d, order, c).value, key)
               == PutAt(d, key, Get(primary, URL), Get(primary, WIDTH), Get(primary, HEIGHT),
                        Get(AssetFields(assets, CLICKTHROUGH).value, URL), Get(AssetFields(assets, HTML).value, CONTENT),
                        Obj(TextVariables(assets, order, c).value))
  {
    hide TextVariables, Truthy, AssetFields, Get, PutIfTruthy;
    var assets := d[ASSETS].fields;
    var primary, click, html := AssetFields(assets, PRIMARY).value, AssetFields(assets, CLICKTHROUGH).value, AssetFields(assets, HTML).value;
    var d1 := PutIfTruthy(d, URL, Get(primary, URL));
    var d2 := PutIfTruthy(d1, WIDTH, Get(primary, WIDTH));
    var d3 := PutIfTruthy(d2, HEIGHT, Get(primary, HEIGHT));
    var d4 := PutIfTruthy(d3, CLICK_URL, Get(click, URL));
    var d5 := PutIfTruthy(d4, SNIPPET, Get(html, CONTENT));
    var variables := Obj(TextVariables(assets, order, c).value);
    PutIfTruthyAt(d, URL, Get(primary, URL), key);
    PutIfTruthyAt(d1, WIDTH, Get(primary, WIDTH), key);
    PutIfTruthyAt(d2, HEIGHT, Get(primary, HEIGHT), key);
    PutIfTruthyAt(d3, CLICK_URL, Get(click, URL), key);
    PutIfTruthyAt(d4, SNIPPET, Get(html, CONTENT), key);
    PutIfTruthyAt(d5, VARIABLES, variables, key);
  }

  lemma PutIfTruthyAt(d: Data, put: string, value: Json, key: string)
    ensures At(PutIfTruthy(d, put, value), key) == if key == put && Truthy(value) then Some(value) else At(d, key)
  {
    hide Truthy;
  }

  /** The fields that the downgrade reads from the three fixed assets. */
  lemma PrimaryReads(d: Data, order: seq<string>, c: Convert)
    ensures var r := AssetFields(AllAssets(d, order, c), PRIMARY);
            && r.Ok?
            && Get(r.value, URL) == (if Truthy(MainUrl(d)) then MainUrl(d) else Null)
            && Get(r.value, WIDTH) == (if Truthy(MainUrl(d)) && Dimension(Get(d, WIDTH), c).Some? then Dimension(Get(d, WIDTH), c).value else Null)
            && Get(r.value, HEIGHT) == (if Truthy(MainUrl(d)) && Dimension(Get(d, HEIGHT), c).Some? then Dimension(Get(d, HEIGHT), c).value else Null)
  {
    hide Dimension, MainUrl, ClickUrl, Truthy, AllAssets, AssetType, ClickAsset, HtmlAsset;
    AssetsAt(d, order, c);
    AssetKeysDiffer("");
  }

  lemma OtherReads(d: Data, order: seq<string>, c: Convert)
    ensures var click, html := AssetFields(AllAssets(d, order, c), CLICKTHROUGH), AssetFields(AllAssets(d, order, c), HTML);
            && click.Ok? && html.Ok?
            && Get(click.value, URL) == (if Truthy(ClickUrl(d)) then ClickUrl(d) else Null)
            && Get(html.value, CONTENT) == (if Truthy(Get(d, SNIPPET)) then Get(d, SNIPPET) else Null)
  {
    hide MainUrl, ClickUrl, Truthy, AllAssets, PrimaryAsset;
    AssetsAt(d, order, c);
    AssetKeysDiffer("");
  }

  /** `walk` is an order in which the assets of the upgraded creative may be walked. */
  ghost predicate WalksAll(walk: seq<string>, d: Data, order: seq<string>, c: Convert) {
    forall id | id in AllAssets(d, order, c) :: id in walk
  }

  lemma VariablesRead(d: Data, order: seq<string>, c: Convert, walk: seq<string>)
    requires (forall k :: k in order <==> k in Variables(d)) && WalksAll(walk, d, order, c)
    ensures var r := TextVariables(AllAssets(d, order, c), walk, c);
            r.Ok? && (if r.value == map[] then None else Some(Obj(r.value))) == VariablesBack(d, c)
  {
    hide AllAssets, Variables, ShowText, TextVariables;
    VariablesAt(d, order, c, walk);
    var r := TextVariables(AllAssets(d, order, c), walk, c).value;
    var variables := Variables(d);
    var shown := map key | key in variables :: Str(ShowText(variables[key], c));
    forall key ensures At(r, key) == At(shown, key) {
      if key in variables {
        MissingText(d, order, c, key);
      }
      assert At(r, key) == if TEXT_ + key in walk then ShownAt(variables, key, c) else None;
    }
    SameMap(r, shown);
    if variables == map[] {
      assert shown == map[];
    } else {
      var key :| key in variables;
      assert key in shown;
    }
  }

  lemma SameMap(a: Data, b: Data)
    ensures a == b <==> forall key :: At(a, key) == At(b, key)
  {
    if forall key :: At(a, key) == At(b, key) {
      forall key ensures key in a <==> key in b {
        assert At(a, key) == At(b, key);
      }
      forall key | key in a ensures a[key] == b[key] {
        assert At(a, key) == At(b, key);
      }
      assert a == b;
    }
  }

  lemma FieldsBack(d: Data, order: seq<string>, c: Convert, walk: seq<string>, key: string)
    requires (forall k :: k in order <==> k in Variables(d)) && WalksAll(walk, d, order, c)
    ensures var u := Upgraded(d, order, c);
            && ASSETS in u && u[ASSETS].Obj? && Downgraded(u, walk, c).Ok?
            && At(Downgraded(u, walk, c).value, key) == BackAt(d, key, c)
  {
    hide AllAssets, Variables, Upgraded, Downgraded, TextVariables, MainUrl, ClickUrl, AssetFields, WalksAll, VariablesBack, Dimension;
    var u := Upgraded(d, order, c);
    UpgradedAt(d, order, c, key);
    UpgradedAt(d, order, c, ASSETS);
    LegacyKeysDiffer();
    assert u[ASSETS].fields == AllAssets(d, order, c);
    PrimaryReads(d, order, c);
    OtherReads(d, order, c);
    VariablesRead(d, order, c, walk);
    DowngradedAt(u, walk, c, key);
  }

  // ------------------------------------------------------------------ exactly which creatives come back

  /** A dimension that survives: a non-zero whole number, or `true`, which Python counts as one. */
  predicate GoodDimension(j: Json) {
    (j.Number? && j.value != 0.0 && j.value == j.value.Floor as real) || j == Bool(true)
  }

  lemma GoodDimensionExactly(j: Json, c: Convert)
    ensures GoodDimension(j) <==> Dimension(j, c) == Some(j) && Truthy(j)
  {
    if j.Number? && j.value < 0.0 {
      NegativeWhole(j.value);
    }
  }

  lemma NegativeWhole(v: real)
    ensures v == v.Floor as real <==> v == -((-v).Floor as real)
  {
    if v == v.Floor as real {
      assert -v == (-(v.Floor)) as real;
    }
    if v == -((-v).Floor as real) {
      assert v == (-((-v).Floor)) as real;
    }
  }

  predicate StringsOnly(variables: map<string, Json>) {
    forall key | key in variables :: variables[key].Str?
  }

  /** No alternate field names and no assets; what is there is non-empty, dimensions are whole and come with a
      url, and template variables are a non-empty dict of strings. */
  predicate Reversible(d: Data) {
    && MEDIA_URL !in d && CLICKTHROUGH_URL !in d && ASSETS !in d
    && (URL in d ==> Truthy(d[URL]))
    && (WIDTH in d ==> URL in d && GoodDimension(d[WIDTH]))
    && (HEIGHT in d ==> URL in d && GoodDimension(d[HEIGHT]))
    && (CLICK_URL in d ==> Truthy(d[CLICK_URL]))
    && (SNIPPET in d ==> Truthy(d[SNIPPET]))
    && (VARIABLES in d ==> d[VARIABLES].Obj? && d[VARIABLES].fields != map[] && StringsOnly(d[VARIABLES].fields))
  }

  lemma VariablesSame(d: Data, c: Convert)
    ensures VariablesBack(d, c) == At(d, VARIABLES)
       <==> (VARIABLES in d ==> d[VARIABLES].Obj? && d[VARIABLES].fields != map[] && StringsOnly(d[VARIABLES].fields))
  {
    var variables := Variables(d);
    var shown := map key | key in variables :: Str(ShowText(variables[key], c));
    if VARIABLES in d && d[VARIABLES].Obj? && variables != map[] {
      if StringsOnly(variables) {
        assert shown == variables;
      }
      if shown == variables {
        forall key | key in variables ensures variables[key].Str? {
          assert shown[key] == variables[key];
        }
      }
    }
  }

  lemma ReversibleFields(d: Data, c: Convert, key: string)
    requires Reversible(d)
    ensures BackAt(d, key, c) == At(d, key)
  {
    hide VariablesBack, Dimension, Truthy, GoodDimension, StringsOnly;
    LegacyKeysDiffer();
    VariablesSame(d, c);
    NullIsFalse();
    GoodDimensionExactly(Get(d, WIDTH), c);
    GoodDimensionExactly(Get(d, HEIGHT), c);
    NullHasNoDimension(c);
  }

  lemma NullIsFalse()
    ensures !Truthy(Null)
  {
  }

  lemma NullHasNoDimension(c: Convert)
    ensures Dimension(Null, c).None?
  {
  }

  lemma FieldsReversible(d: Data, c: Convert)
    requires forall key :: BackAt(d, key, c) == At(d, key)
    ensures Reversible(d)
  {
    hide VariablesBack, Dimension, Truthy, GoodDimension, StringsOnly;
    LegacyKeysDiffer();
    VariablesSame(d, c);
    NullIsFalse();
    assert BackAt(d, MEDIA_URL, c) == At(d, MEDIA_URL);
    assert BackAt(d, CLICKTHROUGH_URL, c) == At(d, CLICKTHROUGH_URL);
    assert BackAt(d, ASSETS, c) == At(d, ASSETS);
    assert BackAt(d, URL, c) == At(d, URL);
    assert BackAt(d, WIDTH, c) == At(d, WIDTH);
    assert BackAt(d, HEIGHT, c) == At(d, HEIGHT);
    assert BackAt(d, CLICK_URL, c) == At(d, CLICK_URL);
    assert BackAt(d, SNIPPET, c) == At(d, SNIPPET);
    assert BackAt(d, VARIABLES, c) == At(d, VARIABLES);
    GoodDimensionExactly(Get(d, WIDTH), c);
    GoodDimensionExactly(Get(d, HEIGHT), c);
  }

  /** Downgrade after upgrade gives back the same object, other fields included, if and only if the creative is
      reversible; it never raises. In whatever order the dicts are walked. */
  lemma RoundTripExactly(d: Data, order: seq<string>, c: Convert, walk: seq<string>)
    requires (forall k :: k in order <==> k in Variables(d)) && WalksAll(walk, d, order, c)
    ensures var u := Upgraded(d, order, c);
            && ASSETS in u && u[ASSETS].Obj?
            && Downgraded(u, walk, c).Ok?
            && (Downgraded(u, walk, c).value == d <==> Reversible(d))
  {
    hide Variables, Upgraded, Downgraded, WalksAll, BackAt, Reversible;
    FieldsBack(d, order, c, walk, "");
    var back := Downgraded(Upgraded(d, order, c), walk, c).value;
    forall key ensures At(back, key) == BackAt(d, key, c) {
      FieldsBack(d, order, c, walk, key);
    }
    SameMap(back, d);
    if Reversible(d) {
      forall key ensures At(back, key) == At(d, key) {
        ReversibleFields(d, c, key);
      }
    }
    if back == d {
      forall key ensures BackAt(d, key, c) == At(d, key) {
        assert At(back, key) == BackAt(d, key, c);
      }
      FieldsReversible(d, c);
    }
  }
}
