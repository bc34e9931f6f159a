/** The announced option ids and the ranked suffixes, on their text. */
module OptionIdText {
  import opened Text
  import opened OptionIds

  /** The number that a text of decimal digits stands for. */
  function Value(s: string): int {
    if s == "" then 0 else 10 * Value(s[..|s| - 1]) + (s[|s| - 1] as int - '0' as int)
  }

  /** A suffix number is written in decimal, most significant digit first, without leading zeros. */
  lemma {:induction false} DecimalValue(n: nat)
    ensures Value(Decimal(n)) == n && (n > 0 ==> Decimal(n)[0] != '0')
  {
    if n < 10 {
      assert [DigitChar(n)][..0] == "";
    } else {
      DecimalValue(n / 10);
      var s := Decimal(n);
      assert s[..|s| - 1] == Decimal(n / 10);
    }
  }

  /** The four forms of an announced id. */
  lemma AnnouncedForms(row: PricingOption, model: string, currency: string)
    requires Lower(row.model) == model && Lower(row.currency) == currency
    ensures row.isFixed ==> Announced(row) == model + "_" + currency + "_fixed"
    ensures model == "cpa" ==> Announced(row) == model + "_" + currency + "_fixed"
    ensures !row.isFixed && model != "cpa" ==> Announced(row) == model + "_" + currency + "_auction"
  {
  }

  lemma LastUnderscore(a: string, b: string, c: string, d: string)
    requires '_' !in b && '_' !in d
    requires a + "_" + b == c + "_" + d
    ensures a == c && b == d
  {
    var s := a + "_" + b;
    assert s[|a|] == '_' && s[|c|] == '_';
    if |a| < |c| {
      BehindSeparator(a, b, |c|);
    } else if |c| < |a| {
      BehindSeparator(c, d, |a|);
    }
    assert s[..|a|] == a && s[..|c|] == c && s[|a| + 1..] == b && s[|c| + 1..] == d;
  }

  lemma BehindSeparator(a: string, b: string, i: int)
    requires |a| < i < |a + "_" + b|
    ensures (a + "_" + b)[i] in b
  {
    assert (a + "_" + b)[i] == b[i - |a| - 1];
  }

  lemma LowerKeepsUnderscore(s: string)
    ensures '_' in Lower(s) <==> '_' in s
  {
    hide Lower;
    if '_' in s {
      var i :| 0 <= i < |s| && s[i] == '_';
      assert Lower(s)[i] == '_';
    }
    if '_' in Lower(s) {
      var i :| 0 <= i < |s| && Lower(s)[i] == '_';
      assert s[i] == '_';
    }
  }

  function Ending(row: PricingOption): string {
    if row.isFixed || Lower(row.model) == "cpa" then "fixed" else "auction"
  }

  /** Two rows announce the same id if and only if they agree on model and currency, case aside, and on the way the
      price is found. */
  lemma AnnouncedExactly(a: PricingOption, b: PricingOption)
    requires '_' !in a.currency && '_' !in b.currency
    ensures Announced(a) == Announced(b)
       <==> (Lower(a.model) == Lower(b.model) && Lower(a.currency) == Lower(b.currency)
             && ((a.isFixed || Lower(a.model) == "cpa") <==> (b.isFixed || Lower(b.model) == "cpa")))
  {
    hide Lower;
    LowerKeepsUnderscore(a.currency);
    LowerKeepsUnderscore(b.currency);
    var m, n := Lower(a.model) + "_" + Lower(a.currency), Lower(b.model) + "_" + Lower(b.currency);
    assert Announced(a) == m + "_" + Ending(a) && Announced(b) == n + "_" + Ending(b);
    assert "fixed" != "auction" by {
      assert |"fixed"| != |"auction"|;
    }
    if Announced(a) == Announced(b) {
      LastUnderscore(m, Ending(a), n, Ending(b));
      LastUnderscore(Lower(a.model), Lower(a.currency), Lower(b.model), Lower(b.currency));
    }
  }

  /** The id of a row after the migration: the announced one, with the number of the row in its group behind it
      unless that is the first. */
  lemma RankedText(rows: seq<PricingOption>, i: nat)
    requires i < |rows|
    ensures var earlier := set j | 0 <= j < |rows| && rows[j].tenantId == rows[i].tenantId
                                   && rows[j].productId == rows[i].productId
                                   && Announced(rows[j]) == Announced(rows[i]) && rows[j].id < rows[i].id;
            Deduplicated(Backfilled(rows))[i].optionId
            == if earlier == {} then Announced(rows[i]) else Announced(rows[i]) + "_" + Decimal(|earlier| + 1)
  {
    hide Announced, Decimal;
    var earlier := set j | 0 <= j < |rows| && rows[j].tenantId == rows[i].tenantId
                           && rows[j].productId == rows[i].productId
                           && Announced(rows[j]) == Announced(rows[i]) && rows[j].id < rows[i].id;
    assert Before(Backfilled(rows), i) == earlier;
    if earlier != {} {
      var j :| j in earlier;
      assert earlier == {j} + (earlier - {j});
    }
  }
}

/** The upgraded creative on its keys and texts. */
module CreativeText {
  import opened Text
  import opened Json
  import opened Creatives
  import opened CreativeRoundTrip

  lemma LowerParts(a: string, b: string, c: string)
    ensures Lower(a + b + c) == Lower(a) + Lower(b) + Lower(c)
  {
    hide Lower, LowerChar;
    var s, l := a + b + c, Lower(a) + Lower(b) + Lower(c);
    forall i | 0 <= i < |s| ensures Lower(s)[i] == l[i] {
      assert Lower(s)[i] == LowerChar(s[i]);
    }
  }

  predicate VideoEnding(ending: string) {
    ending == ".mp4" || ending == ".webm" || ending == ".mov" || ending == ".avi"
  }

  /** A url with one of the four endings somewhere in it, in any case, is a video. */
  lemma VideoUrl(before: string, ending: string, after: string)
    requires VideoEnding(Lower(ending))
    ensures AssetType(Json.Str(before + ending + after)) == Json.Str("video")
  {
    hide Lower;
    LowerParts(before, ending, after);
    var s := Lower(before) + Lower(ending) + Lower(after);
    assert s[|before|..|before| + |ending|] == Lower(ending);
    assert OccursAt(Lower(ending), s, |before|);
    var k := if Lower(ending) == ".mp4" then 0 else if Lower(ending) == ".webm" then 1 else if Lower(ending) == ".mov" then 2 else 3;
    assert VIDEO_ENDINGS[k] == Lower(ending);
  }

  /** Everything else is an image. */
  lemma ImageUrl(url: Json)
    requires url.Str? ==> !Contains(Lower(url.text), ".mp4") && !Contains(Lower(url.text), ".webm")
                          && !Contains(Lower(url.text), ".mov") && !Contains(Lower(url.text), ".avi")
    ensures AssetType(url) == Json.Str("image")
  {
    hide Lower, Contains;
  }

  lemma AssetsPresent(d: Data, order: seq<string>, c: Convert)
    ensures "assets" in Upgraded(d, order, c)
    ensures Upgraded(d, order, c)["assets"] == Obj(AllAssets(d, order, c))
  {
    hide WithTexts, FixedAssets, Variables;
    LegacyKeysDiffer();
  }

  /** The legacy fields are gone, all others but `assets` are as they were. */
  lemma OtherFieldsKept(d: Data, order: seq<string>, c: Convert, key: string)
    requires key != "assets"
    ensures key in Upgraded(d, order, c)
       <==> (key in d && key != "url" && key != "media_url" && key != "width" && key != "height" && key != "click_url"
             && key != "clickthrough_url" && key != "snippet" && key != "template_variables")
    ensures key in Upgraded(d, order, c) ==> Upgraded(d, order, c)[key] == d[key]
  {
    hide WithTexts, FixedAssets, Variables;
  }

  /** The primary asset of a creative with a url, and with whole dimensions or none. */
  lemma PrimaryText(d: Data, order: seq<string>, c: Convert, url: string)
    requires "url" in d && d["url"] == Json.Str(url) && url != ""
    requires forall key | key == "width" || key == "height" ::
               key in d ==> d[key].Number? && d[key].value == d[key].value.Floor as real
    ensures var all := AllAssets(d, order, c);
            && "primary" in all && all["primary"].Obj?
            && var p := all["primary"].fields;
            && At(p, "url") == Some(Json.Str(url)) && At(p, "asset_type") == Some(AssetType(Json.Str(url)))
            && At(p, "width") == At(d, "width") && At(p, "height") == At(d, "height")
            && p.Keys <= {"url", "asset_type", "width", "height"}
  {
    hide AllAssets, AssetType;
    AssetsAt(d, order, c);
    AssetKeysDiffer("");
    LegacyKeysDiffer();
    WholeDimension(Get(d, WIDTH), c);
    WholeDimension(Get(d, HEIGHT), c);
    assert MainUrl(d) == Json.Str(url);
  }

  lemma WholeDimension(j: Json, c: Convert)
    requires j.Null? || (j.Number? && j.value == j.value.Floor as real)
    ensures Dimension(j, c) == if j.Null? then None else Some(j)
  {
    if j.Number? && j.value < 0.0 {
      NegativeWhole(j.value);
    }
  }

  /** A fractional dimension is cut towards zero, on both sides of it. */
  lemma FractionCut(v: real, c: Convert)
    ensures Dimension(Number(v), c).Some? && Dimension(Number(v), c).value.Number?
    ensures var n := Dimension(Number(v), c).value.value;
            && n == n.Floor as real
            && (v >= 0.0 ==> 0.0 <= n <= v < n + 1.0) && (v < 0.0 ==> n - 1.0 < v <= n <= 0.0)
  {
    if v < 0.0 {
      var k := (-v).Floor;
      assert Truncated(v) == (-k) as real;
    }
  }

  /** Without a url the media url takes its place, and without both there is no primary asset. */
  lemma MainUrlText(d: Data)
    ensures "url" in d && Truthy(d["url"]) ==> MainUrl(d) == d["url"]
    ensures !("url" in d && Truthy(d["url"])) && "media_url" in d ==> MainUrl(d) == d["media_url"]
    ensures "click_url" in d && Truthy(d["click_url"]) ==> ClickUrl(d) == d["click_url"]
    ensures !("click_url" in d && Truthy(d["click_url"])) && "clickthrough_url" in d ==> ClickUrl(d) == d["clickthrough_url"]
  {
  }

  lemma NoPrimary(d: Data, order: seq<string>, c: Convert)
    requires "url" !in d && "media_url" !in d
    ensures "primary" !in AllAssets(d, order, c)
  {
    hide AllAssets, PrimaryAsset;
    AssetsAt(d, order, c);
  }

  /** The click and snippet assets. */
  lemma OtherAssets(d: Data, order: seq<string>, c: Convert, text: string)
    requires text != ""
    ensures At(d, "click_url") == Some(Json.Str(text)) ==>
              At(AllAssets(d, order, c), "clickthrough")
              == Some(Obj(map["asset_type" := Json.Str("url"), "url" := Json.Str(text), "url_type" := Json.Str("clickthrough")]))
    ensures At(d, "snippet") == Some(Json.Str(text)) ==>
              At(AllAssets(d, order, c), "html_content")
              == Some(Obj(map["asset_type" := Json.Str("html"), "content" := Json.Str(text)]))
    ensures "click_url" !in d && "clickthrough_url" !in d ==> "clickthrough" !in AllAssets(d, order, c)
    ensures "snippet" !in d ==> "html_content" !in AllAssets(d, order, c)
  {
    hide AllAssets, PrimaryAsset;
    AssetsAt(d, order, c);
  }

  /** One text asset for every template variable. */
  lemma VariableText(d: Data, order: seq<string>, c: Convert, key: string, text: string)
    requires "template_variables" in d && d["template_variables"].Obj?
    requires At(d["template_variables"].fields, key) == Some(Json.Str(text)) && key in order
    ensures At(AllAssets(d, order, c), "text_" + key)
            == Some(Obj(map["asset_type" := Json.Str("text"), "content" := Json.Str(text), "variable_name" := Json.Str(key)]))
  {
    hide FixedAssets, WithTexts;
    TextsAt(FixedAssets(d, c), Variables(d), order, c, TEXT_ + key);
  }

  /** Which rows the revision touches. */
  lemma TouchedRows(d: Data)
    ensures IsLegacy(d)
       <==> ((exists key | key in ["url", "width", "height", "click_url", "snippet"] :: key in d)
             && !("assets" in d && d["assets"].Obj?))
  {
    var keys := ["url", "width", "height", "click_url", "snippet"];
    assert keys[0] in keys && keys[1] in keys && keys[2] in keys && keys[3] in keys && keys[4] in keys;
  }
}

/** The account migrations on the columns and texts of the rows. */
module AccountText {
  import opened Text
  import opened AccountRepair

  /** Two rows clash if and only if both have a domain and agree on all five parts of the key, a missing sandbox
      flag counting as false. */
  lemma ClashExactly(a: Account, b: Account)
    ensures Clash(a, b)
       <==> (a.domain.Some? && b.domain.Some? && a.domain == b.domain && a.tenantId == b.tenantId
             && a.operator == b.operator && a.brandId == b.brandId
             && ((a.sandbox == Some(true)) <==> (b.sandbox == Some(true))))
  {
  }

  predicate BrandLetter(c: char) {
    'a' <= c <= 'z' || '0' <= c <= '9' || c == '_'
  }

  /** A row is poisoned by any brand id that starts with `root=`, and repaired when the rest is a brand id in single
      quotes. */
  lemma MangledRow(a: Account, brand: string)
    requires a.brandId == Some("root='" + brand + "'")
    requires brand != "" && forall i | 0 <= i < |brand| :: BrandLetter(brand[i])
    ensures Poisoned(a) && Extract(a.brandId.value) == Some(brand) && RepairRow(a).brandId == Some(brand)
    ensures RepairRow(a) == a.(brandId := Some(brand), name := RepairRow(a).name)
  {
    ExtractInvertsMangle(a.brandId.value, brand);
    assert "root=" <= a.brandId.value;
  }

  /** One capital letter, blank or other sign between the quotes, and the row cannot be repaired. */
  lemma OtherSign(a: Account, brand: string, i: nat)
    requires a.brandId == Some("root='" + brand + "'") && i < |brand| && !BrandLetter(brand[i])
    ensures Poisoned(a) && Extract(a.brandId.value).None?
  {
    assert "root=" <= a.brandId.value;
    if Extract(a.brandId.value).Some? {
      var found := Extract(a.brandId.value).value;
      ExtractInvertsMangle(a.brandId.value, found);
      MangleInjective(brand, found);
    }
  }

  lemma MangleInjective(a: string, b: string)
    requires Mangle(a) == Mangle(b)
    ensures a == b
  {
    assert Mangle(a)[6..|Mangle(a)| - 1] == a && Mangle(b)[6..|Mangle(b)| - 1] == b;
  }

  /** Without the quotes it is poisoned all the same, and cannot be repaired. */
  lemma AnyRoot(a: Account, rest: string)
    requires a.brandId == Some("root=" + rest)
    ensures Poisoned(a)
    ensures (rest == "" || rest[0] != '\'') ==> Extract(a.brandId.value).None?
  {
    var s := a.brandId.value;
    assert s[..5] == "root=";
    assert rest != "" ==> s[5] == rest[0];
  }

  lemma CleanRow(a: Account)
    requires a.brandId.None? || !("root=" <= a.brandId.value)
    ensures !Poisoned(a) && RepairRow(a) == a
  {
  }

  /** And its name: the mangled text in it becomes the brand id. */
  lemma MangledName(a: Account, front: string, brand: string, back: string)
    requires a.brandId == Some("root='" + brand + "'") && BrandShape(brand)
    requires a.name == front + "root='" + brand + "'" + back
    requires !Contains(front, "root='" + brand + "'") && !Contains(back, "root='" + brand + "'")
    ensures Poisoned(a) && Extract(a.brandId.value) == Some(brand) && RepairRow(a).name == front + brand + back
  {
    hide BrandShape, Contains, Replace;
    ExtractInvertsMangle(a.brandId.value, brand);
    assert "root=" <= a.brandId.value;
    assert front + "root='" + brand + "'" + back == front + Mangle(brand) + back;
    NameRepaired(front, brand, back);
  }
}

/** The index swap on the columns of the rows. */
module IndexText {
  import opened IndexSwap

  /** What the two indexes take for a duplicate. */
  lemma DuplicatesExactly(a: MediaBuy, b: MediaBuy)
    ensures SameThree(a, b)
       <==> (a.key.Some? && b.key.Some? && a.key == b.key && a.tenantId == b.tenantId && a.principalId == b.principalId)
    ensures SameFour(a, b)
       <==> (a.key.Some? && b.key.Some? && a.key == b.key && a.tenantId == b.tenantId && a.principalId == b.principalId
             && a.accountId == b.accountId)
  {
  }

  /** At every moment of the swap no two rows agree on tenant, principal, account and key. */
  lemma NoDuplicateEver(s: State, events: seq<Event>, n: nat, i: nat, j: nat)
    requires ThreeUnique(s.rows) && s.phase == Before && n <= |events|
    requires i < j < |Run(s, events[..n]).rows|
    ensures var a, b := Run(s, events[..n]).rows[i], Run(s, events[..n]).rows[j];
            !(a.key.Some? && a.key == b.key && a.tenantId == b.tenantId && a.principalId == b.principalId
              && a.accountId == b.accountId)
  {
    hide Run, ThreeUnique, SameFour;
    NeverAGap(s, events);
    assert FourUnique(Run(s, events[..n]).rows);
    DuplicatesExactly(Run(s, events[..n]).rows[i], Run(s, events[..n]).rows[j]);
  }
}

/** The format migrations on literal names. */
module FormatText {
  import opened Json
  import opened FormatIds

  /** A list of one name becomes one reference under the default agent. */
  lemma NameBecomesReference(name: string, show: Json -> string)
    requires name != ""
    ensures Chain([Json.Str(name)], show)
            == Ok([Obj(map["agent_url" := Json.Str("https://creative.adcontextprotocol.org"), "id" := Json.Str(name)])])
  {
    hide Chain;
    var formats := [Json.Str(name)];
    NamesReachShape(formats, show);
    var reference := Obj(map["agent_url" := Json.Str("https://creative.adcontextprotocol.org"), "id" := Json.Str(name)]);
    assert seq(1, i requires 0 <= i < 1 => Obj(map[AGENT_URL := Json.Str(DEFAULT_AGENT_URL), ID := formats[i]])) == [reference];
  }

  /** In between it is kept under the key of the first revision. */
  lemma NameMigrated(name: string)
    ensures Migrated([Json.Str(name)])
            == Ok([Obj(map["agent_url" := Json.Str("https://creative.adcontextprotocol.org"), "format_id" := Json.Str(name)])])
  {
    hide Reference;
    var formats := [Json.Str(name)];
    StringsReferenced(formats);
    StringReferenced(formats[0]);
    var r := References(formats).value;
    assert r == [NameReference(formats[0])];
  }

  /** The first downgrade, element by element: references and names give their name, everything else is dropped. */
  lemma {:induction false} NamesOneByOne(a: seq<Json>, b: seq<Json>)
    ensures Names(a + b) == Names(a) + Names(b)
  {
    if b == [] {
      assert a + b == a && Names([]) == [];
    } else {
      assert (a + b)[..|a + b| - 1] == a + b[..|b| - 1];
      NamesOneByOne(a, b[..|b| - 1]);
    }
  }

  lemma OneName(f: Json)
    ensures Names([f]) == if f.Obj? && "format_id" in f.fields then [f.fields["format_id"]] else if f.Str? then [f] else []
  {
    assert [f][..0] == [] && Names([]) == [];
  }

  /** The second revision on what is no object: an array that names the old key alone is lost, and a bare string with
      its name aborts. */
  lemma RenamedOthers()
    ensures Renamed(Arr([Json.Str("format_id")])) == Ok(Null)
    ensures Renamed(Arr([Json.Str("format_id"), Json.Str("id")])) == Ok(Arr([Json.Str("format_id"), Json.Str("id")]))
    ensures Renamed(Json.Str("format_id")) == Raises && Renamed(Json.Str("x")) == Ok(Json.Str("x"))
  {
    KeysDiffer();
    var one, two := [Json.Str("format_id")], [Json.Str("format_id"), Json.Str("id")];
    assert one[0] in one && two[0] in two && two[1] in two;
    assert |"x"| != |"format_id"|;
  }

  /** The third prefers the old key to the new one, and puts the default agent where there is none. */
  lemma RebuiltText(f: Json, old_: string, new_: string, show: Json -> string)
    requires f == Obj(map["format_id" := Json.Str(old_), "id" := Json.Str(new_)])
    ensures Rebuilt(f, show)
            == Obj(map["agent_url" := Json.Str("https://creative.adcontextprotocol.org"), "id" := Json.Str(old_)])
  {
    KeysDiffer();
  }

  /** It rebuilds all references of a product as soon as one of them has the old key or lacks the new one, and else
      none. */
  lemma RebuiltGuard(formats: seq<Json>, show: Json -> string)
    requires forall i | 0 <= i < |formats| :: formats[i].Obj?
    ensures (exists i | 0 <= i < |formats| :: "format_id" in formats[i].fields || "id" !in formats[i].fields) ==>
              forall i | 0 <= i < |formats| :: RebuiltAll(formats, show)[i] == Rebuilt(formats[i], show)
    ensures (forall i | 0 <= i < |formats| :: "format_id" !in formats[i].fields && "id" in formats[i].fields) ==>
              RebuiltAll(formats, show) == formats
  {
    hide Rebuilt;
    assert forall i | 0 <= i < |formats| ::
        WantsRebuild(formats[i]) <==> "format_id" in formats[i].fields || "id" !in formats[i].fields;
  }

  /** A size is accepted if and only if it is a positive number. */
  lemma SizeAccepted(agent: string, id: string, key: string, size: Json, show: Json -> string)
    requires agent != "" && id != "" && key in ["width", "height", "duration_ms"]
    ensures RelaxedAccepts(Obj(map["agent_url" := Json.Str(agent), "id" := Json.Str(id), key := size]), show)
       <==> size.Number? && size.value > 0.0
  {
    var f := Obj(map["agent_url" := Json.Str(agent), "id" := Json.Str(id), key := size]);
    RelaxedExactly(f, show);
    OtherKeys();
    KeysDiffer();
    assert |"width"| == 5 && |"height"| == 6 && |"duration_ms"| == 11;
    assert key == "width" || key == "height" || key == "duration_ms";
  }
}
