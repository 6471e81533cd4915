/** `_sanitize_schema` and the parameter schema of `build_gemini_tools` (mcp-host/llm.py). */
module SchemaSanitize {
  import opened Json

  const ALLOWED_KEYS := {
    "type", "format", "description", "title", "nullable", "enum", "properties", "required", "items",
    "minItems", "maxItems", "minimum", "maximum", "minLength", "maxLength", "pattern", "default", "example"
  }

  const STRING_ITEMS := Obj(map["type" := Str("string")])

  predicate IsType(c: map<string, Json>, t: string) {
    "type" in c && c["type"] == Str(t)
  }

  function AddItems(c: map<string, Json>): map<string, Json> {
    if IsType(c, "array") && "items" !in c then c["items" := STRING_ITEMS] else c
  }

  function AddProperties(c: map<string, Json>): map<string, Json> {
    if IsType(c, "object") && "properties" !in c then c["properties" := Obj(map[])] else c
  }

  predicate NamesProperty(r: Json, properties: map<string, Json>) {
    r.Str? && r.s in properties
  }

  /** `[r for r in required if isinstance(r, str) and r in properties]`. */
  function KnownNames(required: seq<Json>, properties: map<string, Json>): (r: seq<Json>)
    ensures forall x :: x in r <==> x in required && NamesProperty(x, properties)
  {
    if required == [] then []
    else if NamesProperty(required[0], properties) then [required[0]] + KnownNames(required[1..], properties)
    else KnownNames(required[1..], properties)
  }

  predicate FiltersRequired(c: map<string, Json>) {
    "required" in c && c["required"].Arr? && "properties" in c && c["properties"].Obj?
  }

  function FilterRequired(c: map<string, Json>): map<string, Json> {
    if FiltersRequired(c) then
      var valid := KnownNames(c["required"].items, c["properties"].fields);
      if valid != [] then c["required" := Arr(valid)] else c - {"required"}
    else c
  }

  function DropNullDefault(c: map<string, Json>): map<string, Json> {
    if "default" in c && c["default"] == Null then c - {"default"} else c
  }

  function Finish(c: map<string, Json>): map<string, Json> {
    DropNullDefault(FilterRequired(AddProperties(AddItems(c))))
  }

  /** The keys of a schema that survive; a property map keeps them all. */
  function KeptKeys(f: map<string, Json>, isMap: bool): set<string> {
    if isMap then f.Keys else f.Keys * ALLOWED_KEYS
  }

  /** What `_sanitize_schema` returns. */
  function Sanitize(j: Json, isMap: bool): Json
    decreases j, 1
  {
    match j
    case Obj(f) =>
      var cleaned := SanitizeFields(f, isMap);
      Obj(if isMap then cleaned else Finish(cleaned))
    case Arr(xs) => Arr(seq(|xs|, i requires 0 <= i < |xs| => Sanitize(xs[i], false)))
    case _ => j
  }

  /** The kept keys, each with its value sanitized. */
  function SanitizeFields(f: map<string, Json>, isMap: bool): (cleaned: map<string, Json>)
    ensures cleaned.Keys == KeptKeys(f, isMap)
    ensures forall k | k in cleaned :: cleaned[k] == Sanitize(f[k], !isMap && k == "properties")
    decreases Obj(f), 0
  {
    map k | k in f && k in KeptKeys(f, isMap) :: Sanitize(f[k], !isMap && k == "properties")
  }

  /** `_sanitize_schema` as the program runs it. */
  method SanitizeSchema(j: Json, isMap: bool) returns (r: Json)
    ensures r == Sanitize(j, isMap)
    decreases j, 1
  {
    match j
    case Obj(f) =>
      var cleaned := FillCleaned(f, isMap);
      if !isMap {
        cleaned := PatchSchema(cleaned);
      }
      r := Obj(cleaned);
    case Arr(xs) =>
      var items := SanitizeItems(xs);
      r := Arr(items);
    case _ => r := j;
  }

  /** The loop that fills `cleaned` key by key; the order of the keys does not matter. */
  method FillCleaned(f: map<string, Json>, isMap: bool) returns (cleaned: map<string, Json>)
    ensures cleaned == SanitizeFields(f, isMap)
    decreases Obj(f), 0
  {
    cleaned := map[];
    var todo := f.Keys;
    while todo != {}
      invariant todo <= f.Keys
      invariant cleaned.Keys == KeptKeys(f, isMap) - todo
      invariant forall k | k in cleaned :: cleaned[k] == Sanitize(f[k], !isMap && k == "properties")
      decreases |todo|
    {
      var k :| k in todo;
      todo := todo - {k};
      if isMap {
        var v := SanitizeSchema(f[k], false);
        cleaned := cleaned[k := v];
      } else if k in ALLOWED_KEYS {
        var v := SanitizeSchema(f[k], k == "properties");
        cleaned := cleaned[k := v];
      }
    }
  }

  method SanitizeItems(xs: seq<Json>) returns (items: seq<Json>)
    ensures Arr(items) == Sanitize(Arr(xs), false)
    decreases Arr(xs), 0
  {
    items := [];
    for i := 0 to |xs|
      invariant |items| == i
      invariant forall n | 0 <= n < i :: items[n] == Sanitize(xs[n], false)
    {
      var v := SanitizeSchema(xs[i], false);
      items := items + [v];
    }
    assert items == Sanitize(Arr(xs), false).items;
  }

  /** The four patches applied to `cleaned` once its keys are in. */
  method PatchSchema(filled: map<string, Json>) returns (cleaned: map<string, Json>)
    ensures cleaned == Finish(filled)
  {
    cleaned := filled;
    if "type" in cleaned && cleaned["type"] == Str("array") && "items" !in cleaned {
      cleaned := cleaned["items" := Obj(map["type" := Str("string")])];
    }
    assert cleaned == AddItems(filled);
    if "type" in cleaned && cleaned["type"] == Str("object") && "properties" !in cleaned {
      cleaned := cleaned["properties" := Obj(map[])];
    }
    assert cleaned == AddProperties(AddItems(filled));
    if "required" in cleaned && cleaned["required"].Arr? && "properties" in cleaned && cleaned["properties"].Obj? {
      var valid := ValidNames(cleaned["required"].items, cleaned["properties"].fields);
      if valid != [] {
        cleaned := cleaned["required" := Arr(valid)];
      } else {
        cleaned := cleaned - {"required"};
      }
    }
    assert cleaned == FilterRequired(AddProperties(AddItems(filled)));
    if "default" in cleaned && cleaned["default"] == Null {
      cleaned := cleaned - {"default"};
    }
  }

  method ValidNames(required: seq<Json>, properties: map<string, Json>) returns (valid: seq<Json>)
    ensures valid == KnownNames(required, properties)
  {
    valid := [];
    for i := 0 to |required|
      invariant KnownNames(required, properties) == valid + KnownNames(required[i..], properties)
    {
      var r := required[i];
      ghost var rest := KnownNames(required[i + 1..], properties);
      assert required[i..] == [r] + required[i + 1..];
      assert KnownNames(required[i..], properties) == if NamesProperty(r, properties) then [r] + rest else rest;
      if r.Str? && r.s in properties {
        assert valid + ([r] + rest) == (valid + [r]) + rest;
        valid := valid + [r];
      }
    }
  }

  // ---------- What a sanitized schema looks like ----------

  predicate CleanRequired(c: map<string, Json>) {
    FiltersRequired(c) ==>
      c["required"].items != [] && forall r | r in c["required"].items :: NamesProperty(r, c["properties"].fields)
  }

  /** The promises about one schema object, leaving its children aside. */
  predicate CleanFields(c: map<string, Json>) {
    && c.Keys <= ALLOWED_KEYS
    && (IsType(c, "array") ==> "items" in c)
    && (IsType(c, "object") ==> "properties" in c)
    && CleanRequired(c)
    && ("default" in c ==> c["default"] != Null)
  }

  /** The promises at every schema position; the keys of a property map are names, not schema keys. */
  ghost predicate Clean(j: Json, isMap: bool) {
    match j
    case Obj(f) =>
      && (!isMap ==> CleanFields(f))
      && forall k | k in f :: Clean(f[k], !isMap && k == "properties")
    case Arr(xs) => forall i | 0 <= i < |xs| :: Clean(xs[i], false)
    case _ => true
  }

  lemma {:induction false} KnownNamesAllKnown(required: seq<Json>, properties: map<string, Json>)
    ensures KnownNames(required, properties) == required <==> forall r | r in required :: NamesProperty(r, properties)
    ensures |KnownNames(required, properties)| <= |required|
  {
    if required != [] {
      KnownNamesAllKnown(required[1..], properties);
      assert required == [required[0]] + required[1..];
      if NamesProperty(required[0], properties) {
        assert KnownNames(required, properties) == required <==> KnownNames(required[1..], properties) == required[1..];
      }
    }
  }

  lemma FinishCleans(c: map<string, Json>)
    requires c.Keys <= ALLOWED_KEYS
    ensures CleanFields(Finish(c))
  {
    var p := AddProperties(AddItems(c));
    var q := FilterRequired(p);
    if FiltersRequired(p) && "required" in q {
      assert forall r | r in q["required"].items :: NamesProperty(r, q["properties"].fields);
    }
  }

  /** Patching changes nothing exactly when there is nothing to patch. */
  lemma FinishFixedExactly(c: map<string, Json>)
    requires c.Keys <= ALLOWED_KEYS
    ensures Finish(c) == c <==> CleanFields(c)
  {
    if CleanFields(c) {
      if FiltersRequired(c) {
        KnownNamesAllKnown(c["required"].items, c["properties"].fields);
        assert c["required" := c["required"]] == c;
      }
    } else if Finish(c) == c {
      FinishCleans(c);
    }
  }

  /** Every value that patching leaves or adds is clean where it stands. */
  lemma FinishKeepsChildren(c: map<string, Json>)
    requires forall k | k in c :: Clean(c[k], k == "properties")
    ensures forall k | k in Finish(c) :: Clean(Finish(c)[k], k == "properties")
  {
    var p := AddProperties(AddItems(c));
    assert Clean(STRING_ITEMS, false);
    assert forall k | k in p :: Clean(p[k], k == "properties");
    var q := FilterRequired(p);
    if FiltersRequired(p) && "required" in q {
      forall x | x in q["required"].items
        ensures Clean(x, false)
      {
        assert x in p["required"].items;
      }
    }
  }

  /** `_sanitize_schema` establishes its promises at every schema position. */
  lemma {:induction false} SanitizeIsClean(j: Json, isMap: bool)
    ensures Clean(Sanitize(j, isMap), isMap)
  {
    match j
    case Obj(f) =>
      var cleaned := SanitizeFields(f, isMap);
      forall k | k in cleaned
        ensures Clean(cleaned[k], !isMap && k == "properties")
      {
        SanitizeIsClean(f[k], !isMap && k == "properties");
      }
      if !isMap {
        FinishCleans(cleaned);
        FinishKeepsChildren(cleaned);
      }
    case Arr(xs) =>
      forall i | 0 <= i < |xs|
        ensures Clean(Sanitize(xs[i], false), false)
      {
        SanitizeIsClean(xs[i], false);
      }
    case _ =>
  }

  lemma {:induction false} CleanIsFixed(j: Json, isMap: bool)
    requires Clean(j, isMap)
    ensures Sanitize(j, isMap) == j
  {
    match j
    case Obj(f) =>
      forall k | k in f
        ensures Sanitize(f[k], !isMap && k == "properties") == f[k]
      {
        CleanIsFixed(f[k], !isMap && k == "properties");
      }
      var cleaned := SanitizeFields(f, isMap);
      assert cleaned == f;
      if !isMap { FinishFixedExactly(f); }
    case Arr(xs) =>
      forall i | 0 <= i < |xs|
        ensures Sanitize(xs[i], false) == xs[i]
      {
        CleanIsFixed(xs[i], false);
      }
      assert Sanitize(j, isMap).items == xs;
    case _ =>
  }

  /** The schemas that `_sanitize_schema` leaves alone are exactly the clean ones. */
  lemma SanitizeFixedExactly(j: Json, isMap: bool)
    ensures Sanitize(j, isMap) == j <==> Clean(j, isMap)
  {
    if Sanitize(j, isMap) == j { SanitizeIsClean(j, isMap); } else if Clean(j, isMap) { CleanIsFixed(j, isMap); }
  }

  lemma SanitizeIdempotent(j: Json, isMap: bool)
    ensures Sanitize(Sanitize(j, isMap), isMap) == Sanitize(j, isMap)
  {
    SanitizeIsClean(j, isMap);
    CleanIsFixed(Sanitize(j, isMap), isMap);
  }

  lemma FinishKeepsProperties(c: map<string, Json>)
    requires "properties" in c
    ensures "properties" in Finish(c) && Finish(c)["properties"] == c["properties"]
  {
  }

  /** A property map keeps every key, also one that is no schema key, and sanitizes its schema. */
  lemma PropertyNamesKept(f: map<string, Json>, properties: map<string, Json>)
    requires "properties" in f && f["properties"] == Obj(properties)
    ensures Sanitize(Obj(f), false).Obj? && "properties" in Sanitize(Obj(f), false).fields
    ensures Sanitize(Obj(f), false).fields["properties"].Obj?
    ensures Sanitize(Obj(f), false).fields["properties"].fields ==
            map name | name in properties :: Sanitize(properties[name], false)
  {
    var kept := Sanitize(f["properties"], true);
    assert kept.fields == map name | name in properties :: Sanitize(properties[name], false);
    FinishKeepsProperties(SanitizeFields(f, false));
  }

  // ---------- build_gemini_tools ----------

  function SetDefault(c: map<string, Json>, k: string, v: Json): map<string, Json> {
    if k in c then c else c[k := v]
  }

  /** The parameters of one declaration, from the schema with its references resolved. */
  function Parameters(resolved: Json): Json {
    var schema := Sanitize(resolved, false);
    if schema.Obj? then
      Obj(SetDefault(SetDefault(schema.fields, "type", Str("object")), "properties", Obj(map[])))
    else Obj(map["type" := Str("object"), "properties" := Obj(map[])])
  }

  /** Defaulting `type` and `properties` keeps one object's promises exactly when it had
      properties or requires none. */
  lemma DefaultsCleanExactly(c: map<string, Json>, p: map<string, Json>)
    requires CleanFields(c)
    requires p == SetDefault(SetDefault(c, "type", Str("object")), "properties", Obj(map[]))
    ensures CleanFields(p) <==> "properties" in c || "required" !in c || !c["required"].Arr?
  {
    if "properties" !in c && "required" in c && c["required"].Arr? {
      var required := p["required"].items;
      assert FiltersRequired(p) && p["properties"].fields == map[];
      assert required != [] ==> required[0] in required && !NamesProperty(required[0], map[]);
    }
  }

  /** A dict's declaration keeps the promises exactly when it has properties, is an object and so gets
      them before `required` is filtered, or requires none: `properties` defaulted after the filtering
      leaves an unfiltered `required` behind. */
  lemma ParametersCleanExactly(f: map<string, Json>)
    ensures Clean(Parameters(Obj(f)), false) <==>
            "properties" in f || IsType(f, "object") || "required" !in f || !f["required"].Arr?
  {
    var c := Sanitize(Obj(f), false).fields;
    SanitizeIsClean(Obj(f), false);
    SanitizedHas(f);
    var p := SetDefault(SetDefault(c, "type", Str("object")), "properties", Obj(map[]));
    hide Sanitize, Finish;
    DefaultsCleanExactly(c, p);
    assert Clean(Obj(map[]), true) && Clean(Str("object"), false);
    forall k | k in p
      ensures Clean(p[k], k == "properties")
    {
      if k in c { assert p[k] == c[k]; }
    }
  }

  /** What of properties and required names is left, by what was there. */
  lemma SanitizedHas(f: map<string, Json>)
    ensures var c := Sanitize(Obj(f), false).fields;
            && ("properties" in c <==> "properties" in f || IsType(f, "object"))
            && ("properties" !in c ==>
                  ("required" in c && c["required"].Arr? <==> "required" in f && f["required"].Arr?))
  {
    var kept := SanitizeFields(f, false);
    assert kept.Keys == f.Keys * ALLOWED_KEYS;
    assert "type" in f ==> kept["type"] == Sanitize(f["type"], false);
    assert "required" in f ==> kept["required"] == Sanitize(f["required"], false);
    FinishHas(kept);
  }

  lemma FinishHas(c: map<string, Json>)
    ensures "properties" in Finish(c) <==> "properties" in c || IsType(c, "object")
    ensures "properties" !in Finish(c) ==>
              && ("required" in Finish(c) <==> "required" in c)
              && ("required" in c ==> Finish(c)["required"] == c["required"])
  {
  }

  /** A schema whose declaration requires a name that is no property. */
  lemma UnfilteredExample()
    ensures !Clean(Parameters(Obj(map["required" := Arr([Str("a")])])), false)
  {
    ParametersCleanExactly(map["required" := Arr([Str("a")])]);
  }
}
