/** What resolving and sanitizing of mcp-host/llm.py do to a schema, key by key. */
module SchemaLaws {
  import opened Options
  import opened Json
  import opened SchemaResolve
  import opened SchemaSanitize
  import opened ToolDeclarations

  // ---------- The branch of a combiner ----------

  predicate SaysNull(j: Json) {
    match j
    case Obj(f) => "type" in f && f["type"] == Str("null")
    case _ => false
  }

  /** The branch at `i` is the first that is not the null type. */
  predicate FirstOther(branches: Json, i: nat) {
    && branches.Arr? && i < |branches.items| && !SaysNull(branches.items[i])
    && forall k | 0 <= k < i :: SaysNull(branches.items[k])
  }

  predicate OnlyNulls(branches: Json) {
    branches.Arr? ==> forall i | 0 <= i < |branches.items| :: SaysNull(branches.items[i])
  }

  lemma {:induction false} FirstIs(branches: seq<Json>, i: nat)
    requires FirstOther(Arr(branches), i)
    ensures FirstNonNull(branches) == Some(branches[i])
  {
    if i > 0 {
      assert forall k | 0 <= k < i - 1 :: branches[1..][k] == branches[k + 1];
      FirstIs(branches[1..], i - 1);
    }
  }

  lemma NoFirst(branches: seq<Json>)
    ensures OnlyNulls(Arr(branches)) <==> FirstNonNull(branches) == None
  {
    assert forall i | 0 <= i < |branches| :: branches[i] in branches;
    assert forall b :: SaysNull(b) <==> IsNullType(b);
    hide SaysNull, IsNullType;
  }

  /** `anyOf` comes before `oneOf`; of either, the first branch counts that is not the null type. */
  lemma ChosenIs(f: map<string, Json>, i: nat)
    ensures "anyOf" in f && FirstOther(f["anyOf"], i) ==> Chosen(f) == Some(f["anyOf"].items[i])
    ensures ("anyOf" in f ==> OnlyNulls(f["anyOf"])) && "oneOf" in f && FirstOther(f["oneOf"], i) ==>
              Chosen(f) == Some(f["oneOf"].items[i])
    ensures ("anyOf" in f ==> OnlyNulls(f["anyOf"])) && ("oneOf" in f ==> OnlyNulls(f["oneOf"])) <==>
              Chosen(f) == None
  {
    forall c | c in f && f[c].Arr?
      ensures FirstOther(f[c], i) ==> FirstNonNull(f[c].items) == Some(f[c].items[i])
      ensures OnlyNulls(f[c]) <==> FirstNonNull(f[c].items) == None
    {
      if FirstOther(f[c], i) { FirstIs(f[c].items, i); }
      NoFirst(f[c].items);
    }
    assert forall c | c in f && !f[c].Arr? :: OnlyNulls(f[c]) && !FirstOther(f[c], i);
    hide FirstNonNull, FirstOther, OnlyNulls;
  }

  /** A schema with such a branch is that branch, resolved, but for the fields beside the combiners, which win
      and stay as they are; the combiners themselves are gone. */
  lemma CombinerField(f: map<string, Json>, k: string, branch: Json, defs: Defs, seen: set<string>)
    requires ("$ref" in f ==> !f["$ref"].Str?) && Chosen(f) == Some(branch) && Terminates(branch, defs, seen)
    ensures Terminates(Obj(f), defs, seen) && Value(Obj(f), defs, seen).Obj?
    ensures var (r, chosen) := (Value(Obj(f), defs, seen).fields, Value(branch, defs, seen));
            var beside := k in f && k != "anyOf" && k != "oneOf";
            && (k in r <==> beside || (chosen.Obj? && k in chosen.fields))
            && (beside ==> r[k] == f[k])
            && (!beside && k in r ==> r[k] == chosen.fields[k])
  {
    ResolveCombiner(f, defs, seen);
  }

  /** A reference to a missing definition, or to one that is null, is dropped and its siblings are returned
      as they are; a reference in progress gives an object. */
  lemma ReferenceCut(f: map<string, Json>, key: string, defs: Defs, seen: set<string>)
    requires HasRef(f) && RefKey(f) == key && (key in seen || key !in defs || defs[key] == Null)
    ensures Terminates(Obj(f), defs, seen)
    ensures Value(Obj(f), defs, seen) == if key in seen then Obj(map["type" := Str("object")]) else Obj(f - {"$ref"})
  {
    ResolveIsValue(1, Obj(f), defs, seen);
  }

  lemma LastSegmentSnoc(ref: string, c: char)
    ensures LastSegment(ref + [c]) == if c == '/' then [] else LastSegment(ref) + [c]
  {
    assert (ref + [c])[..|ref|] == ref;
  }

  lemma KeyLonger(base: string, front: string, c: char)
    requires LastSegment(base + front) == front && c != '/'
    ensures LastSegment(base + (front + [c])) == front + [c]
  {
    LastSegmentSnoc(base + front, c);
    hide LastSegment;
    assert base + (front + [c]) == (base + front) + [c];
  }

  lemma {:induction false} KeyAppended(base: string, key: string)
    requires '/' !in key && LastSegment(base) == []
    ensures LastSegment(base + key) == key
  {
    hide LastSegment;
    if key == [] {
      assert base + key == base;
    } else {
      var n := |key| - 1;
      var front, c := key[..n], key[n];
      assert key == front + [c];
      assert '/' !in front && c != '/';
      KeyAppended(base, front);
      KeyLonger(base, front, c);
    }
  }

  /** The key of a reference is what follows its last slash. */
  lemma KeyAfterSlash(path: string, key: string)
    requires '/' !in key
    ensures LastSegment(path + ['/'] + key) == key && LastSegment(key) == key
  {
    LastSegmentSnoc(path, '/');
    KeyAppended(path + ['/'], key);
    KeyAppended([], key);
    assert [] + key == key;
  }

  // ---------- The keys of a sanitized schema ----------

  predicate SchemaKey(k: string) {
    || k == "type" || k == "format" || k == "description" || k == "title" || k == "nullable" || k == "enum"
    || k == "properties" || k == "required" || k == "items" || k == "minItems" || k == "maxItems"
    || k == "minimum" || k == "maximum" || k == "minLength" || k == "maxLength" || k == "pattern"
    || k == "default" || k == "example"
  }

  /** The schema key `k` of `r` is `v`, or absent. */
  predicate Has(r: map<string, Json>, k: string, v: Option<Json>) {
    if v.Some? then k in r && r[k] == v.value else k !in r
  }

  /** What one level of `_sanitize_schema` leaves, but for `required`: every schema key with its value
      sanitized, no other key, a default `items` for arrays and default `properties` for objects, and no
      null default. */
  predicate LevelOf(f: map<string, Json>, r: map<string, Json>, k: string) {
    var sanitized := if k in f && SchemaKey(k) then Some(Sanitize(f[k], k == "properties")) else None;
    if k == "items" && k !in f && IsType(f, "array") then Has(r, k, Some(Obj(map["type" := Str("string")])))
    else if k == "properties" && k !in f && IsType(f, "object") then Has(r, k, Some(Obj(map[])))
    else if k == "default" && k in f && f[k] == Null then Has(r, k, None)
    else Has(r, k, sanitized)
  }

  lemma KeysAre(k: string)
    ensures k in ALLOWED_KEYS <==> SchemaKey(k)
  {
  }

  lemma FinishedField(c: map<string, Json>, k: string)
    requires k != "required"
    ensures var r := Finish(c);
            if k == "items" && k !in c && IsType(c, "array") then Has(r, k, Some(STRING_ITEMS))
            else if k == "properties" && k !in c && IsType(c, "object") then Has(r, k, Some(Obj(map[])))
            else if k == "default" && k in c && c[k] == Null then Has(r, k, None)
            else Has(r, k, if k in c then Some(c[k]) else None)
  {
    hide KnownNames;
  }

  lemma NullSanitized(j: Json, t: string)
    ensures Sanitize(j, false) == Null <==> j == Null
    ensures Sanitize(j, false) == Str(t) <==> j == Str(t)
  {
  }

  lemma FieldKept(f: map<string, Json>, k: string)
    requires k != "required"
    ensures LevelOf(f, Sanitize(Obj(f), false).fields, k)
  {
    var c := SanitizeFields(f, false);
    KeysAre(k);
    KeysAre("type");
    if "type" in f {
      NullSanitized(f["type"], "array");
      NullSanitized(f["type"], "object");
    }
    if k in f { NullSanitized(f[k], ""); }
    assert Sanitize(Obj(f), false) == Obj(Finish(c));
    hide Finish, ALLOWED_KEYS, SchemaKey, Sanitize;
    FinishedField(c, k);
  }

  /** The required names are left as they are unless they are a list and there is a dict of properties; then
      those remain that are properties, in order, and the key goes if none does. */
  lemma RequiredKept(f: map<string, Json>)
    ensures var r := Sanitize(Obj(f), false).fields;
            if "required" !in f then "required" !in r
            else if !f["required"].Arr? || "properties" !in r || !r["properties"].Obj? then
              Has(r, "required", Some(Sanitize(f["required"], false)))
            else
              var names := KnownNames(Sanitize(f["required"], false).items, r["properties"].fields);
              Has(r, "required", if names == [] then None else Some(Arr(names)))
  {
    var c := SanitizeFields(f, false);
    KeysAre("required");
    assert Sanitize(Obj(f), false) == Obj(Finish(c));
    assert "required" in c <==> "required" in f;
    if "required" in f { ShapeSanitized(f["required"], false); }
    hide ALLOWED_KEYS, KnownNames, SchemaKey, Sanitize, Finish;
    FinishedRequired(c);
  }

  lemma FinishedRequired(c: map<string, Json>)
    ensures var r := Finish(c);
            if "required" !in c then "required" !in r
            else if !c["required"].Arr? || "properties" !in r || !r["properties"].Obj? then
              Has(r, "required", Some(c["required"]))
            else
              var names := KnownNames(c["required"].items, r["properties"].fields);
              Has(r, "required", if names == [] then None else Some(Arr(names)))
  {
    hide KnownNames;
  }

  /** A list keeps every item, sanitized; anything that is neither a list nor a dict stays as it is. */
  lemma ItemsKept(xs: seq<Json>, i: nat, j: Json, isMap: bool)
    requires i < |xs| && !j.Arr? && !j.Obj?
    ensures var r := Sanitize(Arr(xs), isMap);
            r.Arr? && |r.items| == |xs| && r.items[i] == Sanitize(xs[i], false)
    ensures Sanitize(j, isMap) == j
  {
  }

  lemma {:induction false} NamesSnoc(names: seq<Json>, name: Json, properties: map<string, Json>)
    ensures KnownNames([], properties) == []
    ensures KnownNames(names + [name], properties) ==
            KnownNames(names, properties) +
            match name case Str(s) => if s in properties then [name] else [] case _ => []
  {
    if names != [] {
      NamesSnoc(names[1..], name, properties);
      assert (names + [name])[1..] == names[1..] + [name];
    }
  }

  // ---------- The declaration ----------

  /** The values that Python takes for false. */
  predicate Falsy(j: Json) {
    j == Null || j == Bool(false) || j == Num(0.0) || j == Str("") || j == Arr([]) || j == Obj(map[])
  }

  /** The definitions are those under `$defs`, or if that says nothing those under `definitions`, and none if
      what is found is not a dict. */
  lemma DefinitionsAre(raw: map<string, Json>)
    ensures var (first, second) := ("$defs" in raw && !Falsy(raw["$defs"]), "definitions" in raw);
            && (first && raw["$defs"].Obj? ==> DefinitionsOf(raw) == raw["$defs"].fields)
            && (first && !raw["$defs"].Obj? ==> DefinitionsOf(raw) == map[])
            && (!first && second && raw["definitions"].Obj? ==> DefinitionsOf(raw) == raw["definitions"].fields)
            && (!first && (!second || !raw["definitions"].Obj?) ==> DefinitionsOf(raw) == map[])
  {
  }

  /** The declared parameters are the sanitized schema with the type and the properties of an object with
      nothing in it, where it has none of its own. */
  lemma ParametersAre(resolved: Json, k: string)
    ensures var p := Parameters(resolved);
            && p.Obj?
            && (!resolved.Obj? ==> p == Obj(map["type" := Str("object"), "properties" := Obj(map[])]))
            && (resolved.Obj? ==>
                  var r := Sanitize(resolved, false).fields;
                  if k in r then Has(p.fields, k, Some(r[k]))
                  else if k == "type" then Has(p.fields, k, Some(Str("object")))
                  else if k == "properties" then Has(p.fields, k, Some(Obj(map[])))
                  else k !in p.fields)
  {
    hide Finish, SanitizeFields;
  }
}
