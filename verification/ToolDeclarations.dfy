/** `build_gemini_tools` of mcp-host/llm.py, for one tool: its definitions, its schema resolved
    against them, sanitized, and given defaults. */
module ToolDeclarations {
  import opened Options
  import opened Json
  import opened SchemaResolve
  import opened SchemaSanitize

  /** Python's truth of a value. */
  predicate Truthy(j: Json) {
    match j
    case Null => false
    case Bool(b) => b
    case Num(n) => n != 0.0
    case Str(s) => s != ""
    case Arr(items) => items != []
    case Obj(fields) => fields != map[]
  }

  /** `raw.get("$defs") or raw.get("definitions") or {}`, or nothing if that is no dict. */
  function DefinitionsOf(raw: map<string, Json>): Defs {
    var chosen := if "$defs" in raw && Truthy(raw["$defs"]) then raw["$defs"]
                  else if "definitions" in raw && Truthy(raw["definitions"]) then raw["definitions"]
                  else Obj(map[]);
    if chosen.Obj? then chosen.fields else map[]
  }

  ghost function Declaration(raw: map<string, Json>): Json
    requires Terminates(Obj(raw), DefinitionsOf(raw), {})
  {
    Parameters(Value(Obj(raw), DefinitionsOf(raw), {}))
  }

  // ---------- Sanitizing keeps the normal form ----------

  lemma NullTypeSanitized(j: Json)
    requires IsNullType(j)
    ensures IsNullType(Sanitize(j, false))
  {
    var kept := SanitizeFields(j.fields, false);
    assert kept["type"] == Sanitize(Str("null"), false);
  }

  lemma NullBranchesSanitized(branches: seq<Json>)
    requires forall b | b in branches :: IsNullType(b)
    ensures forall b | b in Sanitize(Arr(branches), false).items :: IsNullType(b)
  {
    forall i | 0 <= i < |branches|
      ensures IsNullType(Sanitize(branches[i], false))
    {
      NullTypeSanitized(branches[i]);
    }
  }

  /** Sanitizing makes no string and no list of anything else. */
  lemma ShapeSanitized(j: Json, isMap: bool)
    ensures j.Str? <==> Sanitize(j, isMap).Str?
    ensures j.Arr? <==> Sanitize(j, isMap).Arr?
  {
  }

  lemma BranchSanitized(f: map<string, Json>, isMap: bool, c: string)
    requires Branch(f, c).None? && c != "properties"
    ensures Branch(SanitizeFields(f, isMap), c).None?
  {
    var kept := SanitizeFields(f, isMap);
    if c in kept {
      ShapeSanitized(f[c], false);
      if f[c].Arr? {
        NullBranchesSanitized(f[c].items);
      }
    }
  }

  lemma FieldsSanitized(f: map<string, Json>, isMap: bool)
    requires !HasRef(f) && Chosen(f).None?
    ensures !HasRef(SanitizeFields(f, isMap)) && Chosen(SanitizeFields(f, isMap)).None?
  {
    BranchSanitized(f, isMap, "anyOf");
    BranchSanitized(f, isMap, "oneOf");
    if "$ref" in f {
      ShapeSanitized(f["$ref"], false);
    }
  }

  lemma NamesKeepNormal(required: seq<Json>, properties: map<string, Json>)
    requires Normal(Arr(required))
    ensures Normal(Arr(KnownNames(required, properties)))
  {
    var names := KnownNames(required, properties);
    forall i | 0 <= i < |names|
      ensures Normal(names[i])
    {
      assert names[i] in required;
    }
  }

  lemma AddedNormal(c: map<string, Json>)
    requires forall k | k in c :: Normal(c[k])
    ensures forall k | k in AddProperties(AddItems(c)) :: Normal(AddProperties(AddItems(c))[k])
  {
    assert Normal(STRING_ITEMS) && Normal(Obj(map[]));
    hide Normal;
  }

  lemma FilteredNormal(c: map<string, Json>)
    requires forall k | k in c :: Normal(c[k])
    ensures forall k | k in FilterRequired(c) :: Normal(FilterRequired(c)[k])
  {
    if FiltersRequired(c) {
      NamesKeepNormal(c["required"].items, c["properties"].fields);
    }
    hide Normal, KnownNames;
  }

  lemma AllowedKeys()
    ensures "$ref" !in ALLOWED_KEYS && "anyOf" !in ALLOWED_KEYS && "oneOf" !in ALLOWED_KEYS
  {
  }

  lemma AllowedKeysPlain(c: map<string, Json>)
    requires c.Keys <= ALLOWED_KEYS
    ensures !HasRef(c) && Chosen(c).None?
  {
    AllowedKeys();
    hide ALLOWED_KEYS;
  }

  lemma FinishKeys(c: map<string, Json>)
    requires c.Keys <= ALLOWED_KEYS
    ensures Finish(c).Keys <= ALLOWED_KEYS
  {
  }

  /** The patches touch none of the keys that the normal form is about. */
  lemma FinishKeepsNormal(c: map<string, Json>)
    requires c.Keys <= ALLOWED_KEYS && forall k | k in c :: Normal(c[k])
    ensures Normal(Obj(Finish(c)))
  {
    AddedNormal(c);
    FilteredNormal(AddProperties(AddItems(c)));
    FinishKeys(c);
    AllowedKeysPlain(Finish(c));
    hide AddProperties, AddItems, FilterRequired, HasRef, Chosen, ALLOWED_KEYS;
  }

  lemma {:induction false} SanitizeKeepsNormal(j: Json, isMap: bool)
    requires Normal(j)
    ensures Normal(Sanitize(j, isMap))
  {
    match j
    case Obj(f) =>
      var kept := SanitizeFields(f, isMap);
      forall k | k in kept
        ensures Normal(kept[k])
      {
        SanitizeKeepsNormal(f[k], !isMap && k == "properties");
      }
      if isMap {
        FieldsSanitized(f, isMap);
      } else {
        FinishKeepsNormal(kept);
      }
    case Arr(xs) =>
      forall i | 0 <= i < |xs|
        ensures Normal(Sanitize(xs[i], false))
      {
        SanitizeKeepsNormal(xs[i], false);
      }
    case _ =>
  }

  lemma DefaultsKeepNormal(c: map<string, Json>)
    requires Normal(Obj(c))
    ensures Normal(Obj(SetDefault(SetDefault(c, "type", Str("object")), "properties", Obj(map[]))))
  {
    var p := SetDefault(SetDefault(c, "type", Str("object")), "properties", Obj(map[]));
    assert Normal(Obj(map[]));
    assert Branch(p, "anyOf") == Branch(c, "anyOf") && Branch(p, "oneOf") == Branch(c, "oneOf");
  }

  // ---------- From end to end ----------

  /** For a tame schema over tame definitions, mutually recursive ones included: compiling it ends, the
      declaration has no string reference and no combiner with a non-null branch anywhere, and it keeps
      the sanitizer's promises everywhere, required names included, if and only if the resolved schema
      has properties, is an object or requires none. */
  lemma DeclarationIsSound(raw: map<string, Json>, above: Above)
    requires Tame(Obj(raw), DefinitionsOf(raw), {}, above) && TameDefs(DefinitionsOf(raw), above)
    ensures Terminates(Obj(raw), DefinitionsOf(raw), {}) && Value(Obj(raw), DefinitionsOf(raw), {}).Obj?
    ensures Normal(Declaration(raw))
    ensures var r := Value(Obj(raw), DefinitionsOf(raw), {}).fields;
            Clean(Declaration(raw), false) <==>
            "properties" in r || IsType(r, "object") || "required" !in r || !r["required"].Arr?
  {
    var defs := DefinitionsOf(raw);
    ResolveTerminates(Obj(raw), defs, {}, above);
    ShapeKept(Obj(raw), defs, {});
    var r := Value(Obj(raw), defs, {}).fields;
    hide Terminates, Value, Normal, Clean, Sanitize;
    SanitizeKeepsNormal(Obj(r), false);
    SanitizedDict(r);
    DefaultsKeepNormal(Sanitize(Obj(r), false).fields);
    ParametersCleanExactly(r);
  }

  lemma SanitizedDict(f: map<string, Json>)
    ensures Sanitize(Obj(f), false).Obj?
  {
  }

  // ---------- The condition, read off the schema as it is given ----------

  /** Where the value of a key of the resolved dict comes from: beside the reference or combiner if it is
      there, else from the definition, else from the chosen branch. */
  function TopField(f: map<string, Json>, k: string, defs: Defs, seen: set<string>): Option<Json>
    decreases |defs.Keys - seen|, Obj(f), 1
  {
    if HasRef(f) && RefKey(f) in seen then
      if k == "type" then Some(Str("object")) else None
    else if k in f then Some(f[k])
    else if HasRef(f) && !Resolvable(RefKey(f), defs) then None
    else
      var below := if HasRef(f) then (
                     OneKeyFewer(defs.Keys, seen, RefKey(f));
                     TopOf(defs[RefKey(f)], k, defs, seen + {RefKey(f)})
                   ) else None;
      if below.Some? then below
      else if Chosen(f).Some? then TopOf(Chosen(f).value, k, defs, seen)
      else None
  }

  function TopOf(j: Json, k: string, defs: Defs, seen: set<string>): Option<Json>
    decreases |defs.Keys - seen|, j, 2
  {
    if j.Obj? then TopField(j.fields, k, defs, seen) else None
  }

  /** As far as the sanitizer looks at it, a value and its resolution are the same. */
  predicate Alike(a: Json, b: Json) {
    (a.Arr? <==> b.Arr?) && (a.Str? || b.Str? ==> a == b)
  }

  /** `r` has the key exactly if there is such a value, and then one like it. */
  predicate HasTop(r: Json, k: string, top: Option<Json>) {
    if r.Obj? && k in r.fields then top.Some? && Alike(top.value, r.fields[k]) else top.None?
  }

  lemma ResolvedAlike(j: Json, defs: Defs, seen: set<string>)
    requires Terminates(j, defs, seen)
    ensures Alike(j, Value(j, defs, seen))
  {
    ShapeKept(j, defs, seen);
  }

  lemma {:induction false} TopOfIs(j: Json, k: string, defs: Defs, seen: set<string>, above: Above)
    requires Tame(j, defs, seen, above) && TameDefs(defs, above) && k !in COMBINERS && k != "$ref"
    ensures Terminates(j, defs, seen) && HasTop(Value(j, defs, seen), k, TopOf(j, k, defs, seen))
    decreases |defs.Keys - seen|, j, 2
  {
    ResolveTerminates(j, defs, seen, above);
    if j.Obj? {
      TopFieldIs(j.fields, k, defs, seen, above);
    } else {
      ShapeKept(j, defs, seen);
    }
  }

  lemma {:induction false} TopFieldIs(f: map<string, Json>, k: string, defs: Defs, seen: set<string>, above: Above)
    requires Tame(Obj(f), defs, seen, above) && TameDefs(defs, above) && k !in COMBINERS && k != "$ref"
    ensures Terminates(Obj(f), defs, seen) && HasTop(Value(Obj(f), defs, seen), k, TopField(f, k, defs, seen))
    decreases |defs.Keys - seen|, Obj(f), 1
  {
    ResolveTerminates(Obj(f), defs, seen, above);
    hide TopField, Normal, Terminates, Value, HasTop, TameDefs, COMBINERS;
    if HasRef(f) && (RefKey(f) in seen || !Resolvable(RefKey(f), defs)) {
      CutTop(f, k, defs, seen, above);
    } else if HasRef(f) {
      var key := RefKey(f);
      OneKeyFewer(defs.Keys, seen, key);
      TameFewer(defs[key], defs, seen + {key}, above[key], above);
      TopOfIs(defs[key], k, defs, seen + {key}, above);
      var merged := Unrolled(f, key, defs, seen, above);
      MergedTop(f, Value(defs[key], defs, seen + {key}), TopOf(defs[key], k, defs, seen + {key}), merged, k,
                defs, seen, above);
      TopFieldOfReference(f, key, k, defs, seen);
    } else {
      NoTop(k);
      MergedTop(f, Null, None, f, k, defs, seen, above);
      TopFieldOfDict(f, k, defs, seen);
    }
  }

  lemma CutTop(f: map<string, Json>, k: string, defs: Defs, seen: set<string>, above: Above)
    requires Tame(Obj(f), defs, seen, above) && k != "$ref"
    requires HasRef(f) && (RefKey(f) in seen || !Resolvable(RefKey(f), defs))
    ensures Terminates(Obj(f), defs, seen) && HasTop(Value(Obj(f), defs, seen), k, TopField(f, k, defs, seen))
  {
    CutTerminates(f, defs, seen);
  }

  lemma NoTop(k: string)
    ensures HasTop(Null, k, None)
  {
  }

  lemma TopFieldOfReference(f: map<string, Json>, key: string, k: string, defs: Defs, seen: set<string>)
    requires HasRef(f) && key == RefKey(f) && key !in seen && Resolvable(key, defs)
    ensures var below := TopOf(defs[key], k, defs, seen + {key});
            TopField(f, k, defs, seen) ==
            if k in f then Some(f[k])
            else if below.Some? then below
            else if Chosen(f).Some? then TopOf(Chosen(f).value, k, defs, seen)
            else None
  {
    hide TopOf;
  }

  lemma TopFieldOfDict(f: map<string, Json>, k: string, defs: Defs, seen: set<string>)
    requires !HasRef(f)
    ensures TopField(f, k, defs, seen) ==
            if k in f then Some(f[k])
            else if Chosen(f).Some? then TopOf(Chosen(f).value, k, defs, seen)
            else None
  {
    hide TopOf;
  }

  /** The dict that a reference comes to, and that resolves to the same. */
  lemma Unrolled(f: map<string, Json>, key: string, defs: Defs, seen: set<string>, above: Above)
    returns (merged: map<string, Json>)
    requires Tame(Obj(f), defs, seen, above) && TameDefs(defs, above)
    requires HasRef(f) && key == RefKey(f) && key !in seen && Resolvable(key, defs)
    ensures Terminates(defs[key], defs, seen + {key}) && Normal(Value(defs[key], defs, seen + {key}))
    ensures merged == Overlay(Value(defs[key], defs, seen + {key}), f - {"$ref"})
    ensures !HasRef(merged) && Chosen(merged) == Chosen(f)
    ensures Terminates(Obj(merged), defs, seen) && Terminates(Obj(f), defs, seen)
    ensures Value(Obj(f), defs, seen) == Value(Obj(merged), defs, seen)
  {
    TameFewer(defs[key], defs, seen + {key}, above[key], above);
    ResolveTerminates(defs[key], defs, seen + {key}, above);
    var target := Value(defs[key], defs, seen + {key});
    ChosenUnderOverlay(target, f);
    merged := Overlay(target, f - {"$ref"});
    MergedTerminates(f, target, merged, defs, seen, above);
    ResolveReference(f, key, merged, defs, seen);
  }

  /** The step shared by a plain dict and a reference, as in `MergedTerminates`. */
  lemma {:induction false} MergedTop(
    f: map<string, Json>, base: Json, below: Option<Json>, merged: map<string, Json>, k: string,
    defs: Defs, seen: set<string>, above: Above)
    requires Tame(Obj(f), defs, seen, above) && TameDefs(defs, above) && Normal(base) && HasTop(base, k, below)
    requires k !in COMBINERS && k != "$ref" && (HasRef(f) ==> Resolvable(RefKey(f), defs))
    requires merged == Overlay(base, if HasRef(f) then f - {"$ref"} else f)
    requires !HasRef(merged) && Chosen(merged) == Chosen(f) && Terminates(Obj(merged), defs, seen)
    ensures HasTop(Value(Obj(merged), defs, seen), k,
                   if k in f then Some(f[k])
                   else if below.Some? then below
                   else if Chosen(f).Some? then TopOf(Chosen(f).value, k, defs, seen)
                   else None)
    decreases |defs.Keys - seen|, Obj(f), 0
  {
    if Chosen(f).Some? {
      TopOfIs(Chosen(f).value, k, defs, seen, above);
      ResolveCombiner(merged, defs, seen);
    } else {
      FieldsOfMerged(f, base, merged, defs, seen, above);
      if k in merged {
        if k in f { ResolvedAlike(f[k], defs, seen); } else { NormalIsFixed(base.fields[k], defs, seen); }
      }
    }
  }

  lemma FieldsOfMerged(
    f: map<string, Json>, base: Json, merged: map<string, Json>, defs: Defs, seen: set<string>, above: Above)
    requires Tame(Obj(f), defs, seen, above) && TameDefs(defs, above) && Normal(base)
    requires HasRef(f) ==> Resolvable(RefKey(f), defs)
    requires merged == Overlay(base, if HasRef(f) then f - {"$ref"} else f)
    requires !HasRef(merged) && Chosen(merged).None? && Chosen(f).None?
    ensures forall n | n in merged :: Terminates(merged[n], defs, seen)
    ensures Terminates(Obj(merged), defs, seen)
    ensures Value(Obj(merged), defs, seen) == Obj(map n | n in merged :: Value(merged[n], defs, seen))
  {
    forall n | n in merged
      ensures Terminates(merged[n], defs, seen)
    {
      if n in f && merged[n] == f[n] {
        ResolveTerminates(f[n], defs, seen, above);
      } else {
        NormalIsFixed(merged[n], defs, seen);
      }
    }
    ResolveFields(merged, defs, seen);
  }

  lemma TopsDecide(r: Json, properties: Option<Json>, type': Option<Json>, required: Option<Json>)
    requires r.Obj? && HasTop(r, "properties", properties)
    requires HasTop(r, "type", type') && HasTop(r, "required", required)
    ensures ("properties" in r.fields || IsType(r.fields, "object") ||
             "required" !in r.fields || !r.fields["required"].Arr?) <==>
            (properties.Some? || type' == Some(Str("object")) || required.None? || !required.value.Arr?)
  {
  }

  lemma NoSuchCombiner()
    ensures "properties" !in COMBINERS && "type" !in COMBINERS && "required" !in COMBINERS
  {
  }

  /** The same as `DeclarationIsSound`, with the condition on the schema that is given: a required list
      comes out unfiltered if and only if it is found, and neither properties nor the type of an object,
      looking beside references and combiners first, then into definitions and chosen branches. */
  lemma DeclarationCleanExactly(raw: map<string, Json>, above: Above)
    requires Tame(Obj(raw), DefinitionsOf(raw), {}, above) && TameDefs(DefinitionsOf(raw), above)
    ensures Terminates(Obj(raw), DefinitionsOf(raw), {}) && Normal(Declaration(raw))
    ensures var top := k => TopField(raw, k, DefinitionsOf(raw), {});
            Clean(Declaration(raw), false) <==>
            || top("properties").Some? || top("type") == Some(Str("object"))
            || top("required").None? || !top("required").value.Arr?
  {
    var defs := DefinitionsOf(raw);
    DeclarationIsSound(raw, above);
    NoSuchCombiner();
    hide *;
    TopFieldIs(raw, "properties", defs, {}, above);
    TopFieldIs(raw, "type", defs, {}, above);
    TopFieldIs(raw, "required", defs, {}, above);
    TopsDecide(Value(Obj(raw), defs, {}), TopField(raw, "properties", defs, {}), TopField(raw, "type", defs, {}),
               TopField(raw, "required", defs, {}));
  }

  /** For the usual schema of a tool, a dict without reference or combiner of its own, that is its own
      fields. */
  lemma PlainDeclarationClean(raw: map<string, Json>, above: Above)
    requires Tame(Obj(raw), DefinitionsOf(raw), {}, above) && TameDefs(DefinitionsOf(raw), above)
    requires !HasRef(raw) && Chosen(raw).None?
    ensures Terminates(Obj(raw), DefinitionsOf(raw), {})
    ensures Clean(Declaration(raw), false) <==>
            "properties" in raw || IsType(raw, "object") || "required" !in raw || !raw["required"].Arr?
  {
    DeclarationCleanExactly(raw, above);
    hide Terminates, Value, Normal, Clean, Tame, TameDefs;
  }
}
