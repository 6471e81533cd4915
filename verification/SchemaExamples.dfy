/** Schemas on which `_resolve_refs` of mcp-host/llm.py leaves something unresolved: one for each
    condition under which it does not. */
module SchemaExamples {
  import opened Options
  import opened Json
  import opened SchemaResolve

  // ---------- A null branch in progress ----------

  const REF_A := Obj(map["$ref" := Str("A")])
  const NULL_A := Obj(map["type" := Str("null"), "$ref" := Str("A")])

  /** `{anyOf: [branch]}` and `{anyOf: [branch], y: {anyOf: [branch]}}`. */
  function Single(branch: Json): Json {
    Obj(map["anyOf" := Arr([branch])])
  }

  function Double(branch: Json): Json {
    Obj(map["anyOf" := Arr([branch]), "y" := Single(branch)])
  }

  function Under(x: Json): Json {
    Obj(map["x" := x])
  }

  /** `A = {x: {anyOf: [n], y: {anyOf: [n]}}}`, where `n` is the null type that refers to `A`. */
  const NULLS_OF_A: Defs := map["A" := Under(Double(NULL_A))]

  lemma KeyA()
    ensures HasRef(REF_A.fields) && RefKey(REF_A.fields) == "A"
    ensures HasRef(NULL_A.fields) && RefKey(NULL_A.fields) == "A" && IsNullType(NULL_A)
  {
    assert LastSegment("A"[..0]) == [];
  }

  lemma OneBranch(branch: Json, r: Json, defs: Defs, seen: set<string>)
    requires Terminates(branch, defs, seen) && Value(branch, defs, seen) == r
    ensures Terminates(Arr([branch]), defs, seen) && Value(Arr([branch]), defs, seen) == Arr([r])
  {
    ResolveList([branch], defs, seen);
    hide Terminates, Value;
    assert Value(Arr([branch]), defs, seen).items == [r];
  }

  /** `ResolveFields` for fields whose values are known. */
  lemma FieldsAre(f: map<string, Json>, g: map<string, Json>, defs: Defs, seen: set<string>)
    requires !HasRef(f) && Chosen(f).None? && g.Keys == f.Keys
    requires forall k | k in f :: Terminates(f[k], defs, seen) && Value(f[k], defs, seen) == g[k]
    ensures Terminates(Obj(f), defs, seen) && Value(Obj(f), defs, seen) == Obj(g)
  {
    ResolveFields(f, defs, seen);
    hide Terminates, Value;
    assert (map k | k in f :: Value(f[k], defs, seen)) == g;
  }

  lemma NullBranchShapes(branch: Json)
    requires IsNullType(branch)
    ensures !HasRef(Single(branch).fields) && Chosen(Single(branch).fields).None?
    ensures !HasRef(Double(branch).fields) && Chosen(Double(branch).fields).None?
  {
    assert FirstNonNull([branch]).None?;
  }

  lemma SingleValue(branch: Json, r: Json, defs: Defs, seen: set<string>)
    requires IsNullType(branch) && Terminates(branch, defs, seen) && Value(branch, defs, seen) == r
    ensures Terminates(Single(branch), defs, seen) && Value(Single(branch), defs, seen) == Single(r)
  {
    hide Terminates, Value, Chosen, HasRef;
    NullBranchShapes(branch);
    OneBranch(branch, r, defs, seen);
    FieldsAre(Single(branch).fields, Single(r).fields, defs, seen);
  }

  lemma DoubleValue(branch: Json, r: Json, defs: Defs, seen: set<string>)
    requires IsNullType(branch) && Terminates(branch, defs, seen) && Value(branch, defs, seen) == r
    ensures Terminates(Double(branch), defs, seen) && Value(Double(branch), defs, seen) == Double(r)
  {
    hide Terminates, Value, Chosen, HasRef;
    NullBranchShapes(branch);
    OneBranch(branch, r, defs, seen);
    SingleValue(branch, r, defs, seen);
    hide Single;
    FieldsAre(Double(branch).fields, Double(r).fields, defs, seen);
  }

  lemma UnderShape(x: Json)
    ensures !HasRef(Under(x).fields) && Chosen(Under(x).fields).None?
  {
  }

  lemma UnderValue(x: Json, r: Json, defs: Defs, seen: set<string>)
    requires Terminates(x, defs, seen) && Value(x, defs, seen) == r
    ensures Terminates(Under(x), defs, seen) && Value(Under(x), defs, seen) == Under(r)
  {
    hide Terminates, Value, Chosen, HasRef;
    UnderShape(x);
    FieldsAre(Under(x).fields, Under(r).fields, defs, seen);
  }

  /** What is left of `Double` when its branch is no null type: a sibling with such a branch. */
  const LEFTOVER := Obj(map["type" := Str("object"), "y" := Single(ANY_OBJECT)])

  lemma ObjectBranchShapes()
    ensures !HasRef(Double(ANY_OBJECT).fields) && Chosen(Double(ANY_OBJECT).fields) == Some(ANY_OBJECT)
    ensures Chosen(Single(ANY_OBJECT).fields) == Some(ANY_OBJECT)
    ensures Overlay(ANY_OBJECT, Double(ANY_OBJECT).fields - COMBINERS) == LEFTOVER.fields
  {
    assert FirstNonNull([ANY_OBJECT]) == Some(ANY_OBJECT);
    assert Double(ANY_OBJECT).fields - COMBINERS == map["y" := Single(ANY_OBJECT)];
  }

  lemma AnyObjectNormal()
    ensures Normal(ANY_OBJECT)
  {
  }

  /** The object that a cut reference leaves is a branch like any other for the second resolution. */
  lemma DoubleCollapses(defs: Defs, seen: set<string>)
    ensures Terminates(Double(ANY_OBJECT), defs, seen) && Value(Double(ANY_OBJECT), defs, seen) == LEFTOVER
  {
    hide Terminates, Value, Chosen, HasRef, Overlay, Normal;
    ObjectBranchShapes();
    AnyObjectNormal();
    NormalIsFixed(ANY_OBJECT, defs, seen);
    ResolveCombiner(Double(ANY_OBJECT).fields, defs, seen);
  }

  lemma CutNullA()
    ensures Terminates(NULL_A, NULLS_OF_A, {"A"}) && Value(NULL_A, NULLS_OF_A, {"A"}) == ANY_OBJECT
  {
    KeyA();
    CutTerminates(NULL_A.fields, NULLS_OF_A, {"A"});
  }

  /** The definition, resolved with its own key in progress, and the reference unrolled once. */
  lemma UnrolledA()
    ensures Terminates(NULLS_OF_A["A"], NULLS_OF_A, {} + {"A"})
    ensures Value(NULLS_OF_A["A"], NULLS_OF_A, {} + {"A"}) == Under(Double(ANY_OBJECT))
  {
    KeyA();
    CutNullA();
    hide Terminates, Value;
    DoubleValue(NULL_A, ANY_OBJECT, NULLS_OF_A, {"A"});
    UnderValue(Double(NULL_A), Double(ANY_OBJECT), NULLS_OF_A, {"A"});
    assert {} + {"A"} == {"A"};
  }

  lemma LeftoverNotNormal()
    ensures !Normal(Under(LEFTOVER))
  {
    ObjectBranchShapes();
    hide Chosen;
    assert !Normal(Single(ANY_OBJECT));
    assert LEFTOVER.fields["y"] == Single(ANY_OBJECT) && Under(LEFTOVER).fields["x"] == LEFTOVER;
    assert !Normal(LEFTOVER);
  }

  /** Without the condition on null branches a combiner with a non-null branch can be left behind,
      though every reference names a definition and no combiner had a non-null branch. */
  lemma NullBranchExample()
    ensures Terminates(REF_A, NULLS_OF_A, {}) && Value(REF_A, NULLS_OF_A, {}) == Under(LEFTOVER)
    ensures !Normal(Value(REF_A, NULLS_OF_A, {}))
  {
    KeyA();
    UnrolledA();
    var merged := Overlay(Under(Double(ANY_OBJECT)), REF_A.fields - {"$ref"});
    assert merged == Under(Double(ANY_OBJECT)).fields;
    hide Terminates, Value, HasRef, RefKey, Overlay, Normal;
    DoubleCollapses(NULLS_OF_A, {});
    UnderValue(Double(ANY_OBJECT), LEFTOVER, NULLS_OF_A, {});
    ResolveReference(REF_A.fields, "A", merged, NULLS_OF_A, {});
    LeftoverNotNormal();
  }

  // ---------- Siblings that are left unresolved ----------

  /** A reference stays behind beside a combiner with a non-null branch, whatever is defined. */
  lemma CombinerSiblingExample(defs: Defs, seen: set<string>)
    ensures var f := map["anyOf" := Arr([ANY_OBJECT]), "x" := REF_A];
            Terminates(Obj(f), defs, seen) && !Normal(Value(Obj(f), defs, seen))
  {
    KeyA();
    assert !Normal(REF_A);
    var f := map["anyOf" := Arr([ANY_OBJECT]), "x" := REF_A];
    assert Branch(f, "anyOf") == Some(ANY_OBJECT) && "x" in f - COMBINERS;
    AnyObjectNormal();
    hide Terminates, Value, Normal;
    NormalIsFixed(ANY_OBJECT, defs, seen);
    CombinerNormalExactly(f, defs, seen);
  }

  lemma DanglingShape(f: map<string, Json>)
    requires f == map["$ref" := Str("B"), "x" := REF_A]
    ensures HasRef(f) && RefKey(f) == "B" && Obj(f - {"$ref"}) == Under(REF_A)
  {
    assert LastSegment("B"[..0]) == [];
  }

  /** So it does beside a reference that names no definition. */
  lemma DanglingSiblingExample(defs: Defs, seen: set<string>)
    requires "B" !in defs && "B" !in seen
    ensures var f := map["$ref" := Str("B"), "x" := REF_A];
            Terminates(Obj(f), defs, seen) && !Normal(Value(Obj(f), defs, seen))
  {
    KeyA();
    assert Under(REF_A).fields["x"] == REF_A && !Normal(REF_A);
    assert !Normal(Under(REF_A));
    var f := map["$ref" := Str("B"), "x" := REF_A];
    DanglingShape(f);
    hide Terminates, Value, HasRef, RefKey, Under, Normal;
    DanglingNormalExactly(f, defs, seen);
  }
}
