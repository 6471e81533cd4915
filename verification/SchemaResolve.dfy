/** `_resolve_refs` of mcp-host/llm.py: inlining `$ref`s and collapsing `anyOf`/`oneOf`.

    The Python function is partial: on some schemas it recurses until the interpreter's
    recursion limit stops it. `Resolve` therefore takes the recursion depth still allowed
    and answers None when that is used up; `Terminates` and `Value` forget the depth. */
module SchemaResolve {
  import opened Options
  import opened Json

  type Defs = map<string, Json>

  /** `ref.rsplit("/", 1)[-1]`. */
  function LastSegment(ref: string): (r: string)
    ensures '/' !in r
    ensures r == ref || (|r| < |ref| && ref[|ref| - |r| - 1] == '/' && r == ref[|ref| - |r|..])
    decreases |ref|
  {
    if ref == [] then []
    else if ref[|ref| - 1] == '/' then []
    else
      var r := LastSegment(ref[..|ref| - 1]);
      assert ref == ref[..|ref| - 1] + [ref[|ref| - 1]];
      r + [ref[|ref| - 1]]
  }

  predicate HasRef(f: map<string, Json>) {
    "$ref" in f && f["$ref"].Str?
  }

  function RefKey(f: map<string, Json>): string
    requires HasRef(f)
  {
    LastSegment(f["$ref"].s)
  }

  predicate Resolvable(key: string, defs: Defs) {
    key in defs && defs[key] != Null
  }

  predicate IsNullType(j: Json) {
    j.Obj? && "type" in j.fields && j.fields["type"] == Str("null")
  }

  function FirstNonNull(branches: seq<Json>): (r: Option<Json>)
    ensures r.Some? ==> r.value in branches && !IsNullType(r.value)
    ensures r.None? <==> forall b :: b in branches ==> IsNullType(b)
  {
    if branches == [] then None
    else if IsNullType(branches[0]) then FirstNonNull(branches[1..])
    else Some(branches[0])
  }

  function Branch(f: map<string, Json>, combiner: string): (r: Option<Json>)
    ensures r.Some? ==> r.value < Obj(f)
  {
    if combiner in f && f[combiner].Arr? then
      var r := FirstNonNull(f[combiner].items);
      assert r.Some? ==> r.value < f[combiner];
      r
    else None
  }

  /** The branch that the combiner loop picks: `anyOf` is tried before `oneOf`. */
  function Chosen(f: map<string, Json>): (r: Option<Json>)
    ensures r.Some? ==> r.value < Obj(f)
  {
    var any := Branch(f, "anyOf");
    if any.Some? then any else Branch(f, "oneOf")
  }

  const COMBINERS := {"anyOf", "oneOf"}

  /** `{**base, **over}`, or just `over` when the resolved base is not a dict. */
  function Overlay(base: Json, over: map<string, Json>): map<string, Json> {
    if base.Obj? then base.fields + over else over
  }

  const ANY_OBJECT := Obj(map["type" := Str("object")])

  function Resolve(depth: nat, node: Json, defs: Defs, seen: set<string>): Option<Json>
    decreases depth, 0
  {
    if depth == 0 then None
    else
      match node
      case Obj(f) =>
        if HasRef(f) then ResolveRef(depth - 1, f, defs, seen)
        else (
          match Chosen(f)
          case Some(branch) => (
            match Resolve(depth - 1, branch, defs, seen)
            case None => None
            case Some(chosen) => Some(Obj(Overlay(chosen, f - COMBINERS)))
          )
          case None => ResolveEach(depth - 1, f, defs, seen)
        )
      case Arr(xs) => ResolveAll(depth - 1, xs, defs, seen)
      case _ => Some(node)
  }

  function ResolveRef(depth: nat, f: map<string, Json>, defs: Defs, seen: set<string>): Option<Json>
    requires HasRef(f)
    decreases depth, 1
  {
    var key := RefKey(f);
    if key in seen then Some(ANY_OBJECT)
    else if Resolvable(key, defs) then
      match Resolve(depth, defs[key], defs, seen + {key})
      case None => None
      case Some(resolved) => Resolve(depth, Obj(Overlay(resolved, f - {"$ref"})), defs, seen)
    else Some(Obj(f - {"$ref"}))
  }

  function ResolveEach(depth: nat, f: map<string, Json>, defs: Defs, seen: set<string>): (r: Option<Json>)
    ensures r.Some? <==> forall k | k in f :: Resolve(depth, f[k], defs, seen).Some?
    ensures r.Some? ==> r.value.Obj? && r.value.fields.Keys == f.Keys
    ensures r.Some? ==> forall k | k in f :: Resolve(depth, f[k], defs, seen) == Some(r.value.fields[k])
    decreases depth, 1
  {
    if forall k | k in f :: Resolve(depth, f[k], defs, seen).Some? then
      Some(Obj(map k | k in f :: Resolve(depth, f[k], defs, seen).value))
    else None
  }

  function ResolveAll(depth: nat, xs: seq<Json>, defs: Defs, seen: set<string>): (r: Option<Json>)
    ensures r.Some? <==> forall i | 0 <= i < |xs| :: Resolve(depth, xs[i], defs, seen).Some?
    ensures r.Some? ==> r.value.Arr? && |r.value.items| == |xs|
    ensures r.Some? ==> forall i | 0 <= i < |xs| :: Resolve(depth, xs[i], defs, seen) == Some(r.value.items[i])
    decreases depth, 1
  {
    if forall i | 0 <= i < |xs| :: Resolve(depth, xs[i], defs, seen).Some? then
      Some(Arr(seq(|xs|, i requires 0 <= i < |xs| => Resolve(depth, xs[i], defs, seen).value)))
    else None
  }

  // ---------- The depth does not matter beyond being large enough ----------

  lemma {:induction false} ResolveMonotone(d: nat, e: nat, node: Json, defs: Defs, seen: set<string>)
    requires d <= e && Resolve(d, node, defs, seen).Some?
    ensures Resolve(e, node, defs, seen) == Resolve(d, node, defs, seen)
    decreases d, 0
  {
    hide HasRef, Chosen, RefKey, Resolvable;
    match node
    case Obj(f) =>
      if HasRef(f) {
        RefMonotone(d - 1, e - 1, f, defs, seen);
      } else if Chosen(f).Some? {
        ResolveMonotone(d - 1, e - 1, Chosen(f).value, defs, seen);
      } else {
        EachMonotone(d - 1, e - 1, f, defs, seen);
      }
    case Arr(xs) => AllMonotone(d - 1, e - 1, xs, defs, seen);
    case _ =>
  }

  lemma {:induction false} RefMonotone(d: nat, e: nat, f: map<string, Json>, defs: Defs, seen: set<string>)
    requires d <= e && HasRef(f) && ResolveRef(d, f, defs, seen).Some?
    ensures ResolveRef(e, f, defs, seen) == ResolveRef(d, f, defs, seen)
    decreases d, 1
  {
    var key := RefKey(f);
    if key !in seen && Resolvable(key, defs) {
      ResolveMonotone(d, e, defs[key], defs, seen + {key});
      var resolved := Resolve(d, defs[key], defs, seen + {key}).value;
      ResolveMonotone(d, e, Obj(Overlay(resolved, f - {"$ref"})), defs, seen);
    }
  }

  lemma {:induction false} EachMonotone(d: nat, e: nat, f: map<string, Json>, defs: Defs, seen: set<string>)
    requires d <= e && ResolveEach(d, f, defs, seen).Some?
    ensures ResolveEach(e, f, defs, seen) == ResolveEach(d, f, defs, seen)
    decreases d, 1
  {
    forall k | k in f
      ensures Resolve(e, f[k], defs, seen) == Resolve(d, f[k], defs, seen)
    {
      ResolveMonotone(d, e, f[k], defs, seen);
    }
    assert ResolveEach(e, f, defs, seen).value.fields == ResolveEach(d, f, defs, seen).value.fields;
  }

  lemma {:induction false} AllMonotone(d: nat, e: nat, xs: seq<Json>, defs: Defs, seen: set<string>)
    requires d <= e && ResolveAll(d, xs, defs, seen).Some?
    ensures ResolveAll(e, xs, defs, seen) == ResolveAll(d, xs, defs, seen)
    decreases d, 1
  {
    forall i | 0 <= i < |xs|
      ensures Resolve(e, xs[i], defs, seen) == Resolve(d, xs[i], defs, seen)
    {
      ResolveMonotone(d, e, xs[i], defs, seen);
    }
    assert ResolveAll(e, xs, defs, seen).value.items == ResolveAll(d, xs, defs, seen).value.items;
  }

  ghost predicate Terminates(node: Json, defs: Defs, seen: set<string>) {
    exists d: nat :: Resolve(d, node, defs, seen).Some?
  }

  ghost function Value(node: Json, defs: Defs, seen: set<string>): Json
    requires Terminates(node, defs, seen)
  {
    var d: nat :| Resolve(d, node, defs, seen).Some?;
    Resolve(d, node, defs, seen).value
  }

  /** Every sufficient depth gives the same answer. */
  lemma ResolveIsValue(d: nat, node: Json, defs: Defs, seen: set<string>)
    requires Resolve(d, node, defs, seen).Some?
    ensures Terminates(node, defs, seen)
    ensures Resolve(d, node, defs, seen) == Some(Value(node, defs, seen))
  {
    var e: nat :| Resolve(e, node, defs, seen).Some? && Resolve(e, node, defs, seen).value == Value(node, defs, seen);
    if d <= e { ResolveMonotone(d, e, node, defs, seen); } else { ResolveMonotone(e, d, node, defs, seen); }
  }

  /** Finitely many terminating calls share one depth. */
  lemma {:induction false} CommonDepth(nodes: set<Json>, defs: Defs, seen: set<string>) returns (d: nat)
    requires forall j :: j in nodes ==> Terminates(j, defs, seen)
    ensures forall j :: j in nodes ==> Resolve(d, j, defs, seen) == Some(Value(j, defs, seen))
  {
    if nodes == {} {
      d := 0;
    } else {
      var j :| j in nodes;
      var d0 := CommonDepth(nodes - {j}, defs, seen);
      var d1: nat :| Resolve(d1, j, defs, seen).Some?;
      d := if d0 <= d1 then d1 else d0;
      forall x | x in nodes
        ensures Resolve(d, x, defs, seen) == Some(Value(x, defs, seen))
      {
        ResolveMonotone(if x == j then d1 else d0, d, x, defs, seen);
        ResolveIsValue(d, x, defs, seen);
      }
    }
  }

  // ---------- The recursion equations, without the depth ----------

  lemma ResolveScalar(node: Json, defs: Defs, seen: set<string>)
    requires !node.Obj? && !node.Arr?
    ensures Terminates(node, defs, seen) && Value(node, defs, seen) == node
  {
    ResolveIsValue(1, node, defs, seen);
  }

  lemma ResolveList(xs: seq<Json>, defs: Defs, seen: set<string>)
    requires forall i | 0 <= i < |xs| :: Terminates(xs[i], defs, seen)
    ensures Terminates(Arr(xs), defs, seen)
    ensures Value(Arr(xs), defs, seen) ==
            Arr(seq(|xs|, i requires 0 <= i < |xs| => Value(xs[i], defs, seen)))
  {
    var nodes := set x | x in xs;
    var d := CommonDepth(nodes, defs, seen);
    assert forall i | 0 <= i < |xs| :: xs[i] in nodes;
    ResolveIsValue(d + 1, Arr(xs), defs, seen);
    var values := seq(|xs|, i requires 0 <= i < |xs| => Value(xs[i], defs, seen));
    assert ResolveAll(d, xs, defs, seen).value.items == values;
  }

  lemma ResolveFields(f: map<string, Json>, defs: Defs, seen: set<string>)
    requires !HasRef(f) && Chosen(f).None?
    requires forall k | k in f :: Terminates(f[k], defs, seen)
    ensures Terminates(Obj(f), defs, seen)
    ensures Value(Obj(f), defs, seen) == Obj(map k | k in f :: Value(f[k], defs, seen))
  {
    var d := CommonDepth(f.Values, defs, seen);
    assert forall k | k in f :: f[k] in f.Values;
    ResolveIsValue(d + 1, Obj(f), defs, seen);
    assert ResolveEach(d, f, defs, seen).value.fields == map k | k in f :: Value(f[k], defs, seen);
  }

  /** A combiner with a non-null branch: that branch, resolved, under the untouched siblings. */
  lemma ResolveCombiner(f: map<string, Json>, defs: Defs, seen: set<string>)
    requires !HasRef(f) && Chosen(f).Some? && Terminates(Chosen(f).value, defs, seen)
    ensures Terminates(Obj(f), defs, seen)
    ensures Value(Obj(f), defs, seen) == Obj(Overlay(Value(Chosen(f).value, defs, seen), f - COMBINERS))
  {
    var d := CommonDepth({Chosen(f).value}, defs, seen);
    ResolveIsValue(d + 1, Obj(f), defs, seen);
  }

  /** A reference: its target, resolved with the key marked, under the siblings, resolved again. */
  lemma ResolveReference(f: map<string, Json>, key: string, merged: map<string, Json>, defs: Defs, seen: set<string>)
    requires HasRef(f) && key == RefKey(f) && key !in seen && Resolvable(key, defs)
    requires Terminates(defs[key], defs, seen + {key})
    requires merged == Overlay(Value(defs[key], defs, seen + {key}), f - {"$ref"})
    requires Terminates(Obj(merged), defs, seen)
    ensures Terminates(Obj(f), defs, seen)
    ensures Value(Obj(f), defs, seen) == Value(Obj(merged), defs, seen)
  {
    var d0: nat :| Resolve(d0, defs[key], defs, seen + {key}).Some?;
    var d1: nat :| Resolve(d1, Obj(merged), defs, seen).Some?;
    var d := d0 + d1;
    ResolveMonotone(d0, d, defs[key], defs, seen + {key});
    ResolveIsValue(d, defs[key], defs, seen + {key});
    ResolveMonotone(d1, d, Obj(merged), defs, seen);
    ResolveIsValue(d, Obj(merged), defs, seen);
    assert Resolve(d + 1, Obj(f), defs, seen) == Resolve(d, Obj(merged), defs, seen);
    ResolveIsValue(d + 1, Obj(f), defs, seen);
  }

  // ---------- Normal form ----------

  /** No string `$ref` and no combiner with a non-null branch, anywhere. */
  ghost predicate Normal(j: Json) {
    match j
    case Arr(xs) => forall i | 0 <= i < |xs| :: Normal(xs[i])
    case Obj(f) => !HasRef(f) && Chosen(f).None? && forall k | k in f :: Normal(f[k])
    case _ => true
  }

  /** Resolving a normal form is the identity, whatever the definitions and the keys in progress. */
  lemma {:induction false} NormalIsFixed(j: Json, defs: Defs, seen: set<string>)
    requires Normal(j)
    ensures Terminates(j, defs, seen) && Value(j, defs, seen) == j
  {
    match j
    case Arr(xs) =>
      forall i | 0 <= i < |xs|
        ensures Terminates(xs[i], defs, seen) && Value(xs[i], defs, seen) == xs[i]
      {
        NormalIsFixed(xs[i], defs, seen);
      }
      ResolveList(xs, defs, seen);
    case Obj(f) =>
      forall k | k in f
        ensures Terminates(f[k], defs, seen) && Value(f[k], defs, seen) == f[k]
      {
        NormalIsFixed(f[k], defs, seen);
      }
      ResolveFields(f, defs, seen);
      assert (map k | k in f :: Value(f[k], defs, seen)) == f;
    case _ =>
      ResolveScalar(j, defs, seen);
  }

  /** For every definition, the keys that may be in progress while it is resolved: its own, and those of
      the definitions that lead to it. */
  type Above = map<string, set<string>>

  /** Following a reference from where `seen` may be in progress is accounted for. */
  predicate Leads(key: string, seen: set<string>, above: Above) {
    key in above && seen + {key} <= above[key]
  }

  /** To say of every definition that all keys may be in progress accounts for any reference. */
  lemma AllAbove(key: string, defs: Defs, seen: set<string>, started: set<string>)
    requires key in defs && seen <= started + defs.Keys
    ensures Leads(key, seen, map k | k in defs :: started + defs.Keys)
  {
  }

  /** What a schema must satisfy for the two paths that skip the siblings, and the cut at keys in
      progress, to be harmless: beside a dangling reference, and beside a combiner with a non-null
      branch, everything is normal, and no null branch refers to a key that may be in progress. */
  ghost predicate Tame(j: Json, defs: Defs, seen: set<string>, above: Above) {
    match j
    case Arr(xs) => forall i | 0 <= i < |xs| :: Tame(xs[i], defs, seen, above)
    case Obj(f) =>
      if HasRef(f) && !Resolvable(RefKey(f), defs) then Normal(Obj(f - {"$ref"}))
      else (
        && (HasRef(f) ==> Leads(RefKey(f), seen, above))
        && match Chosen(f)
           case Some(branch) => Tame(branch, defs, seen, above) && forall k | k in f - COMBINERS :: Normal(f[k])
           case None => PlainNulls(f, seen) && forall k | k in f :: Tame(f[k], defs, seen, above)
      )
    case _ => true
  }

  /** A branch that is cut when it is resolved. */
  predicate CutBranch(branch: Json, seen: set<string>) {
    branch.Obj? && HasRef(branch.fields) && RefKey(branch.fields) in seen
  }

  /** No branch of a combiner refers to a key in progress. Asked only of combiners whose branches are
      all null types, this keeps them null types: a reference in progress resolves to an object. */
  predicate PlainNulls(f: map<string, Json>, seen: set<string>) {
    PlainBranches(f, "anyOf", seen) && PlainBranches(f, "oneOf", seen)
  }

  predicate PlainBranches(f: map<string, Json>, combiner: string, seen: set<string>) {
    combiner in f && f[combiner].Arr? ==>
      forall i | 0 <= i < |f[combiner].items| :: !CutBranch(f[combiner].items[i], seen)
  }

  ghost predicate TameDefs(defs: Defs, above: Above) {
    forall key | key in defs :: key in above && Tame(defs[key], defs, above[key], above)
  }

  lemma {:induction false} TameFewer(j: Json, defs: Defs, seen: set<string>, more: set<string>, above: Above)
    requires Tame(j, defs, more, above) && seen <= more
    ensures Tame(j, defs, seen, above)
  {
    match j
    case Arr(xs) =>
      forall i | 0 <= i < |xs| ensures Tame(xs[i], defs, seen, above) { TameFewer(xs[i], defs, seen, more, above); }
    case Obj(f) =>
      if Chosen(f).Some? && !(HasRef(f) && !Resolvable(RefKey(f), defs)) {
        TameFewer(Chosen(f).value, defs, seen, more, above);
      } else if !(HasRef(f) && !Resolvable(RefKey(f), defs)) {
        forall k | k in f ensures Tame(f[k], defs, seen, above) { TameFewer(f[k], defs, seen, more, above); }
      }
    case _ =>
  }

  lemma ChosenUnderOverlay(base: Json, f: map<string, Json>)
    requires Normal(base) && HasRef(f)
    ensures var merged := Overlay(base, f - {"$ref"});
            !HasRef(merged) && Chosen(merged) == Chosen(f)
  {
    var merged := Overlay(base, f - {"$ref"});
    forall c | c in COMBINERS
      ensures Branch(merged, c) == Branch(f, c)
    {
      if c !in f && base.Obj? {
        assert Branch(base.fields, c).None?;
      }
    }
  }

  /** `_resolve_refs` terminates and returns a normal form, mutually recursive definitions included. */
  lemma {:induction false} ResolveTerminates(node: Json, defs: Defs, seen: set<string>, above: Above)
    requires Tame(node, defs, seen, above) && TameDefs(defs, above)
    ensures Terminates(node, defs, seen) && Normal(Value(node, defs, seen))
    decreases |defs.Keys - seen|, node, 2
  {
    match node
    case Arr(xs) =>
      forall i | 0 <= i < |xs|
        ensures Terminates(xs[i], defs, seen) && Normal(Value(xs[i], defs, seen))
      {
        ResolveTerminates(xs[i], defs, seen, above);
      }
      ResolveList(xs, defs, seen);
    case Obj(f) =>
      if HasRef(f) {
        ReferenceTerminates(f, defs, seen, above);
      } else {
        MergedTerminates(f, Null, f, defs, seen, above);
      }
    case _ =>
      ResolveScalar(node, defs, seen);
  }

  lemma {:induction false} ReferenceTerminates(f: map<string, Json>, defs: Defs, seen: set<string>, above: Above)
    requires Tame(Obj(f), defs, seen, above) && TameDefs(defs, above) && HasRef(f)
    ensures Terminates(Obj(f), defs, seen) && Normal(Value(Obj(f), defs, seen))
    decreases |defs.Keys - seen|, Obj(f), 1
  {
    var key := RefKey(f);
    if key in seen || !Resolvable(key, defs) {
      CutTerminates(f, defs, seen);
    } else {
      OneKeyFewer(defs.Keys, seen, key);
      TameFewer(defs[key], defs, seen + {key}, above[key], above);
      ResolveTerminates(defs[key], defs, seen + {key}, above);
      var resolved := Value(defs[key], defs, seen + {key});
      ChosenUnderOverlay(resolved, f);
      var merged := Overlay(resolved, f - {"$ref"});
      MergedTerminates(f, resolved, merged, defs, seen, above);
      ResolveReference(f, key, merged, defs, seen);
    }
  }

  /** A key in progress, or one without definition, ends the recursion at once. */
  lemma CutTerminates(f: map<string, Json>, defs: Defs, seen: set<string>)
    requires HasRef(f) && (RefKey(f) in seen || (!Resolvable(RefKey(f), defs) && Normal(Obj(f - {"$ref"}))))
    ensures Terminates(Obj(f), defs, seen) && Normal(Value(Obj(f), defs, seen))
    ensures Value(Obj(f), defs, seen) == if RefKey(f) in seen then ANY_OBJECT else Obj(f - {"$ref"})
  {
    ResolveIsValue(1, Obj(f), defs, seen);
  }

  lemma OneKeyFewer(keys: set<string>, seen: set<string>, key: string)
    requires key in keys && key !in seen
    ensures |keys - (seen + {key})| < |keys - seen|
  {
    assert keys - (seen + {key}) == (keys - seen) - {key};
  }

  /** The step shared by a plain dict and a reference: siblings laid over a normal base. */
  lemma {:induction false} MergedTerminates(
    f: map<string, Json>, base: Json, merged: map<string, Json>, defs: Defs, seen: set<string>, above: Above)
    requires Tame(Obj(f), defs, seen, above) && TameDefs(defs, above) && Normal(base)
    requires HasRef(f) ==> Resolvable(RefKey(f), defs)
    requires merged == Overlay(base, if HasRef(f) then f - {"$ref"} else f)
    requires !HasRef(merged) && Chosen(merged) == Chosen(f)
    ensures Terminates(Obj(merged), defs, seen) && Normal(Value(Obj(merged), defs, seen))
    decreases |defs.Keys - seen|, Obj(f), 0
  {
    if Chosen(f).Some? {
      ResolveTerminates(Chosen(f).value, defs, seen, above);
      CombinerTerminates(f, base, merged, defs, seen);
    } else {
      forall k | k in f
        ensures Terminates(f[k], defs, seen) && Normal(Value(f[k], defs, seen))
      {
        ResolveTerminates(f[k], defs, seen, above);
      }
      FieldsTerminate(f, base, merged, defs, seen);
    }
  }

  lemma CombinerTerminates(
    f: map<string, Json>, base: Json, merged: map<string, Json>, defs: Defs, seen: set<string>)
    requires Normal(base) && Chosen(f).Some?
    requires forall k | k in f - COMBINERS :: Normal(f[k])
    requires merged == Overlay(base, if HasRef(f) then f - {"$ref"} else f)
    requires !HasRef(merged) && Chosen(merged) == Chosen(f)
    requires Terminates(Chosen(f).value, defs, seen) && Normal(Value(Chosen(f).value, defs, seen))
    ensures Terminates(Obj(merged), defs, seen) && Normal(Value(Obj(merged), defs, seen))
  {
    ResolveCombiner(merged, defs, seen);
    NormalOverlay(Value(Chosen(f).value, defs, seen), merged - COMBINERS);
  }

  lemma FieldsTerminate(
    f: map<string, Json>, base: Json, merged: map<string, Json>, defs: Defs, seen: set<string>)
    requires Normal(base) && Chosen(f).None? && PlainNulls(f, seen)
    requires merged == Overlay(base, if HasRef(f) then f - {"$ref"} else f)
    requires !HasRef(merged) && Chosen(merged) == Chosen(f)
    requires forall k | k in f :: Terminates(f[k], defs, seen) && Normal(Value(f[k], defs, seen))
    ensures Terminates(Obj(merged), defs, seen) && Normal(Value(Obj(merged), defs, seen))
  {
    forall k | k in merged
      ensures Terminates(merged[k], defs, seen) && Normal(Value(merged[k], defs, seen))
    {
      if k !in f || merged[k] != f[k] {
        NormalIsFixed(merged[k], defs, seen);
      }
    }
    ResolveFields(merged, defs, seen);
    PlainNullsUnderOverlay(base, f, merged, seen);
    FieldsNormalExactly(merged, defs, seen);
  }

  lemma PlainNullsUnderOverlay(base: Json, f: map<string, Json>, merged: map<string, Json>, seen: set<string>)
    requires Normal(base) && PlainNulls(f, seen)
    requires merged == Overlay(base, if HasRef(f) then f - {"$ref"} else f)
    ensures PlainNulls(merged, seen)
  {
    forall c | c in COMBINERS
      ensures PlainBranches(merged, c, seen)
    {
      if c !in f && c in merged {
        assert Normal(base.fields[c]);
      } else if c in f {
        assert PlainBranches(f, c, seen);
      }
    }
  }

  lemma NormalOverlay(base: Json, rest: map<string, Json>)
    requires Normal(base) && !HasRef(rest) && rest.Keys !! COMBINERS
    requires forall k | k in rest :: Normal(rest[k])
    ensures Normal(Obj(Overlay(base, rest)))
  {
    NoBranchUnderOverlay(base, rest);
  }

  lemma NoBranchUnderOverlay(base: Json, rest: map<string, Json>)
    requires Normal(base) && !HasRef(rest) && rest.Keys !! COMBINERS
    ensures !HasRef(Overlay(base, rest)) && Chosen(Overlay(base, rest)).None?
  {
    var merged := Overlay(base, rest);
    forall c | c in COMBINERS
      ensures Branch(merged, c).None?
    {
      if base.Obj? { assert Branch(base.fields, c).None?; }
    }
  }

  /** Resolving the fields of a dict creates no string `$ref`, and a non-null branch exactly when a
      branch of one of its combiners, all of them null types, is a reference in progress. */
  lemma FieldsNormalExactly(f: map<string, Json>, defs: Defs, seen: set<string>)
    requires !HasRef(f) && Chosen(f).None?
    requires forall k | k in f :: Terminates(f[k], defs, seen) && Normal(Value(f[k], defs, seen))
    ensures Terminates(Obj(f), defs, seen)
    ensures Normal(Value(Obj(f), defs, seen)) <==> PlainNulls(f, seen)
  {
    ResolveFields(f, defs, seen);
    var g := Value(Obj(f), defs, seen).fields;
    assert g.Keys == f.Keys && forall k | k in g :: Normal(g[k]);
    if HasRef(g) { ShapeKept(f["$ref"], defs, seen); }
    hide Value, Terminates, PlainBranches, Branch;
    BranchKeptExactly(f, g, "anyOf", defs, seen);
    BranchKeptExactly(f, g, "oneOf", defs, seen);
  }

  lemma BranchKeptExactly(f: map<string, Json>, g: map<string, Json>, c: string, defs: Defs, seen: set<string>)
    requires Chosen(f).None? && c in COMBINERS && g.Keys == f.Keys
    requires c in f ==> Terminates(f[c], defs, seen) && g[c] == Value(f[c], defs, seen)
    ensures Branch(g, c).None? <==> PlainBranches(f, c, seen)
  {
    if c in f {
      ShapeKept(f[c], defs, seen);
      if f[c].Arr? {
        assert Branch(f, c).None?;
        NullBranchesExactly(f[c].items, defs, seen);
      }
    }
  }

  /** Scalars are returned as they are, lists stay lists resolved entry by entry, dicts stay dicts. */
  lemma ShapeKept(j: Json, defs: Defs, seen: set<string>)
    requires Terminates(j, defs, seen)
    ensures !j.Obj? && !j.Arr? ==> Value(j, defs, seen) == j
    ensures j.Obj? ==> Value(j, defs, seen).Obj?
    ensures j.Arr? ==> Value(j, defs, seen).Arr? && |Value(j, defs, seen).items| == |j.items|
    ensures j.Arr? ==> forall i | 0 <= i < |j.items| ::
                         Terminates(j.items[i], defs, seen)
                         && Value(j, defs, seen).items[i] == Value(j.items[i], defs, seen)
  {
    var d: nat :| Resolve(d, j, defs, seen).Some?;
    ResolveIsValue(d, j, defs, seen);
    match j
    case Arr(xs) =>
      forall i | 0 <= i < |xs|
        ensures Terminates(xs[i], defs, seen) && Value(j, defs, seen).items[i] == Value(xs[i], defs, seen)
      {
        ResolveIsValue(d - 1, xs[i], defs, seen);
      }
    case Obj(f) => DictStaysDict(d, f, defs, seen);
    case _ =>
  }

  lemma {:induction false} DictStaysDict(d: nat, f: map<string, Json>, defs: Defs, seen: set<string>)
    requires Resolve(d, Obj(f), defs, seen).Some?
    ensures Resolve(d, Obj(f), defs, seen).value.Obj?
  {
    if HasRef(f) && RefKey(f) !in seen && Resolvable(RefKey(f), defs) {
      var resolved := Resolve(d - 1, defs[RefKey(f)], defs, seen + {RefKey(f)}).value;
      DictStaysDict(d - 1, Overlay(resolved, f - {"$ref"}), defs, seen);
    }
  }

  lemma NonDictStays(d: nat, j: Json, defs: Defs, seen: set<string>)
    requires Resolve(d, j, defs, seen).Some? && !j.Obj?
    ensures !Resolve(d, j, defs, seen).value.Obj?
    ensures j.Str? <==> Resolve(d, j, defs, seen).value.Str?
  {
  }

  /** No string `$ref` is ever left at the top of what is returned. */
  lemma {:induction false} NoRefOnTop(d: nat, j: Json, defs: Defs, seen: set<string>)
    requires Resolve(d, j, defs, seen).Some?
    ensures var r := Resolve(d, j, defs, seen).value; r.Obj? ==> !HasRef(r.fields)
  {
    if j.Obj? {
      var f := j.fields;
      if HasRef(f) {
        if RefKey(f) !in seen && Resolvable(RefKey(f), defs) {
          var resolved := Resolve(d - 1, defs[RefKey(f)], defs, seen + {RefKey(f)}).value;
          hide HasRef, Chosen, RefKey, Resolvable;
          NoRefOnTop(d - 1, Obj(Overlay(resolved, f - {"$ref"})), defs, seen);
        }
      } else if Chosen(f).Some? {
        NoRefOnTop(d - 1, Chosen(f).value, defs, seen);
        hide Chosen, Resolve;
      } else if "$ref" in f {
        hide Chosen;
        if f["$ref"].Obj? {
          DictStaysDict(d - 1, f["$ref"].fields, defs, seen);
        } else {
          NonDictStays(d - 1, f["$ref"], defs, seen);
        }
      }
    } else {
      NonDictStays(d, j, defs, seen);
    }
  }

  lemma NullTypeWithoutRef(d: nat, f: map<string, Json>, defs: Defs, seen: set<string>)
    requires Resolve(d, Obj(f), defs, seen).Some? && IsNullType(Obj(f)) && !HasRef(f)
    ensures IsNullType(Resolve(d, Obj(f), defs, seen).value)
  {
    if Chosen(f).None? {
      assert Resolve(d - 1, f["type"], defs, seen) == Some(f["type"]);
    }
  }

  /** A null type stays one unless it is a reference whose key is in progress: whatever the reference
      stands for, the sibling `type: null` wins over it. */
  lemma NullTypeExactly(d: nat, j: Json, defs: Defs, seen: set<string>)
    requires Resolve(d, j, defs, seen).Some? && IsNullType(j)
    ensures IsNullType(Resolve(d, j, defs, seen).value) <==> !CutBranch(j, seen)
  {
    var f := j.fields;
    if !HasRef(f) {
      NullTypeWithoutRef(d, f, defs, seen);
    } else if RefKey(f) !in seen && Resolvable(RefKey(f), defs) {
      var target := defs[RefKey(f)];
      var resolved := Resolve(d - 1, target, defs, seen + {RefKey(f)}).value;
      NoRefOnTop(d - 1, target, defs, seen + {RefKey(f)});
      NullTypeWithoutRef(d - 1, Overlay(resolved, f - {"$ref"}), defs, seen);
    }
  }

  /** A combiner whose branches are all null types keeps only null types exactly when none of them is
      a reference whose key is in progress. */
  lemma NullBranchesExactly(branches: seq<Json>, defs: Defs, seen: set<string>)
    requires Terminates(Arr(branches), defs, seen)
    requires forall i | 0 <= i < |branches| :: IsNullType(branches[i])
    ensures Value(Arr(branches), defs, seen).Arr?
    ensures (forall b | b in Value(Arr(branches), defs, seen).items :: IsNullType(b)) <==>
            (forall i | 0 <= i < |branches| :: !CutBranch(branches[i], seen))
  {
    ShapeKept(Arr(branches), defs, seen);
    var items := Value(Arr(branches), defs, seen).items;
    forall i | 0 <= i < |branches|
      ensures IsNullType(items[i]) <==> !CutBranch(branches[i], seen)
    {
      var d: nat :| Resolve(d, branches[i], defs, seen).Some?;
      NullTypeExactly(d, branches[i], defs, seen);
      ResolveIsValue(d, branches[i], defs, seen);
    }
    assert forall i | 0 <= i < |branches| :: items[i] in items;
  }

  // ---------- Main results ----------

  /** For tame schemas and definitions, mutually recursive ones included: `_resolve_refs`
      terminates, leaves no string `$ref` and no combiner with a non-null branch, and resolving
      its result again, against any definitions and with any keys in progress, changes nothing. */
  lemma ResolveIdempotent(
    node: Json, defs: Defs, seen: set<string>, above: Above, defs': Defs, seen': set<string>)
    requires Tame(node, defs, seen, above) && TameDefs(defs, above)
    ensures Terminates(node, defs, seen) && Normal(Value(node, defs, seen))
    ensures Terminates(Value(node, defs, seen), defs', seen')
    ensures Value(Value(node, defs, seen), defs', seen') == Value(node, defs, seen)
  {
    ResolveTerminates(node, defs, seen, above);
    NormalIsFixed(Value(node, defs, seen), defs', seen');
  }

  /** A reference whose siblings hold no combiner is its target's resolution, overlaid with the
      resolved siblings: field by field, the reference never wins over what stands beside it. */
  lemma ReferenceField(f: map<string, Json>, key: string, k: string, defs: Defs, seen: set<string>, above: Above)
    requires Tame(Obj(f), defs, seen, above) && TameDefs(defs, above)
    requires HasRef(f) && key == RefKey(f) && key !in seen && Resolvable(key, defs) && Chosen(f).None?
    ensures Terminates(defs[key], defs, seen + {key})
    ensures Terminates(Obj(f), defs, seen) && Value(Obj(f), defs, seen).Obj?
    ensures k in Value(Obj(f), defs, seen).fields <==>
            k in f - {"$ref"} || k in Overlay(Value(defs[key], defs, seen + {key}), map[])
    ensures k in f - {"$ref"} ==>
              Terminates(f[k], defs, seen) && Value(Obj(f), defs, seen).fields[k] == Value(f[k], defs, seen)
    ensures k !in f - {"$ref"} && k in Value(Obj(f), defs, seen).fields ==>
              Value(Obj(f), defs, seen).fields[k] == Value(defs[key], defs, seen + {key}).fields[k]
  {
    TameFewer(defs[key], defs, seen + {key}, above[key], above);
    ResolveTerminates(defs[key], defs, seen + {key}, above);
    var target := Value(defs[key], defs, seen + {key});
    ChosenUnderOverlay(target, f);
    var merged := Overlay(target, f - {"$ref"});
    OverlayResolves(f - {"$ref"}, target, merged, defs, seen, above);
    ResolveReference(f, key, merged, defs, seen);
    if k in merged && k !in f - {"$ref"} {
      NormalIsFixed(merged[k], defs, seen);
    }
  }

  lemma OverlayResolves(
    siblings: map<string, Json>, base: Json, merged: map<string, Json>, defs: Defs, seen: set<string>, above: Above)
    requires TameDefs(defs, above) && Normal(base) && forall k | k in siblings :: Tame(siblings[k], defs, seen, above)
    requires merged == Overlay(base, siblings) && !HasRef(merged) && Chosen(merged).None?
    ensures forall k | k in merged :: Terminates(merged[k], defs, seen)
    ensures Terminates(Obj(merged), defs, seen)
    ensures Value(Obj(merged), defs, seen) == Obj(map k | k in merged :: Value(merged[k], defs, seen))
  {
    forall k | k in merged
      ensures Terminates(merged[k], defs, seen)
    {
      if k in siblings {
        ResolveTerminates(siblings[k], defs, seen, above);
      } else {
        NormalIsFixed(merged[k], defs, seen);
      }
    }
    ResolveFields(merged, defs, seen);
  }

  /** Exactly when the untouched siblings of a combiner spoil the result: if one is not normal. */
  lemma CombinerNormalExactly(f: map<string, Json>, defs: Defs, seen: set<string>)
    requires !HasRef(f) && Chosen(f).Some?
    requires Terminates(Chosen(f).value, defs, seen) && Normal(Value(Chosen(f).value, defs, seen))
    ensures Terminates(Obj(f), defs, seen)
    ensures Normal(Value(Obj(f), defs, seen)) <==> forall k | k in f - COMBINERS :: Normal(f[k])
  {
    ResolveCombiner(f, defs, seen);
    var rest := f - COMBINERS;
    var r := Value(Obj(f), defs, seen);
    assert forall k | k in rest :: k in r.fields && r.fields[k] == rest[k];
    if forall k | k in rest :: Normal(f[k]) {
      NormalOverlay(Value(Chosen(f).value, defs, seen), rest);
    }
  }

  /** Exactly when a dangling reference leaves a normal form: if its siblings are one already. */
  lemma DanglingNormalExactly(f: map<string, Json>, defs: Defs, seen: set<string>)
    requires HasRef(f) && RefKey(f) !in seen && !Resolvable(RefKey(f), defs)
    ensures Terminates(Obj(f), defs, seen)
    ensures Normal(Value(Obj(f), defs, seen)) <==> Normal(Obj(f - {"$ref"}))
  {
    ResolveIsValue(1, Obj(f), defs, seen);
  }

  // ---------- Where the conditions fail ----------

  /** Resolving `j` comes to resolving `ref`, at whatever depth it stands: in a list, in a branch that is
      chosen, or in a field of a dict with neither a reference nor a chosen branch. */
  predicate Occurs(j: Json, ref: map<string, Json>) {
    || j == Obj(ref)
    || (j.Arr? && exists i | 0 <= i < |j.items| :: Occurs(j.items[i], ref))
    || (j.Obj? && !HasRef(j.fields) &&
        match Chosen(j.fields)
        case Some(branch) => Occurs(branch, ref)
        case None => exists k | k in j.fields :: Occurs(j.fields[k], ref))
  }

  /** The depth that is left when it does. */
  lemma {:induction false} OccursReached(
    depth: nat, j: Json, ref: map<string, Json>, defs: Defs, seen: set<string>) returns (e: nat)
    requires Occurs(j, ref) && Resolve(depth, j, defs, seen).Some?
    ensures e <= depth && Resolve(e, Obj(ref), defs, seen).Some?
    decreases j
  {
    if j == Obj(ref) {
      e := depth;
    } else if j.Arr? {
      var i :| 0 <= i < |j.items| && Occurs(j.items[i], ref);
      e := OccursReached(depth - 1, j.items[i], ref, defs, seen);
    } else if Chosen(j.fields).Some? {
      e := OccursReached(depth - 1, Chosen(j.fields).value, ref, defs, seen);
    } else {
      var k :| k in j.fields && Occurs(j.fields[k], ref);
      e := OccursReached(depth - 1, j.fields[k], ref, defs, seen);
    }
  }

  /** A reference, and nothing else, to a definition that is not in progress. */
  predicate PlainRef(ref: map<string, Json>, key: string, defs: Defs, seen: set<string>) {
    HasRef(ref) && ref.Keys == {"$ref"} && RefKey(ref) == key && key !in seen && Resolvable(key, defs)
  }

  /** If the resolution of its definition still contains the reference, the code resolves that in turn and
      recurses for ever: no depth is enough. */
  lemma {:induction false} LoopDiverges(
    depth: nat, ref: map<string, Json>, key: string, defs: Defs, seen: set<string>)
    requires PlainRef(ref, key, defs, seen) && Terminates(defs[key], defs, seen + {key})
    requires Value(defs[key], defs, seen + {key}).Obj? && Occurs(Value(defs[key], defs, seen + {key}), ref)
    ensures Resolve(depth, Obj(ref), defs, seen).None?
  {
    if depth > 0 && Resolve(depth, Obj(ref), defs, seen).Some? {
      UnrolledOnce(depth, ref, key, defs, seen);
      var e := OccursReached(depth - 1, Value(defs[key], defs, seen + {key}), ref, defs, seen);
      LoopDiverges(e, ref, key, defs, seen);
    }
  }

  lemma UnrolledOnce(depth: nat, ref: map<string, Json>, key: string, defs: Defs, seen: set<string>)
    requires PlainRef(ref, key, defs, seen) && Terminates(defs[key], defs, seen + {key})
    requires Value(defs[key], defs, seen + {key}).Obj?
    requires depth > 0 && Resolve(depth, Obj(ref), defs, seen).Some?
    ensures Resolve(depth - 1, Value(defs[key], defs, seen + {key}), defs, seen).Some?
  {
    assert ResolveRef(depth - 1, ref, defs, seen).Some?;
    assert Resolve(depth - 1, defs[key], defs, seen + {key}).Some?;
    ResolveIsValue(depth - 1, defs[key], defs, seen + {key});
    var target := Value(defs[key], defs, seen + {key});
    assert Overlay(target, ref - {"$ref"}) == target.fields;
  }

  /** `f` has a combiner whose branch is normal, and a reference back to `f` in what stands beside it. */
  ghost predicate LoopsThroughSibling(f: map<string, Json>, ref: map<string, Json>, key: string, defs: Defs) {
    && key in defs && defs[key] == Obj(f)
    && !HasRef(f) && Chosen(f).Some? && Normal(Chosen(f).value)
    && exists p | p in f - COMBINERS :: Occurs(f[p], ref)
  }

  /** Without the condition on the siblings of a combiner the code can recurse for ever. */
  lemma LoopThroughSiblingDiverges(
    depth: nat, f: map<string, Json>, ref: map<string, Json>, key: string, defs: Defs, seen: set<string>)
    requires PlainRef(ref, key, defs, seen) && LoopsThroughSibling(f, ref, key, defs)
    ensures Resolve(depth, Obj(ref), defs, seen).None?
  {
    var branch, rest := Chosen(f).value, f - COMBINERS;
    NormalIsFixed(branch, defs, seen + {key});
    ResolveCombiner(f, defs, seen + {key});
    NoBranchUnderOverlay(branch, rest);
    var p :| p in rest && Occurs(f[p], ref);
    hide Terminates, Value, Chosen, HasRef;
    assert Overlay(branch, rest)[p] == f[p];
    LoopDiverges(depth, ref, key, defs, seen);
  }

  /** Without the condition on the siblings of a dangling reference it can, too. */
  lemma LoopThroughDanglingDiverges(
    depth: nat, f: map<string, Json>, ref: map<string, Json>, key: string, defs: Defs, seen: set<string>)
    requires PlainRef(ref, key, defs, seen) && defs[key] == Obj(f)
    requires HasRef(f) && RefKey(f) !in seen + {key} && !Resolvable(RefKey(f), defs)
    requires Occurs(Obj(f - {"$ref"}), ref)
    ensures Resolve(depth, Obj(ref), defs, seen).None?
  {
    ResolveIsValue(1, Obj(f), defs, seen + {key});
    LoopDiverges(depth, ref, key, defs, seen);
  }

  /** `A = {anyOf: [{type: object}], properties: {x: {$ref: #/$defs/A}}}`. */
  lemma LoopingExample(ref: map<string, Json>, a: map<string, Json>, depth: nat)
    requires ref == map["$ref" := Str("#/$defs/A")]
    requires a == map["anyOf" := Arr([ANY_OBJECT]), "properties" := Obj(map["x" := Obj(ref)])]
    ensures Resolve(depth, Obj(ref), map["A" := Obj(a)], {}).None?
  {
    RefAKey(ref);
    var p := a["properties"];
    assert Chosen(p.fields).None? && !HasRef(p.fields);
    assert p.fields["x"] == Obj(ref) && Occurs(p.fields["x"], ref);
    assert Occurs(p, ref);
    assert Branch(a, "anyOf") == Some(ANY_OBJECT);
    assert "properties" in a - COMBINERS;
    hide Occurs, Resolve;
    LoopThroughSiblingDiverges(depth, a, ref, "A", map["A" := Obj(a)], {});
  }

  lemma DanglingLoopShape(ref: map<string, Json>, a: map<string, Json>)
    requires ref == map["$ref" := Str("#/$defs/A")]
    requires a == map["$ref" := Str("B"), "x" := Obj(ref)]
    ensures HasRef(a) && RefKey(a) == "B" && Occurs(Obj(a - {"$ref"}), ref)
  {
    assert LastSegment("B"[..0]) == [];
    var rest := a - {"$ref"};
    assert rest == map["x" := Obj(ref)];
    assert Chosen(rest).None? && !HasRef(rest);
    assert Occurs(rest["x"], ref);
  }

  lemma DefinesA(ref: map<string, Json>, a: map<string, Json>, defs: Defs)
    requires ref == map["$ref" := Str("#/$defs/A")] && defs == map["A" := Obj(a)]
    ensures PlainRef(ref, "A", defs, {}) && defs["A"] == Obj(a) && "B" !in {} + {"A"} && !Resolvable("B", defs)
  {
    RefAKey(ref);
  }

  /** `A = {$ref: B, x: {$ref: #/$defs/A}}`, where `B` is not defined. */
  lemma DanglingLoopExample(ref: map<string, Json>, a: map<string, Json>, defs: Defs, depth: nat)
    requires ref == map["$ref" := Str("#/$defs/A")]
    requires a == map["$ref" := Str("B"), "x" := Obj(ref)] && defs == map["A" := Obj(a)]
    ensures Resolve(depth, Obj(ref), defs, {}).None?
  {
    DefinesA(ref, a, defs);
    DanglingLoopShape(ref, a);
    hide *;
    LoopThroughDanglingDiverges(depth, a, ref, "A", defs, {});
  }

  lemma RefAKey(ref: map<string, Json>)
    requires ref == map["$ref" := Str("#/$defs/A")]
    ensures HasRef(ref) && RefKey(ref) == "A"
  {
    var s := "#/$defs/A";
    assert s[..8] == "#/$defs/";
    assert LastSegment(s[..8]) == [];
  }
}
