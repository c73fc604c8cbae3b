/** Which types need a destructor, which helpers are registered, and what the generated helpers do to
    a value: they destroy its outermost resources in reverse order of construction. */
module DropSynthesis {
  import opened MortSyntax
  import opened AggregateTypes
  import opened AggregateCycles
  import opened DefinitionOrder

  predicate IsResource(p: Program, t: Ty) { t.Named? && t.name in p.resources }

  // ----- which types need a destructor -----

  /** A chain of by-value containment from t to a resource struct, through no other resource. */
  predicate Chain(p: Program, path: seq<Ty>)
  {
    && path != [] && IsResource(p, path[|path| - 1])
    && forall i | 0 <= i < |path| - 1 :: !IsResource(p, path[i]) && path[i + 1] in Children(p, path[i])
  }

  ghost predicate HoldsResource(p: Program, t: Ty)
  {
    exists path :: Chain(p, path) && path[0] == t
  }

  /** Types among which a search stays. */
  predicate Closed(p: Program, all: set<Ty>)
  {
    forall t, c | t in all && c in Children(p, t) :: c in all
  }

  lemma {:induction false} ChildHolds(p: Program, t: Ty, c: Ty)
    requires !IsResource(p, t) && c in Children(p, t) && HoldsResource(p, c)
    ensures HoldsResource(p, t)
  {
    var path :| Chain(p, path) && path[0] == c;
    var longer := [t] + path;
    forall i | 0 <= i < |longer| - 1 ensures !IsResource(p, longer[i]) && longer[i + 1] in Children(p, longer[i]) {
      if i > 0 { assert longer[i] == path[i - 1] && longer[i + 1] == path[i]; }
    }
    assert Chain(p, longer);
  }

  /** A set of types closed under containment and free of resources holds none. */
  lemma {:induction false} ClosedHoldsNone(p: Program, seen: set<Ty>, path: seq<Ty>)
    requires Closed(p, seen) && (forall t | t in seen :: !IsResource(p, t)) && path != [] && path[0] in seen
    ensures !Chain(p, path)
    decreases |path|
  {
    if Chain(p, path) && |path| > 1 {
      assert path[0 + 1] in Children(p, path[0]);
      var rest := path[1..];
      forall i | 0 <= i < |rest| - 1 ensures !IsResource(p, rest[i]) && rest[i + 1] in Children(p, rest[i]) {
        assert path[i + 1 + 1] in Children(p, path[i + 1]);
      }
      ClosedHoldsNone(p, seen, rest);
    }
  }

  /** `_needs_drop_type` with its visited set, which all branches of one query share. */
  class Query {
    const p: Program
    var seen: set<Ty>
    /** The types the query can meet. */
    ghost const all: set<Ty>

    constructor (p: Program, ghost all: set<Ty>)
      ensures this.p == p && this.all == all && seen == {}
    {
      this.p, this.all, seen := p, all, {};
    }

    /** After a negative answer everything newly visited has only visited children. */
    twostate predicate Explored()
      reads this
    {
      && old(seen) <= seen <= all
      && (forall t | t in seen :: !IsResource(p, t))
      && (forall t, c | t in seen && t !in old(seen) && c in Children(p, t) :: c in seen)
    }

    method Visit(t: Ty) returns (r: bool)
      requires t in all && Closed(p, all) && seen <= all && forall u | u in seen :: !IsResource(p, u)
      modifies this
      ensures r ==> HoldsResource(p, t)
      ensures !r ==> t in seen && Explored()
      decreases all - seen
    {
      if IsResource(p, t) {
        assert Chain(p, [t]);
        return true;
      }
      if t in seen { return false; }
      ghost var before := seen;
      seen := seen + {t};
      var children := Children(p, t);
      for i := 0 to |children|
        invariant before + {t} <= seen <= all && forall u | u in seen :: !IsResource(p, u)
        invariant forall j | 0 <= j < i :: children[j] in seen
        invariant forall u, c | u in seen && u !in before && u != t && c in Children(p, u) :: c in seen
      {
        assert children[i] in Children(p, t);
        r := Visit(children[i]);
        if r {
          ChildHolds(p, t, children[i]);
          return;
        }
      }
      r := false;
    }

    /** True exactly when a resource struct is stored by value somewhere inside t. */
    method NeedsDrop(t: Ty) returns (r: bool)
      requires t in all && Closed(p, all) && seen == {}
      modifies this
      ensures r <==> HoldsResource(p, t)
    {
      r := Visit(t);
      if !r {
        forall path | path != [] && path[0] == t ensures !Chain(p, path) {
          ClosedHoldsNone(p, seen, path);
        }
      }
    }
  }

  // ----- values -----

  datatype Value = Plain | Resource(id: nat) | Group(items: seq<Value>) | Variant(tag: nat, payload: Option<Value>)

  /** v is a value of type t. */
  predicate HasType(p: Program, v: Value, t: Ty)
    decreases v
  {
    if IsResource(p, t) then v.Resource?
    else match t
      case Scalar => v.Plain?
      case Indirect => v.Plain?
      case ArrayOf(e, n) => v.Group? && |v.items| == n && forall i | 0 <= i < n :: HasType(p, v.items[i], e)
      case TupleOf(items) => v.Group? && |v.items| == |items| && forall i | 0 <= i < |items| :: HasType(p, v.items[i], items[i])
      case Named(n) =>
        if n in p.structs then
          v.Group? && |v.items| == |p.structs[n]| && forall i | 0 <= i < |v.items| :: HasType(p, v.items[i], p.structs[n][i])
        else if n in p.enums then
          && v.Variant? && v.tag < |p.enums[n]| && (v.payload.Some? <==> p.enums[n][v.tag].Some?)
          && (v.payload.Some? ==> HasType(p, v.payload.value, p.enums[n][v.tag].value))
        else v.Plain?
  }

  /** The outermost resources in a value, in construction order. */
  function Leaves(v: Value): seq<nat>
  {
    match v
    case Plain => []
    case Resource(id) => [id]
    case Group(items) => AllLeaves(items)
    case Variant(_, payload) => if payload.Some? then Leaves(payload.value) else []
  }

  function AllLeaves(vs: seq<Value>): seq<nat>
  {
    if vs == [] then [] else AllLeaves(vs[..|vs| - 1]) + Leaves(vs[|vs| - 1])
  }

  function Reversed(s: seq<nat>): (r: seq<nat>)
  {
    if s == [] then [] else [s[|s| - 1]] + Reversed(s[..|s| - 1])
  }

  lemma {:induction false} ReversedAppend(a: seq<nat>, b: seq<nat>)
    ensures Reversed(a + b) == Reversed(b) + Reversed(a)
  {
    if b == [] {
      assert a + b == a;
    } else {
      var n := |b| - 1;
      assert (a + b)[..|a + b| - 1] == a + b[..n];
      ReversedAppend(a, b[..n]);
    }
  }

  // ----- the generated helpers -----

  /** One statement of a helper's body. */
  datatype HelperCode =
    | DropElements(elem: Ty)                       // for (i = count; i > 0; --i) drop(&(*value)[i - 1]);
    | DropField(index: nat, ty: Ty)
    | DropActive(cases: map<nat, Ty>)              // switch (value->tag)

  /** The fields of a tuple or struct that have a registered destructor, last first. */
  function FieldDrops(registered: set<Ty>, tys: seq<Ty>): seq<HelperCode>
  {
    if tys == [] then []
    else
      var n := |tys| - 1;
      (if tys[n] in registered then [DropField(n, tys[n])] else []) + FieldDrops(registered, tys[..n])
  }

  function PayloadCases(registered: set<Ty>, variants: seq<Option<Ty>>): map<nat, Ty>
  {
    map i: nat | i < |variants| && variants[i].Some? && variants[i].value in registered :: variants[i].value
  }

  /** `_gen_drop_helper`. */
  function Helper(p: Program, registered: set<Ty>, t: Ty): seq<HelperCode>
  {
    match t
    case ArrayOf(e, _) => [DropElements(e)]
    case TupleOf(items) => FieldDrops(registered, items)
    case Named(n) =>
      if n in p.structs then FieldDrops(registered, p.structs[n])
      else if n in p.enums then [DropActive(PayloadCases(registered, p.enums[n]))] else []
    case _ => []
  }

  method GenFieldDrops(registered: set<Ty>, tys: seq<Ty>) returns (code: seq<HelperCode>)
    ensures code == FieldDrops(registered, tys)
  {
    code := [];
    var i := |tys|;
    assert tys[..i] == tys;
    while i > 0
      invariant 0 <= i <= |tys| && code + FieldDrops(registered, tys[..i]) == FieldDrops(registered, tys)
    {
      i := i - 1;
      assert tys[..i + 1][..i] == tys[..i];
      if tys[i] in registered { code := code + [DropField(i, tys[i])]; }
    }
  }

  method GenDropHelper(p: Program, registered: set<Ty>, t: Ty) returns (code: seq<HelperCode>)
    ensures code == Helper(p, registered, t)
  {
    match t
    case ArrayOf(e, _) => code := [DropElements(e)];
    case TupleOf(items) => code := GenFieldDrops(registered, items);
    case Named(n) =>
      if n in p.structs {
        code := GenFieldDrops(registered, p.structs[n]);
      } else if n in p.enums {
        code := [DropActive(PayloadCases(registered, p.enums[n]))];
      } else {
        code := [];
      }
    case _ => code := [];
  }

  /** `_drop_call`: a resource's own destructor, or the type's helper; the trace of destroyed ids. */
  function Drop(p: Program, registered: set<Ty>, t: Ty, v: Value): seq<nat>
    decreases v, 1, 0
  {
    if IsResource(p, t) then (if v.Resource? then [v.id] else [])
    else RunHelper(p, registered, Helper(p, registered, t), v)
  }

  function RunHelper(p: Program, registered: set<Ty>, code: seq<HelperCode>, v: Value): seq<nat>
    decreases v, 0, |code|
  {
    if code == [] then []
    else
      (match code[0]
       case DropElements(e) => if v.Group? then DropDown(p, registered, e, v.items) else []
       case DropField(i, ty) => if v.Group? && i < |v.items| then Drop(p, registered, ty, v.items[i]) else []
       case DropActive(cases) =>
         if v.Variant? && v.tag in cases && v.payload.Some? then Drop(p, registered, cases[v.tag], v.payload.value) else [])
      + RunHelper(p, registered, code[1..], v)
  }

  /** The loop over an array from its last element to its first. */
  function DropDown(p: Program, registered: set<Ty>, e: Ty, vs: seq<Value>): seq<nat>
    decreases vs
  {
    if vs == [] then []
    else Drop(p, registered, e, vs[|vs| - 1]) + DropDown(p, registered, e, vs[..|vs| - 1])
  }

  /** What `_resource_destructor` leaves registered: only types that hold a resource, and with each of
      them every part that does. */
  ghost predicate Registered(p: Program, registered: set<Ty>)
  {
    && (forall t | t in registered :: HoldsResource(p, t))
    && (forall t, c | t in registered && !IsResource(p, t) && c in Children(p, t) && HoldsResource(p, c) :: c in registered)
  }

  /** The nested helpers of an already registered type may still be on their way. */
  ghost predicate NewlyComplete(p: Program, before: set<Ty>, registered: set<Ty>, t: Ty)
  {
    && before + {t} <= registered
    && (forall u | u in registered :: HoldsResource(p, u))
    && (forall u, c | u in registered && (u !in before || u == t) && !IsResource(p, u) && c in Children(p, u) && HoldsResource(p, c)
          :: c in registered)
  }

  // ----- registering, after the cycle check -----

  /** What the search over the aggregates leaves when it reports no cycle: an order of all of them. */
  ghost predicate CheckedOrder(p: Program, g: Graph, order: seq<string>)
  {
    GraphOf(p, g) && Topological(g, order) && Distinct(order) && forall n | n in g :: n in order
  }

  lemma {:induction false} PartNeeds(p: Program, tys: seq<Ty>, c: Ty)
    requires c in tys
    ensures Needs(p, c) <= AllNeeds(p, tys) && Size(c) < 1 + AllSize(tys)
    ensures forall order :: Latest(p, order, c) <= AllLatest(p, order, tys)
  {
    if c != tys[0] { PartNeeds(p, tys[1..], c); }
  }

  /** Containment by value goes down: to an earlier aggregate, or into a smaller type. */
  lemma {:induction false} ChildIsBelow(p: Program, g: Graph, order: seq<string>, t: Ty, c: Ty)
    requires CheckedOrder(p, g, order) && c in Children(p, t)
    ensures Below(Measure(Latest(p, order, c), Size(c)), Measure(Latest(p, order, t), Size(t)))
  {
    hide Topological;
    match t
    case ArrayOf(e, _) =>
    case TupleOf(items) => PartNeeds(p, items, c);
    case Named(n) =>
      PartNeeds(p, Parts(p, n), c);
      assert n in g && n in order;
      PositionIs(order, n);
      forall m | m in Needs(p, c) ensures Position(order, m) <= Position(order, n) - 1 {
        NeedIsEarlier(p, g, order, n, m);
      }
      LatestBound(p, order, c, Position(order, n) - 1);
  }

  class Destructors {
    const p: Program
    var registered: set<Ty>

    constructor (p: Program)
      ensures this.p == p && registered == {}
    {
      this.p, registered := p, {};
    }

    /** `_resource_destructor` and `_register_nested_drop_types`; the recursion rests on the cycle check
        that came before. */
    method ResourceDestructor(t: Ty, ghost all: set<Ty>, ghost g: Graph, ghost order: seq<string>)
      requires t in all && Closed(p, all) && HoldsResource(p, t) && CheckedOrder(p, g, order)
      requires forall u | u in registered :: HoldsResource(p, u)
      modifies this
      ensures NewlyComplete(p, old(registered), registered, t)
      decreases Latest(p, order, t), Size(t)
    {
      hide CheckedOrder, Latest, Size, HoldsResource;
      ghost var before := registered;
      registered := registered + {t};
      if IsResource(p, t) { return; }
      var children := Children(p, t);
      for i := 0 to |children|
        invariant before + {t} <= registered && forall u | u in registered :: HoldsResource(p, u)
        invariant forall j | 0 <= j < i && HoldsResource(p, children[j]) :: children[j] in registered
        invariant forall u, c | u in registered && u !in before && u != t && !IsResource(p, u) && c in Children(p, u) && HoldsResource(p, c)
          :: c in registered
      {
        assert children[i] in Children(p, t);
        var query := new Query(p, all);
        var needs := query.NeedsDrop(children[i]);
        if needs {
          ChildIsBelow(p, g, order, t, children[i]);
          ResourceDestructor(children[i], all, g, order);
        }
      }
    }

    /** The cycle check, then the registration of a type's destructor: refused exactly if a by-value
        cycle can be reached, and otherwise every registered helper is complete. */
    method CheckThenRegister(t: Ty, g: Graph, roots: seq<string>, ghost all: set<Ty>) returns (ok: bool)
      requires t in all && Closed(p, all) && HoldsResource(p, t) && Registered(p, registered)
      requires GraphOf(p, g) && forall n | n in g :: n in roots
      modifies this
      ensures !ok <==> ReachesCycle(g, roots)
      ensures ok ==> Registered(p, registered) && old(registered) + {t} <= registered
      ensures !ok ==> registered == old(registered)
    {
      var search := new Search(g);
      var cycle := search.Validate(roots);
      if cycle.Some? { return false; }
      ResourceDestructor(t, all, g, search.order);
      ok := true;
    }
  }

  // ----- types without resources have values without resources -----

  lemma {:induction false} HoldsNoneEmpty(p: Program, t: Ty, v: Value)
    requires HasType(p, v, t) && !HoldsResource(p, t)
    ensures Leaves(v) == []
    decreases v, 1
  {
    hide HoldsResource;
    NotResource(p, t);
    match t
    case ArrayOf(e, n) =>
      assert e in Children(p, t);
      PartHoldsNone(p, t, e);
      GroupEmpty(p, v, seq(n, i => e), t);
    case TupleOf(items) => GroupEmpty(p, v, items, t);
    case Named(n) =>
      if n in p.structs {
        GroupEmpty(p, v, p.structs[n], t);
      } else if n in p.enums && v.payload.Some? {
        PayloadIsChild(p.enums[n], v.tag);
        PartHoldsNone(p, t, p.enums[n][v.tag].value);
        HoldsNoneEmpty(p, p.enums[n][v.tag].value, v.payload.value);
      }
    case _ =>
  }

  lemma {:induction false} NotResource(p: Program, t: Ty)
    requires !HoldsResource(p, t)
    ensures !IsResource(p, t)
  {
    if IsResource(p, t) { assert Chain(p, [t]); }
  }

  lemma {:induction false} PartHoldsNone(p: Program, t: Ty, c: Ty)
    requires !HoldsResource(p, t) && !IsResource(p, t) && c in Children(p, t)
    ensures !HoldsResource(p, c)
  {
    if HoldsResource(p, c) { ChildHolds(p, t, c); }
  }

  lemma {:induction false} PayloadIsChild(variants: seq<Option<Ty>>, i: nat)
    requires i < |variants| && variants[i].Some?
    ensures variants[i].value in Payloads(variants)
  {
    if i > 0 { PayloadIsChild(variants[1..], i - 1); }
  }

  lemma {:induction false} GroupEmpty(p: Program, v: Value, tys: seq<Ty>, t: Ty)
    requires v.Group? && |v.items| == |tys| && !HoldsResource(p, t) && !IsResource(p, t)
    requires forall i | 0 <= i < |tys| :: tys[i] in Children(p, t) && HasType(p, v.items[i], tys[i])
    ensures Leaves(v) == []
    decreases v, 0
  {
    hide HoldsResource, HasType;
    forall i | 0 <= i < |v.items| ensures Leaves(v.items[i]) == [] {
      PartHoldsNone(p, t, tys[i]);
      HoldsNoneEmpty(p, tys[i], v.items[i]);
    }
    NoLeaves(v.items);
  }

  lemma {:induction false} NoLeaves(vs: seq<Value>)
    requires forall i | 0 <= i < |vs| :: Leaves(vs[i]) == []
    ensures AllLeaves(vs) == []
  {
    if vs != [] { NoLeaves(vs[..|vs| - 1]); }
  }

  // ----- the trace of a drop -----

  /** Running two pieces of a helper one after the other. */
  lemma {:induction false} RunStep(p: Program, registered: set<Ty>, c: HelperCode, rest: seq<HelperCode>, v: Value)
    ensures RunHelper(p, registered, [c] + rest, v) == RunHelper(p, registered, [c], v) + RunHelper(p, registered, rest, v)
  {
    assert ([c] + rest)[1..] == rest && [c][1..] == [];
  }

  /** The helper of a tuple or struct, restricted to its first fields. */
  lemma {:induction false} FieldsDropInReverse(p: Program, registered: set<Ty>, v: Value, tys: seq<Ty>, t: Ty, n: nat)
    requires Registered(p, registered) && t in registered && !IsResource(p, t)
    requires v.Group? && |v.items| == |tys| && n <= |tys|
    requires forall i | 0 <= i < |tys| :: tys[i] in Children(p, t) && HasType(p, v.items[i], tys[i])
    ensures RunHelper(p, registered, FieldDrops(registered, tys[..n]), v) == Reversed(AllLeaves(v.items[..n]))
    decreases v, 0, n
  {
    hide HasType, Registered, HoldsResource, RunHelper, Drop, Leaves, AllLeaves, FieldDrops;
    if n == 0 {
      NoFields(p, registered, v, tys);
    } else {
      var k := n - 1;
      var x := v.items[k];
      FieldsStep(registered, v, tys, n);
      FieldsDropInReverse(p, registered, v, tys, t, k);
      ReversedAppend(AllLeaves(v.items[..k]), Leaves(x));
      var rest := FieldDrops(registered, tys[..k]);
      if tys[k] in registered {
        RunStep(p, registered, DropField(k, tys[k]), rest, v);
        OneField(p, registered, DropField(k, tys[k]), v);
        DropIsReversed(p, registered, tys[k], x);
      } else {
        UnregisteredHoldsNone(p, registered, t, tys[k]);
        HoldsNoneEmpty(p, tys[k], x);
        assert [] + rest == rest;
        assert Reversed([]) == [];
      }
    }
  }

  lemma {:induction false} NoFields(p: Program, registered: set<Ty>, v: Value, tys: seq<Ty>)
    requires v.Group?
    ensures RunHelper(p, registered, FieldDrops(registered, tys[..0]), v) == Reversed(AllLeaves(v.items[..0]))
  {
    assert FieldDrops(registered, tys[..0]) == [];
    assert AllLeaves(v.items[..0]) == [];
  }

  /** The last of the first n fields. */
  lemma {:induction false} FieldsStep(registered: set<Ty>, v: Value, tys: seq<Ty>, n: nat)
    requires v.Group? && |v.items| == |tys| && 0 < n <= |tys|
    ensures FieldDrops(registered, tys[..n]) ==
      (if tys[n - 1] in registered then [DropField(n - 1, tys[n - 1])] else []) + FieldDrops(registered, tys[..n - 1])
    ensures AllLeaves(v.items[..n]) == AllLeaves(v.items[..n - 1]) + Leaves(v.items[n - 1])
  {
    assert tys[..n][..n - 1] == tys[..n - 1] && v.items[..n][..n - 1] == v.items[..n - 1];
  }

  lemma {:induction false} OneField(p: Program, registered: set<Ty>, c: HelperCode, v: Value)
    requires c.DropField? && v.Group? && c.index < |v.items|
    ensures RunHelper(p, registered, [c], v) == Drop(p, registered, c.ty, v.items[c.index])
  {
    assert [c][1..] == [];
    assert RunHelper(p, registered, [], v) == [];
  }

  lemma {:induction false} UnregisteredHoldsNone(p: Program, registered: set<Ty>, t: Ty, c: Ty)
    requires Registered(p, registered) && t in registered && !IsResource(p, t) && c in Children(p, t) && c !in registered
    ensures !HoldsResource(p, c)
  {
  }

  lemma {:induction false} ElementsDropInReverse(p: Program, registered: set<Ty>, e: Ty, vs: seq<Value>)
    requires Registered(p, registered) && e in registered && forall i | 0 <= i < |vs| :: HasType(p, vs[i], e)
    ensures DropDown(p, registered, e, vs) == Reversed(AllLeaves(vs))
    decreases vs, 0, 0
  {
    hide HasType, Registered, Drop, Leaves, HoldsResource;
    if vs != [] {
      var n := |vs| - 1;
      DropIsReversed(p, registered, e, vs[n]);
      ElementsDropInReverse(p, registered, e, vs[..n]);
      ReversedAppend(AllLeaves(vs[..n]), Leaves(vs[n]));
    }
  }

  /** An array needs its element's destructor, so the element type is registered with it. */
  lemma {:induction false} ElementRegistered(p: Program, registered: set<Ty>, e: Ty, n: nat)
    requires Registered(p, registered) && ArrayOf(e, n) in registered
    ensures e in registered
  {
    var t := ArrayOf(e, n);
    var path :| Chain(p, path) && path[0] == t;
    assert |path| > 1;
    assert path[0 + 1] in Children(p, path[0]);
    var rest := path[1..];
    forall i | 0 <= i < |rest| - 1 ensures !IsResource(p, rest[i]) && rest[i + 1] in Children(p, rest[i]) {
      assert path[i + 1 + 1] in Children(p, path[i + 1]);
    }
    assert Chain(p, rest) && rest[0] == e;
  }

  /** Destroying any value of a registered type destroys exactly its outermost resources, each once,
      last constructed first; of an enum, only the active payload. */
  lemma {:induction false} DropIsReversed(p: Program, registered: set<Ty>, t: Ty, v: Value)
    requires Registered(p, registered) && t in registered && HasType(p, v, t)
    ensures Drop(p, registered, t, v) == Reversed(Leaves(v))
    decreases v, 1, 0
  {
    hide Registered, HoldsResource;
    if IsResource(p, t) {
      assert Leaves(v)[..0] == [];
    } else {
      match t
      case ArrayOf(e, n) =>
        ElementRegistered(p, registered, e, n);
        ElementsDropInReverse(p, registered, e, v.items);
        OneLoop(p, registered, e, v);
      case TupleOf(items) => GroupDropsInReverse(p, registered, v, items, t);
      case Named(n) =>
        if n in p.structs {
          GroupDropsInReverse(p, registered, v, p.structs[n], t);
        } else if n in p.enums {
          ActiveDrops(p, registered, t, v);
        }
      case _ => HoldsSomething(p, registered, t);
    }
  }

  lemma {:induction false} GroupDropsInReverse(p: Program, registered: set<Ty>, v: Value, tys: seq<Ty>, t: Ty)
    requires Registered(p, registered) && t in registered && !IsResource(p, t)
    requires v.Group? && |v.items| == |tys|
    requires forall i | 0 <= i < |tys| :: tys[i] in Children(p, t) && HasType(p, v.items[i], tys[i])
    ensures RunHelper(p, registered, FieldDrops(registered, tys), v) == Reversed(Leaves(v))
    decreases v, 0, |tys| + 1
  {
    hide HasType, Registered, HoldsResource, RunHelper, FieldDrops, Reversed;
    FieldsDropInReverse(p, registered, v, tys, t, |tys|);
    assert tys[..|tys|] == tys && v.items[..|v.items|] == v.items;
  }

  lemma {:induction false} HoldsSomething(p: Program, registered: set<Ty>, t: Ty)
    requires Registered(p, registered) && t in registered && !IsResource(p, t)
    ensures Children(p, t) != []
  {
    var path :| Chain(p, path) && path[0] == t;
    assert |path| > 1;
    assert path[0 + 1] in Children(p, path[0]);
  }

  lemma {:induction false} OneLoop(p: Program, registered: set<Ty>, e: Ty, v: Value)
    requires v.Group?
    ensures RunHelper(p, registered, [DropElements(e)], v) == DropDown(p, registered, e, v.items)
  {
    assert [DropElements(e)][1..] == [];
    assert RunHelper(p, registered, [], v) == [];
  }

  lemma {:induction false} ActiveDrops(p: Program, registered: set<Ty>, t: Ty, v: Value)
    requires Registered(p, registered) && t in registered && HasType(p, v, t) && !IsResource(p, t)
    requires t.Named? && t.name !in p.structs && t.name in p.enums
    ensures Drop(p, registered, t, v) == Reversed(Leaves(v))
    decreases v, 0, 0
  {
    hide Registered, HoldsResource;
    var variants := p.enums[t.name];
    var cases := PayloadCases(registered, variants);
    assert [DropActive(cases)][1..] == [];
    assert RunHelper(p, registered, [], v) == [];
    if v.payload.Some? {
      var ty := variants[v.tag].value;
      PayloadIsChild(variants, v.tag);
      if ty in registered {
        DropIsReversed(p, registered, ty, v.payload.value);
      } else {
        UnregisteredHoldsNone(p, registered, t, ty);
        HoldsNoneEmpty(p, ty, v.payload.value);
      }
    }
  }

  // ----- the resources of a value -----

  lemma {:induction false} AllLeavesAppend(a: seq<Value>, b: seq<Value>)
    ensures AllLeaves(a + b) == AllLeaves(a) + AllLeaves(b)
    decreases |b|
  {
    hide Leaves;
    if b == [] {
      assert a + b == a && AllLeaves(b) == [];
    } else {
      var n := |b| - 1;
      assert (a + b)[..|a + b| - 1] == a + b[..n];
      AllLeavesAppend(a, b[..n]);
    }
  }

  /** The outermost resources of a value: a resource is one, however much it holds itself; those of an
      array, tuple or struct are those of its parts from first to last, those of an enum those of its
      payload. */
  lemma {:induction false} LeavesAre(id: nat, v: Value, a: seq<Value>, b: seq<Value>, tag: nat)
    ensures Leaves(Resource(id)) == [id] && Leaves(Plain) == []
    ensures Leaves(Group([])) == [] && Leaves(Group([v])) == Leaves(v)
    ensures Leaves(Group(a + b)) == Leaves(Group(a)) + Leaves(Group(b))
    ensures Leaves(Variant(tag, None)) == [] && Leaves(Variant(tag, Some(v))) == Leaves(v)
  {
    AllLeavesAppend(a, b);
    assert AllLeaves([v]) == AllLeaves([v][..0]) + Leaves(v) && AllLeaves([v][..0]) == [];
  }

  lemma {:induction false} ReversedAt(s: seq<nat>, k: nat)
    requires k < |s|
    ensures |Reversed(s)| == |s| && Reversed(s)[k] == s[|s| - 1 - k]
  {
    var n := |s| - 1;
    if n > 0 { ReversedAt(s[..n], if k > 0 then k - 1 else 0); }
  }
}
