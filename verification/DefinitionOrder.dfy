/** The order in which the generator defines aggregates, and why the checker's cycle search makes it
    always possible: every by-value dependency is defined first, without the fallback. */
module DefinitionOrder {
  import opened MortSyntax
  import opened AggregateTypes
  import opened AggregateCycles

  // ----- the graph the checker searches -----

  /** `_aggregate_value_dependencies`: the named aggregates inside a value, tuples flattened. */
  function Needs(p: Program, ty: Ty): set<string>
  {
    match ty
    case Named(n) => if Declares(p, n) then {n} else {}
    case ArrayOf(e, _) => Needs(p, e)
    case TupleOf(items) => AllNeeds(p, items)
    case _ => {}
  }

  function AllNeeds(p: Program, tys: seq<Ty>): set<string>
  {
    if tys == [] then {} else Needs(p, tys[0]) + AllNeeds(p, tys[1..])
  }

  /** The graph the checker searches; the order in which a node's set is enumerated is free. */
  ghost predicate GraphOf(p: Program, g: Graph)
  {
    && (forall n :: n in g <==> Declares(p, n))
    && (forall n, d | n in g :: d in g[n] <==> d in AllNeeds(p, Parts(p, n)))
  }

  // ----- definitions -----

  datatype Key = TupleKey(items: seq<Ty>) | StructKey(name: string) | EnumKey(name: string)

  /** `value_dependency`: the definitions a value needs; a tuple is one of its own, and an enum
      without payloads needs none. */
  function Uses(p: Program, ty: Ty): set<Key>
  {
    match ty
    case ArrayOf(e, _) => Uses(p, e)
    case TupleOf(items) => {TupleKey(items)}
    case Named(n) =>
      if n in p.structs then {StructKey(n)}
      else if n in p.enums && Payloads(p.enums[n]) != [] then {EnumKey(n)} else {}
    case _ => {}
  }

  function AllUses(p: Program, tys: seq<Ty>): set<Key>
  {
    if tys == [] then {} else Uses(p, tys[0]) + AllUses(p, tys[1..])
  }

  function KeyParts(p: Program, k: Key): seq<Ty>
  {
    match k
    case TupleKey(items) => items
    case StructKey(n) => if n in p.structs then p.structs[n] else []
    case EnumKey(n) => if n in p.enums then Payloads(p.enums[n]) else []
  }

  function Dependencies(p: Program, k: Key): set<Key> { AllUses(p, KeyParts(p, k)) }

  /** The definitions to emit: declared structs, enums with payloads, and tuples, closed under use. */
  predicate Nodes(p: Program, nodes: seq<Key>)
  {
    && Distinct(nodes)
    && (forall i | 0 <= i < |nodes| ::
         match nodes[i]
         case TupleKey(_) => true
         case StructKey(n) => n in p.structs && n !in p.enums
         case EnumKey(n) => n in p.enums && n !in p.structs)
    && (forall i | 0 <= i < |nodes| :: Dependencies(p, nodes[i]) <= Elements(nodes))
  }

  function Elements(s: seq<Key>): set<Key> { set i | 0 <= i < |s| :: s[i] }

  // ----- a measure that every dependency lowers -----

  function Position(order: seq<string>, n: string): nat
  {
    if order == [] then 0
    else if order[|order| - 1] == n then |order|
    else Position(order[..|order| - 1], n)
  }

  /** The latest finished aggregate inside a value. */
  function Latest(p: Program, order: seq<string>, ty: Ty): nat
  {
    match ty
    case Named(n) => if Declares(p, n) then Position(order, n) else 0
    case ArrayOf(e, _) => Latest(p, order, e)
    case TupleOf(items) => AllLatest(p, order, items)
    case _ => 0
  }

  function AllLatest(p: Program, order: seq<string>, tys: seq<Ty>): nat
  {
    if tys == [] then 0
    else
      var a, b := Latest(p, order, tys[0]), AllLatest(p, order, tys[1..]);
      if a < b then b else a
  }

  function Size(ty: Ty): nat
  {
    match ty
    case ArrayOf(e, _) => 1 + Size(e)
    case TupleOf(items) => 1 + AllSize(items)
    case _ => 0
  }

  function AllSize(tys: seq<Ty>): nat
  {
    if tys == [] then 0 else 1 + Size(tys[0]) + AllSize(tys[1..])
  }

  datatype Measure = Measure(latest: nat, size: nat)

  predicate Below(a: Measure, b: Measure)
  {
    a.latest < b.latest || (a.latest == b.latest && a.size < b.size)
  }

  function MeasureOf(p: Program, order: seq<string>, k: Key): Measure
  {
    match k
    case TupleKey(items) => Measure(AllLatest(p, order, items), 1 + AllSize(items))
    case StructKey(n) => Measure(Position(order, n), 0)
    case EnumKey(n) => Measure(Position(order, n), 0)
  }

  lemma {:induction false} PositionIs(order: seq<string>, n: string)
    ensures n in order ==> 1 <= Position(order, n) <= |order| && order[Position(order, n) - 1] == n
    ensures n !in order ==> Position(order, n) == 0
  {
    if order != [] {
      var front := order[..|order| - 1];
      assert order == front + [order[|order| - 1]];
      PositionIs(front, n);
    }
  }

  /** A bound on every aggregate inside a value bounds the value's latest. */
  lemma {:induction false} LatestBound(p: Program, order: seq<string>, ty: Ty, b: nat)
    requires forall n | n in Needs(p, ty) :: Position(order, n) <= b
    ensures Latest(p, order, ty) <= b
    decreases ty
  {
    match ty
    case ArrayOf(e, _) => LatestBound(p, order, e, b);
    case TupleOf(items) => AllLatestBound(p, order, items, b);
    case Named(n) => assert Declares(p, n) ==> n in Needs(p, ty);
    case _ =>
  }

  lemma {:induction false} AllLatestBound(p: Program, order: seq<string>, tys: seq<Ty>, b: nat)
    requires forall n | n in AllNeeds(p, tys) :: Position(order, n) <= b
    ensures AllLatest(p, order, tys) <= b
    decreases tys
  {
    if tys != [] {
      LatestBound(p, order, tys[0], b);
      AllLatestBound(p, order, tys[1..], b);
    }
  }

  /** What a value uses lies no later than the value, and inside it. */
  lemma {:induction false} UseIsBounded(p: Program, order: seq<string>, ty: Ty, k: Key)
    requires k in Uses(p, ty)
    ensures MeasureOf(p, order, k).latest <= Latest(p, order, ty) && MeasureOf(p, order, k).size <= Size(ty)
    decreases ty
  {
    match ty
    case ArrayOf(e, _) => UseIsBounded(p, order, e, k);
    case _ =>
  }

  lemma {:induction false} UsesAreBounded(p: Program, order: seq<string>, tys: seq<Ty>, k: Key)
    requires k in AllUses(p, tys)
    ensures MeasureOf(p, order, k).latest <= AllLatest(p, order, tys) && MeasureOf(p, order, k).size <= AllSize(tys)
    decreases tys
  {
    var t, rest := tys[0], tys[1..];
    if k in Uses(p, t) { UseIsBounded(p, order, t, k); } else { UsesAreBounded(p, order, rest, k); }
  }

  /** Every dependency has a smaller measure, once the checker has finished all aggregates. */
  lemma {:induction false} DependencyIsBelow(p: Program, g: Graph, order: seq<string>, nodes: seq<Key>, k: Key, d: Key)
    requires GraphOf(p, g) && Topological(g, order) && Distinct(order) && (forall n | n in g :: n in order)
    requires Nodes(p, nodes) && k in nodes && d in Dependencies(p, k)
    ensures Below(MeasureOf(p, order, d), MeasureOf(p, order, k))
  {
    hide Topological;
    var parts := KeyParts(p, k);
    UsesAreBounded(p, order, parts, d);
    if !k.TupleKey? {
      var n := k.name;
      assert n in g && Parts(p, n) == parts;
      assert n in order;
      PositionIs(order, n);
      var b := Position(order, n) - 1;
      forall m | m in AllNeeds(p, parts) ensures Position(order, m) <= b {
        NeedIsEarlier(p, g, order, n, m);
      }
      AllLatestBound(p, order, parts, b);
    }
  }

  lemma {:induction false} NeedIsEarlier(p: Program, g: Graph, order: seq<string>, n: string, m: string)
    requires GraphOf(p, g) && Topological(g, order) && Distinct(order) && n in g && n in order
    requires m in AllNeeds(p, Parts(p, n))
    ensures Position(order, m) < Position(order, n)
  {
    PositionIs(order, n);
    PositionIs(order, m);
    var i := Position(order, n) - 1;
    assert DepsBefore(g, order, i) && m in g[order[i]];
    NeedsAreDeclared(p, Parts(p, n), m);
    assert m in order[..i];
    var j :| 0 <= j < i && order[..i][j] == m;
  }

  lemma {:induction false} NeedsAreDeclared(p: Program, tys: seq<Ty>, m: string)
    requires m in AllNeeds(p, tys)
    ensures Declares(p, m)
    decreases tys, 1
  {
    var t, rest := tys[0], tys[1..];
    if m in Needs(p, t) { NeedIsDeclared(p, t, m); } else { NeedsAreDeclared(p, rest, m); }
  }

  lemma {:induction false} NeedIsDeclared(p: Program, ty: Ty, m: string)
    requires m in Needs(p, ty)
    ensures Declares(p, m)
    decreases ty, 1
  {
    match ty
    case ArrayOf(e, _) => NeedIsDeclared(p, e, m);
    case TupleOf(items) => NeedsAreDeclared(p, items, m);
    case _ =>
  }

  // ----- the emission loop -----

  /** Everything a definition needs has been defined before it. */
  predicate DefinedInOrder(p: Program, result: seq<Key>)
  {
    forall i | 0 <= i < |result| :: Dependencies(p, result[i]) <= Elements(result[..i])
  }

  function ReadyKeys(p: Program, remaining: seq<Key>, emitted: set<Key>): seq<Key>
  {
    if remaining == [] then []
    else
      var n := |remaining| - 1;
      ReadyKeys(p, remaining[..n], emitted) + (if Dependencies(p, remaining[n]) <= emitted then [remaining[n]] else [])
  }

  function Without(s: seq<Key>, k: Key): seq<Key>
  {
    if s == [] then [] else if s[0] == k then s[1..] else [s[0]] + Without(s[1..], k)
  }

  /** Some key of a nonempty list has nothing below it in the list. */
  lemma {:induction false} MinimalKey(p: Program, order: seq<string>, s: seq<Key>) returns (k: Key)
    requires s != []
    ensures k in s && forall d | d in s :: !Below(MeasureOf(p, order, d), MeasureOf(p, order, k))
    decreases |s|
  {
    if |s| == 1 {
      k := s[0];
    } else {
      k := MinimalKey(p, order, s[1..]);
      assert s == [s[0]] + s[1..];
      if Below(MeasureOf(p, order, s[0]), MeasureOf(p, order, k)) { k := s[0]; }
    }
  }

  lemma {:induction false} ReadyAre(p: Program, s: seq<Key>, emitted: set<Key>)
    ensures forall k :: k in ReadyKeys(p, s, emitted) <==> k in s && Dependencies(p, k) <= emitted
    ensures multiset(ReadyKeys(p, s, emitted)) <= multiset(s)
  {
    if s != [] {
      var n := |s| - 1;
      ReadyAre(p, s[..n], emitted);
      assert s == s[..n] + [s[n]];
    }
  }

  lemma {:induction false} WithoutIs(s: seq<Key>, k: Key)
    requires k in s
    ensures |Without(s, k)| == |s| - 1 && multiset(s) == multiset(Without(s, k)) + multiset{k}
  {
    assert s == [s[0]] + s[1..];
    if s[0] != k { WithoutIs(s[1..], k); }
  }

  /** What is known of the definitions while the loop runs: every node is either defined or waiting. */
  predicate Splits(nodes: seq<Key>, result: seq<Key>, remaining: seq<Key>, emitted: set<Key>)
  {
    multiset(nodes) == multiset(result) + multiset(remaining) && emitted == Elements(result)
  }

  lemma {:induction false} ElementsIs(s: seq<Key>, k: Key)
    ensures k in Elements(s) <==> k in multiset(s)
    ensures k in Elements(s) <==> k in s
  {
    if k in s { var i :| 0 <= i < |s| && s[i] == k; }
  }

  /** While definitions wait, one of them has everything it needs. */
  lemma {:induction false} SomeIsReady(p: Program, g: Graph, order: seq<string>, nodes: seq<Key>,
                                       result: seq<Key>, remaining: seq<Key>, emitted: set<Key>)
    requires GraphOf(p, g) && Topological(g, order) && Distinct(order) && (forall n | n in g :: n in order)
    requires Nodes(p, nodes) && Splits(nodes, result, remaining, emitted) && remaining != []
    ensures ReadyKeys(p, remaining, emitted) != []
  {
    hide GraphOf, Topological, Below, MeasureOf, Nodes;
    var k := MinimalKey(p, order, remaining);
    Membership(nodes, result, remaining, emitted, k);
    forall d | d in Dependencies(p, k) ensures d in emitted {
      DependencyIsBelow(p, g, order, nodes, k, d);
      DependencyIsNode(p, nodes, k, d);
      Membership(nodes, result, remaining, emitted, d);
    }
    ReadyAre(p, remaining, emitted);
    assert k in ReadyKeys(p, remaining, emitted);
  }

  lemma {:induction false} Membership(nodes: seq<Key>, result: seq<Key>, remaining: seq<Key>, emitted: set<Key>, k: Key)
    requires Splits(nodes, result, remaining, emitted)
    ensures k in nodes <==> k in emitted || k in remaining
  {
    ElementsIs(result, k);
    assert k in nodes <==> k in multiset(nodes);
    assert k in remaining <==> k in multiset(remaining);
  }

  lemma {:induction false} DependencyIsNode(p: Program, nodes: seq<Key>, k: Key, d: Key)
    requires Nodes(p, nodes) && k in nodes && d in Dependencies(p, k)
    ensures d in nodes
  {
    var i :| 0 <= i < |nodes| && nodes[i] == k;
    ElementsIs(nodes, d);
  }

  lemma {:induction false} ElementsAppend(s: seq<Key>, k: Key)
    ensures Elements(s + [k]) == Elements(s) + {k}
  {
    forall x ensures x in Elements(s + [k]) <==> x in Elements(s) + {k} {
      ElementsIs(s + [k], x);
      ElementsIs(s, x);
    }
  }

  lemma {:induction false} OrderAppend(p: Program, s: seq<Key>, k: Key)
    requires DefinedInOrder(p, s) && Dependencies(p, k) <= Elements(s)
    ensures DefinedInOrder(p, s + [k])
  {
    var t := s + [k];
    forall i | 0 <= i < |t| ensures Dependencies(p, t[i]) <= Elements(t[..i]) {
      if i < |s| { assert t[..i] == s[..i]; } else { assert t[..i] == s; }
    }
  }

  method Ready(p: Program, remaining: seq<Key>, emitted: set<Key>) returns (ready: seq<Key>)
    ensures ready == ReadyKeys(p, remaining, emitted)
  {
    ready := [];
    for i := 0 to |remaining|
      invariant ready == ReadyKeys(p, remaining[..i], emitted)
    {
      assert remaining[..i + 1][..i] == remaining[..i];
      if Dependencies(p, remaining[i]) <= emitted { ready := ready + [remaining[i]]; }
    }
    assert remaining[..|remaining|] == remaining;
  }

  method Remove(s: seq<Key>, k: Key) returns (rest: seq<Key>)
    requires k in s
    ensures rest == Without(s, k)
  {
    hide Without;
    assert s[..0] + Without(s, k) == Without(s, k) && s[0..] == s;
    var i := 0;
    while s[i] != k
      invariant i < |s| && k in s[i..]
      invariant s[..i] + Without(s[i..], k) == Without(s, k)
      decreases |s| - i
    {
      WithoutStep(s, i, k);
      i := i + 1;
    }
    WithoutStep(s, i, k);
    rest := s[..i] + s[i + 1..];
  }

  lemma {:induction false} WithoutStep(s: seq<Key>, i: nat, k: Key)
    requires i < |s|
    ensures k in s[i..] && s[i] != k ==> k in s[i + 1..]
    ensures s[..i] + Without(s[i..], k) == if s[i] == k then s[..i] + s[i + 1..] else s[..i + 1] + Without(s[i + 1..], k)
  {
    var tail := s[i..];
    assert tail[0] == s[i] && tail[1..] == s[i + 1..] && tail == [s[i]] + s[i + 1..];
    assert s[..i + 1] == s[..i] + [s[i]];
  }

  lemma {:induction false} SplitsStep(nodes: seq<Key>, result: seq<Key>, remaining: seq<Key>, emitted: set<Key>, k: Key)
    requires Splits(nodes, result, remaining, emitted) && k in remaining
    ensures Splits(nodes, result + [k], Without(remaining, k), emitted + {k})
    ensures |Without(remaining, k)| < |remaining|
  {
    ElementsAppend(result, k);
    WithoutIs(remaining, k);
  }

  lemma {:induction false} StillWaiting(ready: seq<Key>, remaining: seq<Key>, i: nat)
    requires i < |ready| && multiset(ready[i..]) <= multiset(remaining)
    ensures ready[i] in remaining && multiset(ready[i + 1..]) <= multiset(Without(remaining, ready[i]))
  {
    assert ready[i..] == [ready[i]] + ready[i + 1..];
    var k, rest := ready[i], ready[i + 1..];
    assert multiset(ready[i..]) == multiset{k} + multiset(rest);
    assert k in multiset(ready[i..]) && k in multiset(remaining);
    WithoutIs(remaining, k);
    forall x ensures multiset(rest)[x] <= multiset(Without(remaining, k))[x] {
      assert multiset(ready[i..])[x] <= multiset(remaining)[x];
    }
  }

  /** Defines everything in `ready`, which needs nothing beyond `emitted`. */
  method EmitReady(p: Program, ghost nodes: seq<Key>, done: seq<Key>, waiting: seq<Key>, known: set<Key>, ready: seq<Key>, ghost ordered: bool)
    returns (result: seq<Key>, remaining: seq<Key>, emitted: set<Key>)
    requires Splits(nodes, done, waiting, known) && multiset(ready) <= multiset(waiting) && ready != []
    requires ordered ==> DefinedInOrder(p, done) && forall i | 0 <= i < |ready| :: Dependencies(p, ready[i]) <= known
    ensures Splits(nodes, result, remaining, emitted) && |remaining| < |waiting|
    ensures ordered ==> DefinedInOrder(p, result)
  {
    hide Splits, DefinedInOrder, Dependencies, Elements;
    result, remaining, emitted := done, waiting, known;
    assert ready[0..] == ready;
    for i := 0 to |ready|
      invariant Splits(nodes, result, remaining, emitted) && known <= emitted
      invariant |remaining| <= |waiting| && (i > 0 ==> |remaining| < |waiting|)
      invariant multiset(ready[i..]) <= multiset(remaining)
      invariant ordered ==> DefinedInOrder(p, result)
    {
      StillWaiting(ready, remaining, i);
      if ordered {
        EmittedIs(nodes, result, remaining, emitted);
        OrderAppend(p, result, ready[i]);
      }
      SplitsStep(nodes, result, remaining, emitted, ready[i]);
      result := result + [ready[i]];
      emitted := emitted + {ready[i]};
      remaining := Remove(remaining, ready[i]);
    }
  }

  lemma EmittedIs(nodes: seq<Key>, result: seq<Key>, remaining: seq<Key>, emitted: set<Key>)
    requires Splits(nodes, result, remaining, emitted)
    ensures emitted == Elements(result)
  {
  }

  /** Whatever the graph, every node is defined exactly once.  If the checker has accepted the program
      - `order` is the order in which its search finished the aggregates - then each definition comes
      after everything it needs, and the fallback is never taken. */
  method Order(p: Program, nodes: seq<Key>, ghost g: Graph, ghost order: seq<string>, ghost accepted: bool)
    returns (result: seq<Key>, ghost fellBack: bool)
    requires accepted ==>
      && GraphOf(p, g) && Topological(g, order) && Distinct(order) && (forall n | n in g :: n in order)
      && Nodes(p, nodes)
    ensures multiset(result) == multiset(nodes)
    ensures accepted ==> !fellBack && DefinedInOrder(p, result)
  {
    hide GraphOf, Topological, Nodes, Distinct, DefinedInOrder, Elements, Dependencies, ReadyKeys;
    var emitted: set<Key> := {};
    result := [];
    fellBack := false;
    var remaining := nodes;
    NothingDefined(p);
    assert Splits(nodes, result, remaining, emitted);
    hide Splits;
    while remaining != []
      invariant Splits(nodes, result, remaining, emitted)
      invariant accepted ==> !fellBack && DefinedInOrder(p, result)
      decreases |remaining|
    {
      var ready := Ready(p, remaining, emitted);
      ReadyServe(p, remaining, emitted);
      if ready == [] {
        if accepted { SomeIsReady(p, g, order, nodes, result, remaining, emitted); }
        FirstServes(remaining);
        ready := [remaining[0]];
        fellBack := true;
      }
      result, remaining, emitted := EmitReady(p, nodes, result, remaining, emitted, ready, accepted);
    }
    AllDefined(nodes, result, emitted);
  }

  lemma ReadyServe(p: Program, remaining: seq<Key>, emitted: set<Key>)
    ensures var ready := ReadyKeys(p, remaining, emitted);
      multiset(ready) <= multiset(remaining) && forall i | 0 <= i < |ready| :: Dependencies(p, ready[i]) <= emitted
  {
    hide ReadyKeys, Dependencies;
    ReadyAre(p, remaining, emitted);
  }

  lemma FirstServes(remaining: seq<Key>)
    requires remaining != []
    ensures multiset([remaining[0]]) <= multiset(remaining)
  {
    assert remaining == [remaining[0]] + remaining[1..];
  }

  lemma AllDefined(nodes: seq<Key>, result: seq<Key>, emitted: set<Key>)
    requires Splits(nodes, result, [], emitted)
    ensures multiset(result) == multiset(nodes)
  {
  }

  lemma NothingDefined(p: Program)
    ensures Elements([]) == {} && DefinedInOrder(p, [])
  {
  }

  /** Checker and generator together: if the search over all aggregates reports no cycle, the
      definitions come out complete and in dependency order. */
  method CheckThenOrder(p: Program, nodes: seq<Key>, g: Graph, roots: seq<string>) returns (result: Option<seq<Key>>)
    requires GraphOf(p, g) && Nodes(p, nodes) && forall n | n in g :: n in roots
    ensures result.None? <==> ReachesCycle(g, roots)
    ensures result.Some? ==> multiset(result.value) == multiset(nodes) && DefinedInOrder(p, result.value)
  {
    var search := new Search(g);
    var cycle := search.Validate(roots);
    if cycle.Some? { return None; }
    var defined, _ := Order(p, nodes, g, search.order, true);
    result := Some(defined);
  }
}
