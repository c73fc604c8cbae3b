/** What the cycle check is for: a program passes it exactly if every aggregate it declares has a finite
    layout, and the definitions come out in an order in which each one is made of complete types. */
module FiniteLayouts {
  import opened MortSyntax
  import opened AggregateTypes
  import opened AggregateCycles
  import opened DefinitionOrder

  /** A value of this type is laid out in fewer than n levels of arrays, tuples and aggregates. */
  predicate Finite(p: Program, ty: Ty, n: nat)
    decreases n, 0
  {
    n > 0 &&
    match ty
    case Named(m) => Declares(p, m) ==> AllFinite(p, Parts(p, m), n - 1)
    case ArrayOf(e, _) => Finite(p, e, n - 1)
    case TupleOf(items) => AllFinite(p, items, n - 1)
    case _ => true
  }

  predicate AllFinite(p: Program, tys: seq<Ty>, n: nat)
    decreases n, 1 + |tys|
  {
    tys == [] || (Finite(p, tys[0], n) && AllFinite(p, tys[1..], n))
  }

  ghost predicate EveryFinite(p: Program)
  {
    forall m | Declares(p, m) :: exists n: nat :: Finite(p, Named(m), n)
  }

  lemma {:induction false} FiniteMore(p: Program, ty: Ty, n: nat, k: nat)
    requires Finite(p, ty, n) && n <= k
    ensures Finite(p, ty, k)
    decreases n, 0
  {
    match ty
    case Named(m) => if Declares(p, m) { AllFiniteMore(p, Parts(p, m), n - 1, k - 1); }
    case ArrayOf(e, _) => FiniteMore(p, e, n - 1, k - 1);
    case TupleOf(items) => AllFiniteMore(p, items, n - 1, k - 1);
    case _ =>
  }

  lemma {:induction false} AllFiniteMore(p: Program, tys: seq<Ty>, n: nat, k: nat)
    requires AllFinite(p, tys, n) && n <= k
    ensures AllFinite(p, tys, k)
    decreases n, 1 + |tys|
  {
    if tys != [] {
      FiniteMore(p, tys[0], n, k);
      AllFiniteMore(p, tys[1..], n, k);
    }
  }

  // ----- a cycle has no finite layout -----

  lemma {:induction false} NeedIsFinite(p: Program, ty: Ty, m: string, n: nat)
    requires m in Needs(p, ty) && Finite(p, ty, n)
    ensures Finite(p, Named(m), n)
    decreases ty
  {
    match ty
    case Named(_) =>
    case ArrayOf(e, _) =>
      NeedIsFinite(p, e, m, n - 1);
      FiniteMore(p, Named(m), n - 1, n);
    case TupleOf(items) =>
      NeedsAreFinite(p, items, m, n - 1);
      FiniteMore(p, Named(m), n - 1, n);
  }

  lemma {:induction false} NeedsAreFinite(p: Program, tys: seq<Ty>, m: string, n: nat)
    requires m in AllNeeds(p, tys) && AllFinite(p, tys, n)
    ensures Finite(p, Named(m), n)
    decreases tys
  {
    if m in Needs(p, tys[0]) { NeedIsFinite(p, tys[0], m, n); } else { NeedsAreFinite(p, tys[1..], m, n); }
  }

  lemma {:induction false} CycleIsInfinite(p: Program, g: Graph, c: seq<string>, i: nat, n: nat)
    requires GraphOf(p, g) && IsCycle(g, c) && i < |c| - 1
    ensures !Finite(p, Named(c[i]), n)
    decreases n
  {
    if Finite(p, Named(c[i]), n) {
      assert Edge(g, c[i], c[i + 1]);
      NeedsAreFinite(p, Parts(p, c[i]), c[i + 1], n - 1);
      CycleIsInfinite(p, g, c, if i + 1 < |c| - 1 then i + 1 else 0, n - 1);
    }
  }

  // ----- without a cycle every layout is finite -----

  /** A path that repeats no node. */
  predicate Simple(g: Graph, s: seq<string>)
  {
    Path(g, s) && s != [] && forall i, j | 0 <= i < j < |s| :: s[i] != s[j]
  }

  function Off(g: Graph, s: seq<string>): set<string> { g.Keys - (set x | x in s) }

  lemma {:induction false} StepIsSimple(g: Graph, roots: seq<string>, s: seq<string>, m: string)
    requires Simple(g, s) && s[0] in roots && Edge(g, s[|s| - 1], m) && !ReachesCycle(g, roots)
    ensures Simple(g, s + [m]) && Off(g, s + [m]) < Off(g, s)
  {
    var longer := s + [m];
    assert Path(g, longer) by {
      forall i | 0 <= i < |longer| - 1 ensures Edge(g, longer[i], longer[i + 1]) {
        if i < |s| - 1 { assert Edge(g, s[i], s[i + 1]); }
      }
    }
    if m in s {
      var i :| 0 <= i < |s| && s[i] == m;
      TailIsCycle(g, roots, s, m, i);
    }
    assert m !in s;
    assert m in Off(g, s) && m !in Off(g, longer) by { assert longer[|s|] == m; }
    forall x | x in s ensures x in longer { var i :| 0 <= i < |s| && s[i] == x; assert longer[i] == x; }
  }

  lemma {:induction false} TailIsCycle(g: Graph, roots: seq<string>, s: seq<string>, m: string, i: nat)
    requires Path(g, s + [m]) && i < |s| && s[0] in roots && s[i] == m
    ensures ReachesCycle(g, roots)
  {
    var longer := s + [m];
    var c, front := longer[i..], longer[..i + 1];
    forall j | 0 <= j < |c| - 1 ensures Edge(g, c[j], c[j + 1]) { assert Edge(g, longer[i + j], longer[i + j + 1]); }
    forall j | 0 <= j < |front| - 1 ensures Edge(g, front[j], front[j + 1]) { assert Edge(g, longer[j], longer[j + 1]); }
    assert LeadsToCycle(g, roots, front, c);
  }

  /** The aggregate at the end of a path has a finite layout. */
  lemma {:induction false} EndIsFinite(p: Program, g: Graph, roots: seq<string>, s: seq<string>) returns (n: nat)
    requires GraphOf(p, g) && Simple(g, s) && s[0] in roots && !ReachesCycle(g, roots)
    ensures Finite(p, Named(s[|s| - 1]), n)
    decreases Off(g, s), 1, 0
  {
    hide ReachesCycle;
    var m := s[|s| - 1];
    var k := PartsAreFinite(p, g, roots, s, Parts(p, m));
    n := k + 1;
  }

  lemma {:induction false} PartsAreFinite(p: Program, g: Graph, roots: seq<string>, s: seq<string>, tys: seq<Ty>) returns (n: nat)
    requires GraphOf(p, g) && Simple(g, s) && s[0] in roots && !ReachesCycle(g, roots)
    requires forall m | m in AllNeeds(p, tys) :: m in g[s[|s| - 1]]
    ensures AllFinite(p, tys, n)
    decreases Off(g, s), 0, tys
  {
    hide ReachesCycle;
    if tys == [] {
      n := 0;
    } else {
      assert AllNeeds(p, tys) == Needs(p, tys[0]) + AllNeeds(p, tys[1..]);
      var a := PartIsFinite(p, g, roots, s, tys[0]);
      var b := PartsAreFinite(p, g, roots, s, tys[1..]);
      n := if a < b then b else a;
      FiniteMore(p, tys[0], a, n);
      AllFiniteMore(p, tys[1..], b, n);
    }
  }

  lemma {:induction false} PartIsFinite(p: Program, g: Graph, roots: seq<string>, s: seq<string>, ty: Ty) returns (n: nat)
    requires GraphOf(p, g) && Simple(g, s) && s[0] in roots && !ReachesCycle(g, roots)
    requires forall m | m in Needs(p, ty) :: m in g[s[|s| - 1]]
    ensures Finite(p, ty, n)
    decreases Off(g, s), 0, ty
  {
    hide ReachesCycle;
    match ty
    case Named(m) =>
      if Declares(p, m) {
        assert m in Needs(p, ty) && Edge(g, s[|s| - 1], m);
        StepIsSimple(g, roots, s, m);
        n := EndIsFinite(p, g, roots, s + [m]);
      } else {
        n := 1;
      }
    case ArrayOf(e, _) =>
      assert Needs(p, e) == Needs(p, ty);
      var k := PartIsFinite(p, g, roots, s, e);
      n := k + 1;
    case TupleOf(items) =>
      assert AllNeeds(p, items) == Needs(p, ty);
      var k := PartsAreFinite(p, g, roots, s, items);
      n := k + 1;
    case _ => n := 1;
  }

  /** The check, which searches from every aggregate, finds a cycle exactly if some aggregate has no
      finite layout. */
  lemma {:induction false} CycleFreeIffFinite(p: Program, g: Graph, roots: seq<string>)
    requires GraphOf(p, g) && forall n | n in g :: n in roots
    ensures !ReachesCycle(g, roots) <==> EveryFinite(p)
  {
    hide Finite;
    if ReachesCycle(g, roots) {
      var q, c :| LeadsToCycle(g, roots, q, c);
      assert c[0] in g && Declares(p, c[0]);
      forall n: nat ensures !Finite(p, Named(c[0]), n) { CycleIsInfinite(p, g, c, 0, n); }
    } else {
      forall m | Declares(p, m) ensures exists n: nat :: Finite(p, Named(m), n) {
        assert m in g;
        var n := EndIsFinite(p, g, roots, [m]);
      }
    }
  }

  // ----- complete types -----

  /** The C compiler knows the size of a type once these definitions have been read. */
  predicate Complete(p: Program, ty: Ty, defined: set<Key>)
  {
    match ty
    case Scalar => true
    case Indirect => true
    case ArrayOf(e, _) => Complete(p, e, defined)
    case TupleOf(items) => TupleKey(items) in defined
    case Named(n) =>
      && (n in p.structs ==> StructKey(n) in defined)
      && (n in p.enums && n !in p.structs && Payloads(p.enums[n]) != [] ==> EnumKey(n) in defined)
  }

  lemma {:induction false} CompleteIff(p: Program, ty: Ty, defined: set<Key>)
    ensures Complete(p, ty, defined) <==> Uses(p, ty) <= defined
  {
    match ty
    case ArrayOf(e, _) => CompleteIff(p, e, defined);
    case _ =>
  }

  lemma {:induction false} AllCompleteIff(p: Program, tys: seq<Ty>, defined: set<Key>)
    ensures AllUses(p, tys) <= defined <==> forall i | 0 <= i < |tys| :: Complete(p, tys[i], defined)
  {
    hide Complete, Uses;
    if tys != [] {
      CompleteIff(p, tys[0], defined);
      AllCompleteIff(p, tys[1..], defined);
      assert forall i | 0 < i < |tys| :: tys[i] == tys[1..][i - 1];
    }
  }

  /** An order is one the compiler takes: whatever a definition holds by value is complete when its turn
      comes. */
  lemma {:induction false} OrderIsCompilable(p: Program, order: seq<Key>)
    ensures DefinedInOrder(p, order) <==>
      forall i | 0 <= i < |order| :: forall j | 0 <= j < |KeyParts(p, order[i])| :: Complete(p, KeyParts(p, order[i])[j], Elements(order[..i]))
  {
    hide Complete, Elements, KeyParts;
    forall i | 0 <= i < |order|
      ensures Dependencies(p, order[i]) <= Elements(order[..i]) <==>
        forall j | 0 <= j < |KeyParts(p, order[i])| :: Complete(p, KeyParts(p, order[i])[j], Elements(order[..i]))
    {
      AllCompleteIff(p, KeyParts(p, order[i]), Elements(order[..i]));
    }
  }
}
