/** Type aliases: resolution terminates on every table, reports a cycle exactly when one can be reached,
    and is not disturbed by overwriting the table with its own results. */
module AliasResolution {

  datatype Shape = Pointer(constant: bool) | Slice(constant: bool) | ArrayOf(count: nat) | FunctionOf | TupleOf | GenericOf(base: string)

  datatype Ty = Named(name: string) | Node(shape: Shape, parts: seq<Ty>)

  type Table = map<string, Ty>

  /** A cycle is reported as the chain of aliases that led to it. */
  datatype Outcome<T> = Resolved(value: T) | Cyclic(chain: seq<string>)

  function OnStack(stack: seq<string>): set<string> { set i | 0 <= i < |stack| :: stack[i] }

  lemma FewerLeft(a: Table, stack: seq<string>, n: string)
    requires n in a && n !in stack
    ensures a.Keys - OnStack(stack + [n]) < a.Keys - OnStack(stack)
  {
    assert OnStack(stack + [n]) == OnStack(stack) + {n} by {
      forall x ensures x in OnStack(stack + [n]) <==> x in OnStack(stack) + {n} {
        if x in OnStack(stack) { var i :| 0 <= i < |stack| && stack[i] == x; assert (stack + [n])[i] == x; }
        if x == n { assert (stack + [n])[|stack|] == x; }
      }
    }
    assert n in a.Keys - OnStack(stack);
  }

  /** `_resolve_alias_type`. */
  function Resolve(a: Table, t: Ty, stack: seq<string>): Outcome<Ty>
    decreases a.Keys - OnStack(stack), t, 1
  {
    match t
    case Named(n) =>
      if n in a then
        if n in stack then Cyclic(stack + [n])
        else
          FewerLeft(a, stack, n);
          Resolve(a, a[n], stack + [n])
      else Resolved(t)
    case Node(shape, parts) =>
      match ResolveAll(a, parts, stack)
      case Resolved(rs) => Resolved(Node(shape, rs))
      case Cyclic(c) => Cyclic(c)
  }

  function ResolveAll(a: Table, ts: seq<Ty>, stack: seq<string>): Outcome<seq<Ty>>
    decreases a.Keys - OnStack(stack), ts, 0
  {
    if ts == [] then Resolved([])
    else
      match Resolve(a, ts[0], stack)
      case Cyclic(c) => Cyclic(c)
      case Resolved(r) =>
        match ResolveAll(a, ts[1..], stack)
        case Cyclic(c) => Cyclic(c)
        case Resolved(rs) => Resolved([r] + rs)
  }

  // ----- which aliases a type mentions -----

  function Mentions(a: Table, t: Ty): set<string>
  {
    match t
    case Named(n) => if n in a then {n} else {}
    case Node(_, parts) => AllMentions(a, parts)
  }

  function AllMentions(a: Table, ts: seq<Ty>): set<string>
  {
    if ts == [] then {} else Mentions(a, ts[0]) + AllMentions(a, ts[1..])
  }

  /** Each alias of the chain mentions the next. */
  predicate Chain(a: Table, c: seq<string>)
  {
    && (forall i | 0 <= i < |c| :: c[i] in a)
    && forall i | 0 <= i < |c| - 1 :: c[i + 1] in Mentions(a, a[c[i]])
  }

  predicate Repeats(c: seq<string>)
  {
    exists i, j :: 0 <= i < j < |c| && c[i] == c[j]
  }

  /** A cycle of aliases can be reached from t. */
  ghost predicate ReachesCycle(a: Table, t: Ty)
  {
    exists c :: c != [] && Chain(a, c) && c[0] in Mentions(a, t) && Repeats(c)
  }

  // ----- a reported cycle is one -----

  /** The stack is a chain, and the type in hand comes from its last alias. */
  predicate ComesFrom(a: Table, stack: seq<string>, mentioned: set<string>)
  {
    Chain(a, stack) && (stack != [] ==> mentioned <= Mentions(a, a[stack[|stack| - 1]]))
  }

  lemma {:induction false} ChainGrows(a: Table, stack: seq<string>, n: string)
    requires ComesFrom(a, stack, {n}) && n in a
    ensures Chain(a, stack + [n])
  {
    var c := stack + [n];
    forall i | 0 <= i < |c| - 1 ensures c[i + 1] in Mentions(a, a[c[i]]) {
      if i < |stack| - 1 { assert c[i + 1] == stack[i + 1]; }
    }
  }

  /** What is reported: a chain that starts with what was on the stack, or in the type itself, and
      ends in a repetition. */
  predicate IsReport(a: Table, stack: seq<string>, mentioned: set<string>, c: seq<string>)
  {
    && Chain(a, c) && Repeats(c) && stack <= c && |stack| < |c|
    && c[|stack|] in mentioned
  }

  lemma {:induction false} ReportIsCycle(a: Table, t: Ty, stack: seq<string>)
    requires ComesFrom(a, stack, Mentions(a, t)) && Resolve(a, t, stack).Cyclic?
    ensures IsReport(a, stack, Mentions(a, t), Resolve(a, t, stack).chain)
    decreases a.Keys - OnStack(stack), t, 1
  {
    match t
    case Named(n) =>
      ChainGrows(a, stack, n);
      if n in stack {
        var i :| 0 <= i < |stack| && stack[i] == n;
        var c := stack + [n];
        assert c[i] == c[|stack|];
      } else {
        FewerLeft(a, stack, n);
        ReportIsCycle(a, a[n], stack + [n]);
        var c := Resolve(a, t, stack).chain;
        assert c[|stack|] == (stack + [n])[|stack|] == n;
      }
    case Node(_, parts) => AllReportsAreCycles(a, parts, stack);
  }

  lemma {:induction false} AllReportsAreCycles(a: Table, ts: seq<Ty>, stack: seq<string>)
    requires ComesFrom(a, stack, AllMentions(a, ts)) && ResolveAll(a, ts, stack).Cyclic?
    ensures IsReport(a, stack, AllMentions(a, ts), ResolveAll(a, ts, stack).chain)
    decreases a.Keys - OnStack(stack), ts, 0
  {
    if Resolve(a, ts[0], stack).Cyclic? {
      ReportIsCycle(a, ts[0], stack);
    } else {
      AllReportsAreCycles(a, ts[1..], stack);
    }
  }

  // ----- what resolves reaches no cycle -----

  predicate Avoids(c: seq<string>, stack: seq<string>)
  {
    !Repeats(c) && forall i | 0 <= i < |c| :: c[i] !in stack
  }

  lemma {:induction false} ResolvedAvoids(a: Table, t: Ty, stack: seq<string>, c: seq<string>)
    requires Resolve(a, t, stack).Resolved? && c != [] && Chain(a, c) && c[0] in Mentions(a, t)
    ensures Avoids(c, stack)
    decreases a.Keys - OnStack(stack), t, 1
  {
    match t
    case Named(n) =>
      FewerLeft(a, stack, n);
      var rest := c[1..];
      if rest != [] {
        forall i | 0 <= i < |rest| - 1 ensures rest[i + 1] in Mentions(a, a[rest[i]]) { assert c[i + 1 + 1] in Mentions(a, a[c[i + 1]]); }
        assert c[0 + 1] in Mentions(a, a[c[0]]);
        ResolvedAvoids(a, a[n], stack + [n], rest);
      }
      HeadAvoids(c, rest, stack, n);
    case Node(_, parts) => AllResolvedAvoid(a, parts, stack, c);
  }

  lemma {:induction false} HeadAvoids(c: seq<string>, rest: seq<string>, stack: seq<string>, n: string)
    requires c == [n] + rest && n !in stack && Avoids(rest, stack + [n])
    ensures Avoids(c, stack)
  {
    forall i | 0 <= i < |rest| ensures rest[i] != n && rest[i] !in stack {
      assert rest[i] !in stack + [n];
    }
    forall i, j | 0 <= i < j < |c| ensures c[i] != c[j] {
      assert c[j] == rest[j - 1];
      if i > 0 { assert c[i] == rest[i - 1] && rest[i - 1] != rest[j - 1]; }
    }
  }

  lemma {:induction false} AllResolvedAvoid(a: Table, ts: seq<Ty>, stack: seq<string>, c: seq<string>)
    requires ResolveAll(a, ts, stack).Resolved? && c != [] && Chain(a, c) && c[0] in AllMentions(a, ts)
    ensures Avoids(c, stack)
    decreases a.Keys - OnStack(stack), ts, 0
  {
    if c[0] in Mentions(a, ts[0]) { ResolvedAvoids(a, ts[0], stack, c); } else { AllResolvedAvoid(a, ts[1..], stack, c); }
  }

  /** Resolution fails exactly when a cycle of aliases can be reached, and then names one. */
  lemma {:induction false} CyclicIffReached(a: Table, t: Ty)
    ensures Resolve(a, t, []).Cyclic? <==> ReachesCycle(a, t)
    ensures Resolve(a, t, []).Cyclic? ==> Chain(a, Resolve(a, t, []).chain) && Repeats(Resolve(a, t, []).chain)
  {
    if Resolve(a, t, []).Cyclic? {
      ReportIsCycle(a, t, []);
    } else {
      forall c | c != [] && Chain(a, c) && c[0] in Mentions(a, t) ensures !Repeats(c) {
        ResolvedAvoids(a, t, [], c);
      }
    }
  }

  // ----- results are free of aliases -----

  lemma {:induction false} ResultIsFree(a: Table, t: Ty, stack: seq<string>)
    requires Resolve(a, t, stack).Resolved?
    ensures Mentions(a, Resolve(a, t, stack).value) == {}
    decreases a.Keys - OnStack(stack), t, 1
  {
    match t
    case Named(n) => if n in a { FewerLeft(a, stack, n); ResultIsFree(a, a[n], stack + [n]); }
    case Node(_, parts) => AllResultsAreFree(a, parts, stack);
  }

  lemma {:induction false} AllResultsAreFree(a: Table, ts: seq<Ty>, stack: seq<string>)
    requires ResolveAll(a, ts, stack).Resolved?
    ensures AllMentions(a, ResolveAll(a, ts, stack).value) == {}
    decreases a.Keys - OnStack(stack), ts, 0
  {
    if ts != [] {
      ResultIsFree(a, ts[0], stack);
      AllResultsAreFree(a, ts[1..], stack);
      var r, rs := Resolve(a, ts[0], stack).value, ResolveAll(a, ts[1..], stack).value;
      assert ([r] + rs)[1..] == rs;
    }
  }

  /** A type without aliases resolves to itself, whatever the stack. */
  lemma {:induction false} FreeIsFixpoint(a: Table, t: Ty, stack: seq<string>)
    requires Mentions(a, t) == {}
    ensures Resolve(a, t, stack) == Resolved(t)
    decreases t, 1
  {
    match t
    case Named(_) =>
    case Node(_, parts) => AllFreeAreFixpoints(a, parts, stack);
  }

  lemma {:induction false} AllFreeAreFixpoints(a: Table, ts: seq<Ty>, stack: seq<string>)
    requires AllMentions(a, ts) == {}
    ensures ResolveAll(a, ts, stack) == Resolved(ts)
    decreases ts, 0
  {
    if ts != [] {
      FreeIsFixpoint(a, ts[0], stack);
      AllFreeAreFixpoints(a, ts[1..], stack);
      assert [ts[0]] + ts[1..] == ts;
    }
  }

  // ----- overwriting the table with results -----

  /** A shorter stack changes no result. */
  lemma {:induction false} StackIrrelevant(a: Table, t: Ty, stack: seq<string>, less: seq<string>)
    requires Resolve(a, t, stack).Resolved? && forall n | n in less :: n in stack
    ensures Resolve(a, t, less) == Resolve(a, t, stack)
    decreases a.Keys - OnStack(stack), t, 1
  {
    match t
    case Named(n) => if n in a { FewerLeft(a, stack, n); StackIrrelevant(a, a[n], stack + [n], less + [n]); }
    case Node(_, parts) => StackIrrelevantAll(a, parts, stack, less);
  }

  lemma {:induction false} StackIrrelevantAll(a: Table, ts: seq<Ty>, stack: seq<string>, less: seq<string>)
    requires ResolveAll(a, ts, stack).Resolved? && forall n | n in less :: n in stack
    ensures ResolveAll(a, ts, less) == ResolveAll(a, ts, stack)
    decreases a.Keys - OnStack(stack), ts, 0
  {
    if ts != [] {
      StackIrrelevant(a, ts[0], stack, less);
      StackIrrelevantAll(a, ts[1..], stack, less);
    }
  }

  lemma {:induction false} SameMentions(a: Table, b: Table, t: Ty)
    requires a.Keys == b.Keys
    ensures Mentions(a, t) == Mentions(b, t)
    decreases t, 1
  {
    match t
    case Named(_) =>
    case Node(_, parts) => SameAllMentions(a, b, parts);
  }

  lemma {:induction false} SameAllMentions(a: Table, b: Table, ts: seq<Ty>)
    requires a.Keys == b.Keys
    ensures AllMentions(a, ts) == AllMentions(b, ts)
    decreases ts, 0
  {
    if ts != [] {
      SameMentions(a, b, ts[0]);
      SameAllMentions(a, b, ts[1..]);
    }
  }

  /** b is a with alias n replaced by what n resolves to. */
  predicate Replaced(a: Table, n: string, b: Table)
  {
    n in a && Resolve(a, Named(n), []).Resolved? && b == a[n := Resolve(a, Named(n), []).value]
  }

  lemma {:induction false} ReplacedResolves(a: Table, n: string, b: Table, t: Ty, stack: seq<string>)
    requires Replaced(a, n, b) && Resolve(a, t, stack).Resolved?
    ensures Resolve(b, t, stack) == Resolve(a, t, stack)
    decreases a.Keys - OnStack(stack), t, 1
  {
    assert b.Keys == a.Keys;
    match t
    case Named(m) =>
      if m in a {
        FewerLeft(a, stack, m);
        if m == n {
          var r := Resolve(a, Named(n), []).value;
          assert [] + [n] == [n];
          StackIrrelevant(a, a[n], stack + [n], [n]);
          ResultIsFree(a, Named(n), []);
          SameMentions(a, b, r);
          FreeIsFixpoint(b, r, stack + [n]);
        } else {
          ReplacedResolves(a, n, b, a[m], stack + [m]);
        }
      }
    case Node(_, parts) => ReplacedResolvesAll(a, n, b, parts, stack);
  }

  lemma {:induction false} ReplacedResolvesAll(a: Table, n: string, b: Table, ts: seq<Ty>, stack: seq<string>)
    requires Replaced(a, n, b) && ResolveAll(a, ts, stack).Resolved?
    ensures ResolveAll(b, ts, stack) == ResolveAll(a, ts, stack)
    decreases a.Keys - OnStack(stack), ts, 0
  {
    assert b.Keys == a.Keys;
    if ts != [] {
      ReplacedResolves(a, n, b, ts[0], stack);
      ReplacedResolvesAll(a, n, b, ts[1..], stack);
    }
  }

  /** A repeating chain does not touch an alias that resolves, so it survives its replacement. */
  lemma {:induction false} ChainSurvives(a: Table, n: string, b: Table, c: seq<string>)
    requires Replaced(a, n, b) && Chain(a, c) && Repeats(c)
    requires forall i | 0 <= i < |c| :: c[i] != n
    ensures Chain(b, c)
  {
    assert b.Keys == a.Keys;
    forall i | 0 <= i < |c| - 1 ensures c[i + 1] in Mentions(b, b[c[i]]) {
      SameMentions(a, b, a[c[i]]);
    }
  }

  /** The first repetition of a chain can be cut off at any point before which nothing repeats. */
  lemma {:induction false} CycleAvoidsResolved(a: Table, n: string, c: seq<string>) returns (d: seq<string>)
    requires n in a && Resolve(a, Named(n), []).Resolved? && Chain(a, c) && Repeats(c)
    ensures d != [] && d <= c && Repeats(d) && forall i | 0 <= i < |d| :: d[i] != n
  {
    var i, j :| 0 <= i < j < |c| && c[i] == c[j];
    d := c[..j + 1];
    assert d[i] == d[j];
    forall k | 0 <= k < |d| ensures d[k] != n {
      if d[k] == n {
        // from n the cycle through c[i] could be reached
        var e := c[k..j + 1] + c[i + 1..j + 1] + c[i + 1..j + 1];
        CycleFrom(a, c, i, j, k);
        ResolvedAvoids(a, Named(n), [], e);
        assert false;
      }
    }
  }

  lemma {:induction false} CycleFrom(a: Table, c: seq<string>, i: nat, j: nat, k: nat)
    requires Chain(a, c) && i < j < |c| && c[i] == c[j] && k <= j
    ensures var e := c[k..j + 1] + c[i + 1..j + 1] + c[i + 1..j + 1];
      Chain(a, e) && Repeats(e) && e != [] && e[0] == c[k]
  {
    var p, q := c[k..j + 1], c[i + 1..j + 1];
    ChainSlice(a, c, k, j + 1);
    ChainSlice(a, c, i + 1, j + 1);
    assert p[|p| - 1] == c[i] && q[0] == c[i + 1] && q[|q| - 1] == c[i];
    assert q[0] in Mentions(a, a[c[i]]);
    ChainJoin(a, p, q);
    assert (p + q)[|p + q| - 1] == c[i];
    ChainJoin(a, p + q, q);
    var e := p + q + q;
    assert e[|p|] == q[0] && e[|p| + |q|] == q[0];
  }

  lemma {:induction false} ChainSlice(a: Table, c: seq<string>, i: nat, j: nat)
    requires Chain(a, c) && i <= j <= |c|
    ensures Chain(a, c[i..j])
  {
    var d := c[i..j];
    forall m | 0 <= m < |d| - 1 ensures d[m + 1] in Mentions(a, a[d[m]]) {
      assert c[i + m + 1] in Mentions(a, a[c[i + m]]);
    }
  }

  lemma {:induction false} ChainJoin(a: Table, c: seq<string>, d: seq<string>)
    requires Chain(a, c) && Chain(a, d) && c != [] && d != [] && d[0] in Mentions(a, a[c[|c| - 1]])
    ensures Chain(a, c + d)
  {
    var e := c + d;
    forall m | 0 <= m < |e| - 1 ensures e[m + 1] in Mentions(a, a[e[m]]) {
      if m < |c| - 1 {
        assert c[m + 1] in Mentions(a, a[c[m]]);
      } else if m >= |c| {
        assert d[m - |c| + 1] in Mentions(a, a[d[m - |c|]]);
      }
    }
  }

  /** Replacing an alias by its resolution changes the outcome of no type. */
  lemma {:induction false} ReplacementIsHarmless(a: Table, n: string, b: Table, t: Ty)
    requires Replaced(a, n, b)
    ensures Resolve(a, t, []).Resolved? ==> Resolve(b, t, []) == Resolve(a, t, [])
    ensures Resolve(a, t, []).Cyclic? ==> Resolve(b, t, []).Cyclic?
  {
    if Resolve(a, t, []).Resolved? {
      ReplacedResolves(a, n, b, t, []);
    } else {
      CyclicIffReached(a, t);
      var c :| c != [] && Chain(a, c) && c[0] in Mentions(a, t) && Repeats(c);
      var d := CycleAvoidsResolved(a, n, c);
      assert d == c[..|d|];
      forall i | 0 <= i < |d| - 1 ensures d[i + 1] in Mentions(a, a[d[i]]) { assert c[i + 1] in Mentions(a, a[c[i]]); }
      ChainSurvives(a, n, b, d);
      assert b.Keys == a.Keys;
      SameMentions(a, b, t);
      CyclicIffReached(b, t);
    }
  }

  // ----- the checker's table -----

  /** The table b gives every type the same outcome as a. */
  ghost predicate SameOutcomes(a: Table, b: Table)
  {
    a.Keys == b.Keys && forall t :: SameOutcome(Resolve(a, t, []), Resolve(b, t, []))
  }

  predicate SameOutcome(x: Outcome<Ty>, y: Outcome<Ty>)
  {
    if x.Resolved? then y == x else y.Cyclic?
  }

  class Aliases {
    var table: Table

    constructor (table: Table)
      ensures this.table == table
    {
      this.table := table;
    }

    /** The loop that overwrites the table name by name while later lookups already see the results:
        it fails exactly if some alias reaches a cycle, and otherwise holds for every alias what the
        original table resolves it to. */
    method ResolveTable(names: seq<string>) returns (ok: bool)
      requires forall n :: n in table <==> n in names
      modifies this
      ensures ok <==> forall n | n in old(table) :: !ReachesCycle(old(table), Named(n))
      ensures ok ==> table.Keys == old(table.Keys) && forall n | n in old(table) ::
        Resolve(old(table), Named(n), []) == Resolved(table[n]) && Mentions(table, table[n]) == {}
      ensures ok ==> SameOutcomes(old(table), table)
    {
      ghost var a := table;
      SameRefl(a);
      for i := 0 to |names|
        invariant SameOutcomes(a, table)
        invariant forall n | n in a :: table[n] == a[n] || Resolve(a, Named(n), []) == Resolved(table[n])
        invariant forall j | 0 <= j < i :: names[j] in a && Resolve(a, Named(names[j]), []) == Resolved(table[names[j]])
      {
        var n := names[i];
        assert n in a;
        var r := Resolve(table, Named(n), []);
        SameAt(a, table, Named(n));
        if r.Cyclic? {
          CyclicIffReached(a, Named(n));
          return false;
        }
        ghost var before := table;
        table := table[n := r.value];
        SameStep(a, before, n, table);
      }
      forall n | n in a ensures Resolve(a, Named(n), []) == Resolved(table[n]) && !ReachesCycle(a, Named(n)) && Mentions(table, table[n]) == {} {
        var j :| 0 <= j < |names| && names[j] == n;
        CyclicIffReached(a, Named(n));
        ResultIsFree(a, Named(n), []);
        SameMentions(a, table, table[n]);
      }
      ok := true;
    }
  }

  lemma {:induction false} SameRefl(a: Table)
    ensures SameOutcomes(a, a)
  {
  }

  lemma {:induction false} SameAt(a: Table, b: Table, t: Ty)
    requires SameOutcomes(a, b)
    ensures SameOutcome(Resolve(a, t, []), Resolve(b, t, []))
  {
  }

  lemma {:induction false} SameStep(a: Table, b: Table, n: string, c: Table)
    requires SameOutcomes(a, b) && Replaced(b, n, c)
    ensures SameOutcomes(a, c)
  {
    hide Resolve;
    assert c.Keys == b.Keys;
    forall t ensures SameOutcome(Resolve(a, t, []), Resolve(c, t, [])) {
      SameAt(a, b, t);
      ReplacementIsHarmless(b, n, c, t);
    }
  }
}
