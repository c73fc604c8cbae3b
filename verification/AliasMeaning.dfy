/** Resolving an alias changes what is written, never what is meant. */
module AliasMeaning {
  import opened AliasResolution

  /** What a type means, given what names mean and what the type constructors make of their parts. */
  function Meaning<M>(name: string -> M, build: (Shape, seq<M>) -> M, t: Ty): M
    decreases t, 1
  {
    match t
    case Named(n) => name(n)
    case Node(shape, parts) => build(shape, Meanings(name, build, parts))
  }

  function Meanings<M>(name: string -> M, build: (Shape, seq<M>) -> M, ts: seq<Ty>): (r: seq<M>)
    ensures |r| == |ts|
    decreases ts, 0
  {
    if ts == [] then [] else [Meaning(name, build, ts[0])] + Meanings(name, build, ts[1..])
  }

  /** Every alias means what its definition means. */
  predicate Respects<M(!new,==)>(a: Table, name: string -> M, build: (Shape, seq<M>) -> M)
  {
    forall n | n in a :: name(n) == Meaning(name, build, a[n])
  }

  /** In whatever way types are given a meaning that respects the aliases, a type and its resolution
      mean the same: no constructor, part or name is lost, added or moved. */
  lemma {:induction false} ResolutionMeansTheSame<M(!new)>(a: Table, t: Ty, stack: seq<string>, name: string -> M, build: (Shape, seq<M>) -> M)
    requires Respects(a, name, build) && Resolve(a, t, stack).Resolved?
    ensures Meaning(name, build, Resolve(a, t, stack).value) == Meaning(name, build, t)
    decreases a.Keys - OnStack(stack), t, 1
  {
    match t
    case Named(n) =>
      if n in a {
        FewerLeft(a, stack, n);
        ResolutionMeansTheSame(a, a[n], stack + [n], name, build);
      }
    case Node(_, parts) => AllMeanTheSame(a, parts, stack, name, build);
  }

  lemma {:induction false} AllMeanTheSame<M(!new)>(a: Table, ts: seq<Ty>, stack: seq<string>, name: string -> M, build: (Shape, seq<M>) -> M)
    requires Respects(a, name, build) && ResolveAll(a, ts, stack).Resolved?
    ensures Meanings(name, build, ResolveAll(a, ts, stack).value) == Meanings(name, build, ts)
    decreases a.Keys - OnStack(stack), ts, 0
  {
    if ts != [] {
      ResolutionMeansTheSame(a, ts[0], stack, name, build);
      AllMeanTheSame(a, ts[1..], stack, name, build);
      var rs := ResolveAll(a, ts, stack).value;
      assert rs[1..] == ResolveAll(a, ts[1..], stack).value;
    }
  }

  // ----- resolution is substitution -----

  function Put(done: Table): string -> Ty { n => if n in done then done[n] else Named(n) }

  function Build(): (Shape, seq<Ty>) -> Ty { (shape, parts) => Node(shape, parts) }

  /** The resolution of every alias there is. */
  ghost predicate ResolvesTo(a: Table, done: Table)
  {
    done.Keys == a.Keys && forall n | n in a :: Resolve(a, Named(n), []) == Resolved(done[n])
  }

  lemma {:induction false} ValueIsSubstituted(a: Table, done: Table, t: Ty, stack: seq<string>)
    requires ResolvesTo(a, done) && Resolve(a, t, stack).Resolved?
    ensures Resolve(a, t, stack).value == Meaning(Put(done), Build(), t)
    decreases t, 1
  {
    match t
    case Named(n) => StackIrrelevant(a, t, stack, []);
    case Node(_, parts) => ValuesAreSubstituted(a, done, parts, stack);
  }

  lemma {:induction false} ValuesAreSubstituted(a: Table, done: Table, ts: seq<Ty>, stack: seq<string>)
    requires ResolvesTo(a, done) && ResolveAll(a, ts, stack).Resolved?
    ensures ResolveAll(a, ts, stack).value == Meanings(Put(done), Build(), ts)
    decreases ts, 0
  {
    if ts != [] {
      ValueIsSubstituted(a, done, ts[0], stack);
      ValuesAreSubstituted(a, done, ts[1..], stack);
    }
  }

  /** Where every alias resolves, every type does: to itself, with its aliases replaced by what they
      resolve to. */
  lemma {:induction false} ResolutionIsSubstitution(a: Table, done: Table, t: Ty)
    requires ResolvesTo(a, done)
    ensures Resolve(a, t, []) == Resolved(Meaning(Put(done), Build(), t))
  {
    if Resolve(a, t, []).Resolved? {
      ValueIsSubstituted(a, done, t, []);
    } else {
      CyclicIffReached(a, t);
      var c :| c != [] && Chain(a, c) && c[0] in AliasResolution.Mentions(a, t) && Repeats(c);
      assert c[0] in a;
      CyclicIffReached(a, Named(c[0]));
      assert ReachesCycle(a, Named(c[0]));
    }
  }
}
