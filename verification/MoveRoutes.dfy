/** What the move checker accepts in statements. A statement list is taken apart into its routes: one
    branch of every `if`, one arm of every `match`, the body of every loop once. Each route is walked
    on its own, without snapshots and without merging. The checker accepts exactly when every route is
    fine, and then holds a binding as moved exactly when some route to the end has moved it. */
module MoveRoutes {
  import opened MortSyntax
  import opened CleanupLowering
  import opened CleanupProof
  import opened ReturnFlow
  import opened MoveAnalysis
  import opened CheckerFacts
  import opened MoveRules

  // ----- one step of a route -----

  datatype Event =
    | Holds(b: bool)                                     // a demand that no state can change
    | Writes(x: Name)                                    // an assignment to a plain name
    | Evaluates(e: Expr, plain: bool, d: nat)            // at loop depth d
    | Declares(x: Name, e: Expr, owner: bool, d: nat)    // a binding that holds the value of e
    | Inspects(subject: Expr, variants: nat)
    | Picks(subject: Expr, variants: nat, pattern: Option<nat>, binder: Option<Binder>)
    | Enters(own: seq<Info>)
    | Leaves

  type Route = seq<Event>

  /** The bindings, and where each open scope starts. */
  datatype Place = Place(c: seq<Info>, marks: seq<nat>)

  ghost predicate PlainName(c: seq<Info>, x: Name)
  {
    forall i: nat | Innermost(c, x, i) :: c[i].ty.None?
  }

  /** The innermost open scope has no binding of this name. */
  predicate NewName(s: Place, x: Name)
  {
    s.marks != [] && forall i: nat | s.marks[|s.marks| - 1] <= i < |s.c| :: s.c[i].name != x
  }

  ghost predicate EventOk(ev: Event, s: Place)
  {
    match ev
    case Holds(b) => b
    case Writes(x) => PlainName(s.c, x)
    case Evaluates(e, plain, d) => (plain ==> !YieldsOwner(e)) && Shaped(e) && UsesOk(Uses(e), s.c, d)
    case Declares(x, e, owner, _) => owner == TypeIn(e, s.c).Owns? && NewName(s, x)
    case Inspects(subject, variants) => SubjectFits(subject, TypeIn(subject, s.c), variants)
    case Picks(subject, variants, pattern, binder) => ArmFits(TypeIn(subject, s.c), variants, pattern, binder)
    case Enters(_) => true
    case Leaves => s.marks != []
  }

  /** The bindings with those marked as moved that the uses give away. */
  function Marked(us: seq<Use>, c: seq<Info>): (c1: seq<Info>)
    ensures After(us, c, c1)
  {
    seq(|c|, i requires 0 <= i < |c| =>
      c[i].(moved := c[i].moved || (Innermost(c, c[i].name, i) && Give(c[i].name) in us)))
  }

  function Next(ev: Event, s: Place): Place
  {
    match ev
    case Evaluates(e, _, _) => s.(c := Marked(Uses(e), s.c))
    case Declares(x, e, _, d) => s.(c := s.c + [Info(x, OwnedType(TypeIn(e, s.c)), false, d)])
    case Enters(own) => Place(s.c + own, s.marks + [|s.c|])
    case Leaves =>
      if s.marks == [] then s else Place(Keep(s.c, s.marks[|s.marks| - 1]), s.marks[..|s.marks| - 1])
    case _ => s
  }

  ghost predicate Fine(p: Route, s: Place)
  {
    p == [] || (EventOk(p[0], s) && Fine(p[1..], Next(p[0], s)))
  }

  function End(p: Route, s: Place): Place
  {
    if p == [] then s else End(p[1..], Next(p[0], s))
  }

  lemma {:induction false} WalkCat(p: Route, q: Route, s: Place)
    ensures Fine(p + q, s) <==> Fine(p, s) && Fine(q, End(p, s))
    ensures End(p + q, s) == End(q, End(p, s))
  {
    if p == [] {
      assert p + q == q;
    } else {
      assert (p + q)[1..] == p[1..] + q;
      WalkCat(p[1..], q, Next(p[0], s));
    }
  }

  lemma {:induction false} WalkOne(ev: Event, s: Place)
    ensures Fine([ev], s) <==> EventOk(ev, s)
    ensures End([ev], s) == Next(ev, s)
  {
    assert [ev][1..] == [];
    assert Fine([], Next(ev, s)) && End([], Next(ev, s)) == Next(ev, s);
  }

  // ----- the routes of a statement -----

  /** Those that reach the end of the statement, and those that do not. */
  datatype Routes = Routes(through: set<Route>, stopped: set<Route>)

  function Cat(a: set<Route>, b: set<Route>): set<Route>
  {
    set p <- a, q <- b :: p + q
  }

  function Only(ev: Event): Routes { Routes({[ev]}, {}) }

  function InTurn(a: Routes, b: Routes): Routes
  {
    Routes(Cat(a.through, b.through), a.stopped + Cat(a.through, b.stopped))
  }

  function Either(a: Routes, b: Routes): Routes
  {
    Routes(a.through + b.through, a.stopped + b.stopped)
  }

  /** A branch that always returns does not reach what follows. */
  function Branch(ended: bool, a: Routes): Routes
  {
    if ended then Routes({}, a.stopped + a.through) else a
  }

  /** When no branch goes on, what follows is checked as if the branches were not there. */
  function OrSkip(a: Routes): Routes
  {
    if a.through == {} then Routes({[]}, a.stopped) else a
  }

  /** No case is missing, and none stands behind a wildcard. */
  predicate ArmsOk(variants: nat, arms: Arms) { Covered(variants, arms) && WildcardLast(arms) }

  function StmtRoutes(s: Stmt, d: nat): Routes
    decreases s, 0
  {
    match s
    case Let(x, e, owner) => InTurn(Only(Evaluates(e, false, d)), Only(Declares(x, e, owner, d)))
    case Assign(x, e) => InTurn(Only(Writes(x)), Only(Evaluates(e, true, d)))
    case ExprStmt(e) => Only(Evaluates(e, true, d))
    case Return(None) => Only(Holds(true))
    case Return(Some(e)) => Only(Evaluates(e, false, d))
    case If(cond, thn, els) =>
      InTurn(Only(Evaluates(cond, true, d)),
        OrSkip(Either(Branch(AlwaysReturns(thn), ScopeRoutes(Enters([]), thn, d)), Branch(ElseReturns(els), ElseRoutes(els, d)))))
    case While(cond, body) => InTurn(Only(Evaluates(cond, true, d)), ScopeRoutes(Enters([]), body, d + 1))
    case For(x, lo, hi, _, body) =>
      InTurn(InTurn(Only(Evaluates(lo, true, d)), Only(Evaluates(hi, true, d))),
        ScopeRoutes(Enters([Info(x, None, false, 0)]), body, d + 1))
    case Block(body) => ScopeRoutes(Enters([]), body, d)
    case Break => Only(Holds(d > 0))
    case Continue => Only(Holds(d > 0))
    case Defer(e) => InTurn(Only(Holds(!HasTry(e))), Only(Evaluates(e, true, d)))
    case Match(subject, variants, arms) =>
      InTurn(InTurn(Only(Evaluates(subject, false, d)), InTurn(Only(Inspects(subject, variants)), Only(Holds(ArmsOk(variants, arms))))),
        OrSkip(ArmsRoutes(subject, variants, arms, d)))
  }

  function ListRoutes(ss: Stmts, d: nat): Routes
    decreases ss, 0
  {
    match ss
    case Done => Routes({[]}, {})
    case Then(s, rest) => InTurn(StmtRoutes(s, d), ListRoutes(rest, d))
  }

  function ScopeRoutes(enter: Event, body: Stmts, d: nat): Routes
    decreases body, 1
  {
    InTurn(InTurn(Only(enter), ListRoutes(body, d)), Only(Leaves))
  }

  function ElseRoutes(els: Else, d: nat): Routes
    decreases els, 0
  {
    match els
    case NoElse => Routes({[]}, {})
    case ElseBlock(body) => ScopeRoutes(Enters([]), body, d)
    case ElseIf(chained) => if chained.If? then StmtRoutes(chained, d) else Only(Holds(false))
  }

  function ArmsRoutes(subject: Expr, variants: nat, arms: Arms, d: nat): Routes
    decreases arms, 0
  {
    match arms
    case NoArms => Routes({}, {})
    case Arm(pattern, binder, body, rest) =>
      Either(Branch(AlwaysReturns(body),
          InTurn(Only(Picks(subject, variants, pattern, binder)), ScopeRoutes(Enters(BinderInfo(binder, d)), body, d))),
        ArmsRoutes(subject, variants, rest, d))
  }

  // ----- the state that stands for several -----

  /** A place whose flags say what any of the places says. */
  ghost predicate Joins(ps: set<Place>, s: Place)
  {
    && ps != {}
    && (forall p | p in ps :: p.marks == s.marks && Alike(p.c, s.c))
    && forall i: nat | i < |s.c| :: s.c[i].moved <==> exists p | p in ps :: i < |p.c| && p.c[i].moved
  }

  ghost predicate AllOk(ev: Event, ps: set<Place>) { forall p | p in ps :: EventOk(ev, p) }

  function Step(ev: Event, ps: set<Place>): set<Place> { set p <- ps :: Next(ev, p) }

  lemma {:induction false} AlikeSame(a: seq<Info>, b: seq<Info>, x: Name, e: Expr)
    requires Alike(a, b)
    ensures Lookup(a, x) == Lookup(b, x) && TypeIn(e, a) == TypeIn(e, b)
  {
    forall y ensures Lookup(a, y) == Lookup(b, y) {
      if Lookup(a, y) >= 0 { assert b[Lookup(a, y)].name == y; }
    }
  }

  /** A use is fine where the flags are joined exactly if it is fine in every place. */
  lemma {:induction false} UseOkJoins(us: seq<Use>, k: nat, ps: set<Place>, s: Place, d: nat)
    requires Joins(ps, s) && k < |us|
    ensures UseOk(us, k, s.c, d) <==> forall p | p in ps :: UseOk(us, k, p.c, d)
  {
    var q :| q in ps;
    if i: nat :| Innermost(s.c, us[k].x, i) {
      UseOkAt(us, k, s.c, i, d);
      forall p | p in ps ensures Innermost(p.c, us[k].x, i) && p.c[i] == s.c[i].(moved := p.c[i].moved) {
        AlikeInnermost(p.c, s.c, us[k].x, i);
      }
      forall p | p in ps { UseOkAt(us, k, p.c, i, d); }
      hide UseOk;
      assert s.c[i].moved <==> exists p | p in ps :: i < |p.c| && p.c[i].moved;
    } else {
      forall p | p in ps ensures UseOk(us, k, p.c, d) <==> us[k].Plain? {
        forall i: nat ensures !Innermost(p.c, us[k].x, i) { AlikeInnermost(p.c, s.c, us[k].x, i); }
      }
    }
  }

  lemma {:induction false} UseOkAt(us: seq<Use>, k: nat, c: seq<Info>, i: nat, d: nat)
    requires k < |us| && Innermost(c, us[k].x, i)
    ensures UseOk(us, k, c, d) <==>
      if us[k].Plain? then c[i].ty.None?
      else c[i].ty.Some? && !c[i].moved && Give(us[k].x) !in us[..k] && (us[k].Give? ==> c[i].depth >= d)
  {
    assert forall j: nat | Innermost(c, us[k].x, j) :: j == i;
  }

  lemma {:induction false} UsesOkJoins(us: seq<Use>, ps: set<Place>, s: Place, d: nat)
    requires Joins(ps, s)
    ensures UsesOk(us, s.c, d) <==> forall p | p in ps :: UsesOk(us, p.c, d)
  {
    hide UseOk;
    forall k: nat | k < |us| ensures UseOk(us, k, s.c, d) <==> forall p | p in ps :: UseOk(us, k, p.c, d) {
      UseOkJoins(us, k, ps, s, d);
    }
    if UsesOk(us, s.c, d) {
      forall p, k: nat | p in ps && k < |us| ensures UseOk(us, k, p.c, d) { assert UseOk(us, k, s.c, d); }
    } else {
      var k: nat :| k < |us| && !UseOk(us, k, s.c, d);
      var p :| p in ps && !UseOk(us, k, p.c, d);
      assert !UsesOk(us, p.c, d);
    }
  }

  lemma {:induction false} AlikeNames(p: Place, s: Place, x: Name)
    requires p.marks == s.marks && Alike(p.c, s.c)
    ensures PlainName(p.c, x) <==> PlainName(s.c, x)
    ensures NewName(p, x) <==> NewName(s, x)
  {
    forall i: nat ensures Innermost(p.c, x, i) <==> Innermost(s.c, x, i) { AlikeInnermost(p.c, s.c, x, i); }
    forall i: nat | i < |s.c| ensures p.c[i].name == s.c[i].name && p.c[i].ty == s.c[i].ty {
      assert p.c[i] == s.c[i].(moved := p.c[i].moved);
    }
  }

  lemma {:induction false} EventOkJoins(ev: Event, ps: set<Place>, s: Place)
    requires Joins(ps, s)
    ensures EventOk(ev, s) <==> AllOk(ev, ps)
  {
    var q :| q in ps;
    if ev.Evaluates? {
      UsesOkJoins(Uses(ev.e), ps, s, ev.d);
      EvaluatesOk(ev, s);
      forall p { EvaluatesOk(ev, p); }
      hide EventOk, UsesOk, Joins;
      if AllOk(ev, ps) {
        assert EventOk(ev, q);
        forall p | p in ps ensures UsesOk(Uses(ev.e), p.c, ev.d) { assert EventOk(ev, p); }
      }
      if EventOk(ev, s) { forall p | p in ps ensures EventOk(ev, p) {} }
    } else {
      forall p | p in ps ensures EventOk(ev, p) <==> EventOk(ev, s) { AlikeEventOk(ev, p, s); }
      hide EventOk;
      assert AllOk(ev, ps) ==> EventOk(ev, q);
    }
  }

  lemma {:induction false} EvaluatesOk(ev: Event, s: Place)
    requires ev.Evaluates?
    ensures EventOk(ev, s) <==> (ev.plain ==> !YieldsOwner(ev.e)) && Shaped(ev.e) && UsesOk(Uses(ev.e), s.c, ev.d)
  {
  }

  lemma {:induction false} AlikeEventOk(ev: Event, p: Place, s: Place)
    requires p.marks == s.marks && Alike(p.c, s.c) && !ev.Evaluates?
    ensures EventOk(ev, p) <==> EventOk(ev, s)
  {
    hide TypeIn, Alike, PlainName, NewName;
    match ev
    case Writes(x) => AlikeNames(p, s, x);
    case Declares(x, e, _, _) =>
      AlikeNames(p, s, x);
      AlikeSame(p.c, s.c, x, e);
    case Inspects(e, _) => AlikeSame(p.c, s.c, "", e);
    case Picks(e, _, _, _) => AlikeSame(p.c, s.c, "", e);
    case _ =>
  }

  lemma {:induction false} MarkedJoins(us: seq<Use>, ps: set<Place>, s: Place, i: nat)
    requires Joins(ps, s) && i < |s.c|
    ensures Marked(us, s.c)[i].moved <==> exists p | p in ps :: i < |p.c| && Marked(us, p.c)[i].moved
  {
    var x := s.c[i].name;
    forall p | p in ps ensures Alike(p.c, s.c) && p.c[i].name == x && (Innermost(p.c, x, i) <==> Innermost(s.c, x, i)) {
      AlikeInnermost(p.c, s.c, x, i);
    }
    var q :| q in ps;
    assert Marked(us, q.c)[i].moved <==> q.c[i].moved || (Innermost(s.c, x, i) && Give(x) in us);
  }

  lemma {:induction false} NextAlike(ev: Event, p: Place, s: Place)
    requires p.marks == s.marks && Alike(p.c, s.c)
    ensures Next(ev, p).marks == Next(ev, s).marks && Alike(Next(ev, p).c, Next(ev, s).c)
  {
    match ev
    case Declares(x, e, _, _) => AlikeSame(p.c, s.c, x, e);
    case _ =>
  }

  lemma {:induction false} NextFlag(ev: Event, p: Place, i: nat)
    requires i < |Next(ev, p).c|
    ensures ev.Evaluates? ==> i < |p.c| && Next(ev, p).c[i].moved == Marked(Uses(ev.e), p.c)[i].moved
    ensures ev.Enters? && i >= |p.c| ==> i < |p.c| + |ev.own| && Next(ev, p).c[i].moved == ev.own[i - |p.c|].moved
    ensures !ev.Evaluates? && !(ev.Enters? && i >= |p.c|) ==> (Next(ev, p).c[i].moved <==> i < |p.c| && p.c[i].moved)
  {
  }

  lemma {:induction false} NextJoins(ev: Event, ps: set<Place>, s: Place)
    requires Joins(ps, s)
    ensures Joins(Step(ev, ps), Next(ev, s))
  {
    var q :| q in ps;
    var qs, t := Step(ev, ps), Next(ev, s);
    assert Next(ev, q) in qs;
    forall r | r in qs ensures r.marks == t.marks && Alike(r.c, t.c) {
      var p :| p in ps && r == Next(ev, p);
      NextAlike(ev, p, s);
    }
    forall i: nat | i < |t.c| ensures t.c[i].moved <==> exists r | r in qs :: i < |r.c| && r.c[i].moved {
      FlagJoins(ev, ps, s, i);
      if r :| r in qs && i < |r.c| && r.c[i].moved {
        var p :| p in ps && r == Next(ev, p);
      }
      if p :| p in ps && i < |Next(ev, p).c| && Next(ev, p).c[i].moved {
        assert Next(ev, p) in qs;
      }
    }
  }

  lemma {:induction false} FlagJoins(ev: Event, ps: set<Place>, s: Place, i: nat)
    requires Joins(ps, s) && i < |Next(ev, s).c|
    ensures Next(ev, s).c[i].moved <==> exists p | p in ps :: i < |Next(ev, p).c| && Next(ev, p).c[i].moved
  {
    NextFlag(ev, s, i);
    forall p | p in ps ensures |p.c| == |s.c| && |Next(ev, p).c| == |Next(ev, s).c| {
      NextAlike(ev, p, s);
    }
    forall p | p in ps ensures i < |Next(ev, p).c| { }
    forall p | p in ps { NextFlag(ev, p, i); }
    if ev.Evaluates? { MarkedJoins(Uses(ev.e), ps, s, i); }
    var q :| q in ps;
    hide Next;
    if i < |s.c| {
      assert s.c[i].moved <==> exists p | p in ps :: i < |p.c| && p.c[i].moved;
    }
  }

  // ----- whole routes -----

  ghost predicate AllFine(p: Route, ps: set<Place>) { forall s | s in ps :: Fine(p, s) }

  function Ends(p: Route, ps: set<Place>): set<Place> { set s <- ps :: End(p, s) }

  lemma {:induction false} WalkJoins(p: Route, ps: set<Place>, s: Place)
    requires Joins(ps, s)
    ensures Fine(p, s) <==> AllFine(p, ps)
    ensures Joins(Ends(p, ps), End(p, s))
  {
    hide Joins, EventOk, Next;
    if p == [] {
      assert Ends(p, ps) == ps;
    } else {
      var ev, rest := p[0], p[1..];
      EventOkJoins(ev, ps, s);
      NextJoins(ev, ps, s);
      WalkJoins(rest, Step(ev, ps), Next(ev, s));
      assert Ends(rest, Step(ev, ps)) == Ends(p, ps) by {
        forall t | t in ps ensures End(p, t) == End(rest, Next(ev, t)) {}
        forall r | r in Ends(p, ps) ensures r in Ends(rest, Step(ev, ps)) {
          var t :| t in ps && r == End(p, t);
          assert Next(ev, t) in Step(ev, ps);
        }
      }
      if AllFine(p, ps) {
        forall t | t in Step(ev, ps) ensures Fine(rest, t) {
          var u :| u in ps && t == Next(ev, u);
          assert Fine(p, u);
        }
      }
      if AllOk(ev, ps) && AllFine(rest, Step(ev, ps)) {
        forall u | u in ps ensures Fine(p, u) { assert Next(ev, u) in Step(ev, ps); }
      }
    }
  }

  // ----- what the checker says and what the routes say -----

  function EndsOf(rs: set<Route>, s: Place): set<Place> { set p <- rs :: End(p, s) }

  ghost predicate FineAll(rs: set<Route>, s: Place) { forall p | p in rs :: Fine(p, s) }

  /** Where the checker is after the routes that go through, None where there is no such route. */
  type Verdict = Checked<Option<Place>>

  ghost predicate Agrees(r: Verdict, rs: Routes, s: Place)
  {
    && (r.Accepted? <==> FineAll(rs.through, s) && FineAll(rs.stopped, s))
    && (r.Accepted? ==>
        && (r.value.None? <==> rs.through == {})
        && (r.value.Some? ==> Joins(EndsOf(rs.through, s), r.value.value)))
  }

  function At(r: Checked<seq<Info>>, marks: seq<nat>): Verdict
  {
    if r.Rejected? then Rejected else Accepted(Some(Place(r.value, marks)))
  }

  lemma {:induction false} OneAgrees(ev: Event, s: Place, r: Verdict)
    requires r == Rejected || r == Accepted(Some(Next(ev, s)))
    requires r.Accepted? <==> EventOk(ev, s)
    ensures Agrees(r, Only(ev), s)
  {
    hide EventOk, Next;
    WalkOne(ev, s);
    hide Fine, End;
    var rs := Only(ev);
    assert FineAll(rs.through, s) <==> Fine([ev], s) by {
      if Fine([ev], s) { forall p | p in rs.through ensures Fine(p, s) { assert p == [ev]; } }
      assert [ev] in rs.through;
    }
    assert EndsOf(rs.through, s) == {Next(ev, s)};
    AloneJoins(Next(ev, s));
  }

  lemma {:induction false} AloneJoins(s: Place)
    ensures Joins({s}, s)
  {
    forall p | p in {s} ensures p.marks == s.marks && Alike(p.c, s.c) { assert p == s; }
    forall i: nat | i < |s.c| ensures s.c[i].moved <==> exists p | p in {s} :: i < |p.c| && p.c[i].moved {
      if s.c[i].moved { assert s in {s}; }
    }
  }

  lemma {:induction false} NothingAgrees(s: Place)
    ensures Agrees(Accepted(Some(s)), Routes({[]}, {}), s)
  {
    assert Fine([], s) && End([], s) == s;
    assert EndsOf({[]}, s) == {s};
    AloneJoins(s);
  }

  // one thing after another

  lemma {:induction false} InTurnAgrees(r1: Verdict, a: Routes, r2: Verdict, b: Routes, s: Place)
    requires Agrees(r1, a, s) && a.through != {} && b.through != {}
    requires r1.Accepted? ==> Agrees(r2, b, r1.value.value)
    ensures Agrees(if r1.Accepted? then r2 else Rejected, InTurn(a, b), s)
  {
    hide Joins;
    if r1.Accepted? {
      var m := r1.value.value;
      CatFine(a.through, b.through, s, m);
      CatFine(a.through, b.stopped, s, m);
      CatNone(a.through, b.through);
      FineUnion(a.stopped, Cat(a.through, b.stopped), s);
      if r2.Accepted? { CatEnds(a.through, b.through, s, m, r2.value.value); }
    } else {
      FineUnion(a.stopped, Cat(a.through, b.stopped), s);
      if FineAll(Cat(a.through, b.through), s) { CatFineFirst(a.through, b.through, s); }
    }
  }

  lemma {:induction false} CatNone(a: set<Route>, b: set<Route>)
    requires a != {} && b != {}
    ensures Cat(a, b) != {}
  {
    var p :| p in a;
    var q :| q in b;
    assert p + q in Cat(a, b);
  }

  lemma {:induction false} FineUnion(a: set<Route>, b: set<Route>, s: Place)
    ensures FineAll(a + b, s) <==> FineAll(a, s) && FineAll(b, s)
  {
  }

  lemma {:induction false} CatFineFirst(a: set<Route>, b: set<Route>, s: Place)
    requires b != {} && FineAll(Cat(a, b), s)
    ensures FineAll(a, s)
  {
    var q :| q in b;
    forall p | p in a ensures Fine(p, s) {
      assert p + q in Cat(a, b);
      WalkCat(p, q, s);
    }
  }

  lemma {:induction false} CatFine(a: set<Route>, b: set<Route>, s: Place, m: Place)
    requires FineAll(a, s) && Joins(EndsOf(a, s), m)
    ensures FineAll(Cat(a, b), s) <==> FineAll(b, m)
  {
    hide Joins, Fine, End;
    if FineAll(Cat(a, b), s) {
      forall q | q in b ensures Fine(q, m) {
        forall t | t in EndsOf(a, s) ensures Fine(q, t) {
          var p :| p in a && t == End(p, s);
          assert p + q in Cat(a, b);
          WalkCat(p, q, s);
        }
        WalkJoins(q, EndsOf(a, s), m);
      }
    }
    if FineAll(b, m) {
      forall r | r in Cat(a, b) ensures Fine(r, s) {
        var p, q :| p in a && q in b && r == p + q;
        WalkJoins(q, EndsOf(a, s), m);
        assert End(p, s) in EndsOf(a, s);
        WalkCat(p, q, s);
      }
    }
  }

  lemma {:induction false} CatEnds(a: set<Route>, b: set<Route>, s: Place, m: Place, t: Place)
    requires Joins(EndsOf(a, s), m) && Joins(EndsOf(b, m), t)
    ensures Joins(EndsOf(Cat(a, b), s), t)
  {
    hide Fine, End, Joins;
    var groups := set q <- b :: (Ends(q, EndsOf(a, s)), End(q, m));
    forall g | g in groups ensures Joins(g.0, g.1) {
      var q :| q in b && g == (Ends(q, EndsOf(a, s)), End(q, m));
      WalkJoins(q, EndsOf(a, s), m);
    }
    assert (set g <- groups :: g.1) == EndsOf(b, m) by {
      forall u | u in EndsOf(b, m) ensures u in (set g <- groups :: g.1) {
        var q :| q in b && u == End(q, m);
        assert (Ends(q, EndsOf(a, s)), End(q, m)) in groups;
      }
    }
    var qs := EndsOf(Cat(a, b), s);
    forall u | u in qs ensures exists g | g in groups :: u in g.0 {
      var p, q :| p in a && q in b && u == End(p + q, s);
      WalkCat(p, q, s);
      assert End(p, s) in EndsOf(a, s) && (Ends(q, EndsOf(a, s)), End(q, m)) in groups;
    }
    forall g, u | g in groups && u in g.0 ensures u in qs {
      var q :| q in b && g == (Ends(q, EndsOf(a, s)), End(q, m));
      var e :| e in EndsOf(a, s) && u == End(q, e);
      var p :| p in a && e == End(p, s);
      WalkCat(p, q, s);
      assert p + q in Cat(a, b);
    }
    TwiceJoined(groups, qs, t);
  }

  /** A join of joins is the join of everything. */
  lemma {:induction false} TwiceJoined(groups: set<(set<Place>, Place)>, qs: set<Place>, t: Place)
    requires forall g | g in groups :: Joins(g.0, g.1)
    requires Joins(set g <- groups :: g.1, t)
    requires forall u | u in qs :: exists g | g in groups :: u in g.0
    requires forall g, u | g in groups && u in g.0 :: u in qs
    ensures Joins(qs, t)
  {
    var heads := set g <- groups :: g.1;
    forall g, u | g in groups && u in g.0 ensures u.marks == t.marks && Alike(u.c, t.c) {
      assert g.1 in heads;
      AlikeTrans(u.c, g.1.c, t.c);
    }
    var head :| head in heads;
    var g :| g in groups && g.1 == head;
    var q :| q in g.0;
    assert q in qs;
    hide Alike;
    forall i: nat | i < |t.c| ensures t.c[i].moved <==> exists u | u in qs :: i < |u.c| && u.c[i].moved {
      FlagTwice(groups, qs, t, i);
    }
  }

  lemma {:induction false} FlagTwice(groups: set<(set<Place>, Place)>, qs: set<Place>, t: Place, i: nat)
    requires forall g | g in groups :: Joins(g.0, g.1)
    requires Joins(set g <- groups :: g.1, t)
    requires forall u | u in qs :: exists g | g in groups :: u in g.0
    requires forall g, u | g in groups && u in g.0 :: u in qs
    requires i < |t.c|
    ensures t.c[i].moved <==> exists u | u in qs :: i < |u.c| && u.c[i].moved
  {
    var heads := set g <- groups :: g.1;
    if t.c[i].moved {
      var f :| f in heads && i < |f.c| && f.c[i].moved;
      var g :| g in groups && f == g.1;
      var u :| u in g.0 && i < |u.c| && u.c[i].moved;
      assert u in qs;
    }
    if u :| u in qs && i < |u.c| && u.c[i].moved {
      var g :| g in groups && u in g.0;
      assert Alike(u.c, g.1.c) && g.1 in heads;
      assert g.1.c[i].moved;
    }
  }

  lemma {:induction false} AlikeTrans(a: seq<Info>, b: seq<Info>, c: seq<Info>)
    requires Alike(a, b) && Alike(b, c)
    ensures Alike(a, c)
  {
    forall i | 0 <= i < |a| ensures a[i] == c[i].(moved := a[i].moved) {
      assert a[i] == b[i].(moved := a[i].moved) && b[i] == c[i].(moved := b[i].moved);
    }
  }

  // branches

  function Merged(a: Option<Place>, b: Option<Place>): Option<Place>
  {
    if a.None? then b else if b.None? then a else Some(a.value.(c := Merge(a.value.c, b.value.c)))
  }

  lemma {:induction false} EitherAgrees(r1: Verdict, a: Routes, r2: Verdict, b: Routes, s: Place)
    requires Agrees(r1, a, s) && Agrees(r2, b, s)
    requires r1.Accepted? && r2.Accepted? && r1.value.Some? && r2.value.Some? ==>
      r1.value.value.marks == r2.value.value.marks && Alike(r1.value.value.c, r2.value.value.c)
    ensures Agrees(if r1.Accepted? && r2.Accepted? then Accepted(Merged(r1.value, r2.value)) else Rejected, Either(a, b), s)
  {
    FineUnion(a.through, b.through, s);
    FineUnion(a.stopped, b.stopped, s);
    assert EndsOf(a.through + b.through, s) == EndsOf(a.through, s) + EndsOf(b.through, s);
    if r1.Accepted? && r2.Accepted? {
      if a.through == {} {
        assert a.through + b.through == b.through;
      } else if b.through == {} {
        assert a.through + b.through == a.through;
      } else {
        BothJoin(EndsOf(a.through, s), r1.value.value, EndsOf(b.through, s), r2.value.value);
      }
    }
  }

  lemma {:induction false} BothJoin(ps: set<Place>, s: Place, qs: set<Place>, t: Place)
    requires Joins(ps, s) && Joins(qs, t) && s.marks == t.marks && Alike(s.c, t.c)
    ensures Joins(ps + qs, s.(c := Merge(s.c, t.c)))
  {
    var u := s.(c := Merge(s.c, t.c));
    MergeIs(s.c, t.c);
    assert Alike(s.c, u.c);
    assert Alike(t.c, u.c) by {
      forall i | 0 <= i < |t.c| ensures t.c[i] == u.c[i].(moved := t.c[i].moved) {
        assert s.c[i] == t.c[i].(moved := s.c[i].moved);
      }
    }
    var q :| q in ps;
    assert q in ps + qs;
    forall p | p in ps + qs ensures p.marks == u.marks && Alike(p.c, u.c) {
      if p in ps { AlikeTrans(p.c, s.c, u.c); } else { AlikeTrans(p.c, t.c, u.c); }
    }
    forall i: nat | i < |u.c| ensures u.c[i].moved <==> exists p | p in ps + qs :: i < |p.c| && p.c[i].moved {
      if s.c[i].moved { var p :| p in ps && i < |p.c| && p.c[i].moved; assert p in ps + qs; }
      if t.c[i].moved { var p :| p in qs && i < |p.c| && p.c[i].moved; assert p in ps + qs; }
    }
  }

  lemma {:induction false} BranchAgrees(ended: bool, r: Verdict, a: Routes, s: Place)
    requires Agrees(r, a, s)
    ensures Agrees(if ended && r.Accepted? then Accepted(None) else r, Branch(ended, a), s)
  {
    FineUnion(a.stopped, a.through, s);
  }

  lemma {:induction false} OrSkipAgrees(r: Verdict, a: Routes, s: Place)
    requires Agrees(r, a, s)
    ensures Agrees(if r.Accepted? && r.value.None? then Accepted(Some(s)) else r, OrSkip(a), s)
  {
    if a.through == {} { NothingAgrees(s); }
  }

  // ----- the checker -----

  function Bindings(r: Checked<Typed>): Checked<seq<Info>>
  {
    if r.Rejected? then Rejected else Accepted(r.value.ctx)
  }

  lemma {:induction false} EvaluatesAgrees(e: Expr, plain: bool, c: seq<Info>, d: nat, m: seq<nat>)
    ensures var r := if plain then PlainOnly(CheckExpr(e, c, d)) else CheckExpr(e, c, d);
      Agrees(At(Bindings(r), m), Only(Evaluates(e, plain, d)), Place(c, m))
  {
    var ev, s := Evaluates(e, plain, d), Place(c, m);
    ExprAcceptedIff(e, c, d);
    OperandJudged(e, c, d);
    var r := if plain then PlainOnly(CheckExpr(e, c, d)) else CheckExpr(e, c, d);
    EvaluatesOk(ev, s);
    if r.Accepted? { AfterIsMarked(Uses(e), c, r.value.ctx); }
    hide CheckExpr, PlainOnly, EventOk, Agrees, Uses, Shaped, UsesOk, Marked;
    OneAgrees(ev, s, At(Bindings(r), m));
  }

  lemma {:induction false} AfterIsMarked(us: seq<Use>, c: seq<Info>, c1: seq<Info>)
    requires After(us, c, c1)
    ensures c1 == Marked(us, c)
  {
  }

  lemma {:induction false} HoldsAgrees(b: bool, c: seq<Info>, m: seq<nat>)
    ensures Agrees(if b then Accepted(Some(Place(c, m))) else Rejected, Only(Holds(b)), Place(c, m))
  {
    hide Agrees;
    OneAgrees(Holds(b), Place(c, m), if b then Accepted(Some(Place(c, m))) else Rejected);
  }

  lemma {:induction false} PlainIsPlainName(c: seq<Info>, x: Name)
    ensures IsPlain(c, x) <==> PlainName(c, x)
  {
    forall i: nat ensures Innermost(c, x, i) <==> Lookup(c, x) == i { InnermostIsLookup(c, x, i); }
  }

  lemma {:induction false} LetAgrees(x: Name, e: Expr, owner: bool, c: seq<Info>, start: nat, d: nat, m: seq<nat>)
    requires m != [] && m[|m| - 1] == start
    ensures var s := Let(x, e, owner); Agrees(At(CheckStmt(s, c, start, d), m), StmtRoutes(s, d), Place(c, m))
  {
    EvaluatesAgrees(e, false, c, d, m);
    var r := CheckExpr(e, c, d);
    var ev := Declares(x, e, owner, d);
    var r2: Verdict := Rejected;
    if r.Accepted? {
      DeclaresOk(x, e, owner, c, d, m);
      r2 := if EventOk(ev, Place(r.value.ctx, m)) then Accepted(Some(Next(ev, Place(r.value.ctx, m)))) else Rejected;
      OneAgrees(ev, Place(r.value.ctx, m), r2);
    }
    hide CheckExpr, Agrees, Fresh, EventOk;
    InTurnAgrees(At(Bindings(r), m), Only(Evaluates(e, false, d)), r2, Only(ev), Place(c, m));
  }

  lemma {:induction false} DeclaresOk(x: Name, e: Expr, owner: bool, c: seq<Info>, d: nat, m: seq<nat>)
    requires m != [] && CheckExpr(e, c, d).Accepted?
    ensures var t := CheckExpr(e, c, d).value; var ev, s := Declares(x, e, owner, d), Place(t.ctx, m);
      && (EventOk(ev, s) <==> Fresh(c, m[|m| - 1], x) && owner == t.ty.Owns?)
      && Next(ev, s) == Place(t.ctx + [Info(x, OwnedType(t.ty), false, d)], m)
  {
    var t := CheckExpr(e, c, d).value;
    ExprAcceptedIff(e, c, d);
    AfterIsAlike(Uses(e), c, t.ctx);
    hide CheckExpr;
    FreshAfter(x, e, owner, c, t.ctx, d, m);
  }

  lemma {:induction false} FreshAfter(x: Name, e: Expr, owner: bool, c: seq<Info>, c1: seq<Info>, d: nat, m: seq<nat>)
    requires m != [] && Alike(c1, c)
    ensures var ev, s := Declares(x, e, owner, d), Place(c1, m);
      && (EventOk(ev, s) <==> Fresh(c, m[|m| - 1], x) && owner == TypeIn(e, c).Owns?)
      && Next(ev, s) == Place(c1 + [Info(x, OwnedType(TypeIn(e, c)), false, d)], m)
  {
    AlikeSame(c1, c, x, e);
    AlikeNames(Place(c1, m), Place(c, m), x);
  }

  lemma {:induction false} InTurnThrough(a: Routes, b: Routes)
    requires a.through != {} && b.through != {}
    ensures InTurn(a, b).through != {}
  {
    CatNone(a.through, b.through);
  }

  predicate Starts(m: seq<nat>, start: nat) { m != [] && m[|m| - 1] == start }

  /** The checker accepts a statement exactly when every one of its routes is fine, and goes on from
      the join of those that get through. */
  lemma {:induction false} StmtAcceptedIff(s: Stmt, c: seq<Info>, start: nat, d: nat, m: seq<nat>)
    requires Starts(m, start)
    ensures StmtRoutes(s, d).through != {}
    ensures Agrees(At(CheckStmt(s, c, start, d), m), StmtRoutes(s, d), Place(c, m))
    decreases s, 0
  {
    hide CheckExpr, Agrees, AlwaysReturns, ElseReturns, HasTry;
    var p := Place(c, m);
    match s
    case Let(x, e, owner) =>
      LetAgrees(x, e, owner, c, start, d, m);
      InTurnThrough(Only(Evaluates(e, false, d)), Only(Declares(x, e, owner, d)));
    case Assign(x, e) => AssignAgrees(x, e, c, start, d, m);
    case ExprStmt(e) => EvaluatesAgrees(e, true, c, d, m);
    case Return(None) => HoldsAgrees(true, c, m);
    case Return(Some(e)) => EvaluatesAgrees(e, false, c, d, m);
    case If(cond, thn, els) =>
      EvaluatesAgrees(cond, true, c, d, m);
      var t := PlainOnly(CheckExpr(cond, c, d));
      var rs := Either(Branch(AlwaysReturns(thn), ScopeRoutes(Enters([]), thn, d)), Branch(ElseReturns(els), ElseRoutes(els, d)));
      var r: Verdict := Rejected;
      if t.Accepted? {
        var c1 := t.value.ctx;
        ScopeAcceptedIff([], thn, c1, d, m);
        ElseAcceptedIff(els, c1, start, d, m);
        BranchesAgree(thn, els, c1, start, d, m);
        r := At(AfterBranches(thn, els, c1, start, d), m);
      }
      InTurnAgrees(At(Bindings(t), m), Only(Evaluates(cond, true, d)), r, OrSkip(rs), p);
      InTurnThrough(Only(Evaluates(cond, true, d)), OrSkip(rs));
    case While(cond, body) =>
      EvaluatesAgrees(cond, true, c, d, m);
      var t := PlainOnly(CheckExpr(cond, c, d));
      var r: Verdict := Rejected;
      ScopeAcceptedIff([], body, c, d + 1, m);
      if t.Accepted? {
        ScopeAcceptedIff([], body, t.value.ctx, d + 1, m);
        r := At(CheckScope(body, t.value.ctx, [], d + 1), m);
      }
      InTurnAgrees(At(Bindings(t), m), Only(Evaluates(cond, true, d)), r, ScopeRoutes(Enters([]), body, d + 1), p);
      InTurnThrough(Only(Evaluates(cond, true, d)), ScopeRoutes(Enters([]), body, d + 1));
    case For(x, lo, hi, inclusive, body) => ForAcceptedIff(x, lo, hi, inclusive, body, c, start, d, m);
    case Block(body) => ScopeAcceptedIff([], body, c, d, m);
    case Break => HoldsAgrees(d > 0, c, m);
    case Continue => HoldsAgrees(d > 0, c, m);
    case Defer(e) =>
      HoldsAgrees(!HasTry(e), c, m);
      EvaluatesAgrees(e, true, c, d, m);
      InTurnAgrees(if HasTry(e) then Rejected else Accepted(Some(p)), Only(Holds(!HasTry(e))),
        At(Bindings(PlainOnly(CheckExpr(e, c, d))), m), Only(Evaluates(e, true, d)), p);
      InTurnThrough(Only(Holds(!HasTry(e))), Only(Evaluates(e, true, d)));
    case Match(subject, variants, arms) =>
      MatchHead(subject, variants, arms, c, d, m);
      var r1 := MatchStarts(subject, variants, arms, c, d, m);
      var head := MatchRoutes(subject, variants, arms, d);
      var r2: Verdict := Rejected;
      if r1.Accepted? {
        var c1 := r1.value.value.c;
        ArmsAcceptedIff(subject, variants, arms, c1, d, m);
        var r := ArmsVerdict(subject, variants, arms, c1, d, m);
        OrSkipAgrees(r, ArmsRoutes(subject, variants, arms, d), Place(c1, m));
        r2 := if r.Accepted? && r.value.None? then Accepted(Some(Place(c1, m))) else r;
      }
      InTurnAgrees(r1, head, r2, OrSkip(ArmsRoutes(subject, variants, arms, d)), p);
      InTurnThrough(head, OrSkip(ArmsRoutes(subject, variants, arms, d)));
  }

  lemma {:induction false} AssignAgrees(x: Name, e: Expr, c: seq<Info>, start: nat, d: nat, m: seq<nat>)
    ensures var s := Assign(x, e);
      StmtRoutes(s, d).through != {} && Agrees(At(CheckStmt(s, c, start, d), m), StmtRoutes(s, d), Place(c, m))
  {
    hide CheckExpr, Agrees, IsPlain, PlainName;
    var p := Place(c, m);
    PlainIsPlainName(c, x);
    var r1: Verdict := if IsPlain(c, x) then Accepted(Some(p)) else Rejected;
    OneAgrees(Writes(x), p, r1);
    EvaluatesAgrees(e, true, c, d, m);
    InTurnAgrees(r1, Only(Writes(x)), At(Bindings(PlainOnly(CheckExpr(e, c, d))), m), Only(Evaluates(e, true, d)), p);
    InTurnThrough(Only(Writes(x)), Only(Evaluates(e, true, d)));
  }

  lemma {:induction false} ListAcceptedIff(ss: Stmts, c: seq<Info>, start: nat, d: nat, m: seq<nat>)
    requires Starts(m, start)
    ensures ListRoutes(ss, d).through != {}
    ensures Agrees(At(CheckStmts(ss, c, start, d), m), ListRoutes(ss, d), Place(c, m))
    decreases ss, 0
  {
    hide Agrees, CheckStmt, StmtRoutes;
    match ss
    case Done => NothingAgrees(Place(c, m));
    case Then(s, rest) =>
      StmtAcceptedIff(s, c, start, d, m);
      var r1 := CheckStmt(s, c, start, d);
      var r2: Verdict := Rejected;
      ListAcceptedIff(rest, c, start, d, m);
      if r1.Accepted? {
        ListAcceptedIff(rest, r1.value, start, d, m);
        r2 := At(CheckStmts(rest, r1.value, start, d), m);
      }
      InTurnAgrees(At(r1, m), StmtRoutes(s, d), r2, ListRoutes(rest, d), Place(c, m));
      InTurnThrough(StmtRoutes(s, d), ListRoutes(rest, d));
  }

  lemma {:induction false} ScopeAcceptedIff(own: seq<Info>, body: Stmts, c: seq<Info>, d: nat, m: seq<nat>)
    ensures ScopeRoutes(Enters(own), body, d).through != {}
    ensures Agrees(At(CheckScope(body, c, own, d), m), ScopeRoutes(Enters(own), body, d), Place(c, m))
    decreases body, 1
  {
    hide Agrees, CheckStmts, ListRoutes;
    var p, p1 := Place(c, m), Place(c + own, m + [|c|]);
    var enter: Verdict := Accepted(Some(p1));
    OneAgrees(Enters(own), p, enter);
    ListAcceptedIff(body, c + own, |c|, d, m + [|c|]);
    var r := CheckStmts(body, c + own, |c|, d);
    var inside := ListRoutes(body, d);
    InTurnAgrees(enter, Only(Enters(own)), At(r, m + [|c|]), inside, p);
    InTurnThrough(Only(Enters(own)), inside);
    var leave: Verdict := Rejected;
    if r.Accepted? {
      assert (m + [|c|])[..|m|] == m;
      leave := Accepted(Some(Place(Keep(r.value, |c|), m)));
      OneAgrees(Leaves, Place(r.value, m + [|c|]), leave);
    }
    InTurnAgrees(At(r, m + [|c|]), InTurn(Only(Enters(own)), inside), leave, Only(Leaves), p);
    InTurnThrough(InTurn(Only(Enters(own)), inside), Only(Leaves));
  }

  lemma {:induction false} ElseAcceptedIff(els: Else, c: seq<Info>, start: nat, d: nat, m: seq<nat>)
    requires Starts(m, start)
    ensures ElseRoutes(els, d).through != {}
    ensures Agrees(At(CheckElse(els, c, start, d), m), ElseRoutes(els, d), Place(c, m))
    decreases els, 0
  {
    hide Agrees;
    match els
    case NoElse => NothingAgrees(Place(c, m));
    case ElseBlock(body) => ScopeAcceptedIff([], body, c, d, m);
    case ElseIf(chained) => if chained.If? { StmtAcceptedIff(chained, c, start, d, m); } else { HoldsAgrees(false, c, m); }
  }

  function AfterBranches(thn: Stmts, els: Else, c: seq<Info>, start: nat, d: nat): Checked<seq<Info>>
  {
    var a :- CheckScope(thn, c, [], d);
    var b :- CheckElse(els, c, start, d);
    Accepted(Join(c, a, AlwaysReturns(thn), b, ElseReturns(els)))
  }

  lemma {:induction false} BranchesAgree(thn: Stmts, els: Else, c: seq<Info>, start: nat, d: nat, m: seq<nat>)
    requires Agrees(At(CheckScope(thn, c, [], d), m), ScopeRoutes(Enters([]), thn, d), Place(c, m))
    requires Agrees(At(CheckElse(els, c, start, d), m), ElseRoutes(els, d), Place(c, m))
    ensures Agrees(At(AfterBranches(thn, els, c, start, d), m),
      OrSkip(Either(Branch(AlwaysReturns(thn), ScopeRoutes(Enters([]), thn, d)), Branch(ElseReturns(els), ElseRoutes(els, d)))), Place(c, m))
  {
    var a, b, p := CheckScope(thn, c, [], d), CheckElse(els, c, start, d), Place(c, m);
    var thenRoutes, elseRoutes := ScopeRoutes(Enters([]), thn, d), ElseRoutes(els, d);
    if a.Accepted? && b.Accepted? {
      CheckScopeGrows(thn, c, [], d);
      CheckElseGrows(els, c, start, d);
      GrownAlike(c, a.value, b.value, d);
    }
    hide Agrees, CheckScope, CheckElse, AlwaysReturns, ElseReturns, ScopeRoutes, ElseRoutes;
    BranchAgrees(AlwaysReturns(thn), At(a, m), thenRoutes, p);
    BranchAgrees(ElseReturns(els), At(b, m), elseRoutes, p);
    var ra: Verdict := if AlwaysReturns(thn) && a.Accepted? then Accepted(None) else At(a, m);
    var rb: Verdict := if ElseReturns(els) && b.Accepted? then Accepted(None) else At(b, m);
    var x, y := Branch(AlwaysReturns(thn), thenRoutes), Branch(ElseReturns(els), elseRoutes);
    EitherAgrees(ra, x, rb, y, p);
    OrSkipAgrees(if ra.Accepted? && rb.Accepted? then Accepted(Merged(ra.value, rb.value)) else Rejected, Either(x, y), p);
  }

  lemma {:induction false} GrownAlike(c: seq<Info>, a: seq<Info>, b: seq<Info>, d: nat)
    requires OwnershipFacts.MovedMore(c, a, d) && OwnershipFacts.MovedMore(c, b, d)
    ensures Alike(a, b)
  {
    forall i | 0 <= i < |a| ensures a[i] == b[i].(moved := a[i].moved) {
      assert a[i] == c[i].(moved := a[i].moved) && b[i] == c[i].(moved := b[i].moved);
    }
  }

  lemma {:induction false} ForAcceptedIff(x: Name, lo: Expr, hi: Expr, inclusive: bool, body: Stmts, c: seq<Info>, start: nat, d: nat, m: seq<nat>)
    ensures var s := For(x, lo, hi, inclusive, body);
      StmtRoutes(s, d).through != {} && Agrees(At(CheckStmt(s, c, start, d), m), StmtRoutes(s, d), Place(c, m))
    decreases body, 2
  {
    hide CheckExpr, Agrees;
    var p, own := Place(c, m), [Info(x, None, false, 0)];
    var t := PlainOnly(CheckExpr(lo, c, d));
    EvaluatesAgrees(lo, true, c, d, m);
    var u: Checked<Typed> := Rejected;
    var r: Verdict := Rejected;
    var a, b, inside := Only(Evaluates(lo, true, d)), Only(Evaluates(hi, true, d)), ScopeRoutes(Enters(own), body, d + 1);
    if t.Accepted? {
      u := PlainOnly(CheckExpr(hi, t.value.ctx, d));
      EvaluatesAgrees(hi, true, t.value.ctx, d, m);
    }
    InTurnAgrees(At(Bindings(t), m), a, At(Bindings(u), m), b, p);
    ScopeAcceptedIff(own, body, c, d + 1, m);
    if u.Accepted? {
      ScopeAcceptedIff(own, body, u.value.ctx, d + 1, m);
      r := At(CheckScope(body, u.value.ctx, own, d + 1), m);
    }
    InTurnThrough(a, b);
    InTurnAgrees(At(Bindings(u), m), InTurn(a, b), r, inside, p);
    InTurnThrough(InTurn(a, b), inside);
  }

  function MatchRoutes(subject: Expr, variants: nat, arms: Arms, d: nat): Routes
  {
    InTurn(Only(Evaluates(subject, false, d)), InTurn(Only(Inspects(subject, variants)), Only(Holds(ArmsOk(variants, arms)))))
  }

  function MatchStarts(subject: Expr, variants: nat, arms: Arms, c: seq<Info>, d: nat, m: seq<nat>): Verdict
  {
    var t :- CheckExpr(subject, c, d);
    if SubjectFits(subject, t.ty, variants) && ArmsOk(variants, arms) then Accepted(Some(Place(t.ctx, m))) else Rejected
  }

  lemma {:induction false} MatchHead(subject: Expr, variants: nat, arms: Arms, c: seq<Info>, d: nat, m: seq<nat>)
    ensures var r := MatchStarts(subject, variants, arms, c, d, m);
      && MatchRoutes(subject, variants, arms, d).through != {}
      && Agrees(r, MatchRoutes(subject, variants, arms, d), Place(c, m))
      && (r.Accepted? ==> CheckExpr(subject, c, d).Accepted? && r.value == Some(Place(CheckExpr(subject, c, d).value.ctx, m)))
      && (r.Accepted? ==> CheckExpr(subject, c, d).value.ty == TypeIn(subject, r.value.value.c))
  {
    hide Agrees;
    EvaluatesAgrees(subject, false, c, d, m);
    var t := CheckExpr(subject, c, d);
    var fits := Only(Inspects(subject, variants));
    var cover := Only(Holds(ArmsOk(variants, arms)));
    InTurnThrough(fits, cover);
    InTurnThrough(Only(Evaluates(subject, false, d)), InTurn(fits, cover));
    var r2: Verdict := Rejected;
    if t.Accepted? {
      ExprAcceptedIff(subject, c, d);
      AfterIsAlike(Uses(subject), c, t.value.ctx);
      AlikeSame(t.value.ctx, c, "", subject);
      hide CheckExpr, TypeIn;
      var p1 := Place(t.value.ctx, m);
      var r: Verdict := if SubjectFits(subject, t.value.ty, variants) then Accepted(Some(p1)) else Rejected;
      OneAgrees(Inspects(subject, variants), p1, r);
      HoldsAgrees(ArmsOk(variants, arms), t.value.ctx, m);
      var h: Verdict := if ArmsOk(variants, arms) then Accepted(Some(p1)) else Rejected;
      InTurnAgrees(r, fits, h, cover, p1);
      r2 := if r.Accepted? then h else Rejected;
    }
    hide CheckExpr;
    InTurnAgrees(At(Bindings(t), m), Only(Evaluates(subject, false, d)), r2, InTurn(fits, cover), Place(c, m));
  }

  function ArmsVerdict(subject: Expr, variants: nat, arms: Arms, c: seq<Info>, d: nat, m: seq<nat>): Verdict
  {
    var r :- CheckArms(arms, variants, TypeIn(subject, c), c, d);
    Accepted(if r.None? then None else Some(Place(r.value, m)))
  }

  lemma {:induction false} ArmsAcceptedIff(subject: Expr, variants: nat, arms: Arms, c: seq<Info>, d: nat, m: seq<nat>)
    ensures Agrees(ArmsVerdict(subject, variants, arms, c, d, m), ArmsRoutes(subject, variants, arms, d), Place(c, m))
    decreases arms, 0
  {
    hide CheckScope, ArmFits, TypeIn, AlwaysReturns, ScopeRoutes;
    match arms
    case NoArms => assert ArmsRoutes(subject, variants, arms, d) == Routes({}, {});
    case Arm(pattern, binder, body, rest) =>
      var p, ty, own := Place(c, m), TypeIn(subject, c), BinderInfo(binder, d);
      ArmsAcceptedIff(subject, variants, rest, c, d, m);
      ScopeAcceptedIff(own, body, c, d, m);
      var pick := Picks(subject, variants, pattern, binder);
      var fits: Verdict := if ArmFits(ty, variants, pattern, binder) then Accepted(Some(p)) else Rejected;
      OneAgrees(pick, p, fits);
      var a := CheckScope(body, c, own, d);
      var b := CheckArms(rest, variants, ty, c, d);
      if a.Accepted? && b.Accepted? && b.value.Some? {
        CheckScopeGrows(body, c, own, d);
        CheckArmsGrow(rest, variants, ty, c, d);
        GrownAlike(c, a.value, b.value.value, d);
      }
      hide Agrees;
      var inside := ScopeRoutes(Enters(own), body, d);
      InTurnAgrees(fits, Only(pick), At(a, m), inside, p);
      var ra := if fits.Accepted? then At(a, m) else Rejected;
      BranchAgrees(AlwaysReturns(body), ra, InTurn(Only(pick), inside), p);
      EitherAgrees(if AlwaysReturns(body) && ra.Accepted? then Accepted(None) else ra,
        Branch(AlwaysReturns(body), InTurn(Only(pick), inside)),
        ArmsVerdict(subject, variants, rest, c, d, m), ArmsRoutes(subject, variants, rest, d), p);
  }

  // ----- functions -----

  /** The checker accepts a function exactly when every route through it is fine by itself, and the
      return analysis is content. */
  lemma {:induction false} FunctionAcceptedIff(f: Function, types: seq<OwnType>)
    requires |types| == |f.params|
    ensures var rs, s := ListRoutes(f.body, 0), Place(ParamInfos(f.params, types), [0]);
      Accepts(f, types) <==>
        && (forall p | p in rs.through + rs.stopped :: Fine(p, s))
        && (!f.isVoid ==> AlwaysReturns(f.body))
  {
    var rs, s := ListRoutes(f.body, 0), Place(ParamInfos(f.params, types), [0]);
    ListAcceptedIff(f.body, ParamInfos(f.params, types), 0, 0, [0]);
    FineUnion(rs.through, rs.stopped, s);
    hide CheckStmts, Fine, ListRoutes, ParamInfos, AlwaysReturns, Joins;
    assert FineAll(rs.through + rs.stopped, s) <==> forall p | p in rs.through + rs.stopped :: Fine(p, s);
  }

  /** A binding counts as moved behind a statement list exactly if some route to its end moves it. */
  lemma {:induction false} MovedIffSomeRoute(ss: Stmts, c: seq<Info>, start: nat, d: nat, m: seq<nat>, i: nat)
    requires Starts(m, start) && CheckStmts(ss, c, start, d).Accepted? && i < |CheckStmts(ss, c, start, d).value|
    ensures CheckStmts(ss, c, start, d).value[i].moved <==>
      exists p | p in ListRoutes(ss, d).through :: i < |End(p, Place(c, m)).c| && End(p, Place(c, m)).c[i].moved
  {
    ListAcceptedIff(ss, c, start, d, m);
    var c1, rs := CheckStmts(ss, c, start, d).value, ListRoutes(ss, d);
    assert Joins(EndsOf(rs.through, Place(c, m)), Place(c1, m));
    hide Joins, CheckStmts;
    if c1[i].moved {
      JoinsFlag(EndsOf(rs.through, Place(c, m)), Place(c1, m), i);
      var e :| e in EndsOf(rs.through, Place(c, m)) && i < |e.c| && e.c[i].moved;
      var p :| p in rs.through && e == End(p, Place(c, m));
    }
    if p :| p in rs.through && i < |End(p, Place(c, m)).c| && End(p, Place(c, m)).c[i].moved {
      assert End(p, Place(c, m)) in EndsOf(rs.through, Place(c, m));
      JoinsFlag(EndsOf(rs.through, Place(c, m)), Place(c1, m), i);
    }
  }

  lemma {:induction false} JoinsFlag(ps: set<Place>, s: Place, i: nat)
    requires Joins(ps, s) && i < |s.c|
    ensures s.c[i].moved <==> exists p | p in ps :: i < |p.c| && p.c[i].moved
  {
  }

  // ----- loops -----

  function Once(x: Name, ty: OwnType, tag: nat, f: Name): Stmts
  {
    Then(Let(x, New(ty, tag), true), Then(ExprStmt(Call(f, Move(x))), Done))
  }

  /** A loop body may make a resource and move it: at any depth only the condition is judged. */
  lemma {:induction false} OwnInLoopAccepted(cond: Expr, x: Name, ty: OwnType, tag: nat, f: Name, c: seq<Info>, start: nat, d: nat)
    ensures CheckStmt(While(cond, Once(x, ty, tag, f)), c, start, d).Accepted? <==>
      PlainOnly(CheckExpr(cond, c, d)).Accepted? && (ty.OwningEnum? ==> tag < |ty.payloads|)
  {
    var t := PlainOnly(CheckExpr(cond, c, d));
    if t.Accepted? { OnceAccepted(x, ty, tag, f, t.value.ctx, d + 1); }
  }

  lemma {:induction false} OnceAccepted(x: Name, ty: OwnType, tag: nat, f: Name, c: seq<Info>, d: nat)
    ensures CheckScope(Once(x, ty, tag, f), c, [], d).Accepted? <==> WellTagged(ty, tag)
  {
    var first := Let(x, New(ty, tag), true);
    assert Once(x, ty, tag, f).head == first;
    if !WellTagged(ty, tag) {
      assert CheckExpr(New(ty, tag), c + [], d).Rejected?;
      assert CheckStmt(first, c + [], |c|, d).Rejected?;
    } else {
      var c1 := c + [] + [Info(x, Some(ty), false, d)];
      assert CheckExpr(New(ty, tag), c + [], d) == Accepted(Typed(Owns(ty), c + []));
      assert CheckStmt(first, c + [], |c|, d) == Accepted(c1);
      assert Innermost(c1, x, |c|);
      MoveAcceptedIff(x, c1, d);
      var e := Call(f, Move(x));
      assert CheckExpr(e, c1, d).Accepted? && CheckExpr(e, c1, d).value.ty == Copyable;
      assert CheckStmt(ExprStmt(e), c1, |c|, d).Accepted?;
      var c2 := CheckStmt(ExprStmt(e), c1, |c|, d).value;
      assert CheckStmts(Done, c2, |c|, d) == Accepted(c2);
      assert CheckStmts(Then(ExprStmt(e), Done), c1, |c|, d) == Accepted(c2);
    }
  }

  /** A resource that was there before the loop may not be moved by its body. */
  lemma {:induction false} OuterInLoopRejected(cond: Expr, x: Name, f: Name, c: seq<Info>, start: nat, d: nat, i: nat)
    requires Innermost(c, x, i) && c[i].depth <= d
    ensures CheckStmt(While(cond, Then(ExprStmt(Call(f, Move(x))), Done)), c, start, d).Rejected?
  {
    var t := PlainOnly(CheckExpr(cond, c, d));
    if t.Accepted? {
      ExprAcceptedIff(cond, c, d);
      OperandJudged(cond, c, d);
      AfterIsAlike(Uses(cond), c, t.value.ctx);
      AlikeInnermost(t.value.ctx, c, x, i);
      hide CheckExpr;
      var c1 := t.value.ctx + [];
      assert c1 == t.value.ctx;
      MoveAcceptedIff(x, c1, d + 1);
      CallOfRejected(f, Move(x), c1, |c1|, d + 1);
    }
  }

  lemma {:induction false} CallOfRejected(f: Name, e: Expr, c: seq<Info>, start: nat, d: nat)
    requires CheckExpr(e, c, d).Rejected?
    ensures CheckStmts(Then(ExprStmt(Call(f, e)), Done), c, start, d).Rejected?
  {
    assert CheckExpr(Call(f, e), c, d).Rejected?;
    assert CheckStmt(ExprStmt(Call(f, e)), c, start, d).Rejected?;
  }

  // ----- parameters and arms -----

  lemma {:induction false} ParamInfosAre(params: seq<Param>, types: seq<OwnType>)
    requires |types| == |params|
    ensures |ParamInfos(params, types)| == |params|
    ensures forall i | 0 <= i < |params| ::
      ParamInfos(params, types)[i] == Info(params[i].name, if params[i].owner then Some(types[i]) else None, false, 0)
  {
    if params != [] {
      var n := |params| - 1;
      ParamInfosAre(params[..n], types[..n]);
    }
  }

  /** One arm for every variant from k on; an arm whose variant has a payload binds it and hands it to f. */
  function ConsumingArms(payloads: seq<bool>, y: Name, f: Name, k: nat): Arms
    requires k <= |payloads|
    decreases |payloads| - k
  {
    if k == |payloads| then NoArms
    else
      var binder := if payloads[k] then Some(Binder(y, true)) else None;
      var body := if payloads[k] then Then(ExprStmt(Call(f, Move(y))), Done) else Done;
      Arm(Some(k), binder, body, ConsumingArms(payloads, y, f, k + 1))
  }

  lemma {:induction false} ConsumingArmsCover(payloads: seq<bool>, y: Name, f: Name, k: nat)
    requires k <= |payloads|
    ensures forall v | k <= v < |payloads| :: v in Patterns(ConsumingArms(payloads, y, f, k))
    ensures WildcardLast(ConsumingArms(payloads, y, f, k))
    decreases |payloads| - k
  {
    if k < |payloads| { ConsumingArmsCover(payloads, y, f, k + 1); }
  }

  lemma {:induction false} MergeSelf(c: seq<Info>)
    ensures Merge(c, c) == c
  {
    MergeIs(c, c);
  }

  lemma {:induction false} ConsumingBody(payload: bool, y: Name, f: Name, c: seq<Info>, d: nat)
    ensures var binder := if payload then Some(Binder(y, true)) else None;
      var body := if payload then Then(ExprStmt(Call(f, Move(y))), Done) else Done;
      CheckScope(body, c, BinderInfo(binder, d), d) == Accepted(c)
  {
    if payload {
      var own := [Info(y, Some(ResourceStruct), false, d)];
      var c1 := c + own;
      assert Innermost(c1, y, |c|);
      MoveAcceptedIff(y, c1, d);
      var e := Call(f, Move(y));
      var c2 := c1[|c| := c1[|c|].(moved := true)];
      assert CheckExpr(e, c1, d) == Accepted(Typed(Copyable, c2));
      assert CheckStmt(ExprStmt(e), c1, |c|, d) == Accepted(c2);
      assert CheckStmts(Done, c2, |c|, d) == Accepted(c2);
      assert CheckStmts(Then(ExprStmt(e), Done), c1, |c|, d) == Accepted(c2);
      assert c2[..|c|] == c;
    } else {
      assert CheckStmts(Done, c + [], |c|, d) == Accepted(c + []);
      assert (c + [])[..|c|] == c;
    }
  }

  lemma {:induction false} ConsumingArmsAccepted(payloads: seq<bool>, y: Name, f: Name, k: nat, c: seq<Info>, d: nat)
    requires k <= |payloads|
    ensures CheckArms(ConsumingArms(payloads, y, f, k), |payloads|, Owns(OwningEnum(payloads)), c, d) ==
      Accepted(if k == |payloads| then None else Some(c))
    decreases |payloads| - k
  {
    hide CheckScope;
    if k < |payloads| {
      var arms := ConsumingArms(payloads, y, f, k);
      ConsumingBody(payloads[k], y, f, c, d);
      assert !AlwaysReturns(Done) && !StmtReturns(ExprStmt(Call(f, Move(y))));
      assert !AlwaysReturns(arms.body);
      assert ArmFits(Owns(OwningEnum(payloads)), |payloads|, arms.pattern, arms.binder);
      assert CheckScope(arms.body, c, BinderInfo(arms.binder, d), d) == Accepted(c);
      ConsumingArmsAccepted(payloads, y, f, k + 1, c, d);
      MergeSelf(c);
    }
  }

  /** A match that moves an owning enum, has an arm for every variant, and binds and consumes the payload
      where there is one, is accepted at every depth, and moves the enum and nothing else. */
  lemma {:induction false} ConsumingMatchAccepted(x: Name, payloads: seq<bool>, y: Name, f: Name, c: seq<Info>, i: nat, start: nat, d: nat)
    requires Innermost(c, x, i) && c[i].ty == Some(OwningEnum(payloads)) && !c[i].moved && c[i].depth >= d && payloads != []
    ensures CheckStmt(Match(Move(x), |payloads|, ConsumingArms(payloads, y, f, 0)), c, start, d) ==
      Accepted(c[i := c[i].(moved := true)])
  {
    var c1 := c[i := c[i].(moved := true)];
    MoveAcceptedIff(x, c, d);
    ConsumingArmsCover(payloads, y, f, 0);
    ConsumingArmsAccepted(payloads, y, f, 0, c1, d);
    hide CheckExpr, CheckArms;
    assert CheckExpr(Move(x), c, d) == Accepted(Typed(Owns(OwningEnum(payloads)), c1));
  }

  /** What the arms of a match that moves an enum must be: they name a variant, and bind its payload, as
      an owner, exactly if there is one. */
  lemma {:induction false} OwningArmIff(payloads: seq<bool>, variants: nat, pattern: Option<nat>, binder: Option<Binder>)
    ensures ArmFits(Owns(OwningEnum(payloads)), variants, pattern, binder) <==>
      variants == |payloads| && exists k: nat | k < |payloads| ::
        pattern == Some(k) && (binder.None? <==> !payloads[k]) && (binder.Some? ==> binder.value.owner)
  {
    if pattern.Some? && pattern.value < |payloads| { assert payloads[pattern.value] || !payloads[pattern.value]; }
  }
}
