/** What the source semantics says of ordinary programs, in terms of the calls they make. */
module RunTimeFacts {
  import opened MortSyntax
  import opened MortSemantics

  // ----- expressions -----

  /** The operators on numbers. */
  lemma {:induction false} OperatorsMean(a: int, b: int)
    ensures Apply(Add, Num(a), Num(b)) == Num(a + b)
    ensures Apply(Sub, Num(a), Num(b)) == Num(a - b)
    ensures Apply(Less, Num(a), Num(b)) == Num(if a < b then 1 else 0)
    ensures Apply(Equal, Num(a), Num(b)) == Num(if a == b then 1 else 0)
  {
  }

  /** The calls of an expression without short circuits and `try`: operands from left to right,
      arguments before their call. */
  function Calls(e: Expr): seq<Name>
  {
    match e
    case Binary(_, l, r) => Calls(l) + Calls(r)
    case Not(o) => Calls(o)
    case Call(f, a) => Calls(a) + [f]
    case StoreTo(_, a) => Calls(a)
    case _ => []
  }

  predicate Straight(e: Expr)
  {
    match e
    case Binary(_, l, r) => Straight(l) && Straight(r)
    case Not(o) => Straight(o)
    case Call(_, a) => Straight(a)
    case StoreTo(_, a) => Straight(a)
    case AndAlso(_, _) => false
    case OrElse(_, _) => false
    case Try(_) => false
    case _ => true
  }

  function Names(trace: seq<Event>): seq<Name>
  {
    if trace == [] then []
    else Names(trace[..|trace| - 1]) + (if trace[|trace| - 1].Called? then [trace[|trace| - 1].f] else [])
  }

  lemma {:induction false} NamesSnoc(trace: seq<Event>, f: Name, v: Value)
    ensures Names(trace + [Called(f, v)]) == Names(trace) + [f]
  {
    assert (trace + [Called(f, v)])[..|trace|] == trace;
  }

  /** Evaluation makes these calls, in this order, and no others. */
  lemma {:induction false} CallsInOrder(e: Expr, st: State)
    requires Straight(e)
    ensures Eval(e, st).0.Got?
    ensures Names(Eval(e, st).1.trace) == Names(st.trace) + Calls(e)
  {
    hide Names;
    assert Names(st.trace) + [] == Names(st.trace);
    match e
    case Binary(_, l, r) =>
      CallsInOrder(l, st);
      CallsInOrder(r, Eval(l, st).1);
      assert (Names(st.trace) + Calls(l)) + Calls(r) == Names(st.trace) + (Calls(l) + Calls(r));
    case Not(o) => CallsInOrder(o, st);
    case Call(f, a) =>
      CallsInOrder(a, st);
      var (v, st1) := Eval(a, st);
      NamesSnoc(st1.trace, f, v.v);
      assert (Names(st.trace) + Calls(a)) + [f] == Names(st.trace) + (Calls(a) + [f]);
    case StoreTo(_, a) => CallsInOrder(a, st);
    case _ =>
  }

  /** `a && b` evaluates b exactly if a is not zero, `a || b` exactly if it is. */
  lemma {:induction false} ShortCircuits(l: Expr, r: Expr, st: State)
    requires Eval(l, st).0.Got?
    ensures var (a, st1) := Eval(l, st);
      && (a.v != Num(0) ==> Eval(AndAlso(l, r), st) == Eval(r, st1) && Eval(OrElse(l, r), st) == (a, st1))
      && (a.v == Num(0) ==> Eval(AndAlso(l, r), st) == (a, st1) && Eval(OrElse(l, r), st) == Eval(r, st1))
  {
  }

  /** A `try` goes on with the payload of an `Ok` and leaves with that of an `Err`. */
  lemma {:induction false} TryMeans(e: Expr, st: State, n: int)
    ensures Eval(e, st).0 == Got(ResultOk(n)) ==> Eval(Try(e), st) == (Got(Num(n)), Eval(e, st).1)
    ensures Eval(e, st).0 == Got(ResultErr(n)) ==> Eval(Try(e), st) == (Failed(n), Eval(e, st).1)
  {
  }

  // ----- ranges -----

  /** A loop over lo..hi, or lo..=hi, whose body calls f with the counter. */
  function CountingLoop(x: Name, lo: int, hi: int, inclusive: bool, f: Name): Stmt
  {
    For(x, IntLit(lo), IntLit(hi), inclusive, CountingBody(x, f))
  }

  function CountingBody(x: Name, f: Name): Stmts { Then(ExprStmt(Call(f, Local(x))), Done) }

  /** f(lo), f(lo + 1), and so on, n calls. */
  function CallsFrom(f: Name, lo: int, n: nat): seq<Event>
    decreases n
  {
    if n == 0 then [] else [Called(f, Num(lo))] + CallsFrom(f, lo + 1, n - 1)
  }

  function Answered(st: State, n: nat): seq<Reply> { if n <= |st.replies| then st.replies[n..] else [] }

  predicate Counting(st: State, x: Name, at: int)
  {
    st.env != [] && st.env[|st.env| - 1] == Cell(x, Num(at), NoFlag)
  }

  lemma {:induction false} OneRound(x: Name, f: Name, st: State, at: int, fuel: nat)
    requires Counting(st, x, at)
    ensures ExecScope(CountingBody(x, f), st, fuel) ==
      (Normal, st.(trace := st.trace + [Called(f, Num(at))], replies := Answered(st, 1)))
  {
    var s := ExprStmt(Call(f, Local(x)));
    assert Find(st.env, x) == |st.env| - 1;
    var st1 := st.(trace := st.trace + [Called(f, Num(at))], replies := Answered(st, 1));
    assert Eval(Local(x), st) == (Got(Num(at)), st);
    assert Eval(Call(f, Local(x)), st).1 == st1;
    assert ExecStmt(s, st, [], fuel) == RunResult(Normal, st1, []);
    assert ExecStmts(Done, st1, [], fuel) == RunResult(Normal, st1, []);
    assert ExecStmts(CountingBody(x, f), st, [], fuel) == RunResult(Normal, st1, []);
    assert st1.env[..|st.env|] == st.env;
  }

  /** n rounds from `at`, where the range ends n values on. */
  lemma {:induction false} RoundsCount(x: Name, f: Name, st: State, at: int, last: int, inclusive: bool, n: nat, fuel: nat)
    requires Counting(st, x, at) && n > 0 && at + n == (if inclusive then last + 1 else last) && fuel > n
    ensures var (o, st1) := ExecFor(x, last, inclusive, true, CountingBody(x, f), st, fuel);
      && o == Normal && st1.trace == st.trace + CallsFrom(f, at, n) && st1.replies == Answered(st, n)
      && |st1.env| == |st.env| && st1.env[..|st.env| - 1] == st.env[..|st.env| - 1]
      && st1.temps == st.temps && st1.nextId == st.nextId && st1.fault == st.fault
    decreases n
  {
    hide ExecScope;
    OneRound(x, f, st, at, fuel - 1);
    var st1 := st.(trace := st.trace + [Called(f, Num(at))], replies := Answered(st, 1));
    assert Find(st1.env, x) == |st1.env| - 1;
    var (again, st2) := ForStep(x, last, inclusive, st1);
    assert again <==> n > 1;
    if n > 1 {
      RoundsCount(x, f, st2, at + 1, last, inclusive, n - 1, fuel - 1);
      assert st1.trace + CallsFrom(f, at + 1, n - 1) == st.trace + CallsFrom(f, at, n);
    } else {
      assert CallsFrom(f, at, 1) == [Called(f, Num(at))] + CallsFrom(f, at + 1, 0);
      assert ExecFor(x, last, inclusive, false, CountingBody(x, f), st2, fuel - 1) == (Normal, st2);
    }
  }

  /** A range loop runs its body once for each value from lo up to hi, hi itself only in an inclusive
      range, and not at all when there is none; its counter is gone afterwards. */
  lemma {:induction false} RangeVisits(x: Name, lo: int, hi: int, inclusive: bool, f: Name, st: State, pend: seq<Pending>, fuel: nat)
    requires fuel > 0 && fuel > hi - lo + 1
    ensures var n: nat := if inclusive then (if hi < lo then 0 else hi - lo + 1) else (if hi < lo then 0 else hi - lo);
      ExecStmt(CountingLoop(x, lo, hi, inclusive, f), st, pend, fuel) ==
        RunResult(Normal, st.(trace := st.trace + CallsFrom(f, lo, n), replies := Answered(st, n)), pend)
  {
    var n: nat := if inclusive then (if hi < lo then 0 else hi - lo + 1) else (if hi < lo then 0 else hi - lo);
    var st1 := DeclareCell(st, x, Num(lo), NoFlag);
    assert Eval(IntLit(lo), st) == (Got(Num(lo)), st) && Eval(IntLit(hi), st) == (Got(Num(hi)), st);
    assert ForStarts(lo, hi, inclusive) <==> n > 0;
    if n > 0 {
      RoundsCount(x, f, st1, lo, hi, inclusive, n, fuel);
    } else {
      assert ExecFor(x, hi, inclusive, false, CountingBody(x, f), st1, fuel) == (Normal, st1);
      assert st.trace + CallsFrom(f, lo, 0) == st.trace;
    }
    var st2 := ExecFor(x, hi, inclusive, n > 0, CountingBody(x, f), st1, fuel).1;
    assert st1.env[..|st.env|] == st.env;
    assert st2.env[..|st.env|] == st2.env[..|st1.env| - 1];
  }

  // ----- deferred calls -----

  function Defers(fs: seq<Name>): Stmts
  {
    if fs == [] then Done else Then(Defer(Call(fs[0], IntLit(0))), Defers(fs[1..]))
  }

  function Registered(fs: seq<Name>, depth: nat): seq<Pending>
  {
    if fs == [] then [] else [Pending(depth, Run(Call(fs[0], IntLit(0))))] + Registered(fs[1..], depth)
  }

  lemma {:induction false} DefersRegister(fs: seq<Name>, st: State, pend: seq<Pending>, fuel: nat)
    ensures ExecStmts(Defers(fs), st, pend, fuel) == RunResult(Normal, st, pend + Registered(fs, |st.env|))
    decreases |fs|
  {
    if fs == [] {
      assert pend + [] == pend;
    } else {
      var one := Pending(|st.env|, Run(Call(fs[0], IntLit(0))));
      DefersRegister(fs[1..], st, pend + [one], fuel);
      assert pend + [one] + Registered(fs[1..], |st.env|) == pend + ([one] + Registered(fs[1..], |st.env|));
    }
  }

  function Reversed(fs: seq<Name>): seq<Name> { if fs == [] then [] else Reversed(fs[1..]) + [fs[0]] }

  function Zeroed(fs: seq<Name>): seq<Event>
  {
    if fs == [] then [] else [Called(fs[0], Num(0))] + Zeroed(fs[1..])
  }

  lemma {:induction false} ZeroedCat(fs: seq<Name>, gs: seq<Name>)
    ensures Zeroed(fs + gs) == Zeroed(fs) + Zeroed(gs)
  {
    if fs == [] {
      assert fs + gs == gs;
    } else {
      assert (fs + gs)[1..] == fs[1..] + gs;
      ZeroedCat(fs[1..], gs);
    }
  }

  lemma {:induction false} OneDeferred(f: Name, st: State)
    ensures PerformPending(Pending(|st.env|, Run(Call(f, IntLit(0)))), st) ==
      st.(trace := st.trace + [Called(f, Num(0))], replies := Answered(st, 1))
  {
    assert st.env[..|st.env|] == st.env && st.env[|st.env|..] == [] && st.env + [] == st.env;
    assert Eval(IntLit(0), st) == (Got(Num(0)), st);
    assert st.(env := st.env[..|st.env|]) == st;
  }

  lemma {:induction false} AllDeferred(fs: seq<Name>, pend: seq<Pending>, st: State)
    ensures PerformAll(pend + Registered(fs, |st.env|), st) ==
      PerformAll(pend, st.(trace := st.trace + Zeroed(Reversed(fs)), replies := Answered(st, |fs|)))
    decreases |fs|
  {
    if fs == [] {
      assert pend + [] == pend && st.trace + [] == st.trace;
    } else {
      var d := |st.env|;
      var one := Pending(d, Run(Call(fs[0], IntLit(0))));
      assert pend + Registered(fs, d) == (pend + [one]) + Registered(fs[1..], d);
      AllDeferred(fs[1..], pend + [one], st);
      var mid := st.(trace := st.trace + Zeroed(Reversed(fs[1..])), replies := Answered(st, |fs| - 1));
      assert (pend + [one])[..|pend|] == pend;
      OneDeferred(fs[0], mid);
      ZeroedCat(Reversed(fs[1..]), [fs[0]]);
      assert Zeroed([fs[0]]) == [Called(fs[0], Num(0))] + Zeroed([]);
      assert mid.trace + [Called(fs[0], Num(0))] == st.trace + Zeroed(Reversed(fs));
    }
  }

  /** Deferred calls run when their block ends, the last one first. */
  lemma {:induction false} DefersRunInReverse(fs: seq<Name>, st: State, pend: seq<Pending>, fuel: nat)
    ensures ExecStmt(Block(Defers(fs)), st, pend, fuel) ==
      RunResult(Normal, st.(trace := st.trace + Zeroed(Reversed(fs)), replies := Answered(st, |fs|)), pend)
  {
    DefersRegister(fs, st, [], fuel);
    assert [] + Registered(fs, |st.env|) == Registered(fs, |st.env|);
    AllDeferred(fs, [], st);
    ScopeOfDefers(fs, st, fuel);
    BlockIsScope(Defers(fs), st, pend, fuel);
    hide PerformAll, Registered, ExecStmts, Defers, Zeroed, Reversed, ExecScope, ExecStmt;
  }

  lemma {:induction false} BlockIsScope(body: Stmts, st: State, pend: seq<Pending>, fuel: nat)
    ensures ExecStmt(Block(body), st, pend, fuel) == RunResult(ExecScope(body, st, fuel).0, ExecScope(body, st, fuel).1, pend)
  {
    hide ExecScope;
  }

  lemma {:induction false} ScopeOfDefers(fs: seq<Name>, st: State, fuel: nat)
    requires ExecStmts(Defers(fs), st, [], fuel) == RunResult(Normal, st, Registered(fs, |st.env|))
    requires PerformAll(Registered(fs, |st.env|), st) ==
      PerformAll([], st.(trace := st.trace + Zeroed(Reversed(fs)), replies := Answered(st, |fs|)))
    ensures ExecScope(Defers(fs), st, fuel) == (Normal, st.(trace := st.trace + Zeroed(Reversed(fs)), replies := Answered(st, |fs|)))
  {
    hide Registered, ExecStmts, Defers, Zeroed, Reversed;
    assert st.env[..|st.env|] == st.env;
  }

  // ----- break and continue -----

  datatype Ending = FallsThrough | Continues | Breaks

  function EndingStmts(e: Ending): Stmts
  {
    match e
    case FallsThrough => Done
    case Continues => Then(Continue, Done)
    case Breaks => Then(Break, Done)
  }

  /** A loop that asks before every round, and whose body calls g and then ends in this way. */
  function AskingLoop(f: Name, g: Name, e: Ending): Stmt
  {
    While(Call(f, IntLit(0)), Then(ExprStmt(Call(g, IntLit(0))), EndingStmts(e)))
  }

  lemma {:induction false} AskingRound(g: Name, e: Ending, st: State, fuel: nat)
    ensures ExecScope(Then(ExprStmt(Call(g, IntLit(0))), EndingStmts(e)), st, fuel) ==
      ((match e case FallsThrough => Normal case Continues => Continued case Breaks => Broke),
       st.(trace := st.trace + [Called(g, Num(0))], replies := Answered(st, 1)))
  {
    var st1 := st.(trace := st.trace + [Called(g, Num(0))], replies := Answered(st, 1));
    var out := match e case FallsThrough => Normal case Continues => Continued case Breaks => Broke;
    assert Eval(IntLit(0), st) == (Got(Num(0)), st);
    assert Eval(Call(g, IntLit(0)), st).1 == st1;
    assert ExecStmt(ExprStmt(Call(g, IntLit(0))), st, [], fuel) == RunResult(Normal, st1, []);
    if e != FallsThrough { assert ExecStmts(Then(EndingStmts(e).head, Done), st1, [], fuel) == RunResult(out, st1, []); }
    assert ExecStmts(EndingStmts(e), st1, [], fuel) == RunResult(out, st1, []);
    assert st1.env[..|st.env|] == st.env;
  }

  /** n rounds of question and call, then the question that is answered with zero. */
  function Asked(f: Name, g: Name, n: nat): seq<Event>
  {
    if n == 0 then [Called(f, Num(0))] else [Called(f, Num(0)), Called(g, Num(0))] + Asked(f, g, n - 1)
  }

  /** The first n questions are answered with something else than zero, the next one with zero. */
  predicate AnswersUntil(replies: seq<Reply>, n: nat)
    decreases n
  {
    if n == 0 then replies == [] || replies[0] == Plain(0)
    else |replies| >= 2 && replies[0] != Plain(0) && AnswersUntil(replies[2..], n - 1)
  }

  /** `continue` goes on with the next round, as falling off the end of the body does. */
  lemma {:induction false} LoopAsks(f: Name, g: Name, e: Ending, st: State, n: nat, pend: seq<Pending>, fuel: nat)
    requires e != Breaks && AnswersUntil(st.replies, n) && fuel > n
    ensures var r := ExecStmt(AskingLoop(f, g, e), st, pend, fuel);
      r.out == Normal && r.pend == pend && r.st == st.(trace := st.trace + Asked(f, g, n), replies := Answered(st, 2 * n + 1))
    decreases n
  {
    RoundsAsk(f, g, e, st, n, fuel);
  }

  lemma {:induction false} Asks(f: Name, st: State)
    ensures var (r, st1) := Eval(Call(f, IntLit(0)), st);
      && st1 == st.(trace := st.trace + [Called(f, Num(0))], replies := Answered(st, 1))
      && r == Got(if st.replies == [] then Num(0) else FromReply(st.replies[0]))
  {
    assert Eval(IntLit(0), st) == (Got(Num(0)), st);
  }

  lemma {:induction false} RoundsAsk(f: Name, g: Name, e: Ending, st: State, n: nat, fuel: nat)
    requires e != Breaks && AnswersUntil(st.replies, n) && fuel > n
    ensures ExecWhile(Call(f, IntLit(0)), Then(ExprStmt(Call(g, IntLit(0))), EndingStmts(e)), st, fuel) ==
      (Normal, st.(trace := st.trace + Asked(f, g, n), replies := Answered(st, 2 * n + 1)))
    decreases n
  {
    hide ExecScope, Eval;
    Asks(f, st);
    if n > 0 {
      var st1 := st.(trace := st.trace + [Called(f, Num(0))], replies := Answered(st, 1));
      var st2 := st1.(trace := st1.trace + [Called(g, Num(0))], replies := Answered(st1, 1));
      AskingRound(g, e, st1, fuel - 1);
      RoundsAsk(f, g, e, st2, n - 1, fuel - 1);
      TwoAsked(f, g, st, n);
    }
  }

  lemma {:induction false} TwoAsked(f: Name, g: Name, st: State, n: nat)
    requires n > 0 && |st.replies| >= 2
    ensures (st.trace + [Called(f, Num(0))] + [Called(g, Num(0))]) + Asked(f, g, n - 1) == st.trace + Asked(f, g, n)
    ensures st.replies[1..][1..] == st.replies[2..]
    ensures 2 * n + 1 <= |st.replies| ==> st.replies[2..][2 * n - 1..] == st.replies[2 * n + 1..]
  {
  }

  /** `break` leaves after the first round. */
  lemma {:induction false} LoopBreaks(f: Name, g: Name, st: State, pend: seq<Pending>, fuel: nat)
    requires st.replies != [] && st.replies[0] != Plain(0) && fuel > 0
    ensures ExecStmt(AskingLoop(f, g, Breaks), st, pend, fuel) ==
      RunResult(Normal, st.(trace := st.trace + [Called(f, Num(0)), Called(g, Num(0))], replies := Answered(st, 2)), pend)
  {
    hide ExecScope;
    var st1 := st.(trace := st.trace + [Called(f, Num(0))], replies := Answered(st, 1));
    assert Eval(IntLit(0), st) == (Got(Num(0)), st);
    assert Eval(Call(f, IntLit(0)), st).1 == st1;
    AskingRound(g, Breaks, st1, fuel - 1);
    assert st1.trace + [Called(g, Num(0))] == st.trace + [Called(f, Num(0)), Called(g, Num(0))];
  }

  // ----- values -----

  /** What a call gives is what the environment answers. */
  lemma {:induction false} CallIsAnswered(f: Name, n: int, st: State, reply: int)
    ensures st.replies != [] && st.replies[0] == Plain(reply) ==> Eval(Call(f, IntLit(n)), st).0 == Got(Num(reply))
    ensures st.replies != [] && st.replies[0] == Ok(reply) ==> Eval(Call(f, IntLit(n)), st).0 == Got(ResultOk(reply))
    ensures st.replies != [] && st.replies[0] == Err(reply) ==> Eval(Call(f, IntLit(n)), st).0 == Got(ResultErr(reply))
  {
    assert Eval(IntLit(n), st) == (Got(Num(n)), st);
  }

  /** The tags and payloads a `match` sees. */
  lemma {:induction false} TagsAre(n: int, tag: nat, ids: seq<nat>, variants: nat)
    ensures variants >= 2 ==> TagOf(ResultOk(n), variants) == 0 && TagOf(ResultErr(n), variants) == 1
    ensures tag < variants ==> TagOf(Own(tag, ids), variants) == tag
    ensures TagOf(Num(n), 0) == n
    ensures Payload(ResultOk(n)) == Payload(ResultErr(n)) == Num(n) && Payload(Own(tag, ids)) == Own(0, ids)
  {
  }

  /** A name is read as what was last stored in its innermost binding. */
  lemma {:induction false} StoredIsRead(x: Name, y: Name, n: int, st: State)
    requires Find(st.env, x) >= 0
    ensures var st1 := Eval(StoreTo(x, IntLit(n)), st).1;
      Eval(Local(x), st1).0 == Got(Num(n)) && (y != x ==> Eval(Local(y), st1).0 == Eval(Local(y), st).0)
  {
    var st1 := Eval(StoreTo(x, IntLit(n)), st).1;
    assert Eval(IntLit(n), st) == (Got(Num(n)), st);
    assert st1 == WriteCell(st, x, Num(n));
    forall z ensures Find(st1.env, z) == Find(st.env, z) {
      var i := Find(st.env, z);
      if i >= 0 { assert st1.env[i].name == z; }
    }
  }
}
