/** Two semantics over one machine state.  The source semantics keeps, at run time, the cleanup
    registered by each open scope and unwinds it in reverse order whenever the scope is left.
    The C semantics knows nothing of cleanup: it only runs the statements it is given. */
module MortSemantics {
  import opened MortSyntax

  // ----- machine state -----

  /** An owning value carries the identities of the resources inside it. */
  datatype Value = Num(n: int) | ResultOk(n: int) | ResultErr(n: int) | Own(tag: nat, ids: seq<nat>)

  /** What the environment answers to a foreign call. */
  datatype Reply = Plain(n: int) | Ok(n: int) | Err(n: int)

  /** The liveness flag `mort_live_m_x` exists only beside owning bindings. */
  datatype Flag = NoFlag | Live | Dead

  datatype Cell = Cell(name: Name, value: Value, flag: Flag)

  datatype Event = Called(f: Name, arg: Value) | Dropped(value: Value)

  /** `env` lists the bindings in scope, innermost last; `fault` records a read of a moved binding
      and, in C, the use of a variable by its own initializer. */
  datatype State = State(
    env: seq<Cell>,
    temps: map<Temp, Value>,
    trace: seq<Event>,
    replies: seq<Reply>,
    nextId: nat,
    fault: bool)

  datatype Outcome = Normal | Broke | Continued | Returned(result: Option<Value>) | Timeout

  function Find(env: seq<Cell>, x: Name): (i: int)
    ensures -1 <= i < |env|
    ensures i >= 0 ==> env[i].name == x && forall j | i < j < |env| :: env[j].name != x
    ensures i < 0 ==> forall j | 0 <= j < |env| :: env[j].name != x
  {
    if env == [] then -1
    else if env[|env| - 1].name == x then |env| - 1
    else Find(env[..|env| - 1], x)
  }

  /** C resolves `mort_live_m_x` on its own: the innermost binding of x that has a flag. */
  function FindFlag(env: seq<Cell>, x: Name): (i: int)
    ensures -1 <= i < |env|
    ensures i >= 0 ==> env[i].name == x && env[i].flag != NoFlag
    ensures forall j | i < j < |env| :: env[j].name == x ==> env[j].flag == NoFlag
  {
    if env == [] then -1
    else if env[|env| - 1].name == x && env[|env| - 1].flag != NoFlag then |env| - 1
    else FindFlag(env[..|env| - 1], x)
  }

  function Truthy(v: Value): bool { v != Num(0) }

  function AsInt(v: Value): int { if v.Num? then v.n else 0 }

  function FromBool(b: bool): Value { Num(if b then 1 else 0) }

  function Apply(op: BinOp, a: Value, b: Value): Value
  {
    match op
    case Add => Num(AsInt(a) + AsInt(b))
    case Sub => Num(AsInt(a) - AsInt(b))
    case Less => FromBool(AsInt(a) < AsInt(b))
    case Equal => FromBool(AsInt(a) == AsInt(b))
  }

  function FromReply(r: Reply): Value
  {
    match r
    case Plain(n) => Num(n)
    case Ok(n) => ResultOk(n)
    case Err(n) => ResultErr(n)
  }

  function OkPayload(v: Value): Value
  {
    match v
    case ResultOk(n) => Num(n)
    case _ => v
  }

  function ErrPayload(v: Value): int { if v.ResultErr? then v.n else 0 }

  /** The enum tag of a value; a value of an enum with n variants always has a tag below n. */
  function TagOf(v: Value, variants: nat): int
  {
    var raw := match v
      case Num(n) => n
      case ResultOk(_) => 0
      case ResultErr(_) => 1
      case Own(tag, _) => tag;
    if variants == 0 then raw else raw % variants
  }

  function Payload(v: Value): Value
  {
    match v
    case ResultOk(n) => Num(n)
    case ResultErr(n) => Num(n)
    case Own(_, ids) => Own(0, ids)
    case _ => v
  }

  /** How many resources a fresh value of the given type and variant holds. */
  function FreshCount(ty: OwnType, tag: nat): nat
  {
    match ty
    case ResourceStruct => 1
    case OwningEnum(payloads) => if tag < |payloads| && payloads[tag] then 1 else 0
  }

  function FreshIds(start: nat, k: nat): seq<nat>
  {
    if k == 0 then [] else FreshIds(start, k - 1) + [start + k - 1]
  }

  function ReadTemp(st: State, t: Temp): Value
  {
    if t in st.temps then st.temps[t] else Num(0)
  }

  function ReadCell(st: State, x: Name): Value
  {
    var i := Find(st.env, x);
    if i < 0 then Num(0) else st.env[i].value
  }

  function NoteRead(st: State, x: Name): State
  {
    var i := Find(st.env, x);
    if i >= 0 && st.env[i].flag == Dead then st.(fault := true) else st
  }

  function WriteCell(st: State, x: Name, v: Value): State
  {
    var i := Find(st.env, x);
    if i < 0 then st else st.(env := st.env[i := st.env[i].(value := v)])
  }

  function ClearFlag(st: State, x: Name): State
  {
    var i := FindFlag(st.env, x);
    if i < 0 then st else st.(env := st.env[i := st.env[i].(flag := Dead)])
  }

  function DeclareCell(st: State, x: Name, v: Value, flag: Flag): State
  {
    st.(env := st.env + [Cell(x, v, flag)])
  }

  function Truncate(st: State, mark: nat): State
  {
    if mark <= |st.env| then st.(env := st.env[..mark]) else st
  }

  // ----- expressions -----

  datatype Evald = Got(v: Value) | Failed(n: int)

  function CallOut(f: Name, v: Value, st: State): (Value, State)
  {
    var logged := st.(trace := st.trace + [Called(f, v)]);
    if st.replies == [] then (Num(0), logged)
    else (FromReply(st.replies[0]), logged.(replies := st.replies[1..]))
  }

  function Eval(e: Expr, st: State): (Evald, State)
  {
    match e
    case IntLit(n) => (Got(Num(n)), st)
    case BoolLit(b) => (Got(FromBool(b)), st)
    case Local(x) => (Got(ReadCell(st, x)), NoteRead(st, x))
    case Borrow(x) => (Got(Num(TagOf(ReadCell(st, x), 0))), NoteRead(st, x))
    case Move(x) => (Got(ReadCell(st, x)), ClearFlag(NoteRead(st, x), x))
    case New(ty, tag) =>
      var k := FreshCount(ty, tag);
      (Got(Own(tag, FreshIds(st.nextId, k))), st.(nextId := st.nextId + k))
    case Binary(op, l, r) =>
      var (a, st1) := Eval(l, st);
      if a.Failed? then (a, st1) else
      var (b, st2) := Eval(r, st1);
      if b.Failed? then (b, st2) else (Got(Apply(op, a.v, b.v)), st2)
    case AndAlso(l, r) =>
      var (a, st1) := Eval(l, st);
      if a.Failed? || !Truthy(a.v) then (a, st1) else Eval(r, st1)
    case OrElse(l, r) =>
      var (a, st1) := Eval(l, st);
      if a.Failed? || Truthy(a.v) then (a, st1) else Eval(r, st1)
    case Not(o) =>
      var (a, st1) := Eval(o, st);
      if a.Failed? then (a, st1) else (Got(FromBool(!Truthy(a.v))), st1)
    case Call(f, arg) =>
      var (a, st1) := Eval(arg, st);
      if a.Failed? then (a, st1) else
      var (v, st2) := CallOut(f, a.v, st1);
      (Got(v), st2)
    case StoreTo(x, arg) =>
      var (a, st1) := Eval(arg, st);
      if a.Failed? then (a, st1) else (Got(Num(0)), WriteCell(st1, x, a.v))
    case Try(o) =>
      var (a, st1) := Eval(o, st);
      if a.Failed? then (a, st1)
      else if a.v.ResultErr? then (Failed(a.v.n), st1)
      else (Got(OkPayload(a.v)), st1)
    case TempVar(t) => (Got(ReadTemp(st, t)), st)
    case IsErr(t) => (Got(FromBool(ReadTemp(st, t).ResultErr?)), st)
    case OkOf(t) => (Got(OkPayload(ReadTemp(st, t))), st)
    case TagIs(t, variants, tag) => (Got(FromBool(TagOf(ReadTemp(st, t), variants) == tag)), st)
    case PayloadOf(t) => (Got(Payload(ReadTemp(st, t))), st)
  }

  function DropCell(st: State, x: Name): State
  {
    var i := FindFlag(st.env, x);
    if i >= 0 && st.env[i].flag == Live then st.(trace := st.trace + [Dropped(ReadCell(st, x))]) else st
  }

  // ----- source semantics -----

  /** A registered cleanup, closed over the bindings that were in scope when it was registered. */
  datatype Pending = Pending(depth: nat, act: Action)

  datatype Run = RunResult(out: Outcome, st: State, pend: seq<Pending>)

  function Perform(a: Action, st: State): State
  {
    match a
    case Drop(x) => DropCell(st, x)
    case Run(e) => Eval(e, st).1
  }

  /** Runs one cleanup in the environment it was registered in. */
  function PerformPending(p: Pending, st: State): State
  {
    if p.depth > |st.env| then st else
    var inner := Perform(p.act, st.(env := st.env[..p.depth]));
    inner.(env := inner.env + st.env[p.depth..])
  }

  function PerformAll(pend: seq<Pending>, st: State): State
  {
    if pend == [] then st
    else PerformAll(pend[..|pend| - 1], PerformPending(pend[|pend| - 1], st))
  }

  /** Leaving a scope: its cleanup in reverse order, then its bindings disappear. */
  function ExitScope(pend: seq<Pending>, mark: nat, st: State): State
  {
    Truncate(PerformAll(pend, st), mark)
  }

  function Failure(n: int): Outcome { Returned(Some(ResultErr(n))) }

  function DeclareBinder(b: Option<Binder>, v: Value, st: State): State
  {
    match b
    case None => st
    case Some(Binder(x, owner)) => DeclareCell(st, x, Payload(v), if owner then Live else NoFlag)
  }

  function BinderPending(b: Option<Binder>, depth: nat): seq<Pending>
  {
    if b.Some? && b.value.owner then [Pending(depth, Drop(b.value.name))] else []
  }

  function ExecStmt(s: Stmt, st: State, pend: seq<Pending>, fuel: nat): Run
    decreases fuel, s, 0
  {
    match s
    case Let(x, e, owner) =>
      var (r, st1) := Eval(e, st);
      if r.Failed? then RunResult(Failure(r.n), st1, pend) else
      var st2 := DeclareCell(st1, x, r.v, if owner then Live else NoFlag);
      RunResult(Normal, st2, if owner then pend + [Pending(|st2.env|, Drop(x))] else pend)
    case Assign(x, e) =>
      var (r, st1) := Eval(e, st);
      if r.Failed? then RunResult(Failure(r.n), st1, pend)
      else RunResult(Normal, WriteCell(st1, x, r.v), pend)
    case ExprStmt(e) =>
      var (r, st1) := Eval(e, st);
      if r.Failed? then RunResult(Failure(r.n), st1, pend) else RunResult(Normal, st1, pend)
    case Return(None) => RunResult(Returned(None), st, pend)
    case Return(Some(e)) =>
      var (r, st1) := Eval(e, st);
      if r.Failed? then RunResult(Failure(r.n), st1, pend)
      else RunResult(Returned(Some(r.v)), st1, pend)
    case If(c, thn, els) =>
      var (r, st1) := Eval(c, st);
      if r.Failed? then RunResult(Failure(r.n), st1, pend)
      else if Truthy(r.v) then
        var (o, st2) := ExecScope(thn, st1, fuel);
        RunResult(o, st2, pend)
      else ExecElse(els, st1, pend, fuel)
    case While(c, body) =>
      var (o, st1) := ExecWhile(c, body, st, fuel);
      RunResult(o, st1, pend)
    case For(x, lo, hi, inclusive, body) =>
      var (a, st1) := Eval(lo, st);
      if a.Failed? then RunResult(Failure(a.n), st1, pend) else
      var (b, st2) := Eval(hi, st1);
      if b.Failed? then RunResult(Failure(b.n), st2, pend) else
      var first, last := AsInt(a.v), AsInt(b.v);
      var st3 := DeclareCell(st2, x, Num(first), NoFlag);
      var (o, st4) := ExecFor(x, last, inclusive, ForStarts(first, last, inclusive), body, st3, fuel);
      RunResult(o, if o.Timeout? then st4 else Truncate(st4, |st2.env|), pend)
    case Block(body) =>
      var (o, st1) := ExecScope(body, st, fuel);
      RunResult(o, st1, pend)
    case Break => RunResult(Broke, st, pend)
    case Continue => RunResult(Continued, st, pend)
    case Defer(e) => RunResult(Normal, st, pend + [Pending(|st.env|, Run(e))])
    case Match(subject, variants, arms) =>
      var (r, st1) := Eval(subject, st);
      if r.Failed? then RunResult(Failure(r.n), st1, pend) else
      var (o, st2) := ExecArms(arms, variants, r.v, st1, fuel);
      RunResult(o, st2, pend)
  }

  function ExecStmts(ss: Stmts, st: State, pend: seq<Pending>, fuel: nat): Run
    decreases fuel, ss, 0
  {
    match ss
    case Done => RunResult(Normal, st, pend)
    case Then(s, rest) =>
      var r := ExecStmt(s, st, pend, fuel);
      if r.out.Normal? then ExecStmts(rest, r.st, r.pend, fuel) else r
  }

  function ExecElse(els: Else, st: State, pend: seq<Pending>, fuel: nat): Run
    decreases fuel, els, 0
  {
    match els
    case NoElse => RunResult(Normal, st, pend)
    case ElseBlock(body) =>
      var (o, st1) := ExecScope(body, st, fuel);
      RunResult(o, st1, pend)
    case ElseIf(chained) =>
      // the parser chains nothing but another `if`
      if chained.If? then ExecStmt(chained, st, pend, fuel) else RunResult(Normal, st, pend)
  }

  /** A block with its own scope: whatever way it ends, its cleanup runs (a run cut off by the
      fuel has not ended). */
  function ExecScope(body: Stmts, st: State, fuel: nat): (Outcome, State)
    decreases fuel, body, 1
  {
    var r := ExecStmts(body, st, [], fuel);
    (r.out, if r.out.Timeout? then r.st else ExitScope(r.pend, |st.env|, r.st))
  }

  function ExecWhile(c: Expr, body: Stmts, st: State, fuel: nat): (Outcome, State)
    decreases fuel, body, 2
  {
    if fuel == 0 then (Timeout, st) else
    var (r, st1) := Eval(c, st);
    if r.Failed? then (Failure(r.n), st1)
    else if !Truthy(r.v) then (Normal, st1)
    else
      var (o, st2) := ExecScope(body, st1, fuel - 1);
      match o
      case Normal => ExecWhile(c, body, st2, fuel - 1)
      case Continued => ExecWhile(c, body, st2, fuel - 1)
      case Broke => (Normal, st2)
      case _ => (o, st2)
  }

  predicate ForStarts(first: int, last: int, inclusive: bool)
  {
    if inclusive then first <= last else first < last
  }

  /** Whether the range goes on after the counter value `at`; an inclusive range stops on equality
      so that its last value may be the largest of its type. */
  predicate ForGoesOn(at: int, last: int, inclusive: bool)
  {
    if inclusive then at != last else at + 1 < last
  }

  function ForStep(x: Name, last: int, inclusive: bool, st: State): (bool, State)
  {
    var at := AsInt(ReadCell(st, x));
    var more := ForGoesOn(at, last, inclusive);
    (more, if inclusive && !more then st else WriteCell(st, x, Num(at + 1)))
  }

  function ExecFor(x: Name, last: int, inclusive: bool, more: bool, body: Stmts, st: State, fuel: nat): (Outcome, State)
    decreases fuel, body, 2
  {
    if fuel == 0 then (Timeout, st)
    else if !more then (Normal, st)
    else
      var (o, st1) := ExecScope(body, st, fuel - 1);
      match o
      case Broke => (Normal, st1)
      case Normal =>
        var (again, st2) := ForStep(x, last, inclusive, st1);
        ExecFor(x, last, inclusive, again, body, st2, fuel - 1)
      case Continued =>
        var (again, st2) := ForStep(x, last, inclusive, st1);
        ExecFor(x, last, inclusive, again, body, st2, fuel - 1)
      case _ => (o, st1)
  }

  function ExecArms(arms: Arms, variants: nat, v: Value, st: State, fuel: nat): (Outcome, State)
    decreases fuel, arms, 0
  {
    match arms
    case NoArms => (Normal, st)
    case Arm(pattern, binder, body, rest) =>
      if pattern.None? || TagOf(v, variants) == pattern.value then
        var st1 := DeclareBinder(binder, v, st);
        var r := ExecStmts(body, st1, BinderPending(binder, |st1.env|), fuel);
        (r.out, if r.out.Timeout? then r.st else ExitScope(r.pend, |st.env|, r.st))
      else ExecArms(rest, variants, v, st, fuel)
  }

  // ----- function calls -----

  function BindParams(params: seq<Param>, args: seq<Value>, st: State): State
    requires |params| == |args|
  {
    if params == [] then st
    else
      var n := |params| - 1;
      var p := params[n];
      DeclareCell(BindParams(params[..n], args[..n], st), p.name, args[n], if p.owner then Live else NoFlag)
  }

  function ParamPending(params: seq<Param>, base: nat): seq<Pending>
  {
    if params == [] then []
    else
      var n := |params| - 1;
      ParamPending(params[..n], base)
      + (if params[n].owner then [Pending(base + n + 1, Drop(params[n].name))] else [])
  }

  /** One call: parameters are bound above the globals in `st`, the body runs, the function's own
      scope is left, and the outcome is reported. */
  function RunFunction(f: Function, args: seq<Value>, st: State, fuel: nat): (Outcome, State)
    requires |args| == |f.params|
  {
    var r := ExecStmts(f.body, BindParams(f.params, args, st), ParamPending(f.params, |st.env|), fuel);
    (r.out, if r.out.Timeout? then r.st else ExitScope(r.pend, |st.env|, r.st))
  }

  // ----- C semantics -----

  function ValueOf(r: Evald): Value { if r.Got? then r.v else Num(0) }

  function MarkLive(st: State, x: Name): State
  {
    var i := Find(st.env, x);
    if i < 0 then st else st.(env := st.env[i := st.env[i].(flag := Live)])
  }

  /** Whether evaluating e in st comes to use the binding x: to read it, move it or store to it. */
  function Touches(e: Expr, x: Name, st: State): bool
  {
    match e
    case Local(y) => y == x
    case Borrow(y) => y == x
    case Move(y) => y == x
    case Binary(_, l, r) =>
      var (a, st1) := Eval(l, st);
      Touches(l, x, st) || (a.Got? && Touches(r, x, st1))
    case AndAlso(l, r) =>
      var (a, st1) := Eval(l, st);
      Touches(l, x, st) || (a.Got? && Truthy(a.v) && Touches(r, x, st1))
    case OrElse(l, r) =>
      var (a, st1) := Eval(l, st);
      Touches(l, x, st) || (a.Got? && !Truthy(a.v) && Touches(r, x, st1))
    case Not(o) => Touches(o, x, st)
    case Call(_, a) => Touches(a, x, st)
    case StoreTo(y, a) => Touches(a, x, st) || (Eval(a, st).0.Got? && y == x)
    case Try(o) => Touches(o, x, st)
    case _ => false
  }

  function SetLast(st: State, v: Value): State
  {
    if st.env == [] then st else
    var n := |st.env| - 1;
    st.(env := st.env[n := st.env[n].(value := v)])
  }

  /** `T m_x = e;` in C: x is in scope in its own initializer, without a value (section 6.2.1 of
      ISO/IEC 9899:2011); an initializer that uses it is a fault. */
  function DeclareInit(st: State, x: Name, e: Expr): State
  {
    var inScope := DeclareCell(st, x, Num(0), NoFlag);
    var (r, st1) := Eval(e, inScope);
    SetLast(st1.(fault := st1.fault || Touches(e, x, inScope)), ValueOf(r))
  }

  function RunC(s: CStmt, st: State, fuel: nat): (Outcome, State)
    decreases fuel, s, 0
  {
    match s
    case Declare(x, e) => (Normal, DeclareInit(st, x, e))
    case DeclareLive(x) => (Normal, MarkLive(st, x))
    case SetTemp(t, e) =>
      var (r, st1) := Eval(e, st);
      (Normal, st1.(temps := st1.temps[t := ValueOf(r)]))
    case Evaluate(e) => (Normal, Eval(e, st).1)
    case SetVar(x, e) =>
      var (r, st1) := Eval(e, st);
      (Normal, WriteCell(st1, x, ValueOf(r)))
    case DropIfLive(x) => (Normal, DropCell(st, x))
    case CIf(c, thn, els) =>
      var (r, st1) := Eval(c, st);
      if Truthy(ValueOf(r)) then RunBlock(thn, st1, fuel) else RunBlock(els, st1, fuel)
    case CIfOnly(c, thn) =>
      var (r, st1) := Eval(c, st);
      if Truthy(ValueOf(r)) then RunBlock(thn, st1, fuel) else (Normal, st1)
    case CWhile(c, body) => RunWhile(c, body, st, fuel)
    case CFor(x, lo, hi, inclusive, body) =>
      var first := AsInt(ReadTemp(st, lo));
      var st1 := DeclareCell(st, x, Num(first), NoFlag);
      var (o, st2) := RunFor(x, hi, inclusive, ForStarts(first, AsInt(ReadTemp(st, hi)), inclusive), body, st1, fuel);
      (o, if o.Timeout? then st2 else Truncate(st2, |st.env|))
    case CBlock(body) => RunBlock(body, st, fuel)
    case CLadder(rungs) => RunRungs(rungs, st, fuel)
    case CReturn(None) => (Returned(None), st)
    case CReturn(Some(t)) => (Returned(Some(ReadTemp(st, t))), st)
    case CReturnErr(t) => (Returned(Some(ResultErr(ErrPayload(ReadTemp(st, t))))), st)
    case CBreak => (Broke, st)
    case CContinue => (Continued, st)
  }

  function RunCode(c: Code, st: State, fuel: nat): (Outcome, State)
    decreases fuel, c, 0
  {
    match c
    case Nop => (Normal, st)
    case Seq(s, rest) =>
      var (o, st1) := RunC(s, st, fuel);
      if o.Normal? then RunCode(rest, st1, fuel) else (o, st1)
  }

  function RunBlock(body: Code, st: State, fuel: nat): (Outcome, State)
    decreases fuel, body, 1
  {
    var (o, st1) := RunCode(body, st, fuel);
    (o, if o.Timeout? then st1 else Truncate(st1, |st.env|))
  }

  function RunRungs(rungs: Rungs, st: State, fuel: nat): (Outcome, State)
    decreases fuel, rungs, 0
  {
    match rungs
    case NoRungs => (Normal, st)
    case Rung(c, body, rest) =>
      var (r, st1) := Eval(c, st);
      if Truthy(ValueOf(r)) then RunBlock(body, st1, fuel) else RunRungs(rest, st1, fuel)
    case Otherwise(body) => RunBlock(body, st, fuel)
  }

  function RunWhile(c: Expr, body: Code, st: State, fuel: nat): (Outcome, State)
    decreases fuel, body, 2
  {
    if fuel == 0 then (Timeout, st) else
    var (r, st1) := Eval(c, st);
    if !Truthy(ValueOf(r)) then (Normal, st1)
    else
      var (o, st2) := RunBlock(body, st1, fuel - 1);
      match o
      case Normal => RunWhile(c, body, st2, fuel - 1)
      case Continued => RunWhile(c, body, st2, fuel - 1)
      case Broke => (Normal, st2)
      case _ => (o, st2)
  }

  function RunFor(x: Name, hi: Temp, inclusive: bool, more: bool, body: Code, st: State, fuel: nat): (Outcome, State)
    decreases fuel, body, 2
  {
    if fuel == 0 then (Timeout, st)
    else if !more then (Normal, st)
    else
      var (o, st1) := RunBlock(body, st, fuel - 1);
      match o
      case Broke => (Normal, st1)
      case Normal =>
        var (again, st2) := ForStep(x, AsInt(ReadTemp(st1, hi)), inclusive, st1);
        RunFor(x, hi, inclusive, again, body, st2, fuel - 1)
      case Continued =>
        var (again, st2) := ForStep(x, AsInt(ReadTemp(st1, hi)), inclusive, st1);
        RunFor(x, hi, inclusive, again, body, st2, fuel - 1)
      case _ => (o, st1)
  }
}
