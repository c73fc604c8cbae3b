/** The generator's lowering as functions: `try` becomes checked temporaries hoisted before the
    statement, and every way out of a scope carries its cleanup inline.  `scopes` is the generator's
    `defer_scopes`, outermost first; `bases` its `loop_defer_bases`. */
module CleanupLowering {
  import opened MortSyntax

  type Scopes = seq<seq<Action>>

  /** The generator's id counters (the numbers in generated names). */
  datatype Ids = Ids(tryId: nat, returnId: nat, matchId: nat, rangeId: nat)

  datatype Prepared = Prepared(code: Code, residual: Expr, ids: Ids)

  datatype Lowered = Lowered(code: Code, top: seq<Action>, ids: Ids)

  datatype LoweredArms = LoweredArms(rungs: Rungs, ids: Ids)

  // ----- inlined cleanup -----

  function EmitAction(a: Action): CStmt
  {
    match a
    case Drop(x) => DropIfLive(x)
    case Run(e) => Evaluate(e)
  }

  /** One scope's actions, last registered first. */
  function EmitActions(acts: seq<Action>): Code
  {
    if acts == [] then Nop
    else Seq(EmitAction(acts[|acts| - 1]), EmitActions(acts[..|acts| - 1]))
  }

  /** All scopes from `start` on, innermost first. */
  function EmitScopes(scopes: Scopes, start: nat): Code
  {
    if |scopes| <= start then Nop
    else Append(EmitActions(scopes[|scopes| - 1]), EmitScopes(scopes[..|scopes| - 1], start))
  }

  // ----- try -----

  function UnwrapTry(t: nat, operand: Expr, scopes: Scopes): Code
  {
    Seq(SetTemp(TryResult(t), operand),
    Seq(CIfOnly(IsErr(TryResult(t)), Append(EmitScopes(scopes, 0), One(CReturnErr(TryResult(t))))),
    One(SetTemp(TryValue(t), OkOf(TryResult(t))))))
  }

  function ShortCircuit(t: nat, left: Expr, goOn: Expr, rightCode: Code, right: Expr): Code
  {
    Seq(SetTemp(Short(t), left),
    One(CIfOnly(goOn, Append(rightCode, One(SetTemp(Short(t), right))))))
  }

  function PrepareTry(e: Expr, scopes: Scopes, ids: Ids): Prepared
  {
    match e
    case Try(o) =>
      var p := PrepareTry(o, scopes, ids);
      var t := p.ids.tryId;
      Prepared(Append(p.code, UnwrapTry(t, p.residual, scopes)), TempVar(TryValue(t)), p.ids.(tryId := t + 1))
    case Binary(op, l, r) =>
      var p := PrepareTry(l, scopes, ids);
      var q := PrepareTry(r, scopes, p.ids);
      Prepared(Append(p.code, q.code), Binary(op, p.residual, q.residual), q.ids)
    case AndAlso(l, r) =>
      var p := PrepareTry(l, scopes, ids);
      if HasTry(r) then
        var t := p.ids.tryId;
        var q := PrepareTry(r, scopes, p.ids.(tryId := t + 1));
        Prepared(Append(p.code, ShortCircuit(t, p.residual, TempVar(Short(t)), q.code, q.residual)),
                 TempVar(Short(t)), q.ids)
      else Prepared(p.code, AndAlso(p.residual, r), p.ids)
    case OrElse(l, r) =>
      var p := PrepareTry(l, scopes, ids);
      if HasTry(r) then
        var t := p.ids.tryId;
        var q := PrepareTry(r, scopes, p.ids.(tryId := t + 1));
        Prepared(Append(p.code, ShortCircuit(t, p.residual, Not(TempVar(Short(t))), q.code, q.residual)),
                 TempVar(Short(t)), q.ids)
      else Prepared(p.code, OrElse(p.residual, r), p.ids)
    case Not(o) =>
      var p := PrepareTry(o, scopes, ids);
      p.(residual := Not(p.residual))
    case Call(f, a) =>
      var p := PrepareTry(a, scopes, ids);
      p.(residual := Call(f, p.residual))
    case StoreTo(x, a) =>
      var p := PrepareTry(a, scopes, ids);
      p.(residual := StoreTo(x, p.residual))
    case _ => Prepared(Nop, e, ids)
  }

  // ----- statements -----

  function Push(scopes: Scopes, top: seq<Action>): Scopes { scopes + [top] }

  function SetTop(scopes: Scopes, top: seq<Action>): Scopes
    requires |scopes| > 0
  {
    scopes[..|scopes| - 1] + [top]
  }

  function Top(scopes: Scopes): seq<Action>
    requires |scopes| > 0
  {
    scopes[|scopes| - 1]
  }

  /** Where a break or continue starts its cleanup; the checker admits neither outside a loop. */
  function LoopBase(bases: seq<nat>): nat
  {
    if bases == [] then 0 else bases[|bases| - 1]
  }

  function BinderTop(b: Option<Binder>): seq<Action>
  {
    if b.Some? && b.value.owner then [Drop(b.value.name)] else []
  }

  function DeclareOwner(x: Name, init: Expr, owner: bool): Code
  {
    Seq(Declare(x, init), if owner then One(DeclareLive(x)) else Nop)
  }

  function BinderCode(b: Option<Binder>, subject: Temp): Code
  {
    match b
    case None => Nop
    case Some(Binder(x, owner)) => DeclareOwner(x, PayloadOf(subject), owner)
  }

  /** For scalars a wildcard makes the match exhaustive; the checker accepts an enum match only if
      it is. */
  predicate Exhaustive(variants: nat, arms: Arms)
  {
    variants > 0 || HasWildcard(arms)
  }

  predicate HasWildcard(arms: Arms)
  {
    match arms
    case NoArms => false
    case Arm(p, _, _, rest) => p.None? || HasWildcard(rest)
  }

  function LowerStmt(s: Stmt, scopes: Scopes, bases: seq<nat>, ids: Ids): Lowered
    requires |scopes| > 0
    decreases s, 0
  {
    var top := Top(scopes);
    match s
    case Let(x, e, owner) =>
      var p := PrepareTry(e, scopes, ids);
      Lowered(Append(p.code, DeclareOwner(x, p.residual, owner)),
              if owner then top + [Drop(x)] else top, p.ids)
    case Assign(x, e) =>
      var p := PrepareTry(e, scopes, ids);
      Lowered(Append(p.code, One(SetVar(x, p.residual))), top, p.ids)
    case ExprStmt(e) =>
      var p := PrepareTry(e, scopes, ids);
      Lowered(Append(p.code, One(Evaluate(p.residual))), top, p.ids)
    case Return(None) =>
      Lowered(Append(EmitScopes(scopes, 0), One(CReturn(None))), top, ids)
    case Return(Some(e)) =>
      var p := PrepareTry(e, scopes, ids);
      var t := ReturnValue(p.ids.returnId);
      Lowered(Append(p.code, Seq(SetTemp(t, p.residual), Append(EmitScopes(scopes, 0), One(CReturn(Some(t)))))),
              top, p.ids.(returnId := p.ids.returnId + 1))
    case If(c, thn, els) =>
      var p := PrepareTry(c, scopes, ids);
      var a := LowerScope(thn, scopes, [], bases, p.ids);
      var b := LowerElse(els, scopes, bases, a.ids);
      var branch := if els.NoElse? then CIfOnly(p.residual, a.code) else CIf(p.residual, a.code, b.code);
      Lowered(Append(p.code, One(branch)), top, b.ids)
    case While(c, body) =>
      var inner := bases + [|scopes|];
      if HasTry(c) then
        var p := PrepareTry(c, Push(scopes, []), ids);
        var b := LowerScope(body, scopes, [], inner, p.ids);
        Lowered(One(CWhile(BoolLit(true),
                  Append(p.code, Seq(CIfOnly(Not(p.residual), One(CBreak)), b.code)))), top, b.ids)
      else
        var b := LowerScope(body, scopes, [], inner, ids);
        Lowered(One(CWhile(c, b.code)), top, b.ids)
    case For(x, lo, hi, inclusive, body) =>
      var p := PrepareTry(lo, scopes, ids);
      var q := PrepareTry(hi, scopes, p.ids);
      var r := q.ids.rangeId;
      var b := LowerScope(body, scopes, [], bases + [|scopes|], q.ids.(rangeId := r + 1));
      var ranged := Seq(SetTemp(RangeStart(r), p.residual),
                    Seq(SetTemp(RangeEnd(r), q.residual),
                    One(CFor(x, RangeStart(r), RangeEnd(r), inclusive, b.code))));
      Lowered(Append(p.code, Append(q.code, One(CBlock(ranged)))), top, b.ids)
    case Block(body) =>
      var b := LowerScope(body, scopes, [], bases, ids);
      Lowered(One(CBlock(b.code)), top, b.ids)
    case Break =>
      Lowered(Append(EmitScopes(scopes, LoopBase(bases)), One(CBreak)), top, ids)
    case Continue =>
      Lowered(Append(EmitScopes(scopes, LoopBase(bases)), One(CContinue)), top, ids)
    case Defer(e) =>
      Lowered(Nop, top + [Run(e)], ids)
    case Match(subject, variants, arms) =>
      var p := PrepareTry(subject, scopes, ids);
      var m := MatchSubject(p.ids.matchId);
      var b := LowerArms(arms, variants, m, Exhaustive(variants, arms), scopes, bases,
                         p.ids.(matchId := p.ids.matchId + 1));
      Lowered(Append(p.code, One(CBlock(Seq(SetTemp(m, p.residual), One(CLadder(b.rungs)))))), top, b.ids)
  }

  function LowerStmts(ss: Stmts, scopes: Scopes, bases: seq<nat>, ids: Ids): Lowered
    requires |scopes| > 0
    decreases ss, 0
  {
    match ss
    case Done => Lowered(Nop, Top(scopes), ids)
    case Then(s, rest) =>
      var a := LowerStmt(s, scopes, bases, ids);
      var b := LowerStmts(rest, SetTop(scopes, a.top), bases, a.ids);
      Lowered(Append(a.code, b.code), b.top, b.ids)
  }

  /** The statements of a new scope that starts with the actions `first`, then its cleanup. */
  function LowerScope(body: Stmts, scopes: Scopes, first: seq<Action>, bases: seq<nat>, ids: Ids): Lowered
    decreases body, 1
  {
    var b := LowerStmts(body, Push(scopes, first), bases, ids);
    Lowered(Append(b.code, EmitActions(b.top)), b.top, b.ids)
  }

  function LowerElse(els: Else, scopes: Scopes, bases: seq<nat>, ids: Ids): Lowered
    requires |scopes| > 0
    decreases els, 0
  {
    match els
    case NoElse => Lowered(Nop, Top(scopes), ids)
    case ElseBlock(body) => LowerScope(body, scopes, [], bases, ids)
    case ElseIf(chained) =>
      // the parser chains nothing but another `if`
      if chained.If? then LowerStmt(chained, scopes, bases, ids) else Lowered(Nop, Top(scopes), ids)
  }

  /** An if/else-if ladder over the tags; the last arm of an exhaustive match is unconditional. */
  function LowerArms(arms: Arms, variants: nat, m: Temp, exhaustive: bool,
                     scopes: Scopes, bases: seq<nat>, ids: Ids): LoweredArms
    decreases arms, 0
  {
    match arms
    case NoArms => LoweredArms(NoRungs, ids)
    case Arm(pattern, binder, body, rest) =>
      var a := LowerScope(body, scopes, BinderTop(binder), bases, ids);
      var code := Append(BinderCode(binder, m), a.code);
      if pattern.None? || (exhaustive && rest.NoArms?) then
        // the checker rejects an arm after the wildcard
        LoweredArms(Otherwise(code), a.ids)
      else
        var b := LowerArms(rest, variants, m, exhaustive, scopes, bases, a.ids);
        LoweredArms(Rung(TagIs(m, variants, pattern.value), code, b.rungs), b.ids)
  }

  // ----- functions -----

  function ParamTop(params: seq<Param>): seq<Action>
  {
    if params == [] then []
    else
      var n := |params| - 1;
      ParamTop(params[..n]) + (if params[n].owner then [Drop(params[n].name)] else [])
  }

  function ParamCode(params: seq<Param>): Code
  {
    if params == [] then Nop
    else
      var n := |params| - 1;
      Append(ParamCode(params[..n]), if params[n].owner then One(DeclareLive(params[n].name)) else Nop)
  }

  /** Only a void function may fall off its end, so only there is the function's cleanup emitted. */
  function LowerFunction(f: Function, ids: Ids): Lowered
  {
    var b := LowerStmts(f.body, [ParamTop(f.params)], [], ids);
    Lowered(Append(ParamCode(f.params), Append(b.code, if f.isVoid then EmitActions(b.top) else Nop)), b.top, b.ids)
  }
}
