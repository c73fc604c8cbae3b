/** The generator itself: it appends C lines one by one while pushing and popping `defer_scopes` and
    `loop_defer_bases` and counting temporaries.  Each method is proved to emit exactly the lines of
    the lowering that the theorems are about. */
module CodeGenerator {
  import opened MortSyntax
  import opened CleanupLowering
  import opened EvaluationFacts
  import opened TryProof

  /** A line of C: a whole statement, the head of a block, or a closing brace. */
  datatype Line =
    | Statement(s: CStmt)
    | OpenIf(cond: Expr)
    | OpenElse                                    // } else {
    | OpenWhile(cond: Expr)
    | OpenFor(x: Name, lo: Temp, hi: Temp, inclusive: bool)
    | OpenBlock
    | OpenElseIf(cond: Expr)                      // else if (..) {  after a rung that is closed
    | OpenElseBlock                               // else {  after a rung that is closed
    | Close

  function Flatten(c: Code): seq<Line>
  {
    match c
    case Nop => []
    case Seq(s, rest) => FlattenStmt(s) + Flatten(rest)
  }

  function FlattenStmt(s: CStmt): seq<Line>
  {
    match s
    case CIf(c, thn, els) => [OpenIf(c)] + Flatten(thn) + [OpenElse] + Flatten(els) + [Close]
    case CIfOnly(c, thn) => [OpenIf(c)] + Flatten(thn) + [Close]
    case CWhile(c, body) => [OpenWhile(c)] + Flatten(body) + [Close]
    case CFor(x, lo, hi, inclusive, body) => [OpenFor(x, lo, hi, inclusive)] + Flatten(body) + [Close]
    case CBlock(body) => [OpenBlock] + Flatten(body) + [Close]
    case CLadder(rungs) => FlattenRungs(rungs, true)
    case _ => [Statement(s)]
  }

  /** The first rung starts with `if` or with a bare brace, the others with `else`. */
  function FlattenRungs(rungs: Rungs, first: bool): seq<Line>
  {
    match rungs
    case NoRungs => []
    case Rung(c, body, rest) => [RungHead(c, first)] + Flatten(body) + [Close] + FlattenRungs(rest, false)
    case Otherwise(body) => [OtherwiseHead(first)] + Flatten(body) + [Close]
  }

  function RungHead(c: Expr, first: bool): Line { if first then OpenIf(c) else OpenElseIf(c) }

  function OtherwiseHead(first: bool): Line { if first then OpenBlock else OpenElseBlock }

  lemma FlattenAppend(a: Code, b: Code)
    ensures Flatten(Append(a, b)) == Flatten(a) + Flatten(b)
  {
    match a
    case Nop =>
    case Seq(s, rest) =>
      FlattenAppend(rest, b);
      assert FlattenStmt(s) + (Flatten(rest) + Flatten(b)) == (FlattenStmt(s) + Flatten(rest)) + Flatten(b);
  }

  lemma FlattenNop()
    ensures Flatten(Nop) == []
  {
  }

  lemma FlattenSeq(s: CStmt, rest: Code)
    ensures Flatten(Seq(s, rest)) == FlattenStmt(s) + Flatten(rest)
  {
  }

  lemma FlattenOne(s: CStmt)
    ensures Flatten(One(s)) == FlattenStmt(s)
  {
  }

  lemma FlattenShortCircuit(id: nat, left: Expr, goOn: Expr, rightCode: Code, right: Expr)
    ensures Flatten(ShortCircuit(id, left, goOn, rightCode, right)) ==
      [Statement(SetTemp(Short(id), left)), OpenIf(goOn)] + Flatten(rightCode) + [Statement(SetTemp(Short(id), right)), Close]
  {
    var assign := SetTemp(Short(id), right);
    var guarded := CIfOnly(goOn, Append(rightCode, One(assign)));
    FlattenAppend(rightCode, One(assign));
    FlattenOne(assign);
    FlattenOne(guarded);
    FlattenSeq(SetTemp(Short(id), left), One(guarded));
    assert FlattenStmt(guarded) == [OpenIf(goOn)] + (Flatten(rightCode) + [Statement(assign)]) + [Close];
  }

  // ----- emitted lines, one after the other, are the lines of the lowered statement -----

  lemma PlaceIf(base: seq<Line>, p: Code, c: Expr, a: Code, b: Code)
    ensures base + Flatten(Append(p, One(CIf(c, a, b)))) ==
      base + Flatten(p) + [OpenIf(c)] + Flatten(a) + [OpenElse] + Flatten(b) + [Close]
    ensures base + Flatten(Append(p, One(CIfOnly(c, a)))) == base + Flatten(p) + [OpenIf(c)] + Flatten(a) + [Close]
  {
    FlattenAppendOne(p, CIf(c, a, b));
    FlattenAppendOne(p, CIfOnly(c, a));
  }

  lemma PlaceWhile(base: seq<Line>, c: Expr, a: Code, b: Code)
    ensures base + Flatten(One(CWhile(c, Append(a, b)))) == base + [OpenWhile(c)] + Flatten(a) + Flatten(b) + [Close]
  {
    FlattenAppend(a, b);
    FlattenOne(CWhile(c, Append(a, b)));
  }

  lemma PlaceTryWhile(base: seq<Line>, p: Code, residual: Expr, a: Code, b: Code)
    ensures var check := CIfOnly(Not(residual), One(CBreak));
      base + Flatten(One(CWhile(BoolLit(true), Append(p, Seq(check, Append(a, b)))))) ==
        base + [OpenWhile(BoolLit(true))] + Flatten(p) + [OpenIf(Not(residual))] + [Statement(CBreak)] + [Close]
        + Flatten(a) + Flatten(b) + [Close]
  {
    var check := CIfOnly(Not(residual), One(CBreak));
    FlattenOne(CBreak);
    FlattenSeq(check, Append(a, b));
    PlaceWhile(base, BoolLit(true), p, Seq(check, Append(a, b)));
    FlattenAppend(a, b);
  }

  lemma FlattenRange(r: nat, start: Expr, end: Expr, x: Name, inclusive: bool, code: Code)
    ensures var loop := CFor(x, RangeStart(r), RangeEnd(r), inclusive, code);
      FlattenStmt(CBlock(Seq(SetTemp(RangeStart(r), start), Seq(SetTemp(RangeEnd(r), end), One(loop))))) ==
        [OpenBlock, Statement(SetTemp(RangeStart(r), start)), Statement(SetTemp(RangeEnd(r), end)),
         OpenFor(x, RangeStart(r), RangeEnd(r), inclusive)] + Flatten(code) + [Close, Close]
  {
    var loop := CFor(x, RangeStart(r), RangeEnd(r), inclusive, code);
    FlattenOne(loop);
    FlattenSeq(SetTemp(RangeEnd(r), end), One(loop));
    FlattenSeq(SetTemp(RangeStart(r), start), Seq(SetTemp(RangeEnd(r), end), One(loop)));
  }

  /** The block of a `for` loop: its bounds, then the loop. */
  function RangeBlock(x: Name, r: nat, start: Expr, end: Expr, inclusive: bool, body: Code): CStmt
  {
    CBlock(Seq(SetTemp(RangeStart(r), start), Seq(SetTemp(RangeEnd(r), end),
           One(CFor(x, RangeStart(r), RangeEnd(r), inclusive, body)))))
  }

  lemma {:induction false} PlaceRange(base: seq<Line>, x: Name, r: nat, start: Expr, end: Expr, inclusive: bool, a: Code, b: Code)
    ensures base + Flatten(One(RangeBlock(x, r, start, end, inclusive, Append(a, b)))) ==
      base + [OpenBlock] + [Statement(SetTemp(RangeStart(r), start))]
      + [Statement(SetTemp(RangeEnd(r), end))] + [OpenFor(x, RangeStart(r), RangeEnd(r), inclusive)]
      + Flatten(a) + Flatten(b) + [Close] + [Close]
  {
    hide Flatten, FlattenStmt;
    FlattenAppend(a, b);
    FlattenRange(r, start, end, x, inclusive, Append(a, b));
    FlattenOne(RangeBlock(x, r, start, end, inclusive, Append(a, b)));
    var head := [OpenBlock, Statement(SetTemp(RangeStart(r), start)), Statement(SetTemp(RangeEnd(r), end)),
                 OpenFor(x, RangeStart(r), RangeEnd(r), inclusive)];
    assert base + head == base + [OpenBlock] + [Statement(SetTemp(RangeStart(r), start))]
      + [Statement(SetTemp(RangeEnd(r), end))] + [OpenFor(x, RangeStart(r), RangeEnd(r), inclusive)];
    var done := base + head + Flatten(a) + Flatten(b);
    assert base + (head + (Flatten(a) + Flatten(b)) + [Close, Close]) == done + [Close, Close];
    assert done + [Close, Close] == done + [Close] + [Close];
  }

  lemma {:induction false} PlaceFor(base: seq<Line>, p: Code, q: Code, block: CStmt)
    ensures base + Flatten(Append(p, Append(q, One(block)))) == base + Flatten(p) + Flatten(q) + Flatten(One(block))
  {
    hide Flatten, Append;
    FlattenAppend(q, One(block));
    FlattenAppend(p, Append(q, One(block)));
  }

  lemma {:induction false} PlaceReturn(base: seq<Line>, p: Code, t: Temp, value: Expr, cleanup: Code)
    ensures base + Flatten(Append(p, Seq(SetTemp(t, value), Append(cleanup, One(CReturn(Some(t))))))) ==
      base + Flatten(p) + [Statement(SetTemp(t, value))] + Flatten(cleanup) + [Statement(CReturn(Some(t)))]
  {
    hide Flatten, Append;
    var jump := Append(cleanup, One(CReturn(Some(t))));
    FlattenAppendOne(cleanup, CReturn(Some(t)));
    FlattenSeq(SetTemp(t, value), jump);
    FlattenAppend(p, Seq(SetTemp(t, value), jump));
  }

  lemma LastScope(scopes: Scopes, start: nat)
    requires |scopes| > start
    ensures EmitScopes(scopes, start) == Append(EmitActions(scopes[|scopes| - 1]), EmitScopes(scopes[..|scopes| - 1], start))
  {
  }

  lemma NoScopes(scopes: Scopes, start: nat)
    requires |scopes| <= start
    ensures EmitScopes(scopes, start) == Nop
  {
  }

  lemma PlaceLet(base: seq<Line>, p: Code, x: Name, init: Expr, owner: bool)
    ensures base + Flatten(Append(p, DeclareOwner(x, init, owner))) ==
      base + Flatten(p) + [Statement(Declare(x, init))] + (if owner then [Statement(DeclareLive(x))] else [])
  {
    FlattenOne(DeclareLive(x));
    FlattenNop();
    FlattenSeq(Declare(x, init), if owner then One(DeclareLive(x)) else Nop);
    FlattenAppend(p, DeclareOwner(x, init, owner));
  }

  lemma PlaceUnwrap(base: seq<Line>, id: nat, operand: Expr, scopes: Scopes)
    ensures base + Flatten(UnwrapTry(id, operand, scopes)) ==
      base + [Statement(SetTemp(TryResult(id), operand))] + [OpenIf(IsErr(TryResult(id)))] + Flatten(EmitScopes(scopes, 0))
      + [Statement(CReturnErr(TryResult(id)))] + [Close] + [Statement(SetTemp(TryValue(id), OkOf(TryResult(id))))]
  {
    hide EmitScopes;
    var exit := One(CReturnErr(TryResult(id)));
    FlattenAppend(EmitScopes(scopes, 0), exit);
    var check := CIfOnly(IsErr(TryResult(id)), Append(EmitScopes(scopes, 0), exit));
    var value := SetTemp(TryValue(id), OkOf(TryResult(id)));
    FlattenOne(CReturnErr(TryResult(id)));
    FlattenOne(value);
    FlattenSeq(check, One(value));
    FlattenSeq(SetTemp(TryResult(id), operand), Seq(check, One(value)));
    assert FlattenStmt(check) ==
      [OpenIf(IsErr(TryResult(id)))] + (Flatten(EmitScopes(scopes, 0)) + [Statement(CReturnErr(TryResult(id)))]) + [Close];
  }

  lemma PlaceMatch(base: seq<Line>, p: Code, m: Temp, value: Expr, rungs: Rungs)
    ensures base + Flatten(Append(p, One(CBlock(Seq(SetTemp(m, value), One(CLadder(rungs))))))) ==
      base + Flatten(p) + [OpenBlock] + [Statement(SetTemp(m, value))] + FlattenRungs(rungs, true) + [Close]
  {
    FlattenOne(CLadder(rungs));
    FlattenSeq(SetTemp(m, value), One(CLadder(rungs)));
    FlattenAppendOne(p, CBlock(Seq(SetTemp(m, value), One(CLadder(rungs)))));
  }

  lemma PlaceRung(base: seq<Line>, c: Expr, first: bool, binder: Code, a: Code, rest: Rungs)
    ensures base + FlattenRungs(Rung(c, Append(binder, a), rest), first) ==
      base + [RungHead(c, first)] + Flatten(binder) + Flatten(a) + [Close] + FlattenRungs(rest, false)
  {
    FlattenAppend(binder, a);
    var body, more := Append(binder, a), FlattenRungs(rest, false);
    assert FlattenRungs(Rung(c, body, rest), first) == [RungHead(c, first)] + Flatten(body) + [Close] + more;
    hide Flatten, FlattenRungs, RungHead, Append;
    PlaceBody(base, RungHead(c, first), Flatten(binder), Flatten(a), more);
  }

  lemma PlaceOtherwise(base: seq<Line>, first: bool, binder: Code, a: Code)
    ensures base + FlattenRungs(Otherwise(Append(binder, a)), first) ==
      base + [OtherwiseHead(first)] + Flatten(binder) + Flatten(a) + [Close]
  {
    FlattenAppend(binder, a);
    var body := Append(binder, a);
    assert FlattenRungs(Otherwise(body), first) == [OtherwiseHead(first)] + Flatten(body) + [Close];
    hide Flatten, FlattenRungs, OtherwiseHead, Append;
    PlaceBody(base, OtherwiseHead(first), Flatten(binder), Flatten(a), []);
  }

  lemma PlaceBody(base: seq<Line>, head: Line, a: seq<Line>, b: seq<Line>, more: seq<Line>)
    ensures base + ([head] + (a + b) + [Close] + more) == base + [head] + a + b + [Close] + more
    ensures base + ([head] + (a + b) + [Close]) == base + [head] + a + b + [Close]
  {
  }

  class Generator {
    var lines: seq<Line>
    var deferScopes: Scopes
    var loopDeferBases: seq<nat>
    var tryId: nat
    var returnId: nat
    var matchId: nat
    var rangeId: nat

    constructor ()
      ensures lines == [] && deferScopes == [] && loopDeferBases == [] && CurrentIds() == Ids(0, 0, 0, 0)
    {
      lines, deferScopes, loopDeferBases := [], [], [];
      tryId, returnId, matchId, rangeId := 0, 0, 0, 0;
    }

    function CurrentIds(): Ids
      reads this
    {
      Ids(tryId, returnId, matchId, rangeId)
    }

    method Emit(line: Line)
      modifies this`lines
      ensures lines == old(lines) + [line]
    {
      lines := lines + [line];
    }

    /** Emits the cleanup of scopes `start`.. innermost first, each last-registered first; the scopes
        themselves stay open. */
    method EmitDeferScopes(start: nat)
      modifies this`lines
      ensures lines == old(lines) + Flatten(EmitScopes(deferScopes, start))
    {
      hide Flatten, EmitActions, EmitScopes;
      var i := |deferScopes|;
      assert deferScopes[..i] == deferScopes;
      while start < i
        invariant i <= |deferScopes|
        invariant lines + Flatten(EmitScopes(deferScopes[..i], start)) == old(lines) + Flatten(EmitScopes(deferScopes, start))
      {
        i := i - 1;
        LastScope(deferScopes[..i + 1], start);
        assert deferScopes[..i + 1][..i] == deferScopes[..i];
        FlattenAppend(EmitActions(deferScopes[i]), EmitScopes(deferScopes[..i], start));
        EmitReversed(deferScopes[i]);
      }
      FlattenNop();
      NoScopes(deferScopes[..i], start);
    }

    method EmitReversed(scope: seq<Action>)
      modifies this`lines
      ensures lines == old(lines) + Flatten(EmitActions(scope))
    {
      var j := |scope|;
      assert scope[..j] == scope;
      while 0 < j
        invariant j <= |scope|
        invariant lines + Flatten(EmitActions(scope[..j])) == old(lines) + Flatten(EmitActions(scope))
      {
        j := j - 1;
        assert scope[..j + 1][..j] == scope[..j];
        FlattenSeq(EmitAction(scope[j]), EmitActions(scope[..j]));
        Emit(Statement(EmitAction(scope[j])));
      }
    }

    method PrepareUnwrapped(o: Expr) returns (residual: Expr)
      modifies this`lines, this`tryId
      ensures var p := PrepareTry(Try(o), deferScopes, old(CurrentIds()));
        lines == old(lines) + Flatten(p.code) && residual == p.residual && CurrentIds() == p.ids
      decreases Try(o), 0
    {
      hide Flatten, FlattenStmt, EmitScopes, UnwrapTry, Append, HasTry;
      ghost var p := PrepareTry(o, deferScopes, CurrentIds());
      var operand := PrepareTryExpr(o);
      residual := EmitTryUnwrap(operand);
      FlattenAppend(p.code, UnwrapTry(p.ids.tryId, operand, deferScopes));
    }

    method PrepareOperands(op: BinOp, l: Expr, r: Expr) returns (residual: Expr)
      modifies this`lines, this`tryId
      ensures var p := PrepareTry(Binary(op, l, r), deferScopes, old(CurrentIds()));
        lines == old(lines) + Flatten(p.code) && residual == p.residual && CurrentIds() == p.ids
      decreases Binary(op, l, r), 0
    {
      hide Flatten, FlattenStmt, Append, HasTry;
      ghost var p := PrepareTry(l, deferScopes, CurrentIds());
      var left := PrepareTryExpr(l);
      var right := PrepareTryExpr(r);
      residual := Binary(op, left, right);
      FlattenAppend(p.code, PrepareTry(r, deferScopes, p.ids).code);
    }

    /** Hoists every `try` of an expression; the result is what is left to evaluate in place. */
    method PrepareTryExpr(e: Expr) returns (residual: Expr)
      modifies this`lines, this`tryId
      ensures var p := PrepareTry(e, deferScopes, old(CurrentIds()));
        lines == old(lines) + Flatten(p.code) && residual == p.residual && CurrentIds() == p.ids
      decreases e, 1
    {
      hide Flatten, FlattenStmt, EmitScopes, UnwrapTry, Append, HasTry;
      FlattenNop();
      match e
      case Try(o) => residual := PrepareUnwrapped(o);
      case Binary(op, l, r) => residual := PrepareOperands(op, l, r);
      case AndAlso(l, r) =>
        var left := PrepareTryExpr(l);
        if HasTry(r) {
          residual := PrepareShortCircuit(e, l, r, true, left, old(CurrentIds()), old(lines));
        } else {
          residual := AndAlso(left, r);
        }
      case OrElse(l, r) =>
        var left := PrepareTryExpr(l);
        if HasTry(r) {
          residual := PrepareShortCircuit(e, l, r, false, left, old(CurrentIds()), old(lines));
        } else {
          residual := OrElse(left, r);
        }
      case Not(o) =>
        var operand := PrepareTryExpr(o);
        residual := Not(operand);
      case Call(f, a) =>
        var arg := PrepareTryExpr(a);
        residual := Call(f, arg);
      case StoreTo(x, a) =>
        var arg := PrepareTryExpr(a);
        residual := StoreTo(x, arg);
      case _ => residual := e;
    }

    /** The right operand of a lazy operator is prepared inside a guarded block. */
    method PrepareShortCircuit(ghost e: Expr, ghost l: Expr, r: Expr, conjunction: bool, left: Expr,
                               ghost ids: Ids, ghost before: seq<Line>) returns (residual: Expr)
      requires e == Lazy(conjunction, l, r) && HasTry(r)
      requires var p := PrepareTry(l, deferScopes, ids);
        lines == before + Flatten(p.code) && left == p.residual && CurrentIds() == p.ids
      modifies this`lines, this`tryId
      ensures var p := PrepareTry(e, deferScopes, ids);
        lines == before + Flatten(p.code) && residual == p.residual && CurrentIds() == p.ids
      decreases r, 2
    {
      hide PrepareTry, Flatten, FlattenStmt, ShortCircuit;
      PrepareLazy(conjunction, l, r, deferScopes, ids);
      ghost var p := PrepareTry(l, deferScopes, ids);
      var id := tryId;
      tryId := tryId + 1;
      Emit(Statement(SetTemp(Short(id), left)));
      var goOn := if conjunction then TempVar(Short(id)) else Not(TempVar(Short(id)));
      Emit(OpenIf(goOn));
      ghost var inner := CurrentIds();
      var right := PrepareTryExpr(r);
      Emit(Statement(SetTemp(Short(id), right)));
      Emit(Close);
      residual := TempVar(Short(id));
      ghost var q := PrepareTry(r, deferScopes, inner);
      FlattenShortCircuit(id, left, goOn, q.code, right);
      FlattenAppend(p.code, ShortCircuit(id, left, goOn, q.code, right));
    }

    method EmitTryUnwrap(operand: Expr) returns (residual: Expr)
      modifies this`lines, this`tryId
      ensures lines == old(lines) + Flatten(UnwrapTry(old(tryId), operand, deferScopes))
      ensures residual == TempVar(TryValue(old(tryId))) && tryId == old(tryId) + 1
    {
      hide EmitScopes, EmitActions, UnwrapTry, Flatten, FlattenStmt, Append;
      var id := tryId;
      tryId := tryId + 1;
      Emit(Statement(SetTemp(TryResult(id), operand)));
      Emit(OpenIf(IsErr(TryResult(id))));
      EmitDeferScopes(0);
      Emit(Statement(CReturnErr(TryResult(id))));
      Emit(Close);
      Emit(Statement(SetTemp(TryValue(id), OkOf(TryResult(id)))));
      residual := TempVar(TryValue(id));
      PlaceUnwrap(old(lines), id, operand, deferScopes);
    }

    /** What a method that lowers one construct leaves behind: its lines at the end, its cleanup in
        the innermost scope, everything else as it was. */
    twostate predicate Emitted(low: Lowered)
      requires |old(deferScopes)| > 0
      reads this
    {
      && lines == old(lines) + Flatten(low.code)
      && deferScopes == SetTop(old(deferScopes), low.top)
      && loopDeferBases == old(loopDeferBases)
      && CurrentIds() == low.ids
    }

    lemma TopUnchanged(scopes: Scopes)
      requires |scopes| > 0
      ensures SetTop(scopes, Top(scopes)) == scopes
    {
    }

    method GenStmt(s: Stmt)
      requires |deferScopes| > 0
      modifies this
      ensures Emitted(LowerStmt(s, old(deferScopes), old(loopDeferBases), old(CurrentIds())))
      decreases s, 1
    {
      hide PrepareTry, EmitScopes, LowerScope, LowerStmts, LowerElse, LowerArms, EmitActions, Flatten, Append, HasTry, Exhaustive, DeclareOwner;
      TopUnchanged(deferScopes);
      match s
      case Let(x, e, owner) => GenLet(x, e, owner);
      case Assign(_, _) => GenSimple(s);
      case ExprStmt(_) => GenSimple(s);
      case Return(result) => GenReturn(result);
      case If(c, thn, els) => GenIf(c, thn, els);
      case While(c, body) => GenWhile(c, body);
      case For(x, lo, hi, inclusive, body) => GenFor(x, lo, hi, inclusive, body);
      case Block(body) =>
        ghost var low := LowerScope(body, deferScopes, [], loopDeferBases, CurrentIds());
        Emit(OpenBlock);
        GenScopedStatements(body, []);
        Emit(Close);
        FlattenOne(CBlock(low.code));
      case Break => GenJump(s);
      case Continue => GenJump(s);
      case Defer(e) =>
        Register(Run(e));
        FlattenNop();
      case Match(subject, variants, arms) => GenMatch(subject, variants, arms);
    }

    method GenSimple(s: Stmt)
      requires |deferScopes| > 0 && (s.Assign? || s.ExprStmt?)
      modifies this
      ensures Emitted(LowerStmt(s, old(deferScopes), old(loopDeferBases), old(CurrentIds())))
      decreases s, 0
    {
      hide PrepareTry, EmitScopes, Flatten, Append, HasTry;
      TopUnchanged(deferScopes);
      var e := if s.Assign? then s.value else s.e;
      var value := PrepareTryExpr(e);
      var last := if s.Assign? then SetVar(s.x, value) else Evaluate(value);
      Emit(Statement(last));
      FlattenAppendOne(PrepareTry(e, old(deferScopes), old(CurrentIds())).code, last);
    }

    method GenJump(s: Stmt)
      requires |deferScopes| > 0 && (s.Break? || s.Continue?)
      modifies this
      ensures Emitted(LowerStmt(s, old(deferScopes), old(loopDeferBases), old(CurrentIds())))
      decreases s, 0
    {
      hide EmitScopes, Flatten, Append;
      TopUnchanged(deferScopes);
      var jump := if s.Break? then CBreak else CContinue;
      EmitDeferScopes(LoopBase(loopDeferBases));
      Emit(Statement(jump));
      FlattenAppendOne(EmitScopes(deferScopes, LoopBase(loopDeferBases)), jump);
    }


    method Register(a: Action)
      requires |deferScopes| > 0
      modifies this`deferScopes
      ensures deferScopes == SetTop(old(deferScopes), Top(old(deferScopes)) + [a])
    {
      var n := |deferScopes| - 1;
      deferScopes := deferScopes[..n] + [deferScopes[n] + [a]];
    }

    method GenLet(x: Name, e: Expr, owner: bool)
      requires |deferScopes| > 0
      modifies this
      ensures Emitted(LowerStmt(Let(x, e, owner), old(deferScopes), old(loopDeferBases), old(CurrentIds())))
    {
      hide PrepareTry, Flatten, FlattenStmt, Append, DeclareOwner;
      TopUnchanged(deferScopes);
      var init := PrepareTryExpr(e);
      Emit(Statement(Declare(x, init)));
      if owner {
        Emit(Statement(DeclareLive(x)));
        Register(Drop(x));
      }
      PlaceLet(old(lines), PrepareTry(e, old(deferScopes), old(CurrentIds())).code, x, init, owner);
    }

    method GenReturn(result: Option<Expr>)
      requires |deferScopes| > 0
      modifies this
      ensures Emitted(LowerStmt(Return(result), old(deferScopes), old(loopDeferBases), old(CurrentIds())))
    {
      hide PrepareTry, Flatten, EmitScopes, Append, EmitActions, HasTry;
      TopUnchanged(deferScopes);
      match result
      case None =>
        EmitDeferScopes(0);
        Emit(Statement(CReturn(None)));
        FlattenAppendOne(EmitScopes(deferScopes, 0), CReturn(None));
      case Some(e) =>
        var value := PrepareTryExpr(e);
        var t := ReturnValue(returnId);
        returnId := returnId + 1;
        Emit(Statement(SetTemp(t, value)));
        EmitDeferScopes(0);
        Emit(Statement(CReturn(Some(t))));
        PlaceReturn(old(lines), PrepareTry(e, old(deferScopes), old(CurrentIds())).code, t, value, EmitScopes(deferScopes, 0));
    }

    method GenStmts(ss: Stmts)
      requires |deferScopes| > 0
      modifies this
      ensures Emitted(LowerStmts(ss, old(deferScopes), old(loopDeferBases), old(CurrentIds())))
      decreases ss, 2
    {
      TopUnchanged(deferScopes);
      match ss
      case Done =>
      case Then(s, rest) =>
        ghost var a := LowerStmt(s, deferScopes, loopDeferBases, CurrentIds());
        GenStmt(s);
        ghost var b := LowerStmts(rest, deferScopes, loopDeferBases, CurrentIds());
        GenStmts(rest);
        FlattenAppend(a.code, b.code);
    }

    /** Pushes a scope holding `first`, generates the statements, emits the scope's cleanup, pops. */
    method GenScopedStatements(body: Stmts, first: seq<Action>)
      modifies this
      ensures var low := LowerScope(body, old(deferScopes), first, old(loopDeferBases), old(CurrentIds()));
        lines == old(lines) + Flatten(low.code) && CurrentIds() == low.ids
      ensures deferScopes == old(deferScopes) && loopDeferBases == old(loopDeferBases)
      decreases body, 3
    {
      hide LowerStmts, Flatten, EmitScopes, EmitActions, Append;
      deferScopes := deferScopes + [first];
      ghost var low := LowerStmts(body, deferScopes, loopDeferBases, CurrentIds());
      GenStmts(body);
      EmitDeferScopes(|deferScopes| - 1);
      TopScopeOnly(old(deferScopes), low.top);
      deferScopes := deferScopes[..|deferScopes| - 1];
      FlattenAppend(low.code, EmitActions(low.top));
    }

    lemma TopScopeOnly(scopes: Scopes, top: seq<Action>)
      ensures Flatten(EmitScopes(Push(scopes, top), |scopes|)) == Flatten(EmitActions(top))
    {
      assert Push(scopes, top)[..|scopes|] == scopes;
      assert EmitScopes(scopes, |scopes|) == Nop;
      FlattenAppend(EmitActions(top), Nop);
    }

    method GenIf(c: Expr, thn: Stmts, els: Else)
      requires |deferScopes| > 0
      modifies this
      ensures Emitted(LowerStmt(If(c, thn, els), old(deferScopes), old(loopDeferBases), old(CurrentIds())))
      decreases If(c, thn, els), 0
    {
      hide PrepareTry, Flatten, FlattenStmt, EmitScopes, LowerScope, LowerStmts;
      TopUnchanged(deferScopes);
      ghost var p := PrepareTry(c, deferScopes, CurrentIds());
      var cond := PrepareTryExpr(c);
      Emit(OpenIf(cond));
      ghost var a := LowerScope(thn, deferScopes, [], loopDeferBases, CurrentIds());
      GenScopedStatements(thn, []);
      ghost var b := LowerElse(els, deferScopes, loopDeferBases, CurrentIds());
      if !els.NoElse? {
        Emit(OpenElse);
        GenElse(els);
      }
      Emit(Close);
      PlaceIf(old(lines), p.code, cond, a.code, b.code);
    }

    method GenElse(els: Else)
      requires |deferScopes| > 0
      modifies this
      ensures var b := LowerElse(els, old(deferScopes), old(loopDeferBases), old(CurrentIds()));
        lines == old(lines) + Flatten(b.code) && CurrentIds() == b.ids
      ensures deferScopes == old(deferScopes) && loopDeferBases == old(loopDeferBases)
      decreases els, 0
    {
      TopUnchanged(deferScopes);
      match els
      case NoElse =>
      case ElseBlock(body) => GenScopedStatements(body, []);
      case ElseIf(chained) => if chained.If? { GenStmt(chained); }
    }

    method GenWhile(c: Expr, body: Stmts)
      requires |deferScopes| > 0
      modifies this
      ensures Emitted(LowerStmt(While(c, body), old(deferScopes), old(loopDeferBases), old(CurrentIds())))
      decreases While(c, body), 0
    {
      hide PrepareTry, Flatten, FlattenStmt, EmitScopes, LowerStmts, EmitActions, Append, HasTry;
      TopUnchanged(deferScopes);
      var hoists := HasTry(c);
      Emit(OpenWhile(if hoists then BoolLit(true) else c));
      deferScopes := deferScopes + [[]];
      loopDeferBases := loopDeferBases + [|deferScopes| - 1];
      ghost var p := PrepareTry(c, deferScopes, CurrentIds());
      if hoists {
        var cond := PrepareTryExpr(c);
        Emit(OpenIf(Not(cond)));
        Emit(Statement(CBreak));
        Emit(Close);
      }
      ghost var low := LowerStmts(body, deferScopes, loopDeferBases, CurrentIds());
      GenLoopBody(body);
      Emit(Close);
      PlaceWhile(old(lines), c, low.code, EmitActions(low.top));
      PlaceTryWhile(old(lines), p.code, p.residual, low.code, EmitActions(low.top));
    }

    /** The body of a loop whose scope has just been pushed; pops the scope and the loop base. */
    method GenLoopBody(body: Stmts)
      requires |deferScopes| > 0 && deferScopes[|deferScopes| - 1] == [] && |loopDeferBases| > 0
      modifies this
      ensures var low := LowerStmts(body, old(deferScopes), old(loopDeferBases), old(CurrentIds()));
        && lines == old(lines) + Flatten(low.code) + Flatten(EmitActions(low.top))
        && CurrentIds() == low.ids
        && deferScopes == old(deferScopes)[..|old(deferScopes)| - 1]
        && loopDeferBases == old(loopDeferBases)[..|old(loopDeferBases)| - 1]
      decreases body, 3
    {
      hide Flatten, EmitScopes, LowerStmts, EmitActions;
      ghost var outer := deferScopes[..|deferScopes| - 1];
      ghost var low := LowerStmts(body, deferScopes, loopDeferBases, CurrentIds());
      GenStmts(body);
      EmitDeferScopes(|deferScopes| - 1);
      TopScopeOnly(outer, low.top);
      loopDeferBases := loopDeferBases[..|loopDeferBases| - 1];
      deferScopes := deferScopes[..|deferScopes| - 1];
    }

    method GenFor(x: Name, lo: Expr, hi: Expr, inclusive: bool, body: Stmts)
      requires |deferScopes| > 0
      modifies this
      ensures Emitted(LowerStmt(For(x, lo, hi, inclusive, body), old(deferScopes), old(loopDeferBases), old(CurrentIds())))
      decreases For(x, lo, hi, inclusive, body), 0
    {
      hide PrepareTry, Flatten, FlattenStmt, EmitScopes, LowerScope, LowerStmts, EmitActions, Append, HasTry;
      TopUnchanged(deferScopes);
      ghost var p := PrepareTry(lo, deferScopes, CurrentIds());
      var start := PrepareTryExpr(lo);
      ghost var q := PrepareTry(hi, deferScopes, CurrentIds());
      var end := PrepareTryExpr(hi);
      var r := rangeId;
      rangeId := rangeId + 1;
      ghost var low := LowerScope(body, deferScopes, [], loopDeferBases + [|deferScopes|], CurrentIds());
      GenRangeLoop(x, r, start, end, inclusive, body);
      PlaceFor(old(lines), p.code, q.code, RangeBlock(x, r, start, end, inclusive, low.code));
    }

    method GenRangeLoop(x: Name, r: nat, start: Expr, end: Expr, inclusive: bool, body: Stmts)
      modifies this
      ensures var low := LowerScope(body, old(deferScopes), [], old(loopDeferBases) + [|old(deferScopes)|], old(CurrentIds()));
        && lines == old(lines) + Flatten(One(RangeBlock(x, r, start, end, inclusive, low.code)))
        && CurrentIds() == low.ids
      ensures deferScopes == old(deferScopes) && loopDeferBases == old(loopDeferBases)
      decreases body, 4
    {
      hide Flatten, FlattenStmt, EmitScopes, LowerStmts, EmitActions, Append;
      Emit(OpenBlock);
      Emit(Statement(SetTemp(RangeStart(r), start)));
      Emit(Statement(SetTemp(RangeEnd(r), end)));
      Emit(OpenFor(x, RangeStart(r), RangeEnd(r), inclusive));
      deferScopes := deferScopes + [[]];
      loopDeferBases := loopDeferBases + [|deferScopes| - 1];
      ghost var low := LowerStmts(body, deferScopes, loopDeferBases, CurrentIds());
      GenLoopBody(body);
      Emit(Close);
      Emit(Close);
      PlaceRange(old(lines), x, r, start, end, inclusive, low.code, EmitActions(low.top));
    }

    method GenMatch(subject: Expr, variants: nat, arms: Arms)
      requires |deferScopes| > 0
      modifies this
      ensures Emitted(LowerStmt(Match(subject, variants, arms), old(deferScopes), old(loopDeferBases), old(CurrentIds())))
      decreases Match(subject, variants, arms), 0
    {
      hide PrepareTry, Flatten, FlattenStmt, FlattenRungs, LowerArms;
      TopUnchanged(deferScopes);
      ghost var p := PrepareTry(subject, deferScopes, CurrentIds());
      var value := PrepareTryExpr(subject);
      var m := MatchSubject(matchId);
      matchId := matchId + 1;
      Emit(OpenBlock);
      Emit(Statement(SetTemp(m, value)));
      ghost var b := LowerArms(arms, variants, m, Exhaustive(variants, arms), deferScopes, loopDeferBases, CurrentIds());
      GenArms(arms, variants, m, Exhaustive(variants, arms), false);
      Emit(Close);
      PlaceMatch(old(lines), p.code, m, value, b.rungs);
    }

    /** The arms, each with its own scope; after an unconditional arm nothing is emitted. */
    method GenArms(arms: Arms, variants: nat, m: Temp, exhaustive: bool, emittedCondition: bool)
      modifies this
      ensures var b := LowerArms(arms, variants, m, exhaustive, old(deferScopes), old(loopDeferBases), old(CurrentIds()));
        lines == old(lines) + FlattenRungs(b.rungs, !emittedCondition) && CurrentIds() == b.ids
      ensures deferScopes == old(deferScopes) && loopDeferBases == old(loopDeferBases)
      decreases arms, 0
    {
      hide Flatten, FlattenStmt, LowerScope, BinderCode;
      match arms
      case NoArms =>
      case Arm(pattern, binder, body, rest) =>
        var last := pattern.None? || (exhaustive && rest.NoArms?);
        Emit(if last then OtherwiseHead(!emittedCondition) else RungHead(TagIs(m, variants, pattern.value), !emittedCondition));
        GenBinder(binder, m);
        ghost var a := LowerScope(body, deferScopes, BinderTop(binder), loopDeferBases, CurrentIds());
        GenScopedStatements(body, BinderTop(binder));
        Emit(Close);
        if last {
          PlaceOtherwise(old(lines), !emittedCondition, BinderCode(binder, m), a.code);
        } else {
          ghost var b := LowerArms(rest, variants, m, exhaustive, deferScopes, loopDeferBases, CurrentIds());
          GenArms(rest, variants, m, exhaustive, true);
          PlaceRung(old(lines), TagIs(m, variants, pattern.value), !emittedCondition, BinderCode(binder, m), a.code, b.rungs);
        }
    }

    method GenBinder(binder: Option<Binder>, m: Temp)
      modifies this`lines
      ensures lines == old(lines) + Flatten(BinderCode(binder, m))
    {
      match binder
      case None =>
      case Some(Binder(x, owner)) =>
        Emit(Statement(Declare(x, PayloadOf(m))));
        if owner {
          Emit(Statement(DeclareLive(x)));
          FlattenOne(DeclareLive(x));
        }
        FlattenSeq(Declare(x, PayloadOf(m)), if owner then One(DeclareLive(x)) else Nop);
    }

    /** Declares the liveness flags of owning parameters and registers their drops. */
    method GenParams(params: seq<Param>)
      requires deferScopes == [[]]
      modifies this`lines, this`deferScopes
      ensures lines == old(lines) + Flatten(ParamCode(params)) && deferScopes == [ParamTop(params)]
    {
      hide Flatten, FlattenStmt;
      FlattenNop();
      var i := 0;
      while i < |params|
        invariant i <= |params|
        invariant lines == old(lines) + Flatten(ParamCode(params[..i]))
        invariant deferScopes == [ParamTop(params[..i])]
      {
        var p := params[i];
        assert params[..i + 1][..i] == params[..i];
        if p.owner {
          Emit(Statement(DeclareLive(p.name)));
          deferScopes := [deferScopes[0] + [Drop(p.name)]];
          FlattenLive(ParamCode(params[..i]), p.name);
        } else {
          FlattenAppend(ParamCode(params[..i]), Nop);
          assert ParamTop(params[..i]) + [] == ParamTop(params[..i]);
        }
        assert ParamTop(params[..i + 1]) == ParamTop(params[..i + 1][..i]) + (if p.owner then [Drop(p.name)] else []);
        assert ParamCode(params[..i + 1]) == Append(ParamCode(params[..i + 1][..i]), if p.owner then One(DeclareLive(p.name)) else Nop);
        i := i + 1;
      }
      assert params[..i] == params;
    }

    /** A whole function; the stacks of an enclosing generation are saved and restored. */
    method GenFn(f: Function)
      modifies this
      ensures var low := LowerFunction(f, old(CurrentIds()));
        lines == old(lines) + Flatten(low.code) && CurrentIds() == low.ids
      ensures deferScopes == old(deferScopes) && loopDeferBases == old(loopDeferBases)
    {
      hide Flatten, FlattenStmt, EmitScopes, EmitActions, LowerStmts;
      FlattenNop();
      var savedScopes, savedLoops := deferScopes, loopDeferBases;
      deferScopes, loopDeferBases := [[]], [];
      GenParams(f.params);
      ghost var prologue := ParamCode(f.params);
      ghost var low := LowerStmts(f.body, deferScopes, loopDeferBases, CurrentIds());
      GenStmts(f.body);
      ghost var epilogue := if f.isVoid then EmitActions(low.top) else Nop;
      if f.isVoid {
        EmitDeferScopes(0);
        TopScopeOnly([], low.top);
        assert deferScopes == Push([], low.top);
      }
      FlattenAppend(low.code, epilogue);
      FlattenAppend(prologue, Append(low.code, epilogue));
      deferScopes, loopDeferBases := savedScopes, savedLoops;
    }
  }

  lemma FlattenLive(a: Code, x: Name)
    ensures Flatten(Append(a, One(DeclareLive(x)))) == Flatten(a) + [Statement(DeclareLive(x))]
  {
    FlattenAppendOne(a, DeclareLive(x));
  }

  lemma FlattenAppendOne(a: Code, s: CStmt)
    ensures Flatten(Append(a, One(s))) == Flatten(a) + FlattenStmt(s)
  {
    FlattenAppend(a, One(s));
    FlattenOne(s);
  }
}
