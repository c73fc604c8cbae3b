/** Syntax shared by the checker and the C generator: the expressions and statements of one
    Mort function body, and the block-structured C code the generator emits for it. */
module MortSyntax {

  type Name = string

  datatype Option<+T> = None | Some(value: T)

  // ----- names of generated C temporaries -----

  /** `mort_try_N`, `mort_try_value_N` and `mort_short_N` share the counter `try_id`. */
  datatype Temp =
    | TryResult(id: nat)
    | TryValue(id: nat)
    | Short(id: nat)
    | ReturnValue(id: nat)
    | MatchSubject(id: nat)
    | RangeStart(id: nat)
    | RangeEnd(id: nat)

  // ----- expressions -----

  datatype BinOp = Add | Sub | Less | Equal

  /** What an owning value is: one resource, or an enum whose variants may carry one. */
  datatype OwnType = ResourceStruct | OwningEnum(payloads: seq<bool>)

  datatype Expr =
    | IntLit(n: int)
    | BoolLit(b: bool)
    | Local(x: Name)                              // reads a plain binding
    | Borrow(x: Name)                             // reads through an owning binding
    | Move(x: Name)                               // `move x` of an owning binding
    | New(ty: OwnType, tag: nat)                  // builds a fresh owning value
    | Binary(op: BinOp, left: Expr, right: Expr)
    | AndAlso(left: Expr, right: Expr)
    | OrElse(left: Expr, right: Expr)
    | Not(operand: Expr)
    | Call(f: Name, arg: Expr)                    // foreign call: logged, answered by the environment
    | StoreTo(x: Name, arg: Expr)                 // a call that writes local x through a pointer
    | Try(operand: Expr)
    // only in generated code
    | TempVar(t: Temp)
    | IsErr(t: Temp)                              // t.tag == Err
    | OkOf(t: Temp)                               // t.data.v_Ok
    | TagIs(t: Temp, variants: nat, tag: nat)     // t.tag == tag
    | PayloadOf(t: Temp)                          // t.data.v_Variant

  // ----- statements -----

  /** `owner` is the checker's annotation: the binding's type needs a destructor. */
  datatype Stmt =
    | Let(x: Name, init: Expr, owner: bool)
    | Assign(x: Name, value: Expr)
    | ExprStmt(e: Expr)
    | Return(result: Option<Expr>)
    | If(cond: Expr, thn: Stmts, els: Else)
    | While(cond: Expr, body: Stmts)
    | For(x: Name, lo: Expr, hi: Expr, inclusive: bool, body: Stmts)
    | Block(body: Stmts)
    | Break
    | Continue
    | Defer(e: Expr)
    | Match(subject: Expr, variants: nat, arms: Arms)  // variants == 0: not an enum

  datatype Stmts = Done | Then(head: Stmt, tail: Stmts)

  datatype Else = NoElse | ElseBlock(body: Stmts) | ElseIf(chained: Stmt)

  datatype Binder = Binder(name: Name, owner: bool)

  /** A pattern of None is the wildcard arm. */
  datatype Arms = NoArms | Arm(pattern: Option<nat>, binder: Option<Binder>, body: Stmts, rest: Arms)

  datatype Param = Param(name: Name, owner: bool)

  datatype Function = Function(params: seq<Param>, isVoid: bool, body: Stmts)

  /** An entry of the generator's `defer_scopes`: a resource to drop or a deferred expression. */
  datatype Action = Drop(x: Name) | Run(e: Expr)

  // ----- generated C -----

  datatype CStmt =
    | Declare(x: Name, init: Expr)                // T m_x = init;
    | DeclareLive(x: Name)                        // bool mort_live_m_x = true;
    | SetTemp(t: Temp, value: Expr)
    | Evaluate(e: Expr)
    | SetVar(x: Name, value: Expr)
    | DropIfLive(x: Name)                         // if (mort_live_m_x) { destroy(&m_x); }
    | CIf(cond: Expr, thn: Code, els: Code)
    | CIfOnly(cond: Expr, thn: Code)
    | CWhile(cond: Expr, body: Code)
    | CFor(x: Name, lo: Temp, hi: Temp, inclusive: bool, body: Code)
    | CBlock(body: Code)
    | CLadder(rungs: Rungs)                       // if .. else if .. else
    | CReturn(result: Option<Temp>)
    | CReturnErr(t: Temp)                         // return Err{ t.data.v_Err };
    | CBreak
    | CContinue

  datatype Code = Nop | Seq(head: CStmt, tail: Code)

  datatype Rungs = NoRungs | Rung(cond: Expr, body: Code, rest: Rungs) | Otherwise(body: Code)

  function Append(a: Code, b: Code): Code
  {
    match a
    case Nop => b
    case Seq(h, t) => Seq(h, Append(t, b))
  }

  function One(s: CStmt): Code { Seq(s, Nop) }

  // ----- static facts about expressions -----

  predicate HasTry(e: Expr)
  {
    match e
    case Try(_) => true
    case Binary(_, l, r) => HasTry(l) || HasTry(r)
    case AndAlso(l, r) => HasTry(l) || HasTry(r)
    case OrElse(l, r) => HasTry(l) || HasTry(r)
    case Not(o) => HasTry(o)
    case Call(_, a) => HasTry(a)
    case StoreTo(_, a) => HasTry(a)
    case _ => false
  }

  /** Written by a programmer: mentions no generated temporary. */
  predicate IsSource(e: Expr)
  {
    match e
    case Binary(_, l, r) => IsSource(l) && IsSource(r)
    case AndAlso(l, r) => IsSource(l) && IsSource(r)
    case OrElse(l, r) => IsSource(l) && IsSource(r)
    case Not(o) => IsSource(o)
    case Call(_, a) => IsSource(a)
    case StoreTo(_, a) => IsSource(a)
    case Try(o) => IsSource(o)
    case TempVar(_) => false
    case IsErr(_) => false
    case OkOf(_) => false
    case TagIs(_, _, _) => false
    case PayloadOf(_) => false
    case _ => true
  }

  /** The local names an expression mentions. */
  function Mentions(e: Expr): set<Name>
  {
    match e
    case Local(x) => {x}
    case Borrow(x) => {x}
    case Move(x) => {x}
    case Binary(_, l, r) => Mentions(l) + Mentions(r)
    case AndAlso(l, r) => Mentions(l) + Mentions(r)
    case OrElse(l, r) => Mentions(l) + Mentions(r)
    case Not(o) => Mentions(o)
    case Call(_, a) => Mentions(a)
    case StoreTo(x, a) => {x} + Mentions(a)
    case Try(o) => Mentions(o)
    case _ => {}
  }

  function ActionMentions(a: Action): set<Name>
  {
    match a
    case Drop(x) => {x}
    case Run(e) => Mentions(e)
  }
}
