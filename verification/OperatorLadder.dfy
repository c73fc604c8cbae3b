/** The expression parser's ladder of binary operators, casts, prefixes and calls, on a token cursor,
    and a printer that writes parentheses only where the ladder needs them. */
module OperatorLadder {
  import opened MortSyntax

  datatype Tok = Lit(text: string) | Ident(name: string) | Op(text: string) | AsWord | Open | Close | Comma | Semi | EndOfFile

  datatype Tree =
    | Literal(text: string)
    | Var(name: string)
    | Unary(op: string, operand: Tree)
    | BinaryOp(op: string, left: Tree, right: Tree)
    | CastTo(operand: Tree, ty: string)
    | Apply(name: string, types: seq<string>, args: Trees)

  datatype Trees = NoTrees | MoreTrees(head: Tree, tail: Trees)

  // ----- the operator table -----

  const CAST := 10
  const UNARY := 11

  /** Which rung of the ladder handles a binary operator; -1 if none does. */
  function Rung(op: string): int
  {
    if op == "||" then 0
    else if op == "&&" then 1
    else if op == "|" then 2
    else if op == "^" then 3
    else if op == "&" then 4
    else if op == "==" || op == "!=" then 5
    else if op == "<" || op == ">" || op == "<=" || op == ">=" then 6
    else if op == "<<" || op == ">>" then 7
    else if op == "+" || op == "-" then 8
    else if op == "*" || op == "/" || op == "%" then 9
    else -1
  }

  predicate IsPrefix(op: string) { op in {"!", "-", "&", "*", "~", "try", "move"} }

  predicate IsPrimitive(name: string)
  {
    name in {"i8", "i16", "i32", "i64", "u8", "u16", "u32", "u64", "f32", "f64"}
  }

  predicate OnRung(n: nat, k: Tok) { k.Op? && Rung(k.text) == n }

  function TokAt(toks: seq<Tok>, i: nat): Tok { if i < |toks| then toks[i] else EndOfFile }

  // ----- the lookahead for generic calls -----

  /** From a `<`: whether the angles close right before an opening parenthesis. */
  function AnglesCall(toks: seq<Tok>, i: nat, depth: int): bool
    decreases |toks| - i
  {
    if i >= |toks| then false
    else match toks[i]
      case Op(text) =>
        if text == "<" then AnglesCall(toks, i + 1, depth + 1)
        else if text == ">" then (if depth == 1 then TokAt(toks, i + 1) == Open else AnglesCall(toks, i + 1, depth - 1))
        else if text == ">>" then
          if depth == 2 then TokAt(toks, i + 1) == Open
          else if depth < 2 then false
          else AnglesCall(toks, i + 1, depth - 2)
        else AnglesCall(toks, i + 1, depth)
      case Semi => false
      case EndOfFile => false
      case _ => AnglesCall(toks, i + 1, depth)
  }

  predicate LooksLikeTypeArgs(toks: seq<Tok>, i: nat) { AnglesCall(toks, i, 0) }

  // ----- the parser -----

  type Parsed<T> = Option<(T, nat)>

  /** A result lies beyond where parsing started. */
  predicate Beyond<T>(r: Parsed<T>, i: nat, toks: seq<Tok>)
  {
    r.Some? ==> i < r.value.1 <= |toks|
  }

  function ParseRung(n: nat, toks: seq<Tok>, i: nat): (r: Parsed<Tree>)
    requires n <= CAST
    ensures Beyond(r, i, toks)
    decreases |toks| - i, 20 - n
  {
    if n == CAST then ParseCast(toks, i)
    else
      var left := ParseRung(n + 1, toks, i);
      if left.None? then None else ParseRest(n, left.value.0, toks, left.value.1)
  }

  /** The loop of one rung: operators of that rung, folded to the left. */
  function ParseRest(n: nat, left: Tree, toks: seq<Tok>, i: nat): (r: Parsed<Tree>)
    requires n < CAST && i <= |toks|
    ensures r.Some? ==> i <= r.value.1 <= |toks|
    decreases |toks| - i, 30
  {
    if i < |toks| && OnRung(n, toks[i]) then
      var right := ParseRung(n + 1, toks, i + 1);
      if right.None? then None else ParseRest(n, BinaryOp(toks[i].text, left, right.value.0), toks, right.value.1)
    else Some((left, i))
  }

  /** A type by name; a name with type arguments of its own is not part of this model. */
  function TypeName(toks: seq<Tok>, i: nat): (r: Option<string>)
    ensures r.Some? ==> i < |toks|
  {
    match TokAt(toks, i)
    case Ident(name) => if IsPrimitive(name) || TokAt(toks, i + 1) != Op("<") then Some(name) else None
    case _ => None
  }

  function ParseCast(toks: seq<Tok>, i: nat): (r: Parsed<Tree>)
    ensures Beyond(r, i, toks)
    decreases |toks| - i, 9
  {
    var e := ParseUnary(toks, i);
    if e.None? then None else CastRest(e.value.0, toks, e.value.1)
  }

  function CastRest(e: Tree, toks: seq<Tok>, i: nat): (r: Parsed<Tree>)
    requires i <= |toks|
    ensures r.Some? ==> i <= r.value.1 <= |toks|
    decreases |toks| - i
  {
    if TokAt(toks, i) == AsWord then
      var ty := TypeName(toks, i + 1);
      if ty.None? then None else CastRest(CastTo(e, ty.value), toks, i + 2)
    else Some((e, i))
  }

  function ParseUnary(toks: seq<Tok>, i: nat): (r: Parsed<Tree>)
    ensures Beyond(r, i, toks)
    decreases |toks| - i, 8
  {
    if i < |toks| && toks[i].Op? && IsPrefix(toks[i].text) then
      var e := ParseUnary(toks, i + 1);
      if e.None? then None else Some((Unary(toks[i].text, e.value.0), e.value.1))
    else
      var e := ParsePrimary(toks, i);
      if e.None? then None else PostfixRest(e.value.0, toks, e.value.1)
  }

  /** Calls, generic or plain; only a named function can be called. */
  function PostfixRest(e: Tree, toks: seq<Tok>, i: nat): (r: Parsed<Tree>)
    requires i <= |toks|
    ensures r.Some? ==> i <= r.value.1 <= |toks|
    decreases |toks| - i, 7
  {
    if TokAt(toks, i) == Op("<") && LooksLikeTypeArgs(toks, i) then
      if !e.Var? then None
      else
        var types := ParseTypes(toks, i + 1);
        if types.None? || TokAt(toks, types.value.1) != Op(">") || TokAt(toks, types.value.1 + 1) != Open then None
        else
          var args := ParseArgs(toks, types.value.1 + 2);
          if args.None? then None else PostfixRest(Apply(e.name, types.value.0, args.value.0), toks, args.value.1)
    else if TokAt(toks, i) == Open then
      if !e.Var? then None
      else
        var args := ParseArgs(toks, i + 1);
        if args.None? then None else PostfixRest(Apply(e.name, [], args.value.0), toks, args.value.1)
    else Some((e, i))
  }

  function ParseTypes(toks: seq<Tok>, i: nat): (r: Parsed<seq<string>>)
    ensures Beyond(r, i, toks)
    decreases |toks| - i
  {
    var ty := TypeName(toks, i);
    if ty.None? then None
    else if TokAt(toks, i + 1) == Comma then
      var more := ParseTypes(toks, i + 2);
      if more.None? then None else Some(([ty.value] + more.value.0, more.value.1))
    else Some(([ty.value], i + 1))
  }

  /** The arguments after `(`, and the index after `)`. */
  function ParseArgs(toks: seq<Tok>, i: nat): (r: Parsed<Trees>)
    ensures Beyond(r, i, toks)
    decreases |toks| - i, 25
  {
    if TokAt(toks, i) == Close then Some((NoTrees, i + 1)) else ParseMoreArgs(toks, i)
  }

  function ParseMoreArgs(toks: seq<Tok>, i: nat): (r: Parsed<Trees>)
    ensures Beyond(r, i, toks)
    decreases |toks| - i, 24
  {
    var e := ParseRung(0, toks, i);
    if e.None? then None
    else if TokAt(toks, e.value.1) == Comma then
      var more := ParseMoreArgs(toks, e.value.1 + 1);
      if more.None? then None else Some((MoreTrees(e.value.0, more.value.0), more.value.1))
    else if TokAt(toks, e.value.1) == Close then Some((MoreTrees(e.value.0, NoTrees), e.value.1 + 1))
    else None
  }

  function ParsePrimary(toks: seq<Tok>, i: nat): (r: Parsed<Tree>)
    ensures Beyond(r, i, toks)
    decreases |toks| - i, 7
  {
    match TokAt(toks, i)
    case Lit(text) => Some((Literal(text), i + 1))
    case Ident(name) => Some((Var(name), i + 1))
    case Open =>
      var e := ParseRung(0, toks, i + 1);
      if e.None? || TokAt(toks, e.value.1) != Close then None else Some((e.value.0, e.value.1 + 1))
    case _ => None
  }

  // ----- the printer -----

  /** The lowest rung that yields the tree without parentheses. */
  function Rank(e: Tree): int
  {
    match e
    case BinaryOp(op, _, _) => Rung(op)
    case CastTo(_, _) => CAST
    case Unary(_, _) => UNARY
    case _ => 12
  }

  predicate WellFormed(e: Tree)
  {
    match e
    case Unary(op, x) => IsPrefix(op) && WellFormed(x)
    case BinaryOp(op, l, r) => Rung(op) >= 0 && WellFormed(l) && WellFormed(r)
    case CastTo(x, ty) => IsPrimitive(ty) && WellFormed(x)
    case Apply(_, _, args) => AllWellFormed(args)
    case _ => true
  }

  predicate AllWellFormed(es: Trees)
  {
    match es
    case NoTrees => true
    case MoreTrees(e, rest) => WellFormed(e) && AllWellFormed(rest)
  }

  function Print(e: Tree, n: nat): (s: seq<Tok>)
    requires WellFormed(e)
    ensures |s| > 0
    decreases e, 1
  {
    if Rank(e) < n then [Open] + PrintBare(e) + [Close] else PrintBare(e)
  }

  function PrintBare(e: Tree): (s: seq<Tok>)
    requires WellFormed(e)
    ensures |s| > 0
    decreases e, 0
  {
    match e
    case Literal(text) => [Lit(text)]
    case Var(name) => [Ident(name)]
    case Unary(op, x) => [Op(op)] + Print(x, UNARY)
    case BinaryOp(op, l, r) => Print(l, Rung(op)) + [Op(op)] + Print(r, Rung(op) + 1)
    case CastTo(x, ty) => Print(x, CAST) + [AsWord, Ident(ty)]
    case Apply(name, types, args) => [Ident(name)] + PrintTypes(types) + [Open] + PrintArgs(args)
  }

  function PrintTypes(types: seq<string>): seq<Tok>
  {
    if types == [] then [] else [Op("<")] + PrintTypeList(types) + [Op(">")]
  }

  function PrintTypeList(types: seq<string>): (s: seq<Tok>)
    requires types != []
    ensures |s| > 0
  {
    if |types| == 1 then [Ident(types[0])] else [Ident(types[0]), Comma] + PrintTypeList(types[1..])
  }

  /** The arguments and the closing parenthesis. */
  function PrintArgs(es: Trees): (s: seq<Tok>)
    requires AllWellFormed(es)
    ensures |s| > 0
    decreases es
  {
    match es
    case NoTrees => [Close]
    case MoreTrees(e, NoTrees) => Print(e, 0) + [Close]
    case MoreTrees(e, rest) => Print(e, 0) + [Comma] + PrintArgs(rest)
  }

  // ----- where the printed tokens sit -----

  predicate Sits(toks: seq<Tok>, i: nat, s: seq<Tok>)
  {
    i + |s| <= |toks| && toks[i..i + |s|] == s
  }

  lemma {:induction false} SitsSplit(toks: seq<Tok>, i: nat, a: seq<Tok>, b: seq<Tok>)
    requires Sits(toks, i, a + b)
    ensures Sits(toks, i, a) && Sits(toks, i + |a|, b)
  {
    var s := toks[i..i + |a + b|];
    assert toks[i..i + |a|] == s[..|a|] == a;
    assert toks[i + |a|..i + |a| + |b|] == s[|a|..] == b;
  }

  lemma {:induction false} SitsOne(toks: seq<Tok>, i: nat, k: Tok)
    requires Sits(toks, i, [k])
    ensures i < |toks| && toks[i] == k
  {
    assert toks[i..i + 1][0] == k;
  }

  lemma {:induction false} SitsThree(toks: seq<Tok>, i: nat, a: seq<Tok>, k: Tok, b: seq<Tok>)
    requires Sits(toks, i, a + [k] + b)
    ensures Sits(toks, i, a) && i + |a| < |toks| && toks[i + |a|] == k && Sits(toks, i + |a| + 1, b)
  {
    SitsSplit(toks, i, a + [k], b);
    SitsSplit(toks, i, a, [k]);
    SitsOne(toks, i + |a|, k);
  }

  /** What may follow a subtree printed for rung n: nothing a tighter rung would take. */
  predicate Follows(n: nat, toks: seq<Tok>, j: nat)
  {
    var k := TokAt(toks, j);
    && k != Open && (n < UNARY && n < CAST ==> k != AsWord)
    && (n < CAST && k.Op? ==> Rung(k.text) <= n)
  }

  /** Printed for rung n, the tree ends with the type of a cast; there the parser does not look ahead. */
  predicate EndsInCast(e: Tree, n: int)
  {
    Rank(e) >= n &&
    match e
    case CastTo(_, _) => true
    case BinaryOp(op, _, r) => EndsInCast(r, Rung(op) + 1)
    case _ => false
  }

  /** A `<` right after the printed tree is not taken for the start of type arguments. */
  predicate Untaken(e: Tree, n: nat, toks: seq<Tok>, j: nat)
  {
    TokAt(toks, j) == Op("<") && !EndsInCast(e, n) ==> !LooksLikeTypeArgs(toks, j)
  }

  /** No printed comparison `<` is taken for the start of type arguments. */
  predicate Calm(e: Tree, n: nat, toks: seq<Tok>, i: nat)
    requires WellFormed(e)
    decreases e, 1
  {
    CalmBare(e, toks, if Rank(e) < n then i + 1 else i)
  }

  predicate CalmBare(e: Tree, toks: seq<Tok>, i: nat)
    requires WellFormed(e)
    decreases e, 0
  {
    match e
    case Unary(_, x) => Calm(x, UNARY, toks, i + 1)
    case BinaryOp(op, l, r) =>
      var j := i + |Print(l, Rung(op))|;
      (op == "<" && !EndsInCast(l, Rung(op)) ==> !LooksLikeTypeArgs(toks, j))
      && Calm(l, Rung(op), toks, i) && Calm(r, Rung(op) + 1, toks, j + 1)
    case CastTo(x, _) => Calm(x, CAST, toks, i)
    case Apply(_, types, args) => CalmArgs(args, toks, i + 2 + |PrintTypes(types)|)
    case _ => true
  }

  predicate CalmArgs(es: Trees, toks: seq<Tok>, i: nat)
    requires AllWellFormed(es)
    decreases es
  {
    match es
    case NoTrees => true
    case MoreTrees(e, rest) => Calm(e, 0, toks, i) && CalmArgs(rest, toks, i + |Print(e, 0)| + 1)
  }

  // ----- the ladder inverts the printer -----

  /** A subtree parsed by a tighter rung becomes the left operand of this one. */
  lemma {:induction false} Descend(e: Tree, n: nat, toks: seq<Tok>, i: nat, j: nat)
    requires n + 1 < CAST && j <= |toks| && Follows(n, toks, j)
    requires ParseRung(n + 1, toks, i) == ParseRest(n + 1, e, toks, j)
    ensures ParseRung(n, toks, i) == ParseRest(n, e, toks, j)
  {
    assert ParseRest(n + 1, e, toks, j) == Some((e, j));
  }

  /** Parsing what was printed for rung n leaves its loop with the tree as left operand. */
  lemma {:induction false} RungInverts(e: Tree, n: nat, toks: seq<Tok>, i: nat)
    requires n < CAST && WellFormed(e) && Sits(toks, i, Print(e, n)) && Calm(e, n, toks, i)
    requires Follows(n, toks, i + |Print(e, n)|) && Untaken(e, n, toks, i + |Print(e, n)|)
    ensures ParseRung(n, toks, i) == ParseRest(n, e, toks, i + |Print(e, n)|)
    decreases e, if Rank(e) < n then 1 else 0, 20 - n
  {
    hide Print, Calm, ParseRest;
    var j := i + |Print(e, n)|;
    if e.BinaryOp? && Rung(e.op) == n {
      BinaryInverts(e, n, toks, i);
    } else if n + 1 == CAST {
      SamePrint(e, n, toks, i);
      CastInverts(e, toks, i);
      assert CastRest(e, toks, j) == Some((e, j));
      assert ParseRung(CAST, toks, i) == ParseCast(toks, i);
    } else {
      SamePrint(e, n, toks, i);
      RungInverts(e, n + 1, toks, i);
      Descend(e, n, toks, i, j);
    }
  }

  /** Away from its own rung a tree prints alike for this rung and the next. */
  lemma {:induction false} SamePrint(e: Tree, n: nat, toks: seq<Tok>, i: nat)
    requires WellFormed(e) && Rank(e) != n
    ensures Print(e, n) == Print(e, n + 1) && Calm(e, n, toks, i) == Calm(e, n + 1, toks, i)
    ensures EndsInCast(e, n) == EndsInCast(e, n + 1)
    ensures Rank(e) < n <==> Rank(e) < n + 1
  {
  }

  lemma {:induction false} BinaryParts(e: Tree, n: nat, toks: seq<Tok>, i: nat)
    requires e.BinaryOp? && Rung(e.op) == n && n < CAST && WellFormed(e)
    ensures Print(e, n) == Print(e.left, n) + [Op(e.op)] + Print(e.right, n + 1)
    ensures Calm(e, n, toks, i) ==>
      && Calm(e.left, n, toks, i) && Calm(e.right, n + 1, toks, i + |Print(e.left, n)| + 1)
      && (e.op == "<" && !EndsInCast(e.left, n) ==> !LooksLikeTypeArgs(toks, i + |Print(e.left, n)|))
    ensures EndsInCast(e, n) == EndsInCast(e.right, n + 1)
  {
    hide LooksLikeTypeArgs;
    assert Rank(e) == n;
    assert Calm(e, n, toks, i) == CalmBare(e, toks, i);
    assert Print(e, n) == PrintBare(e);
  }

  /** The loop takes an operator of its rung and the right operand behind it. */
  lemma {:induction false} LoopStep(n: nat, l: Tree, r: Tree, toks: seq<Tok>, j: nat, k: nat)
    requires n < CAST && j < |toks| && k <= |toks| && OnRung(n, toks[j]) && ParseRung(n + 1, toks, j + 1) == Some((r, k))
    ensures ParseRest(n, l, toks, j) == ParseRest(n, BinaryOp(toks[j].text, l, r), toks, k)
  {
  }

  /** An operator of rung n may follow what was printed for rung n. */
  lemma {:induction false} OperatorFollows(n: nat, toks: seq<Tok>, j: nat)
    requires OnRung(n, TokAt(toks, j))
    ensures Follows(n, toks, j)
  {
  }

  lemma {:induction false} BinaryInverts(e: Tree, n: nat, toks: seq<Tok>, i: nat)
    requires e.BinaryOp? && Rung(e.op) == n && n < CAST
    requires WellFormed(e) && Sits(toks, i, Print(e, n)) && Calm(e, n, toks, i)
    requires Follows(n, toks, i + |Print(e, n)|) && Untaken(e, n, toks, i + |Print(e, n)|)
    ensures ParseRung(n, toks, i) == ParseRest(n, e, toks, i + |Print(e, n)|)
    decreases e, 0, 0
  {
    hide LooksLikeTypeArgs, Print, Calm, ParseRung, ParseRest, Follows, Sits;
    var BinaryOp(op, l, r) := e;
    BinaryParts(e, n, toks, i);
    var a, b := Print(l, n), Print(r, n + 1);
    var j := i + |a|;
    var k := i + |Print(e, n)|;
    SitsThree(toks, i, a, Op(op), b);
    OperatorFollows(n, toks, j);
    RungInverts(l, n, toks, i);
    assert k == j + 1 + |b|;
    FollowsTighter(n, toks, k);
    RightInverts(r, n, toks, j + 1);
    SitsEnds(toks, j + 1, b);
    LoopStep(n, l, r, toks, j, k);
  }

  lemma {:induction false} SitsEnds(toks: seq<Tok>, i: nat, s: seq<Tok>)
    requires Sits(toks, i, s)
    ensures i + |s| <= |toks|
  {
  }

  /** A right operand, printed for the next rung, is parsed completely there. */
  lemma {:induction false} RightInverts(r: Tree, n: nat, toks: seq<Tok>, i: nat)
    requires n < CAST && WellFormed(r) && Sits(toks, i, Print(r, n + 1)) && Calm(r, n + 1, toks, i)
    requires var k := i + |Print(r, n + 1)|;
      Follows(n, toks, k) && Follows(n + 1, toks, k) && Follows(CAST, toks, k) && Untaken(r, n + 1, toks, k)
    ensures ParseRung(n + 1, toks, i) == Some((r, i + |Print(r, n + 1)|))
    decreases r, 2, 20
  {
    hide LooksLikeTypeArgs, Print, Calm, Sits;
    var k := i + |Print(r, n + 1)|;
    SitsEnds(toks, i, Print(r, n + 1));
    if n + 1 == CAST {
      CastInverts(r, toks, i);
      assert CastRest(r, toks, k) == Some((r, k));
    } else {
      RungInverts(r, n + 1, toks, i);
      assert ParseRest(n + 1, r, toks, k) == Some((r, k));
    }
  }

  lemma {:induction false} FollowsTighter(n: nat, toks: seq<Tok>, j: nat)
    requires Follows(n, toks, j)
    ensures Follows(n + 1, toks, j) && Follows(CAST, toks, j) && Follows(UNARY, toks, j)
  {
  }

  lemma {:induction false} CastInverts(e: Tree, toks: seq<Tok>, i: nat)
    requires WellFormed(e) && Sits(toks, i, Print(e, CAST)) && Calm(e, CAST, toks, i)
    requires Follows(CAST, toks, i + |Print(e, CAST)|) && Untaken(e, CAST, toks, i + |Print(e, CAST)|)
    ensures ParseCast(toks, i) == CastRest(e, toks, i + |Print(e, CAST)|)
    decreases e, if Rank(e) < CAST then 1 else 0, 10
  {
    hide LooksLikeTypeArgs, Print, Calm, Sits, EndsInCast;
    match e
    case CastTo(x, ty) =>
      var a := Print(x, CAST);
      CastParts(x, ty, toks, i);
      SitsSplit(toks, i, a, [AsWord, Ident(ty)]);
      SitsTwo(toks, i + |a|, AsWord, Ident(ty));
      CastInverts(x, toks, i);
      CastStep(x, ty, toks, i + |a|);
    case _ =>
      SamePrint(e, CAST, toks, i);
      SitsEnds(toks, i, Print(e, CAST));
      UnaryInverts(e, toks, i);
  }

  lemma {:induction false} CastParts(x: Tree, ty: string, toks: seq<Tok>, i: nat)
    requires WellFormed(CastTo(x, ty))
    ensures Print(CastTo(x, ty), CAST) == Print(x, CAST) + [AsWord, Ident(ty)]
    ensures Calm(CastTo(x, ty), CAST, toks, i) == Calm(x, CAST, toks, i)
  {
  }

  lemma {:induction false} SitsTwo(toks: seq<Tok>, i: nat, k: Tok, m: Tok)
    requires Sits(toks, i, [k, m])
    ensures i + 2 <= |toks| && toks[i] == k && toks[i + 1] == m
  {
    assert toks[i..i + 2][0] == k && toks[i..i + 2][1] == m;
  }

  /** The loop takes `as` and a primitive type. */
  lemma {:induction false} CastStep(x: Tree, ty: string, toks: seq<Tok>, j: nat)
    requires j + 2 <= |toks| && toks[j] == AsWord && toks[j + 1] == Ident(ty) && IsPrimitive(ty)
    ensures CastRest(x, toks, j) == CastRest(CastTo(x, ty), toks, j + 2)
  {
  }

  lemma {:induction false} UnaryInverts(e: Tree, toks: seq<Tok>, i: nat)
    requires WellFormed(e) && Sits(toks, i, Print(e, UNARY)) && Calm(e, UNARY, toks, i)
    requires Follows(UNARY, toks, i + |Print(e, UNARY)|) && Untaken(e, UNARY, toks, i + |Print(e, UNARY)|)
    ensures ParseUnary(toks, i) == Some((e, i + |Print(e, UNARY)|))
    decreases e, if Rank(e) < UNARY then 1 else 0, 9
  {
    hide LooksLikeTypeArgs, Sits;
    if Rank(e) < UNARY {
      ParensInvert(e, toks, i);
    } else {
      match e
      case Unary(op, x) =>
        hide Print, Calm;
        PrefixParts(op, x, toks, i);
        SitsSplit(toks, i, [Op(op)], Print(x, UNARY));
        SitsOne(toks, i, Op(op));
        UnaryInverts(x, toks, i + 1);
      case Literal(text) => SitsOne(toks, i, Lit(text));
      case Var(name) => SitsOne(toks, i, Ident(name));
      case Apply(_, _, _) => CallInverts(e, toks, i);
    }
  }

  lemma {:induction false} PrefixParts(op: string, x: Tree, toks: seq<Tok>, i: nat)
    requires WellFormed(Unary(op, x))
    ensures Print(Unary(op, x), UNARY) == [Op(op)] + Print(x, UNARY)
    ensures Calm(Unary(op, x), UNARY, toks, i) == Calm(x, UNARY, toks, i + 1)
    ensures !EndsInCast(Unary(op, x), UNARY) && !EndsInCast(x, UNARY)
  {
    RankBounds(x);
  }

  lemma {:induction false} ParensInvert(e: Tree, toks: seq<Tok>, i: nat)
    requires WellFormed(e) && Rank(e) < UNARY && Sits(toks, i, Print(e, UNARY)) && Calm(e, UNARY, toks, i)
    requires Follows(UNARY, toks, i + |Print(e, UNARY)|) && Untaken(e, UNARY, toks, i + |Print(e, UNARY)|)
    ensures ParseUnary(toks, i) == Some((e, i + |Print(e, UNARY)|))
    decreases e, 1, 0
  {
    hide LooksLikeTypeArgs, Calm, CalmBare, Print, PrintBare, Sits, ParseRung;
    ParensParts(e, toks, i);
    SitsEnds(toks, i, Print(e, UNARY));
    var a := PrintBare(e);
    SitsSplit(toks, i, [Open] + a, [Close]);
    SitsSplit(toks, i, [Open], a);
    SitsOne(toks, i, Open);
    SitsOne(toks, i + 1 + |a|, Close);
    RungInverts(e, 0, toks, i + 1);
    var k := i + 1 + |a|;
    assert ParseRest(0, e, toks, k) == Some((e, k));
    assert ParsePrimary(toks, i) == Some((e, k + 1));
  }

  lemma {:induction false} ParensParts(e: Tree, toks: seq<Tok>, i: nat)
    requires WellFormed(e) && Rank(e) < UNARY
    ensures Print(e, UNARY) == [Open] + PrintBare(e) + [Close] && Print(e, 0) == PrintBare(e)
    ensures Calm(e, UNARY, toks, i) == Calm(e, 0, toks, i + 1)
  {
    hide CalmBare, PrintBare;
    RankBounds(e);
  }

  lemma {:induction false} RankBounds(e: Tree)
    requires WellFormed(e)
    ensures Rank(e) >= 0
  {
  }

  lemma {:induction false} TypesInvert(types: seq<string>, toks: seq<Tok>, i: nat)
    requires types != [] && Sits(toks, i, PrintTypeList(types))
    requires TokAt(toks, i + |PrintTypeList(types)|) == Op(">")
    ensures ParseTypes(toks, i) == Some((types, i + |PrintTypeList(types)|))
    ensures forall depth :: AnglesCall(toks, i, depth) == AnglesCall(toks, i + |PrintTypeList(types)|, depth)
    decreases types
  {
    hide IsPrimitive;
    if |types| == 1 {
      SitsOne(toks, i, Ident(types[0]));
      assert types == [types[0]];
    } else {
      var rest := PrintTypeList(types[1..]);
      SitsSplit(toks, i, [Ident(types[0]), Comma], rest);
      assert toks[i..i + 2][0] == Ident(types[0]) && toks[i..i + 2][1] == Comma;
      TypesInvert(types[1..], toks, i + 2);
      assert types == [types[0]] + types[1..];
      forall depth ensures AnglesCall(toks, i, depth) == AnglesCall(toks, i + |PrintTypeList(types)|, depth) {
        assert AnglesCall(toks, i + 1, depth) == AnglesCall(toks, i + 2, depth);
      }
    }
  }

  /** The callee, its type arguments and the parenthesis, then the arguments. */
  lemma {:induction false} CallParts(e: Tree, toks: seq<Tok>, i: nat)
    requires e.Apply? && WellFormed(e) && Sits(toks, i, PrintBare(e))
    ensures var ts := PrintTypes(e.types);
      && i < |toks| && toks[i] == Ident(e.name)
      && Sits(toks, i + 1, ts + [Open]) && Sits(toks, i + 2 + |ts|, PrintArgs(e.args))
      && |PrintBare(e)| == 2 + |ts| + |PrintArgs(e.args)|
  {
    hide PrintTypes, PrintArgs;
    var Apply(name, types, args) := e;
    var ts, more := PrintTypes(types), PrintArgs(args);
    assert PrintBare(e) == [Ident(name)] + (ts + [Open]) + more;
    SitsSplit(toks, i, [Ident(name)] + (ts + [Open]), more);
    SitsSplit(toks, i, [Ident(name)], ts + [Open]);
    SitsOne(toks, i, Ident(name));
  }

  lemma {:induction false} CallInverts(e: Tree, toks: seq<Tok>, i: nat)
    requires e.Apply? && WellFormed(e) && Sits(toks, i, PrintBare(e)) && CalmBare(e, toks, i)
    requires Follows(UNARY, toks, i + |PrintBare(e)|) && Untaken(e, UNARY, toks, i + |PrintBare(e)|)
    ensures ParseUnary(toks, i) == Some((e, i + |PrintBare(e)|))
    decreases e, 0, 0
  {
    hide AnglesCall, LooksLikeTypeArgs, PrintArgs, PrintTypeList, PrintBare, ParseArgs, ParseTypes, CalmArgs, Sits;
    var Apply(name, types, args) := e;
    var ts := PrintTypes(types);
    var end := i + |PrintBare(e)|;
    CallParts(e, toks, i);
    SitsEnds(toks, i + 2 + |ts|, PrintArgs(args));
    ArgsInvert(args, toks, i + 2 + |ts|);
    assert PostfixRest(e, toks, end) == Some((e, end));
    if types == [] {
      assert [] + [Open] == [Open];
      SitsOne(toks, i + 1, Open);
      assert PostfixRest(Var(name), toks, i + 1) == PostfixRest(e, toks, end);
    } else {
      var list := PrintTypeList(types);
      assert ts + [Open] == [Op("<")] + (list + [Op(">")] + [Open]);
      SitsSplit(toks, i + 1, [Op("<")], list + [Op(">")] + [Open]);
      SitsOne(toks, i + 1, Op("<"));
      GenericInverts(types, toks, i + 1);
      assert PostfixRest(Var(name), toks, i + 1) == PostfixRest(e, toks, end);
    }
    assert ParsePrimary(toks, i) == Some((Var(name), i + 1));
  }

  /** Printed type arguments are recognised as such. */
  lemma {:induction false} GenericInverts(types: seq<string>, toks: seq<Tok>, i: nat)
    requires types != [] && i < |toks| && toks[i] == Op("<") && Sits(toks, i + 1, PrintTypeList(types) + [Op(">")] + [Open])
    ensures LooksLikeTypeArgs(toks, i) && ParseTypes(toks, i + 1) == Some((types, i + 1 + |PrintTypeList(types)|))
    ensures TokAt(toks, i + 1 + |PrintTypeList(types)|) == Op(">") && TokAt(toks, i + 2 + |PrintTypeList(types)|) == Open
  {
    hide IsPrimitive;
    var list := PrintTypeList(types);
    var j := i + 1 + |list|;
    SitsSplit(toks, i + 1, list + [Op(">")], [Open]);
    SitsSplit(toks, i + 1, list, [Op(">")]);
    SitsOne(toks, j, Op(">"));
    SitsOne(toks, j + 1, Open);
    TypesInvert(types, toks, i + 1);
    assert AnglesCall(toks, j, 1);
    assert AnglesCall(toks, i + 1, 1);
  }

  lemma {:induction false} ArgsInvert(es: Trees, toks: seq<Tok>, i: nat)
    requires AllWellFormed(es) && Sits(toks, i, PrintArgs(es)) && CalmArgs(es, toks, i)
    ensures ParseArgs(toks, i) == Some((es, i + |PrintArgs(es)|))
    ensures es.MoreTrees? ==> ParseMoreArgs(toks, i) == Some((es, i + |PrintArgs(es)|))
    decreases es, 2, 0
  {
    hide LooksLikeTypeArgs, Print, Calm, ParseRung, ParseRest, Follows, Sits;
    match es
    case NoTrees => SitsOne(toks, i, Close);
    case MoreTrees(e, rest) =>
      var a := Print(e, 0);
      var k := i + |a|;
      if rest.NoTrees? {
        SitsSplit(toks, i, a, [Close]);
        SitsOne(toks, k, Close);
      } else {
        SitsThree(toks, i, a, Comma, PrintArgs(rest));
        ArgsInvert(rest, toks, k + 1);
      }
      ArgumentInverts(e, toks, i);
  }

  /** A whole expression before a comma or a closing parenthesis. */
  lemma {:induction false} ArgumentInverts(e: Tree, toks: seq<Tok>, i: nat)
    requires WellFormed(e) && Sits(toks, i, Print(e, 0)) && Calm(e, 0, toks, i)
    requires TokAt(toks, i + |Print(e, 0)|) == Comma || TokAt(toks, i + |Print(e, 0)|) == Close
    ensures ParseRung(0, toks, i) == Some((e, i + |Print(e, 0)|)) && TokAt(toks, i) != Close
    decreases e, 2, 20
  {
    hide LooksLikeTypeArgs, Print, Calm;
    var k := i + |Print(e, 0)|;
    RungInverts(e, 0, toks, i);
    assert ParseRest(0, e, toks, k) == Some((e, k));
    StartsTree(e, toks, i);
  }

  /** A printed tree does not start with a closing parenthesis. */
  lemma {:induction false} StartsTree(e: Tree, toks: seq<Tok>, i: nat)
    requires WellFormed(e) && Sits(toks, i, Print(e, 0)) && ParseRung(0, toks, i).Some?
    ensures TokAt(toks, i) != Close
  {
    FirstToken(e, 0);
    assert toks[i] == toks[i..i + |Print(e, 0)|][0];
  }

  lemma {:induction false} FirstToken(e: Tree, n: nat)
    requires WellFormed(e)
    ensures Print(e, n)[0] != Close
    decreases e
  {
    RankBounds(e);
    match e
    case BinaryOp(op, l, r) => FirstToken(l, Rung(op));
    case CastTo(x, ty) => FirstToken(x, CAST);
    case _ =>
  }

  // ----- no shorter text is read as the tree -----

  /** What the parser reads as e on rung n is at least as long as e printed for rung n; if it is no
      longer, it has looked ahead, in vain, at every `<` that e prints. */
  predicate Tight(e: Tree, n: nat, toks: seq<Tok>, i: nat, j: nat)
  {
    WellFormed(e) ==>
      && j - i >= |Print(e, n)|
      && (j - i == |Print(e, n)| ==> Calm(e, n, toks, i) && Untaken(e, n, toks, j))
  }

  /** The same for a primary expression, before anything is known of what follows. */
  predicate TightHead(e: Tree, toks: seq<Tok>, i: nat, j: nat)
  {
    WellFormed(e) ==> j - i >= |Print(e, UNARY)| && (j - i == |Print(e, UNARY)| ==> Calm(e, UNARY, toks, i))
  }

  predicate TightArgs(es: Trees, toks: seq<Tok>, i: nat, j: nat)
  {
    AllWellFormed(es) ==> j - i >= |PrintArgs(es)| && (j - i == |PrintArgs(es)| ==> CalmArgs(es, toks, i))
  }

  /** A tree of rung n needs parentheses on the next rung; any other prints alike. */
  lemma {:induction false} TightWiden(e: Tree, n: nat, toks: seq<Tok>, i: nat, j: nat)
    requires Tight(e, n + 1, toks, i, j)
    ensures Tight(e, n, toks, i, j)
  {
    hide CalmBare, PrintBare, LooksLikeTypeArgs;
    if WellFormed(e) && Rank(e) != n { SamePrint(e, n, toks, i); }
  }

  lemma {:induction false} RungTight(n: nat, toks: seq<Tok>, i: nat)
    requires n <= CAST
    ensures ParseRung(n, toks, i).Some? ==> Tight(ParseRung(n, toks, i).value.0, n, toks, i, ParseRung(n, toks, i).value.1)
    decreases |toks| - i, 20 - n
  {
    hide Tight;
    if n == CAST {
      CastTight(toks, i);
    } else {
      RungTight(n + 1, toks, i);
      var left := ParseRung(n + 1, toks, i);
      if left.Some? {
        TightWiden(left.value.0, n, toks, i, left.value.1);
        RestTight(n, left.value.0, toks, i, left.value.1);
      }
    }
  }

  lemma {:induction false} RestTight(n: nat, left: Tree, toks: seq<Tok>, start: nat, i: nat)
    requires n < CAST && start < i <= |toks| && Tight(left, n, toks, start, i)
    ensures var r := ParseRest(n, left, toks, i); r.Some? ==> Tight(r.value.0, n, toks, start, r.value.1)
    decreases |toks| - i, 30
  {
    hide Tight;
    if i < |toks| && OnRung(n, toks[i]) {
      RungTight(n + 1, toks, i + 1);
      var right := ParseRung(n + 1, toks, i + 1);
      if right.Some? {
        BinaryTight(n, left, right.value.0, toks, start, i, right.value.1);
        RestTight(n, BinaryOp(toks[i].text, left, right.value.0), toks, start, right.value.1);
      }
    }
  }

  lemma {:induction false} BinaryTight(n: nat, l: Tree, r: Tree, toks: seq<Tok>, start: nat, i: nat, j: nat)
    requires n < CAST && start < i < |toks| && OnRung(n, toks[i])
    requires Tight(l, n, toks, start, i) && Tight(r, n + 1, toks, i + 1, j)
    ensures Tight(BinaryOp(toks[i].text, l, r), n, toks, start, j)
  {
    var e := BinaryOp(toks[i].text, l, r);
    if WellFormed(e) {
      BinaryParts(e, n, toks, start);
      if j - start == |Print(e, n)| { BinaryCalm(e, n, toks, start, i); }
    }
  }

  lemma {:induction false} BinaryCalm(e: Tree, n: nat, toks: seq<Tok>, start: nat, i: nat)
    requires e.BinaryOp? && Rung(e.op) == n && WellFormed(e)
    requires i == start + |Print(e.left, n)| && Calm(e.left, n, toks, start) && Calm(e.right, n + 1, toks, i + 1)
    requires e.op == "<" && !EndsInCast(e.left, n) ==> !LooksLikeTypeArgs(toks, i)
    ensures Calm(e, n, toks, start)
  {
    hide LooksLikeTypeArgs;
    assert Rank(e) == n;
  }

  lemma {:induction false} CastTight(toks: seq<Tok>, i: nat)
    ensures ParseCast(toks, i).Some? ==> Tight(ParseCast(toks, i).value.0, CAST, toks, i, ParseCast(toks, i).value.1)
    decreases |toks| - i, 9
  {
    hide Tight;
    UnaryTight(toks, i);
    var e := ParseUnary(toks, i);
    if e.Some? {
      TightWiden(e.value.0, CAST, toks, i, e.value.1);
      CastRestTight(e.value.0, toks, i, e.value.1);
    }
  }

  lemma {:induction false} CastRestTight(e: Tree, toks: seq<Tok>, start: nat, i: nat)
    requires start < i <= |toks| && Tight(e, CAST, toks, start, i)
    ensures var r := CastRest(e, toks, i); r.Some? ==> Tight(r.value.0, CAST, toks, start, r.value.1)
    decreases |toks| - i
  {
    if TokAt(toks, i) == AsWord {
      var ty := TypeName(toks, i + 1);
      if ty.Some? {
        CastToTight(e, ty.value, toks, start, i);
        CastRestTight(CastTo(e, ty.value), toks, start, i + 2);
      }
    }
  }

  lemma {:induction false} CastToTight(e: Tree, ty: string, toks: seq<Tok>, start: nat, i: nat)
    requires Tight(e, CAST, toks, start, i)
    ensures Tight(CastTo(e, ty), CAST, toks, start, i + 2)
  {
    hide LooksLikeTypeArgs;
    var c := CastTo(e, ty);
    if WellFormed(c) {
      assert Print(c, CAST) == Print(e, CAST) + [AsWord, Ident(ty)];
      assert Calm(c, CAST, toks, start) == Calm(e, CAST, toks, start);
      assert EndsInCast(c, CAST);
    }
  }

  lemma {:induction false} UnaryTight(toks: seq<Tok>, i: nat)
    ensures ParseUnary(toks, i).Some? ==> Tight(ParseUnary(toks, i).value.0, UNARY, toks, i, ParseUnary(toks, i).value.1)
    decreases |toks| - i, 8
  {
    hide Tight, TightHead;
    if i < |toks| && toks[i].Op? && IsPrefix(toks[i].text) {
      UnaryTight(toks, i + 1);
      var e := ParseUnary(toks, i + 1);
      if e.Some? { PrefixTight(toks[i].text, e.value.0, toks, i, e.value.1); }
    } else {
      PrimaryTight(toks, i);
      var e := ParsePrimary(toks, i);
      if e.Some? { PostfixTight(e.value.0, toks, i, e.value.1); }
    }
  }

  lemma {:induction false} PrefixTight(op: string, e: Tree, toks: seq<Tok>, i: nat, j: nat)
    requires Tight(e, UNARY, toks, i + 1, j)
    ensures Tight(Unary(op, e), UNARY, toks, i, j)
  {
    hide LooksLikeTypeArgs;
    var u := Unary(op, e);
    if WellFormed(u) {
      assert Print(u, UNARY) == [Op(op)] + Print(e, UNARY);
      assert Calm(u, UNARY, toks, i) == Calm(e, UNARY, toks, i + 1);
      RankBounds(e);
      assert !EndsInCast(e, UNARY);
    }
  }

  lemma {:induction false} PrimaryTight(toks: seq<Tok>, i: nat)
    ensures ParsePrimary(toks, i).Some? ==> TightHead(ParsePrimary(toks, i).value.0, toks, i, ParsePrimary(toks, i).value.1)
    decreases |toks| - i, 7
  {
    if TokAt(toks, i) == Open {
      RungTight(0, toks, i + 1);
      var e := ParseRung(0, toks, i + 1);
      if e.Some? && TokAt(toks, e.value.1) == Close { ParensTight(e.value.0, toks, i, e.value.1); }
    }
  }

  lemma {:induction false} ParensTight(e: Tree, toks: seq<Tok>, i: nat, j: nat)
    requires Tight(e, 0, toks, i + 1, j)
    ensures TightHead(e, toks, i, j + 1)
  {
    hide LooksLikeTypeArgs, CalmBare, PrintBare;
    if WellFormed(e) { RankBounds(e); }
  }

  lemma {:induction false} PostfixTight(e: Tree, toks: seq<Tok>, start: nat, i: nat)
    requires start < i <= |toks| && TightHead(e, toks, start, i)
    ensures var r := PostfixRest(e, toks, i); r.Some? ==> Tight(r.value.0, UNARY, toks, start, r.value.1)
    decreases |toks| - i, 7
  {
    hide TightHead, Tight, LooksLikeTypeArgs, ParseArgs, ParseTypes, TightArgs, PrintTypeList;
    if TokAt(toks, i) == Op("<") && LooksLikeTypeArgs(toks, i) {
      if e.Var? {
        var types := ParseTypes(toks, i + 1);
        if types.Some? && TokAt(toks, types.value.1) == Op(">") && TokAt(toks, types.value.1 + 1) == Open {
          TypesTight(toks, i + 1);
          var args := ParseArgs(toks, types.value.1 + 2);
          ArgsTight(toks, types.value.1 + 2);
          if args.Some? {
            CallTight(e.name, types.value.0, args.value.0, toks, start, types.value.1 + 2, args.value.1);
            PostfixTight(Apply(e.name, types.value.0, args.value.0), toks, start, args.value.1);
          }
        }
      }
    } else if TokAt(toks, i) == Open {
      if e.Var? {
        var args := ParseArgs(toks, i + 1);
        ArgsTight(toks, i + 1);
        if args.Some? {
          CallTight(e.name, [], args.value.0, toks, start, i + 1, args.value.1);
          PostfixTight(Apply(e.name, [], args.value.0), toks, start, args.value.1);
        }
      }
    } else {
      HeadEnds(e, toks, start, i);
    }
  }

  lemma {:induction false} HeadEnds(e: Tree, toks: seq<Tok>, start: nat, i: nat)
    requires TightHead(e, toks, start, i) && (TokAt(toks, i) == Op("<") ==> !LooksLikeTypeArgs(toks, i))
    ensures Tight(e, UNARY, toks, start, i)
  {
    hide Calm, Print, LooksLikeTypeArgs;
  }

  lemma {:induction false} CallTight(name: string, types: seq<string>, args: Trees, toks: seq<Tok>, start: nat, i: nat, j: nat)
    requires i >= start + 2 + |PrintTypes(types)| && TightArgs(args, toks, i, j)
    ensures TightHead(Apply(name, types, args), toks, start, j)
  {
    hide LooksLikeTypeArgs, PrintTypes, PrintArgs, CalmArgs;
    var e := Apply(name, types, args);
    if WellFormed(e) {
      assert Print(e, UNARY) == [Ident(name)] + PrintTypes(types) + [Open] + PrintArgs(args);
      assert Calm(e, UNARY, toks, start) == CalmArgs(args, toks, start + 2 + |PrintTypes(types)|);
    }
  }

  lemma {:induction false} TypesTight(toks: seq<Tok>, i: nat)
    ensures ParseTypes(toks, i).Some? ==>
      var (types, j) := ParseTypes(toks, i).value;
      types != [] && |PrintTypeList(types)| == j - i && |PrintTypes(types)| == j - i + 2
    decreases |toks| - i
  {
    var ty := TypeName(toks, i);
    if ty.Some? && TokAt(toks, i + 1) == Comma {
      TypesTight(toks, i + 2);
      var more := ParseTypes(toks, i + 2);
      if more.Some? { assert ([ty.value] + more.value.0)[1..] == more.value.0; }
    }
  }

  lemma {:induction false} ArgsTight(toks: seq<Tok>, i: nat)
    ensures ParseArgs(toks, i).Some? ==> TightArgs(ParseArgs(toks, i).value.0, toks, i, ParseArgs(toks, i).value.1)
    decreases |toks| - i, 25
  {
    if TokAt(toks, i) != Close { MoreArgsTight(toks, i); }
  }

  lemma {:induction false} MoreArgsTight(toks: seq<Tok>, i: nat)
    ensures ParseMoreArgs(toks, i).Some? ==>
      var (es, j) := ParseMoreArgs(toks, i).value; es.MoreTrees? && TightArgs(es, toks, i, j)
    decreases |toks| - i, 24
  {
    hide Tight, TightArgs;
    RungTight(0, toks, i);
    var e := ParseRung(0, toks, i);
    if e.Some? {
      var k := e.value.1;
      if TokAt(toks, k) == Comma {
        MoreArgsTight(toks, k + 1);
        var more := ParseMoreArgs(toks, k + 1);
        if more.Some? { ConsTight(e.value.0, more.value.0, toks, i, k, more.value.1); }
      } else if TokAt(toks, k) == Close {
        LastTight(e.value.0, toks, i, k);
      }
    }
  }

  lemma {:induction false} LastTight(e: Tree, toks: seq<Tok>, i: nat, k: nat)
    requires Tight(e, 0, toks, i, k)
    ensures TightArgs(MoreTrees(e, NoTrees), toks, i, k + 1)
  {
    hide Calm, Print, Untaken;
    if WellFormed(e) {
      assert PrintArgs(MoreTrees(e, NoTrees)) == Print(e, 0) + [Close];
      assert CalmArgs(NoTrees, toks, i + |Print(e, 0)| + 1);
    }
  }

  lemma {:induction false} ConsTight(e: Tree, rest: Trees, toks: seq<Tok>, i: nat, k: nat, j: nat)
    requires Tight(e, 0, toks, i, k) && rest.MoreTrees? && TightArgs(rest, toks, k + 1, j)
    ensures TightArgs(MoreTrees(e, rest), toks, i, j)
  {
    hide Calm, Print, Untaken;
    if WellFormed(e) && AllWellFormed(rest) {
      assert PrintArgs(MoreTrees(e, rest)) == Print(e, 0) + [Comma] + PrintArgs(rest);
    }
  }

  /** Parsing the printed form of any tree, followed by `;`, gives the tree back and takes exactly those
      tokens, if and only if no printed comparison is taken for type arguments. */
  lemma {:induction false} LadderInvertsPrinter(e: Tree, rest: seq<Tok>)
    requires WellFormed(e)
    ensures var toks := Print(e, 0) + [Semi] + rest;
      ParseRung(0, toks, 0) == Some((e, |Print(e, 0)|)) <==> Calm(e, 0, toks, 0)
  {
    hide LooksLikeTypeArgs, Print, Calm;
    var a := Print(e, 0);
    var toks := a + [Semi] + rest;
    if Calm(e, 0, toks, 0) {
      assert Sits(toks, 0, a) && toks[|a|] == Semi;
      RungInverts(e, 0, toks, 0);
      assert ParseRest(0, e, toks, |a|) == Some((e, |a|));
    } else {
      RungTight(0, toks, 0);
    }
  }

  // ----- trees without `<` -----

  predicate NoLess(e: Tree)
  {
    match e
    case Unary(_, x) => NoLess(x)
    case BinaryOp(op, l, r) => op != "<" && NoLess(l) && NoLess(r)
    case CastTo(x, _) => NoLess(x)
    case Apply(_, _, args) => NoLessIn(args)
    case _ => true
  }

  predicate NoLessIn(es: Trees)
  {
    match es
    case NoTrees => true
    case MoreTrees(e, rest) => NoLess(e) && NoLessIn(rest)
  }

  lemma {:induction false} NoLessIsCalm(e: Tree, n: nat, toks: seq<Tok>, i: nat)
    requires WellFormed(e) && NoLess(e)
    ensures Calm(e, n, toks, i)
    decreases e
  {
    var k := if Rank(e) < n then i + 1 else i;
    match e
    case Unary(_, x) => NoLessIsCalm(x, UNARY, toks, k + 1);
    case BinaryOp(op, l, r) =>
      NoLessIsCalm(l, Rung(op), toks, k);
      NoLessIsCalm(r, Rung(op) + 1, toks, k + |Print(l, Rung(op))| + 1);
    case CastTo(x, _) => NoLessIsCalm(x, CAST, toks, k);
    case Apply(_, types, args) => NoLessArgsCalm(args, toks, k + 2 + |PrintTypes(types)|);
    case _ =>
  }

  lemma {:induction false} NoLessArgsCalm(es: Trees, toks: seq<Tok>, i: nat)
    requires AllWellFormed(es) && NoLessIn(es)
    ensures CalmArgs(es, toks, i)
    decreases es
  {
    match es
    case NoTrees =>
    case MoreTrees(e, rest) =>
      NoLessIsCalm(e, 0, toks, i);
      NoLessArgsCalm(rest, toks, i + |Print(e, 0)| + 1);
  }

  lemma {:induction false} LadderInvertsPrinterWithoutLess(e: Tree, rest: seq<Tok>)
    requires WellFormed(e) && NoLess(e)
    ensures ParseRung(0, Print(e, 0) + [Semi] + rest, 0) == Some((e, |Print(e, 0)|))
  {
    NoLessIsCalm(e, 0, Print(e, 0) + [Semi] + rest, 0);
    LadderInvertsPrinter(e, rest);
  }

  /** Different trees print differently, if no comparison they print is taken for type arguments. */
  lemma {:induction false} PrinterIsInjective(d: Tree, e: Tree)
    requires WellFormed(d) && WellFormed(e) && Print(d, 0) == Print(e, 0)
    requires Calm(d, 0, Print(d, 0) + [Semi] + [], 0) && Calm(e, 0, Print(e, 0) + [Semi] + [], 0)
    ensures d == e
  {
    LadderInvertsPrinter(d, []);
    LadderInvertsPrinter(e, []);
  }

  // ----- a comparison chain read as a generic call -----

  /** (a < t) > (c | d): printed as  a < t > ( c | d )  */
  function Chain(a: string, ty: string, c: Tree, d: Tree): Tree
  {
    BinaryOp(">", BinaryOp("<", Var(a), Var(ty)), BinaryOp("|", c, d))
  }

  /** With `<` the ladder does not invert the printer: this comparison chain comes back as a call. */
  lemma {:induction false} ChainIsReadAsCall(a: string, ty: string, c: Tree, d: Tree)
    requires WellFormed(c) && NoLess(c) && WellFormed(d) && NoLess(d)
    ensures WellFormed(Chain(a, ty, c, d))
    ensures ParseRung(0, Print(Chain(a, ty, c, d), 0) + [Semi], 0) ==
      Some((Apply(a, [ty], MoreTrees(BinaryOp("|", c, d), NoTrees)), |Print(Chain(a, ty, c, d), 0)|))
  {
    var e := Chain(a, ty, c, d);
    var inner := BinaryOp("|", c, d);
    var call := Apply(a, [ty], MoreTrees(inner, NoTrees));
    assert WellFormed(Var(a)) && WellFormed(Var(ty));
    assert WellFormed(BinaryOp("<", Var(a), Var(ty)));
    assert WellFormed(inner) && WellFormed(e);
    assert AllWellFormed(MoreTrees(inner, NoTrees)) && WellFormed(call) && NoLess(call);
    ChainPrints(a, ty, c, d);
    LadderInvertsPrinterWithoutLess(call, []);
    assert Print(call, 0) + [Semi] + [] == Print(call, 0) + [Semi];
  }

  lemma {:induction false} ChainPrints(a: string, ty: string, c: Tree, d: Tree)
    requires WellFormed(Chain(a, ty, c, d)) && WellFormed(BinaryOp("|", c, d))
    requires WellFormed(Apply(a, [ty], MoreTrees(BinaryOp("|", c, d), NoTrees)))
    ensures Print(Chain(a, ty, c, d), 0) == Print(Apply(a, [ty], MoreTrees(BinaryOp("|", c, d), NoTrees)), 0)
  {
    var e, inner, less := Chain(a, ty, c, d), BinaryOp("|", c, d), BinaryOp("<", Var(a), Var(ty));
    var p := PrintBare(inner);
    assert Print(inner, 7) == [Open] + p + [Close] && Print(inner, 0) == p;
    LessPrints(a, ty);
    assert PrintBare(e) == Print(less, 6) + [Op(">")] + Print(inner, 7);
    hide Print;
    CallPrints(a, ty, inner, p);
  }

  lemma {:induction false} LessPrints(a: string, ty: string)
    requires WellFormed(BinaryOp("<", Var(a), Var(ty)))
    ensures Print(BinaryOp("<", Var(a), Var(ty)), 6) == [Ident(a)] + [Op("<")] + [Ident(ty)]
  {
    assert Print(Var(a), 6) == [Ident(a)] && Print(Var(ty), 7) == [Ident(ty)];
  }

  lemma {:induction false} CallPrints(a: string, ty: string, inner: Tree, p: seq<Tok>)
    requires WellFormed(inner) && Print(inner, 0) == p && WellFormed(Apply(a, [ty], MoreTrees(inner, NoTrees)))
    ensures Print(Apply(a, [ty], MoreTrees(inner, NoTrees)), 0) ==
      [Ident(a)] + [Op("<")] + [Ident(ty)] + [Op(">")] + ([Open] + p + [Close])
  {
    assert PrintTypes([ty]) == [Op("<")] + [Ident(ty)] + [Op(">")];
    assert PrintArgs(MoreTrees(inner, NoTrees)) == p + [Close];
  }
}
