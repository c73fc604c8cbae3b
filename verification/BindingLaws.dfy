/** How tightly the operators bind, said with literal operators on token sequences: the laws that a
    reader of the language reference expects of the expression parser. */
module BindingLaws {
  import opened OperatorLadder

  // ----- the operators of the language, loosest first -----

  const LEVELS: seq<seq<string>> := [
    ["||"],
    ["&&"],
    ["|"],
    ["^"],
    ["&"],
    ["==", "!="],
    ["<", ">", "<=", ">="],
    ["<<", ">>"],
    ["+", "-"],
    ["*", "/", "%"]]

  const PREFIXES: seq<string> := ["!", "-", "&", "*", "~", "try", "move"]

  const PRIMITIVES: seq<string> := ["i8", "i16", "i32", "i64", "u8", "u16", "u32", "u64", "f32", "f64"]

  predicate OnLevel(n: nat, op: string) { n < |LEVELS| && op in LEVELS[n] }

  lemma {:induction false} LevelIsRung(n: nat, op: string)
    requires OnLevel(n, op)
    ensures Rung(op) == n && n < CAST
  {
    assert n == 0 || n == 1 || n == 2 || n == 3 || n == 4 || n == 5 || n == 6 || n == 7 || n == 8 || n == 9;
  }

  /** Every operator the parser takes as binary is on a level. */
  lemma {:induction false} RungIsLevel(op: string)
    requires Rung(op) >= 0
    ensures OnLevel(Rung(op), op)
  {
  }

  lemma {:induction false} PrefixesArePrefixes(op: string)
    ensures op in PREFIXES <==> IsPrefix(op)
  {
  }

  lemma {:induction false} PrimitivesArePrimitive(name: string)
    ensures name in PRIMITIVES <==> IsPrimitive(name)
  {
  }

  // ----- no lookahead without a parenthesis -----

  lemma {:induction false} NoParenthesisNoCall(toks: seq<Tok>, i: nat, end: nat, depth: int)
    requires i <= end < |toks| && toks[end] == Semi && forall k | i <= k < end :: toks[k] != Open
    ensures !AnglesCall(toks, i, depth)
    decreases end - i
  {
    if i < end {
      assert TokAt(toks, i + 1) != Open;
      if toks[i].Op? {
        NoParenthesisNoCall(toks, i + 1, end, depth + 1);
        NoParenthesisNoCall(toks, i + 1, end, depth - 1);
        NoParenthesisNoCall(toks, i + 1, end, depth - 2);
        NoParenthesisNoCall(toks, i + 1, end, depth);
      } else {
        NoParenthesisNoCall(toks, i + 1, end, depth);
      }
    }
  }

  /** A printed tree without parentheses or calls is read back. */
  lemma {:induction false} ReadFlat(e: Tree, rest: seq<Tok>)
    requires WellFormed(e) && forall k | 0 <= k < |Print(e, 0)| :: Print(e, 0)[k] != Open
    ensures var r := ParseRung(0, Print(e, 0) + [Semi] + rest, 0); r.Some? && r.value == (e, |Print(e, 0)|)
  {
    var toks := Print(e, 0) + [Semi] + rest;
    var end := |Print(e, 0)|;
    forall i | 0 <= i <= end ensures !LooksLikeTypeArgs(toks, i) { NoParenthesisNoCall(toks, i, end, 0); }
    FlatIsCalm(e, 0, toks, 0, end);
    LadderInvertsPrinter(e, rest);
  }

  lemma {:induction false} FlatIsCalm(e: Tree, n: nat, toks: seq<Tok>, i: nat, end: nat)
    requires WellFormed(e) && i + |Print(e, n)| <= end && forall k | 0 <= k <= end :: !LooksLikeTypeArgs(toks, k)
    ensures Calm(e, n, toks, i)
    decreases e
  {
    hide LooksLikeTypeArgs;
    var k := if Rank(e) < n then i + 1 else i;
    match e
    case Unary(_, x) => FlatIsCalm(x, UNARY, toks, k + 1, end);
    case BinaryOp(op, l, r) =>
      FlatIsCalm(l, Rung(op), toks, k, end);
      FlatIsCalm(r, Rung(op) + 1, toks, k + |Print(l, Rung(op))| + 1, end);
    case CastTo(x, _) => FlatIsCalm(x, CAST, toks, k, end);
    case Apply(_, types, args) => FlatArgsAreCalm(args, toks, k + 2 + |PrintTypes(types)|, end);
    case _ =>
  }

  lemma {:induction false} FlatArgsAreCalm(es: Trees, toks: seq<Tok>, i: nat, end: nat)
    requires AllWellFormed(es) && i + |PrintArgs(es)| <= end && forall k | 0 <= k <= end :: !LooksLikeTypeArgs(toks, k)
    ensures CalmArgs(es, toks, i)
    decreases es
  {
    hide LooksLikeTypeArgs;
    match es
    case NoTrees =>
    case MoreTrees(e, rest) =>
      FlatIsCalm(e, 0, toks, i, end);
      if rest.MoreTrees? { FlatArgsAreCalm(rest, toks, i + |Print(e, 0)| + 1, end); }
  }

  // ----- the laws -----

  /** The parser reads the tokens of a whole expression, up to the semicolon, as this tree. */
  ghost predicate Reads(toks: seq<Tok>, e: Tree)
  {
    forall rest: seq<Tok> :: var r := ParseRung(0, toks + [Semi] + rest, 0); r.Some? && r.value == (e, |toks|)
  }

  lemma {:induction false} FlatReads(e: Tree, toks: seq<Tok>)
    requires WellFormed(e) && Print(e, 0) == toks && forall k | 0 <= k < |toks| :: toks[k] != Open
    ensures Reads(toks, e)
  {
    forall rest: seq<Tok> ensures var r := ParseRung(0, toks + [Semi] + rest, 0); r.Some? && r.value == (e, |toks|) {
      ReadFlat(e, rest);
    }
  }

  lemma {:induction false} CalmReads(e: Tree, toks: seq<Tok>)
    requires WellFormed(e) && Print(e, 0) == toks && NoLess(e)
    ensures Reads(toks, e)
  {
    forall rest: seq<Tok> ensures var r := ParseRung(0, toks + [Semi] + rest, 0); r.Some? && r.value == (e, |toks|) {
      LadderInvertsPrinterWithoutLess(e, rest);
    }
  }

  function Three(x: string, a: string, y: string, b: string, z: string): seq<Tok>
  {
    [Ident(x), Op(a), Ident(y), Op(b), Ident(z)]
  }

  /** x lo y hi z  is  x lo (y hi z). */
  lemma {:induction false} TighterOnTheRight(i: nat, lo: string, j: nat, hi: string, x: string, y: string, z: string)
    requires i < j && OnLevel(i, lo) && OnLevel(j, hi)
    ensures Reads(Three(x, lo, y, hi, z), BinaryOp(lo, Var(x), BinaryOp(hi, Var(y), Var(z))))
  {
    LevelIsRung(i, lo);
    LevelIsRung(j, hi);
    var inner := BinaryOp(hi, Var(y), Var(z));
    var e := BinaryOp(lo, Var(x), inner);
    PairPrints(hi, Var(y), Var(z), i + 1, [Ident(y)], [Ident(z)]);
    PairPrints(lo, Var(x), inner, 0, [Ident(x)], [Ident(y), Op(hi), Ident(z)]);
    assert Print(e, 0) == Three(x, lo, y, hi, z);
    FlatReads(e, Three(x, lo, y, hi, z));
  }

  /** x hi y lo z  is  (x hi y) lo z. */
  lemma {:induction false} TighterOnTheLeft(i: nat, lo: string, j: nat, hi: string, x: string, y: string, z: string)
    requires i < j && OnLevel(i, lo) && OnLevel(j, hi)
    ensures Reads(Three(x, hi, y, lo, z), BinaryOp(lo, BinaryOp(hi, Var(x), Var(y)), Var(z)))
  {
    LevelIsRung(i, lo);
    LevelIsRung(j, hi);
    var inner := BinaryOp(hi, Var(x), Var(y));
    var e := BinaryOp(lo, inner, Var(z));
    PairPrints(hi, Var(x), Var(y), i, [Ident(x)], [Ident(y)]);
    PairPrints(lo, inner, Var(z), 0, [Ident(x), Op(hi), Ident(y)], [Ident(z)]);
    assert Print(e, 0) == Three(x, hi, y, lo, z);
    FlatReads(e, Print(e, 0));
  }

  /** Operators of one level associate to the left. */
  lemma {:induction false} OneLevelToTheLeft(i: nat, a: string, b: string, x: string, y: string, z: string)
    requires OnLevel(i, a) && OnLevel(i, b)
    ensures Reads(Three(x, a, y, b, z), BinaryOp(b, BinaryOp(a, Var(x), Var(y)), Var(z)))
  {
    LevelIsRung(i, a);
    LevelIsRung(i, b);
    var inner := BinaryOp(a, Var(x), Var(y));
    var e := BinaryOp(b, inner, Var(z));
    PairPrints(a, Var(x), Var(y), i, [Ident(x)], [Ident(y)]);
    PairPrints(b, inner, Var(z), 0, [Ident(x), Op(a), Ident(y)], [Ident(z)]);
    assert Print(e, 0) == Three(x, a, y, b, z);
    FlatReads(e, Print(e, 0));
  }

  lemma {:induction false} PairPrints(op: string, l: Tree, r: Tree, n: nat, a: seq<Tok>, b: seq<Tok>)
    requires WellFormed(l) && WellFormed(r) && Rung(op) >= n
    requires Print(l, Rung(op)) == a && Print(r, Rung(op) + 1) == b
    ensures WellFormed(BinaryOp(op, l, r)) && Print(BinaryOp(op, l, r), n) == a + [Op(op)] + b
  {
    var e := BinaryOp(op, l, r);
    assert Print(e, n) == PrintBare(e);
  }

  lemma {:induction false} VarPrints(x: string, n: nat)
    requires n <= 12
    ensures Print(Var(x), n) == [Ident(x)]
  {
  }

  lemma {:induction false} PrefixPrints(p: string, e: Tree, n: nat)
    requires p in PREFIXES && WellFormed(e) && n <= UNARY
    ensures WellFormed(Unary(p, e)) && Print(Unary(p, e), n) == [Op(p)] + Print(e, UNARY)
  {
    PrefixesArePrefixes(p);
    assert PrintBare(Unary(p, e)) == [Op(p)] + Print(e, UNARY);
  }

  lemma {:induction false} CastPrints(e: Tree, ty: string, n: nat)
    requires ty in PRIMITIVES && WellFormed(e) && n <= CAST
    ensures WellFormed(CastTo(e, ty)) && Print(CastTo(e, ty), n) == Print(e, CAST) + [AsWord, Ident(ty)]
  {
    PrimitivesArePrimitive(ty);
    assert PrintBare(CastTo(e, ty)) == Print(e, CAST) + [AsWord, Ident(ty)];
  }

  lemma {:induction false} CallPrints(f: string, types: seq<string>, x: string, n: nat)
    requires n <= 12 && |types| <= 1
    ensures var call := Apply(f, types, MoreTrees(Var(x), NoTrees));
      && WellFormed(call) && NoLess(call)
      && Print(call, n) == [Ident(f)] + (if types == [] then [] else [Op("<"), Ident(types[0]), Op(">")]) + [Open, Ident(x), Close]
  {
    var args := MoreTrees(Var(x), NoTrees);
    assert AllWellFormed(NoTrees) && NoLessIn(NoTrees) && NoLess(Var(x));
    VarPrints(x, 0);
    assert AllWellFormed(args) && NoLessIn(args);
    assert PrintArgs(args) == Print(Var(x), 0) + [Close];
    var call := Apply(f, types, args);
    assert Print(call, n) == PrintBare(call) == [Ident(f)] + PrintTypes(types) + [Open] + PrintArgs(args);
    if types != [] { assert PrintTypeList(types) == [Ident(types[0])]; }
  }

  /** A prefix binds tighter than any binary operator, and looser than nothing but a call. */
  lemma {:induction false} PrefixBindsTighter(p: string, i: nat, op: string, x: string, y: string)
    requires p in PREFIXES && OnLevel(i, op)
    ensures Reads([Op(p), Ident(x), Op(op), Ident(y)], BinaryOp(op, Unary(p, Var(x)), Var(y)))
  {
    LevelIsRung(i, op);
    var u := Unary(p, Var(x));
    var e := BinaryOp(op, u, Var(y));
    VarPrints(x, UNARY);
    PrefixPrints(p, Var(x), i);
    PairPrints(op, u, Var(y), 0, [Op(p), Ident(x)], [Ident(y)]);
    assert Print(e, 0) == [Op(p), Ident(x), Op(op), Ident(y)];
    FlatReads(e, Print(e, 0));
  }

  /** A cast binds tighter than any binary operator and looser than a prefix:  p x as ty op y  is
      ((p x) as ty) op y,  and  y op p x as ty  is  y op ((p x) as ty). */
  lemma {:induction false} CastBindsBetween(p: string, ty: string, i: nat, op: string, x: string, y: string)
    requires p in PREFIXES && ty in PRIMITIVES && OnLevel(i, op)
    ensures Reads([Op(p), Ident(x), AsWord, Ident(ty), Op(op), Ident(y)], BinaryOp(op, CastTo(Unary(p, Var(x)), ty), Var(y)))
    ensures Reads([Ident(y), Op(op), Op(p), Ident(x), AsWord, Ident(ty)], BinaryOp(op, Var(y), CastTo(Unary(p, Var(x)), ty)))
  {
    LevelIsRung(i, op);
    var u := Unary(p, Var(x));
    VarPrints(x, UNARY);
    VarPrints(y, i);
    VarPrints(y, i + 1);
    PrefixPrints(p, Var(x), CAST);
    var c := CastTo(u, ty);
    CastPrints(u, ty, i);
    CastPrints(u, ty, i + 1);
    var cast := [Op(p), Ident(x), AsWord, Ident(ty)];
    hide WellFormed, PrintBare, Print;
    PairPrints(op, c, Var(y), 0, cast, [Ident(y)]);
    PairPrints(op, Var(y), c, 0, [Ident(y)], cast);
    var e, f := BinaryOp(op, c, Var(y)), BinaryOp(op, Var(y), c);
    assert Print(e, 0) == [Op(p), Ident(x), AsWord, Ident(ty), Op(op), Ident(y)];
    assert Print(f, 0) == [Ident(y), Op(op), Op(p), Ident(x), AsWord, Ident(ty)];
    FlatReads(e, Print(e, 0));
    FlatReads(f, Print(f, 0));
  }

  /** Parentheses group:  (x lo y) hi z  and  z hi (x lo y). `<` is not among the operators here, as a
      parenthesis may make it open type arguments. */
  lemma {:induction false} ParenthesesGroup(i: nat, lo: string, j: nat, hi: string, x: string, y: string, z: string)
    requires i < j && OnLevel(i, lo) && OnLevel(j, hi) && lo != "<" && hi != "<"
    ensures Reads([Open, Ident(x), Op(lo), Ident(y), Close, Op(hi), Ident(z)], BinaryOp(hi, BinaryOp(lo, Var(x), Var(y)), Var(z)))
    ensures Reads([Ident(z), Op(hi), Open, Ident(x), Op(lo), Ident(y), Close], BinaryOp(hi, Var(z), BinaryOp(lo, Var(x), Var(y))))
  {
    LevelIsRung(i, lo);
    LevelIsRung(j, hi);
    var inner := BinaryOp(lo, Var(x), Var(y));
    var e, f := BinaryOp(hi, inner, Var(z)), BinaryOp(hi, Var(z), inner);
    var group := [Open, Ident(x), Op(lo), Ident(y), Close];
    GroupPrints(lo, x, y, j);
    GroupPrints(lo, x, y, j + 1);
    VarPrints(z, j);
    VarPrints(z, j + 1);
    assert NoLess(Var(x)) && NoLess(Var(y)) && NoLess(Var(z)) && NoLess(inner);
    assert NoLess(e) && NoLess(f);
    hide Print, PrintBare, WellFormed, NoLess, OnLevel;
    PairPrints(hi, inner, Var(z), 0, group, [Ident(z)]);
    PairPrints(hi, Var(z), inner, 0, [Ident(z)], group);
    assert group + [Op(hi)] + [Ident(z)] == [Open, Ident(x), Op(lo), Ident(y), Close, Op(hi), Ident(z)];
    assert [Ident(z)] + [Op(hi)] + group == [Ident(z), Op(hi), Open, Ident(x), Op(lo), Ident(y), Close];
    CalmReads(e, Print(e, 0));
    CalmReads(f, Print(f, 0));
  }

  lemma {:induction false} GroupPrints(op: string, x: string, y: string, n: nat)
    requires 0 <= Rung(op) < n
    ensures var e := BinaryOp(op, Var(x), Var(y));
      WellFormed(e) && Print(e, n) == [Open, Ident(x), Op(op), Ident(y), Close]
  {
    var e := BinaryOp(op, Var(x), Var(y));
    PairPrints(op, Var(x), Var(y), 0, [Ident(x)], [Ident(y)]);
    assert PrintBare(e) == [Ident(x), Op(op), Ident(y)];
    assert Print(e, n) == [Open] + PrintBare(e) + [Close];
  }

  /** Calls bind tightest:  p f(x) op y, generic or not. */
  lemma {:induction false} CallBindsTightest(p: string, i: nat, op: string, f: string, ty: string, x: string, y: string)
    requires p in PREFIXES && OnLevel(i, op) && op != "<"
    ensures Reads([Op(p), Ident(f), Open, Ident(x), Close, Op(op), Ident(y)],
      BinaryOp(op, Unary(p, Apply(f, [], MoreTrees(Var(x), NoTrees))), Var(y)))
    ensures Reads([Op(p), Ident(f), Op("<"), Ident(ty), Op(">"), Open, Ident(x), Close, Op(op), Ident(y)],
      BinaryOp(op, Unary(p, Apply(f, [ty], MoreTrees(Var(x), NoTrees))), Var(y)))
  {
    PrefixedCallReads(p, i, op, f, [], x, y, [Op(p), Ident(f), Open, Ident(x), Close]);
    PrefixedCallReads(p, i, op, f, [ty], x, y, [Op(p), Ident(f), Op("<"), Ident(ty), Op(">"), Open, Ident(x), Close]);
    assert [Op(p), Ident(f), Open, Ident(x), Close] + [Op(op)] + [Ident(y)]
      == [Op(p), Ident(f), Open, Ident(x), Close, Op(op), Ident(y)];
    assert [Op(p), Ident(f), Op("<"), Ident(ty), Op(">"), Open, Ident(x), Close] + [Op(op)] + [Ident(y)]
      == [Op(p), Ident(f), Op("<"), Ident(ty), Op(">"), Open, Ident(x), Close, Op(op), Ident(y)];
  }

  lemma {:induction false} PrefixedCallReads(p: string, i: nat, op: string, f: string, types: seq<string>, x: string, y: string,
                                             a: seq<Tok>)
    requires p in PREFIXES && OnLevel(i, op) && op != "<" && |types| <= 1
    requires a == [Op(p), Ident(f)] + (if types == [] then [] else [Op("<"), Ident(types[0]), Op(">")]) + [Open, Ident(x), Close]
    ensures Reads(a + [Op(op)] + [Ident(y)], BinaryOp(op, Unary(p, Apply(f, types, MoreTrees(Var(x), NoTrees))), Var(y)))
  {
    LevelIsRung(i, op);
    var call := Apply(f, types, MoreTrees(Var(x), NoTrees));
    CallPrints(f, types, x, UNARY);
    PrefixPrints(p, call, i);
    VarPrints(y, i + 1);
    var u := Unary(p, call);
    var e := BinaryOp(op, u, Var(y));
    assert NoLess(Var(y)) && NoLess(u) && NoLess(e);
    hide Print, PrintBare, WellFormed, NoLess;
    PairPrints(op, u, Var(y), 0, a, [Ident(y)]);
    CalmReads(e, a + [Op(op)] + [Ident(y)]);
  }

  // ----- the lookahead, without its loop -----

  /** How deep in angles the tokens from i up to j lead. */
  function Angles(toks: seq<Tok>, i: nat, j: nat): int
    requires i <= j <= |toks|
    decreases j
  {
    if i == j then 0
    else
      var k := toks[j - 1];
      Angles(toks, i, j - 1) + (if k == Op("<") then 1 else if k == Op(">") then -1 else if k == Op(">>") then -2 else 0)
  }

  /** The token at j is the one that closes the angle opened at i. */
  predicate ClosesAt(toks: seq<Tok>, i: nat, j: nat)
  {
    && i < j < |toks| && (toks[j] == Op(">") || toks[j] == Op(">>"))
    && Angles(toks, i, j + 1) == 0
    && (forall k | i <= k < j :: toks[k] != Semi && toks[k] != EndOfFile)
    && (forall k | i < k <= j :: Angles(toks, i, k) > 0)
  }

  lemma {:induction false} AnglesFrom(toks: seq<Tok>, i: nat, j: nat, depth: int)
    requires i < j <= |toks| && toks[i] == Op("<") && depth == Angles(toks, i, j)
    requires (forall k | i <= k < j :: toks[k] != Semi && toks[k] != EndOfFile) && forall k | i < k <= j :: Angles(toks, i, k) > 0
    ensures AnglesCall(toks, j, depth) <==> exists k: nat :: j <= k && ClosesAt(toks, i, k) && TokAt(toks, k + 1) == Open
    decreases |toks| - j
  {
    if j < |toks| {
      var step := Angles(toks, i, j + 1);
      if toks[j] == Semi || toks[j] == EndOfFile {
        assert forall k: nat | j <= k :: !ClosesAt(toks, i, k);
      } else if step > 0 {
        AnglesFrom(toks, i, j + 1, step);
        assert !ClosesAt(toks, i, j);
      } else {
        assert forall k: nat | j < k && ClosesAt(toks, i, k) :: Angles(toks, i, j + 1) > 0;
        if step == 0 { assert ClosesAt(toks, i, j); }
      }
    }
  }

  /** A `<` opens type arguments if and only if the token that closes it comes before any semicolon and
      an opening parenthesis follows. */
  lemma {:induction false} LookaheadIff(toks: seq<Tok>, i: nat)
    requires i < |toks| && toks[i] == Op("<")
    ensures LooksLikeTypeArgs(toks, i) <==> exists k: nat :: ClosesAt(toks, i, k) && TokAt(toks, k + 1) == Open
  {
    assert Angles(toks, i, i + 1) == 1 by { assert Angles(toks, i, i) == 0; }
    AnglesFrom(toks, i, i + 1, 1);
  }
}
