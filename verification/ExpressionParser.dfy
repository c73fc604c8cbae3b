/** The recursive-descent expression parser as it runs: a cursor over the tokens, loops that rebuild
    the left operand, and a lookahead loop before every `<` that may open type arguments. */
module ExpressionParser {
  import opened MortSyntax
  import opened OperatorLadder

  class Parser {
    const toks: seq<Tok>
    var i: nat

    constructor (toks: seq<Tok>)
      ensures this.toks == toks && i == 0
    {
      this.toks, i := toks, 0;
    }

    function Peek(): Tok
      reads this
    {
      TokAt(toks, i)
    }

    /** The cursor has moved on exactly as the specification says, or parsing failed with it. */
    twostate predicate Took<T>(new r: Parsed<T>, new out: Option<T>)
      reads this
    {
      && (out.Some? <==> r.Some?)
      && (r.Some? ==> out.value == r.value.0 && i == r.value.1)
    }

    method Advance() returns (k: Tok)
      requires i < |toks|
      modifies this
      ensures k == toks[old(i)] && i == old(i) + 1
    {
      k := toks[i];
      i := i + 1;
    }

    /** One rung of the ladder, for all ten binary rungs. */
    method BinaryRung(n: nat) returns (out: Option<Tree>)
      requires n <= CAST
      modifies this
      ensures Took(ParseRung(n, toks, old(i)), out)
      decreases |toks| - i, 20 - n
    {
      if n == CAST {
        out := CastLevel();
        return;
      }
      ghost var start := i;
      out := BinaryRung(n + 1);
      if out.None? { return; }
      var left := out.value;
      while i < |toks| && OnRung(n, toks[i])
        invariant start < i <= |toks| && ParseRest(n, left, toks, i) == ParseRung(n, toks, start)
        decreases |toks| - i
      {
        var op := Advance();
        var right := BinaryRung(n + 1);
        if right.None? { return None; }
        left := BinaryOp(op.text, left, right.value);
      }
      out := Some(left);
    }

    method CastLevel() returns (out: Option<Tree>)
      modifies this
      ensures Took(ParseCast(toks, old(i)), out)
      decreases |toks| - i, 9
    {
      ghost var start := i;
      out := UnaryLevel();
      if out.None? { return; }
      var e := out.value;
      while Peek() == AsWord
        invariant start < i <= |toks| && CastRest(e, toks, i) == ParseCast(toks, start)
        decreases |toks| - i
      {
        var _ := Advance();
        var ty := TypeByName();
        if ty.None? { return None; }
        e := CastTo(e, ty.value);
      }
      out := Some(e);
    }

    method TypeByName() returns (ty: Option<string>)
      modifies this
      ensures ty == TypeName(toks, old(i)) && (ty.Some? ==> i == old(i) + 1)
    {
      ty := TypeName(toks, i);
      if ty.Some? { var _ := Advance(); }
    }

    method UnaryLevel() returns (out: Option<Tree>)
      modifies this
      ensures Took(ParseUnary(toks, old(i)), out)
      decreases |toks| - i, 8
    {
      if i < |toks| && toks[i].Op? && IsPrefix(toks[i].text) {
        var op := Advance();
        out := UnaryLevel();
        if out.Some? { out := Some(Unary(op.text, out.value)); }
      } else {
        out := Postfix();
      }
    }

    /** Whether the angles that open here close right before a parenthesis. */
    method LooksLikeCall() returns (yes: bool)
      ensures yes == LooksLikeTypeArgs(toks, i)
    {
      var depth, j := 0, i;
      while j < |toks|
        invariant AnglesCall(toks, j, depth) == LooksLikeTypeArgs(toks, i)
        decreases |toks| - j
      {
        match toks[j] {
          case Op(text) =>
            if text == "<" {
              depth := depth + 1;
            } else if text == ">" {
              depth := depth - 1;
              if depth == 0 { return TokAt(toks, j + 1) == Open; }
            } else if text == ">>" {
              depth := depth - 2;
              if depth == 0 { return TokAt(toks, j + 1) == Open; }
              if depth < 0 { return false; }
            }
          case Semi => return false;
          case EndOfFile => return false;
          case _ =>
        }
        j := j + 1;
      }
      yes := false;
    }

    method Postfix() returns (out: Option<Tree>)
      requires !(i < |toks| && toks[i].Op? && IsPrefix(toks[i].text))
      modifies this
      ensures Took(ParseUnary(toks, old(i)), out)
      decreases |toks| - i, 7
    {
      hide AnglesCall, LooksLikeTypeArgs, IsPrimitive, ParseTypes, ParseArgs, ParsePrimary;
      ghost var start := i;
      out := Primary();
      if out.None? { return; }
      var e := out.value;
      while true
        invariant start < i <= |toks| && PostfixRest(e, toks, i) == ParseUnary(toks, start)
        decreases |toks| - i
      {
        var generic := false;
        if Peek() == Op("<") { generic := LooksLikeCall(); }
        if generic {
          if !e.Var? { return None; }
          var _ := Advance();
          var types := TypeList();
          if types.None? || Peek() != Op(">") { return None; }
          var _ := Advance();
          if Peek() != Open { return None; }
          var _ := Advance();
          var args := Arguments();
          if args.None? { return None; }
          e := Apply(e.name, types.value, args.value);
        } else if Peek() == Open {
          if !e.Var? { return None; }
          var _ := Advance();
          var args := Arguments();
          if args.None? { return None; }
          e := Apply(e.name, [], args.value);
        } else {
          return Some(e);
        }
      }
    }

    method TypeList() returns (out: Option<seq<string>>)
      modifies this
      ensures Took(ParseTypes(toks, old(i)), out)
      decreases |toks| - i
    {
      var ty := TypeByName();
      if ty.None? { return None; }
      if Peek() == Comma {
        var _ := Advance();
        var more := TypeList();
        if more.None? { return None; }
        out := Some([ty.value] + more.value);
      } else {
        out := Some([ty.value]);
      }
    }

    method Arguments() returns (out: Option<Trees>)
      modifies this
      ensures Took(ParseArgs(toks, old(i)), out)
      decreases |toks| - i, 25
    {
      if Peek() == Close {
        var _ := Advance();
        return Some(NoTrees);
      }
      out := MoreArguments();
    }

    method MoreArguments() returns (out: Option<Trees>)
      modifies this
      ensures Took(ParseMoreArgs(toks, old(i)), out)
      decreases |toks| - i, 24
    {
      var e := BinaryRung(0);
      if e.None? { return None; }
      if Peek() == Comma {
        var _ := Advance();
        var more := MoreArguments();
        if more.None? { return None; }
        out := Some(MoreTrees(e.value, more.value));
      } else if Peek() == Close {
        var _ := Advance();
        out := Some(MoreTrees(e.value, NoTrees));
      } else {
        out := None;
      }
    }

    method Primary() returns (out: Option<Tree>)
      modifies this
      ensures Took(ParsePrimary(toks, old(i)), out)
      decreases |toks| - i, 6
    {
      match Peek()
      case Lit(text) =>
        var _ := Advance();
        out := Some(Literal(text));
      case Ident(name) =>
        var _ := Advance();
        out := Some(Var(name));
      case Open =>
        var _ := Advance();
        out := BinaryRung(0);
        if out.Some? {
          if Peek() != Close { return None; }
          var _ := Advance();
        }
      case _ => out := None;
    }

    /** A printed tree is read back, with the cursor at the `;`, exactly if no comparison in it is
        taken for type arguments. */
    method ReadPrinted(e: Tree, ghost rest: seq<Tok>) returns (out: Option<Tree>)
      requires i == 0 && WellFormed(e) && toks == Print(e, 0) + [Semi] + rest
      modifies this
      ensures Calm(e, 0, toks, 0) ==> out == Some(e) && i == |Print(e, 0)|
      ensures out == Some(e) && i == |Print(e, 0)| ==> Calm(e, 0, toks, 0)
    {
      LadderInvertsPrinter(e, rest);
      out := BinaryRung(0);
    }
  }
}
