/** Which statement lists the return analysis recognises: those on every way through which there is a
    `return` or an endless loop. */
module ReturnWays {
  import opened MortSyntax
  import opened CleanupLowering
  import opened CleanupProof
  import opened ReturnFlow

  /** The statements met on a way, in order; loops count as one statement. */
  type Way = seq<Stmt>

  function Cat(a: set<Way>, b: set<Way>): set<Way>
  {
    set v <- a, w <- b :: v + w
  }

  /** One way for every choice of a branch at each `if` and of an arm at each `match`; a branch that is
      missing is a way on which nothing is met. */
  function Ways(ss: Stmts): set<Way>
  {
    match ss
    case Done => {[]}
    case Then(s, rest) => Cat(WaysOf(s), Ways(rest))
  }

  function WaysOf(s: Stmt): set<Way>
  {
    match s
    case Block(body) => Ways(body)
    case If(_, thn, els) => Ways(thn) + WaysOfElse(els)
    case Match(_, variants, arms) => WaysOfArms(arms) + (if AllCovered(variants, arms) then {} else {[]})
    case _ => {[s]}
  }

  function WaysOfElse(els: Else): set<Way>
  {
    match els
    case NoElse => {[]}
    case ElseBlock(body) => Ways(body)
    case ElseIf(chained) => if chained.If? then WaysOf(chained) else {[]}
  }

  function WaysOfArms(arms: Arms): set<Way>
  {
    match arms
    case NoArms => {}
    case Arm(_, _, body, rest) => Ways(body) + WaysOfArms(rest)
  }

  /** Some arm takes whatever comes, or the checker has made sure that every variant has its arm. */
  predicate AllCovered(variants: nat, arms: Arms)
  {
    variants > 0 || Taken(None, arms)
  }

  predicate Taken(pattern: Option<nat>, arms: Arms)
  {
    arms.Arm? && (arms.pattern == pattern || Taken(pattern, arms.rest))
  }

  /** The statements of a loop body, those in nested loops left out. */
  function Inside(ss: Stmts): set<Stmt>
  {
    match ss
    case Done => {}
    case Then(s, rest) => InsideOf(s) + Inside(rest)
  }

  function InsideOf(s: Stmt): set<Stmt>
  {
    match s
    case Block(body) => Inside(body)
    case If(_, thn, els) => Inside(thn) + InsideElse(els)
    case Match(_, _, arms) => InsideArms(arms)
    case _ => {s}
  }

  function InsideElse(els: Else): set<Stmt>
  {
    match els
    case NoElse => {}
    case ElseBlock(body) => Inside(body)
    case ElseIf(chained) => InsideOf(chained)
  }

  function InsideArms(arms: Arms): set<Stmt>
  {
    match arms
    case NoArms => {}
    case Arm(_, _, body, rest) => Inside(body) + InsideArms(rest)
  }

  /** Control does not come out behind these. */
  predicate Stops(s: Stmt)
  {
    s.Return? || (s.While? && s.cond == BoolLit(true) && Break !in Inside(s.body))
  }

  predicate Meets(w: Way) { exists i :: 0 <= i < |w| && Stops(w[i]) }

  predicate AllMeet(ws: set<Way>) { forall w | w in ws :: Meets(w) }

  lemma {:induction false} MeetsCat(a: set<Way>, b: set<Way>)
    ensures AllMeet(Cat(a, b)) <==> AllMeet(a) || AllMeet(b)
  {
    if AllMeet(a) || AllMeet(b) {
      forall u | u in Cat(a, b) ensures Meets(u) {
        var v, w :| v in a && w in b && u == v + w;
        MeetsAppend(v, w);
      }
    } else {
      var v :| v in a && !Meets(v);
      var w :| w in b && !Meets(w);
      MeetsAppend(v, w);
      assert v + w in Cat(a, b);
    }
  }

  lemma {:induction false} MeetsAppend(v: Way, w: Way)
    ensures Meets(v + w) <==> Meets(v) || Meets(w)
  {
    var u := v + w;
    if i :| 0 <= i < |v| && Stops(v[i]) { assert u[i] == v[i]; }
    if i :| 0 <= i < |w| && Stops(w[i]) { assert u[|v| + i] == w[i]; }
    if i :| 0 <= i < |u| && Stops(u[i]) {
      if i < |v| { assert u[i] == v[i]; } else { assert u[i] == w[i - |v|]; }
    }
  }

  lemma {:induction false} MeetsUnion(a: set<Way>, b: set<Way>)
    ensures AllMeet(a + b) <==> AllMeet(a) && AllMeet(b)
  {
  }

  lemma {:induction false} NothingMet()
    ensures !AllMeet({[]}) && AllMeet({})
  {
    var w: Way := [];
    assert w in {[]} && !Meets(w);
  }

  lemma {:induction false} OneMet(s: Stmt)
    ensures AllMeet({[s]}) <==> Stops(s)
  {
    var w := [s];
    assert w[0] == s;
    if AllMeet({[s]}) {
      assert w in {[s]};
      var i :| 0 <= i < |w| && Stops(w[i]);
    } else {
      var v :| v in {[s]} && !Meets(v);
      assert v == w;
    }
  }

  // ----- arms -----

  lemma {:induction false} WildcardIff(arms: Arms)
    ensures HasWildcard(arms) <==> Taken(None, arms)
  {
    if arms.Arm? { WildcardIff(arms.rest); }
  }

  lemma {:induction false} PatternIff(arms: Arms, v: nat)
    ensures v in Patterns(arms) <==> Taken(Some(v), arms)
  {
    if arms.Arm? { PatternIff(arms.rest, v); }
  }

  /** A match over an enum is let through exactly if every variant has an arm that takes it. */
  lemma {:induction false} CoveredIff(variants: nat, arms: Arms)
    ensures Covered(variants, arms) <==> Taken(None, arms) || forall v: nat | v < variants :: Taken(Some(v), arms)
  {
    WildcardIff(arms);
    forall v: nat ensures v in Patterns(arms) <==> Taken(Some(v), arms) { PatternIff(arms, v); }
  }

  // ----- breaks -----

  lemma {:induction false} BreakIff(ss: Stmts)
    ensures BreaksLoop(ss) <==> Break in Inside(ss)
  {
    match ss
    case Done =>
    case Then(s, rest) => BreakOfIff(s); BreakIff(rest);
  }

  lemma {:induction false} BreakOfIff(s: Stmt)
    ensures StmtBreaks(s) <==> Break in InsideOf(s)
  {
    match s
    case Block(body) => BreakIff(body);
    case If(_, thn, els) => BreakIff(thn); BreakElseIff(els);
    case Match(_, _, arms) => BreakArmsIff(arms);
    case _ =>
  }

  lemma {:induction false} BreakElseIff(els: Else)
    ensures ElseBreaks(els) <==> Break in InsideElse(els)
  {
    match els
    case NoElse =>
    case ElseBlock(body) => BreakIff(body);
    case ElseIf(chained) => BreakOfIff(chained);
  }

  lemma {:induction false} BreakArmsIff(arms: Arms)
    ensures ArmsBreak(arms) <==> Break in InsideArms(arms)
  {
    match arms
    case NoArms =>
    case Arm(_, _, body, rest) => BreakIff(body); BreakArmsIff(rest);
  }

  // ----- returns -----

  /** The analysis says of a list that it always returns exactly if every way through it meets a
      `return` or an endless loop. */
  lemma {:induction false} RecognisedIff(ss: Stmts)
    ensures AlwaysReturns(ss) <==> AllMeet(Ways(ss))
  {
    hide AllMeet;
    match ss
    case Done => NothingMet();
    case Then(s, rest) =>
      StmtRecognisedIff(s);
      RecognisedIff(rest);
      MeetsCat(WaysOf(s), Ways(rest));
  }

  lemma {:induction false} StmtRecognisedIff(s: Stmt)
    ensures StmtReturns(s) <==> AllMeet(WaysOf(s))
  {
    hide AllMeet;
    match s
    case Block(body) => RecognisedIff(body);
    case If(_, thn, els) =>
      RecognisedIff(thn);
      ElseRecognisedIff(els);
      MeetsUnion(Ways(thn), WaysOfElse(els));
    case Match(_, variants, arms) =>
      ArmsRecognisedIff(arms);
      WildcardIff(arms);
      NothingMet();
      MeetsUnion(WaysOfArms(arms), if AllCovered(variants, arms) then {} else {[]});
    case While(_, body) =>
      BreakIff(body);
      OneMet(s);
    case _ => OneMet(s);
  }

  lemma {:induction false} ElseRecognisedIff(els: Else)
    ensures ElseReturns(els) <==> AllMeet(WaysOfElse(els))
  {
    hide AllMeet;
    match els
    case NoElse => NothingMet();
    case ElseBlock(body) => RecognisedIff(body);
    case ElseIf(chained) => if chained.If? { StmtRecognisedIff(chained); } else { NothingMet(); }
  }

  lemma {:induction false} ArmsRecognisedIff(arms: Arms)
    ensures ArmsReturn(arms) <==> AllMeet(WaysOfArms(arms))
  {
    hide AllMeet;
    match arms
    case NoArms => NothingMet();
    case Arm(_, _, body, rest) =>
      RecognisedIff(body);
      ArmsRecognisedIff(rest);
      MeetsUnion(Ways(body), WaysOfArms(rest));
  }
}
