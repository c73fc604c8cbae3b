/** The TLS archive cache gets its work done: what a process achieves that is left alone, that the lock
    is given back, and what a process leaves behind that dies with it. */
module TlsProgress {
  import opened MortSyntax
  import opened TlsCache

  // ----- a process on its own -----

  /** n operations of process p, none of which fails; a build yields `content`. */
  function Solo(hash: Content -> Digest, s: State, p: nat, content: Content, n: nat): (t: State)
    requires p < |s.pcs|
    ensures |t.pcs| == |s.pcs|
    decreases n
  {
    if n == 0 then s
    else
      var t := Take(hash, s, p, if s.pcs[p].Build? then Yield(content) else Proceed);
      Solo(hash, t, p, content, n - 1)
  }

  lemma {:induction false} SoloCat(hash: Content -> Digest, s: State, p: nat, content: Content, m: nat, n: nat)
    requires p < |s.pcs|
    ensures Solo(hash, s, p, content, m + n) == Solo(hash, Solo(hash, s, p, content, m), p, content, n)
    decreases m
  {
    hide Take;
    if m > 0 {
      SoloStep(hash, s, p, content, m + n);
      SoloStep(hash, s, p, content, m);
      SoloCat(hash, Take(hash, s, p, if s.pcs[p].Build? then Yield(content) else Proceed), p, content, m - 1, n);
    }
  }

  lemma {:induction false} SoloStep(hash: Content -> Digest, s: State, p: nat, content: Content, n: nat)
    requires p < |s.pcs| && n > 0
    ensures var t := Take(hash, s, p, if s.pcs[p].Build? then Yield(content) else Proceed);
      |t.pcs| == |s.pcs| && Solo(hash, s, p, content, n) == Solo(hash, t, p, content, n - 1)
  {
  }

  /** A check reads what is there and changes nothing. */
  lemma {:induction false} SoloChecks(hash: Content -> Digest, s: State, p: nat, content: Content) returns (n: nat)
    requires p < |s.pcs| && s.pcs[p].LookArchive?
    ensures 1 <= n <= 4
    ensures var site := s.pcs[p].site;
      Solo(hash, s, p, content, n) == To(s, p, if CacheValid(hash, s) then OnValid(site) else OnInvalid(site, Proceed))
  {
    var site := s.pcs[p].site;
    var end := if CacheValid(hash, s) then OnValid(site) else OnInvalid(site, Proceed);
    if s.archive.None? {
      n := 1;
      SoloOne(hash, s, p, content);
    } else if s.stamp.None? {
      n := 2;
      var s1 := To(s, p, LookStamp(site));
      SoloOne(hash, s, p, content);
      SoloOne(hash, s1, p, content);
      SoloCat(hash, s, p, content, 1, 1);
      assert To(s1, p, end) == To(s, p, end);
    } else {
      n := 4;
      var s1, s2 := To(s, p, LookStamp(site)), To(s, p, ReadStamp(site));
      var s3 := To(s, p, HashArchive(site, s.stamp.value));
      SoloOne(hash, s, p, content);
      SoloOne(hash, s1, p, content);
      SoloOne(hash, s2, p, content);
      SoloOne(hash, s3, p, content);
      SoloCat(hash, s, p, content, 1, 1);
      SoloCat(hash, s, p, content, 2, 1);
      SoloCat(hash, s, p, content, 3, 1);
      assert To(s1, p, ReadStamp(site)) == s2 && To(s2, p, HashArchive(site, s.stamp.value)) == s3;
      assert To(s3, p, end) == To(s, p, end);
    }
  }

  lemma {:induction false} SoloOne(hash: Content -> Digest, s: State, p: nat, content: Content)
    requires p < |s.pcs|
    ensures Solo(hash, s, p, content, 1) == Take(hash, s, p, if s.pcs[p].Build? then Yield(content) else Proceed)
  {
    SoloStep(hash, s, p, content, 1);
  }

  /** What the rebuild leaves: the archive, its stamp, and no lock. */
  function Rebuilt(hash: Content -> Digest, s: State, p: nat, content: Content): State
    requires p < |s.pcs|
  {
    State(false, Some(content), Some(hash(content)), s.pcs[p := Finished(BuiltIt)])
  }

  lemma {:induction false} SoloRebuilds(hash: Content -> Digest, s: State, p: nat, content: Content)
    requires p < |s.pcs| && s.pcs[p].RemoveArchive?
    ensures Solo(hash, s, p, content, 7) == Rebuilt(hash, s, p, content)
  {
    var s1 := To(s.(archive := None), p, RemoveStamp);
    var s2 := To(s1.(stamp := None), p, Build);
    var s3 := To(s2, p, PlaceArchive(content));
    var s4 := To(s3.(archive := Some(content)), p, HashBuilt);
    SoloCat(hash, s, p, content, 4, 3);
    SoloStamps(hash, s4, p, content);
    SoloStep(hash, s, p, content, 4);
    SoloStep(hash, s1, p, content, 3);
    SoloStep(hash, s2, p, content, 2);
    SoloOne(hash, s3, p, content);
    hide Solo, Take;
    assert s4.pcs[p := Finished(BuiltIt)] == s.pcs[p := Finished(BuiltIt)];
  }

  lemma {:induction false} SoloStamps(hash: Content -> Digest, s: State, p: nat, content: Content)
    requires p < |s.pcs| && s.pcs[p].HashBuilt? && s.archive == Some(content)
    ensures Solo(hash, s, p, content, 3) == Rebuilt(hash, s, p, content)
  {
    var s1 := To(s, p, WriteStamp(hash(content)));
    var s2 := To(s1.(stamp := Some(hash(content))), p, Release(BuiltIt));
    SoloStep(hash, s, p, content, 3);
    SoloStep(hash, s1, p, content, 2);
    SoloOne(hash, s2, p, content);
    hide Solo;
    assert s2.pcs[p := Finished(BuiltIt)] == s.pcs[p := Finished(BuiltIt)];
  }

  lemma {:induction false} SoloStays(hash: Content -> Digest, s: State, p: nat, content: Content, n: nat)
    requires p < |s.pcs| && s.pcs[p].Finished?
    ensures Solo(hash, s, p, content, n) == s
    decreases n
  {
    if n > 0 { SoloStays(hash, s, p, content, n - 1); }
  }

  /** Left alone in a directory without a lock, a process is done after 16 operations: it uses a valid
      cache and touches nothing, or it builds, and leaves a valid cache and no lock. */
  lemma {:induction false} SoloFinishes(hash: Content -> Digest, s: State, p: nat, content: Content)
    requires p < |s.pcs| && s.pcs[p] == LookArchive(First) && !s.lock
    ensures Solo(hash, s, p, content, 16) ==
      if CacheValid(hash, s) then To(s, p, Finished(UsedCache(false))) else Rebuilt(hash, s, p, content)
  {
    hide Take, Solo, CacheValid;
    var n := SoloChecks(hash, s, p, content);
    SoloCat(hash, s, p, content, n, 16 - n);
    if CacheValid(hash, s) {
      SoloStays(hash, To(s, p, Finished(UsedCache(false))), p, content, 16 - n);
    } else {
      var s1 := To(s, p, Acquire);
      SameCache(hash, s, s1);
      SoloLocksAndBuilds(hash, s1, p, content, 16 - n);
      assert s1.pcs[p := Finished(BuiltIt)] == s.pcs[p := Finished(BuiltIt)];
    }
  }

  lemma {:induction false} SameCache(hash: Content -> Digest, s: State, t: State)
    requires t.archive == s.archive && t.stamp == s.stamp
    ensures CacheValid(hash, t) == CacheValid(hash, s)
  {
  }

  lemma {:induction false} SoloLocksAndBuilds(hash: Content -> Digest, s: State, p: nat, content: Content, n: nat)
    requires p < |s.pcs| && s.pcs[p] == Acquire && !s.lock && !CacheValid(hash, s) && n >= 12
    ensures Solo(hash, s, p, content, n) == Rebuilt(hash, s, p, content)
  {
    hide Take, Solo, CacheValid;
    var s1 := To(s.(lock := true), p, LookArchive(UnderLock));
    SoloAcquires(hash, s, p, content);
    SoloCat(hash, s, p, content, 1, n - 1);
    SameCache(hash, s, s1);
    var m := SoloChecks(hash, s1, p, content);
    var s2 := To(s1, p, RemoveArchive);
    SoloCat(hash, s1, p, content, m, n - 1 - m);
    SoloCat(hash, s2, p, content, 7, n - 8 - m);
    SoloRebuilds(hash, s2, p, content);
    SoloStays(hash, Rebuilt(hash, s2, p, content), p, content, n - 8 - m);
    assert s2.pcs[p := Finished(BuiltIt)] == s.pcs[p := Finished(BuiltIt)];
  }

  lemma {:induction false} SoloAcquires(hash: Content -> Digest, s: State, p: nat, content: Content)
    requires p < |s.pcs| && s.pcs[p] == Acquire && !s.lock
    ensures Solo(hash, s, p, content, 1) == To(s.(lock := true), p, LookArchive(UnderLock))
  {
    SoloOne(hash, s, p, content);
  }

  // ----- waiting -----

  /** While another process has the lock: as long as the cache is not valid and the wait has not timed
      out, a process comes back to asking for the lock and changes nothing; once the cache is valid it
      uses it. */
  lemma {:induction false} WaiterChecks(hash: Content -> Digest, s: State, p: nat, content: Content) returns (n: nat)
    requires p < |s.pcs| && s.pcs[p] == Acquire && s.lock
    ensures 2 <= n <= 5
    ensures Solo(hash, s, p, content, n) == if CacheValid(hash, s) then To(s, p, Finished(UsedCache(false))) else s
  {
    hide Take, Solo, CacheValid;
    var s1 := To(s, p, LookArchive(Retry));
    SoloAsks(hash, s, p, content);
    SameCache(hash, s, s1);
    var m := SoloChecks(hash, s1, p, content);
    n := m + 1;
    SoloCat(hash, s, p, content, 1, m);
    assert s1.pcs[p := Acquire] == s.pcs && s1.pcs[p := Finished(UsedCache(false))] == s.pcs[p := Finished(UsedCache(false))];
  }

  lemma {:induction false} SoloAsks(hash: Content -> Digest, s: State, p: nat, content: Content)
    requires p < |s.pcs| && s.pcs[p] == Acquire && s.lock
    ensures Solo(hash, s, p, content, 1) == To(s, p, LookArchive(Retry))
  {
    SoloOne(hash, s, p, content);
  }

  /** A wait that times out ends in an error, and only where the cache is not valid. */
  lemma {:induction false} TimeoutRaises(hash: Content -> Digest, s: State, p: nat)
    requires p < |s.pcs| && s.pcs[p].HashArchive? && s.pcs[p].site == Retry && s.archive.Some?
    ensures Take(hash, s, p, Fail) ==
      To(s, p, if hash(s.archive.value) == s.pcs[p].recorded then Finished(UsedCache(false)) else Finished(Raised))
  {
  }

  // ----- the lock is given back -----

  /** How many operations a process holding the lock has before it at most. */
  function Left(pc: Step): nat
  {
    match pc
    case LookArchive(_) => 11
    case LookStamp(_) => 10
    case ReadStamp(_) => 9
    case HashArchive(_, _) => 8
    case RemoveArchive => 7
    case RemoveStamp => 6
    case Build => 5
    case PlaceArchive(_) => 4
    case HashBuilt => 3
    case WriteStamp(_) => 2
    case Release(_) => 1
    case _ => 0
  }

  /** Whatever fails, an operation of the holder brings it closer to its end, where it drops the lock. */
  lemma {:induction false} HolderAdvances(hash: Content -> Digest, s: State, p: nat, choice: Choice)
    requires p < |s.pcs| && Holding(s.pcs[p]) && !choice.Kill?
    ensures var t := Take(hash, s, p, choice);
      && Left(t.pcs[p]) < Left(s.pcs[p])
      && if Holding(t.pcs[p]) then t.lock == s.lock else t.pcs[p].Finished? && !t.lock
  {
  }

  /** How many of the operations from m up to n are those of process p. */
  function Own(who: seq<nat>, p: nat, m: nat, n: nat): nat
    requires m <= n <= |who|
  {
    if m == n then 0 else Own(who, p, m, n - 1) + (if who[n - 1] == p then 1 else 0)
  }

  /** In any run: a process that holds the lock and is not killed has dropped it after at most 11
      operations of its own, whatever fails and whatever the others do. */
  lemma {:induction false} LockIsGivenBack(hash: Content -> Digest, run: seq<State>, who: seq<nat>, choices: seq<Choice>,
                                           p: nat, m: nat, n: nat) returns (k: nat)
    requires IsRun(hash, run, who, choices) && m <= n < |run| && p < |run[m].pcs| && Holding(run[m].pcs[p])
    requires forall i | m <= i < n && who[i] == p :: !choices[i].Kill?
    requires Own(who, p, m, n) >= 11
    ensures m < k <= n && p < |run[k].pcs| && run[k].pcs[p].Finished? && !run[k].lock
  {
    hide Take;
    k := m;
    while k < n && p < |run[k].pcs| && Holding(run[k].pcs[p])
      invariant m <= k <= n && p < |run[k].pcs|
      invariant if Holding(run[k].pcs[p]) then Left(run[k].pcs[p]) + Own(who, p, m, k) <= 11 else k > m && run[k].pcs[p].Finished? && !run[k].lock
      decreases n - k
    {
      assert run[k + 1] == Take(hash, run[k], who[k], choices[k]);
      if who[k] == p {
        SameCount(hash, run[k], p, choices[k]);
        HolderAdvances(hash, run[k], p, choices[k]);
      } else {
        OthersStand(hash, run[k], who[k], choices[k], p);
      }
      k := k + 1;
    }
  }

  // ----- a lock without a holder -----

  /** The lock file is there, and nobody is going to remove it. */
  predicate Abandoned(s: State) { s.lock && forall i | 0 <= i < |s.pcs| :: !Holding(s.pcs[i]) }

  lemma {:induction false} StaysAbandoned(hash: Content -> Digest, s: State, p: nat, choice: Choice)
    requires p < |s.pcs| && Abandoned(s)
    ensures var t := Take(hash, s, p, choice); Abandoned(t) && t.archive == s.archive && t.stamp == s.stamp
  {
    assert !Holding(s.pcs[p]);
  }

  /** Killing the holder abandons the lock. */
  lemma {:induction false} KilledHolderAbandons(hash: Content -> Digest, s: State, p: nat)
    requires p < |s.pcs| && Invariant(hash, s) && Holding(s.pcs[p])
    ensures Abandoned(Take(hash, s, p, Kill))
  {
    var t := Take(hash, s, p, Kill);
    forall i | 0 <= i < |t.pcs| ensures !Holding(t.pcs[i]) {
      assert i != p ==> !Holding(s.pcs[i]);
    }
  }

  /** An abandoned lock stays for the rest of the run, nobody builds any more, and so the cache is
      valid then exactly if it was when the holder died. */
  lemma {:induction false} AbandonedForGood(hash: Content -> Digest, run: seq<State>, who: seq<nat>, choices: seq<Choice>, m: nat, n: nat)
    requires IsRun(hash, run, who, choices) && m <= n < |run| && Abandoned(run[m])
    ensures Abandoned(run[n]) && run[n].archive == run[m].archive && run[n].stamp == run[m].stamp
    decreases n
  {
    hide Take, Abandoned;
    if n > m {
      AbandonedForGood(hash, run, who, choices, m, n - 1);
      StaysAbandoned(hash, run[n - 1], who[n - 1], choices[n - 1]);
      assert run[n - 1 + 1] == Take(hash, run[n - 1], who[n - 1], choices[n - 1]);
    }
  }
}
