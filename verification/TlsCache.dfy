/** The TLS archive cache: any number of processes check a stamped archive, take a lock file, rebuild
    and stamp it, in any interleaving, with builds that fail and processes that die. */
module TlsCache {
  import opened MortSyntax

  type Content = nat
  type Digest = nat

  /** Where a validity check was started from. */
  datatype Site = First | Retry | UnderLock

  datatype Result = UsedCache(locked: bool) | BuiltIt | Raised

  /** The next file operation of a process. A validity check is four reads, not one. */
  datatype Step =
    | LookArchive(site: Site)
    | LookStamp(site: Site)
    | ReadStamp(site: Site)
    | HashArchive(site: Site, recorded: Digest)
    | Acquire
    | RemoveArchive
    | RemoveStamp
    | Build
    | PlaceArchive(content: Content)
    | HashBuilt
    | WriteStamp(digest: Digest)
    | Release(result: Result)
    | Finished(result: Result)
    | Dead

  /** The shared directory and every process.  The lock is only a file: it does not say whose it is. */
  datatype State = State(lock: bool, archive: Option<Content>, stamp: Option<Digest>, pcs: seq<Step>)

  /** What the outside world decides: an operation fails, a build yields this archive, a wait times
      out, a process is killed. */
  datatype Choice = Proceed | Fail | Yield(content: Content) | Kill

  predicate CacheValid(hash: Content -> Digest, s: State)
  {
    s.archive.Some? && s.stamp == Some(hash(s.archive.value))
  }

  function OnInvalid(site: Site, choice: Choice): Step
  {
    match site
    case First => Acquire
    case Retry => if choice.Fail? then Finished(Raised) else Acquire
    case UnderLock => RemoveArchive
  }

  function OnValid(site: Site): Step
  {
    if site.UnderLock? then Release(UsedCache(true)) else Finished(UsedCache(false))
  }

  function OnError(site: Site): Step
  {
    if site.UnderLock? then Release(Raised) else Finished(Raised)
  }

  function To(s: State, p: nat, pc: Step): State
    requires p < |s.pcs|
  {
    s.(pcs := s.pcs[p := pc])
  }

  /** One operation of process p. */
  function Take(hash: Content -> Digest, s: State, p: nat, choice: Choice): State
    requires p < |s.pcs|
  {
    if choice.Kill? then (if s.pcs[p].Finished? then s else To(s, p, Dead))
    else match s.pcs[p]
      case LookArchive(site) => To(s, p, if s.archive.Some? then LookStamp(site) else OnInvalid(site, choice))
      case LookStamp(site) => To(s, p, if s.stamp.Some? then ReadStamp(site) else OnInvalid(site, choice))
      case ReadStamp(site) => To(s, p, if s.stamp.Some? then HashArchive(site, s.stamp.value) else OnInvalid(site, choice))
      case HashArchive(site, recorded) =>
        To(s, p, if s.archive.None? then OnError(site)
                 else if hash(s.archive.value) == recorded then OnValid(site) else OnInvalid(site, choice))
      case Acquire =>
        if s.lock then To(s, p, LookArchive(Retry)) else To(s.(lock := true), p, LookArchive(UnderLock))
      case RemoveArchive =>
        if choice.Fail? then To(s, p, Release(Raised)) else To(s.(archive := None), p, RemoveStamp)
      case RemoveStamp =>
        if choice.Fail? then To(s, p, Release(Raised)) else To(s.(stamp := None), p, Build)
      case Build => To(s, p, if choice.Yield? then PlaceArchive(choice.content) else Release(Raised))
      case PlaceArchive(content) =>
        // a failed replace is ignored if an archive is there anyway
        if choice.Fail? then To(s, p, if s.archive.Some? then HashBuilt else Release(Raised))
        else To(s.(archive := Some(content)), p, HashBuilt)
      case HashBuilt => To(s, p, if s.archive.Some? then WriteStamp(hash(s.archive.value)) else Release(Raised))
      case WriteStamp(digest) =>
        if choice.Fail? then To(s, p, Release(Raised)) else To(s.(stamp := Some(digest)), p, Release(BuiltIt))
      case Release(result) => To(s.(lock := false), p, Finished(result))
      case Finished(_) => s
      case Dead => s
  }

  /** Any directory, left by whatever happened before; every process about to start. */
  predicate Initial(s: State)
  {
    forall i | 0 <= i < |s.pcs| :: s.pcs[i] == LookArchive(First)
  }

  predicate IsRun(hash: Content -> Digest, run: seq<State>, who: seq<nat>, choices: seq<Choice>)
  {
    && run != [] && |who| == |choices| == |run| - 1
    && forall i | 0 <= i < |who| :: who[i] < |run[i].pcs| && run[i + 1] == Take(hash, run[i], who[i], choices[i])
  }

  // ----- the invariant -----

  /** Between taking the lock and dropping it. */
  predicate Holding(pc: Step)
  {
    match pc
    case LookArchive(site) => site.UnderLock?
    case LookStamp(site) => site.UnderLock?
    case ReadStamp(site) => site.UnderLock?
    case HashArchive(site, _) => site.UnderLock?
    case Acquire => false
    case Finished(_) => false
    case Dead => false
    case _ => true
  }

  /** What the process holding the lock may rely on. */
  predicate Knows(hash: Content -> Digest, s: State, pc: Step)
  {
    match pc
    case LookStamp(UnderLock) => s.archive.Some?
    case ReadStamp(UnderLock) => s.archive.Some? && s.stamp.Some?
    case HashArchive(UnderLock, recorded) => s.archive.Some? && s.stamp == Some(recorded)
    case RemoveArchive => !CacheValid(hash, s)
    case RemoveStamp => s.archive.None?
    case Build => s.archive.None? && s.stamp.None?
    case PlaceArchive(_) => s.archive.None? && s.stamp.None?
    case HashBuilt => s.archive.Some? && s.stamp.None?
    case WriteStamp(digest) => s.archive.Some? && s.stamp.None? && digest == hash(s.archive.value)
    case Release(BuiltIt) => CacheValid(hash, s)
    case Release(UsedCache(_)) => CacheValid(hash, s)
    case Finished(BuiltIt) => CacheValid(hash, s)
    case Finished(UsedCache(true)) => CacheValid(hash, s)
    case _ => true
  }

  predicate Exclusive(s: State)
  {
    && (forall i, j | 0 <= i < j < |s.pcs| :: !(Holding(s.pcs[i]) && Holding(s.pcs[j])))
    && (forall i | 0 <= i < |s.pcs| && Holding(s.pcs[i]) :: s.lock)
  }

  predicate Invariant(hash: Content -> Digest, s: State)
  {
    Exclusive(s) && forall i | 0 <= i < |s.pcs| :: Knows(hash, s, s.pcs[i])
  }

  /** No process ever falsifies a valid cache. */
  lemma {:induction false} StepKeepsCache(hash: Content -> Digest, s: State, p: nat, choice: Choice)
    requires p < |s.pcs| && Invariant(hash, s)
    ensures CacheValid(hash, s) ==> CacheValid(hash, Take(hash, s, p, choice))
  {
    assert Knows(hash, s, s.pcs[p]);
  }

  lemma {:induction false} StepKeepsExclusive(hash: Content -> Digest, s: State, p: nat, choice: Choice)
    requires p < |s.pcs| && Exclusive(s)
    ensures Exclusive(Take(hash, s, p, choice))
  {
    var t := Take(hash, s, p, choice);
    forall i, j | 0 <= i < j < |t.pcs| ensures !(Holding(t.pcs[i]) && Holding(t.pcs[j])) {
      assert !(Holding(s.pcs[i]) && Holding(s.pcs[j]));
    }
  }

  /** What the moving process knows next. */
  lemma {:induction false} MoverKnows(hash: Content -> Digest, s: State, p: nat, choice: Choice)
    requires p < |s.pcs| && Knows(hash, s, s.pcs[p])
    ensures var t := Take(hash, s, p, choice); Knows(hash, t, t.pcs[p])
  {
    hide Take, Knows;
    if s.pcs[p].RemoveArchive? || s.pcs[p].RemoveStamp? || s.pcs[p].Build? || s.pcs[p].PlaceArchive? || s.pcs[p].HashBuilt? || s.pcs[p].WriteStamp? {
      BuilderKnows(hash, s, p, choice);
    } else {
      ReaderKnows(hash, s, p, choice);
    }
  }

  lemma {:induction false} BuilderKnows(hash: Content -> Digest, s: State, p: nat, choice: Choice)
    requires p < |s.pcs| && Knows(hash, s, s.pcs[p])
    requires var pc := s.pcs[p]; pc.RemoveArchive? || pc.RemoveStamp? || pc.Build? || pc.PlaceArchive? || pc.HashBuilt? || pc.WriteStamp?
    ensures var t := Take(hash, s, p, choice); Knows(hash, t, t.pcs[p])
  {
  }

  lemma {:induction false} ReaderKnows(hash: Content -> Digest, s: State, p: nat, choice: Choice)
    requires p < |s.pcs| && Knows(hash, s, s.pcs[p])
    requires var pc := s.pcs[p]; !(pc.RemoveArchive? || pc.RemoveStamp? || pc.Build? || pc.PlaceArchive? || pc.HashBuilt? || pc.WriteStamp?)
    ensures var t := Take(hash, s, p, choice); Knows(hash, t, t.pcs[p])
  {
  }

  /** What every other process knows stays true. */
  lemma {:induction false} OthersKnow(hash: Content -> Digest, s: State, p: nat, choice: Choice, i: nat)
    requires p < |s.pcs| && i < |s.pcs| && i != p && Invariant(hash, s)
    ensures var t := Take(hash, s, p, choice); t.pcs[i] == s.pcs[i] && Knows(hash, t, t.pcs[i])
  {
    hide Knows;
    var t := Take(hash, s, p, choice);
    StepKeepsCache(hash, s, p, choice);
    assert Knows(hash, s, s.pcs[i]);
    if t.archive == s.archive && t.stamp == s.stamp {
      SameFiles(hash, s, t, s.pcs[i]);
    } else {
      assert Holding(s.pcs[p]);
      assert !Holding(s.pcs[i]);
      OutsiderKnows(hash, s, t, s.pcs[i]);
    }
  }

  lemma {:induction false} SameFiles(hash: Content -> Digest, s: State, t: State, pc: Step)
    requires Knows(hash, s, pc) && t.archive == s.archive && t.stamp == s.stamp
    ensures Knows(hash, t, pc)
  {
  }

  lemma {:induction false} OutsiderKnows(hash: Content -> Digest, s: State, t: State, pc: Step)
    requires Knows(hash, s, pc) && !Holding(pc) && (CacheValid(hash, s) ==> CacheValid(hash, t))
    ensures Knows(hash, t, pc)
  {
  }

  lemma {:induction false} StepKeepsInvariant(hash: Content -> Digest, s: State, p: nat, choice: Choice)
    requires p < |s.pcs| && Invariant(hash, s)
    ensures Invariant(hash, Take(hash, s, p, choice))
  {
    hide Knows, Exclusive, Take;
    var t := Take(hash, s, p, choice);
    StepKeepsExclusive(hash, s, p, choice);
    SameCount(hash, s, p, choice);
    forall i | 0 <= i < |t.pcs| ensures Knows(hash, t, t.pcs[i]) {
      if i == p { MoverKnows(hash, s, p, choice); } else { OthersKnow(hash, s, p, choice, i); }
    }
  }

  lemma {:induction false} SameCount(hash: Content -> Digest, s: State, p: nat, choice: Choice)
    requires p < |s.pcs|
    ensures |Take(hash, s, p, choice).pcs| == |s.pcs|
  {
  }

  // ----- every run -----

  lemma {:induction false} RunKeepsInvariant(hash: Content -> Digest, run: seq<State>, who: seq<nat>, choices: seq<Choice>, n: nat)
    requires IsRun(hash, run, who, choices) && Initial(run[0]) && n < |run|
    ensures Invariant(hash, run[n])
    decreases n
  {
    if n > 0 {
      RunKeepsInvariant(hash, run, who, choices, n - 1);
      StepKeepsInvariant(hash, run[n - 1], who[n - 1], choices[n - 1]);
      assert run[n - 1 + 1] == Take(hash, run[n - 1], who[n - 1], choices[n - 1]);
    }
  }

  lemma {:induction false} RunKeepsCache(hash: Content -> Digest, run: seq<State>, who: seq<nat>, choices: seq<Choice>, m: nat, n: nat)
    requires IsRun(hash, run, who, choices) && Initial(run[0]) && m <= n < |run| && CacheValid(hash, run[m])
    ensures CacheValid(hash, run[n])
    decreases n
  {
    if n > m {
      RunKeepsCache(hash, run, who, choices, m, n - 1);
      RunKeepsInvariant(hash, run, who, choices, n - 1);
      StepKeepsCache(hash, run[n - 1], who[n - 1], choices[n - 1]);
      assert run[n - 1 + 1] == Take(hash, run[n - 1], who[n - 1], choices[n - 1]);
    }
  }

  /** In every run from any directory: at most one process holds the lock; a valid cache stays valid;
      and once a process has returned after building, or after checking under the lock, the archive
      and its stamp are there, match, and stay. */
  lemma {:induction false} CacheProtocolIsSafe(hash: Content -> Digest, run: seq<State>, who: seq<nat>, choices: seq<Choice>, m: nat, n: nat)
    requires IsRun(hash, run, who, choices) && Initial(run[0]) && m <= n < |run|
    ensures forall i, j | 0 <= i < j < |run[m].pcs| :: !(Holding(run[m].pcs[i]) && Holding(run[m].pcs[j]))
    ensures CacheValid(hash, run[m]) ==> CacheValid(hash, run[n])
    ensures forall i | 0 <= i < |run[m].pcs| && run[m].pcs[i].Finished? ::
      run[m].pcs[i].result in {BuiltIt, UsedCache(true)} ==> CacheValid(hash, run[n])
  {
    RunKeepsInvariant(hash, run, who, choices, m);
    if CacheValid(hash, run[m]) { RunKeepsCache(hash, run, who, choices, m, n); }
    forall i | 0 <= i < |run[m].pcs| && run[m].pcs[i].Finished? && run[m].pcs[i].result in {BuiltIt, UsedCache(true)}
      ensures CacheValid(hash, run[n])
    {
      assert Knows(hash, run[m], run[m].pcs[i]);
    }
  }

  // ----- what a check outside the lock is worth -----

  /** Process p reads the stamp in step m outside the lock, waits, and in step n finds it to be the
      digest of the archive, so that it returns the cached path. */
  predicate ChecksUnlocked(run: seq<State>, who: seq<nat>, p: nat, m: nat, n: nat)
  {
    && m < n < |who| <= |run| - 1
    && who[m] == p && who[n] == p && (forall k | m < k < n :: who[k] != p)
    && p < |run[m].pcs| && p < |run[n + 1].pcs|
    && run[m].pcs[p].ReadStamp? && !run[m].pcs[p].site.UnderLock?
    && run[n + 1].pcs[p] == Finished(UsedCache(false))
  }

  lemma {:induction false} BystanderStays(hash: Content -> Digest, run: seq<State>, who: seq<nat>, choices: seq<Choice>,
                                          p: nat, m: nat, n: nat)
    requires IsRun(hash, run, who, choices) && m <= n < |run| && p < |run[m].pcs|
    requires forall k | m <= k < n :: who[k] != p
    ensures |run[n].pcs| == |run[m].pcs| && run[n].pcs[p] == run[m].pcs[p]
    decreases n
  {
    hide Take;
    if n > m {
      BystanderStays(hash, run, who, choices, p, m, n - 1);
      OthersStand(hash, run[n - 1], who[n - 1], choices[n - 1], p);
      assert run[n - 1 + 1] == Take(hash, run[n - 1], who[n - 1], choices[n - 1]);
    }
  }

  lemma {:induction false} OthersStand(hash: Content -> Digest, s: State, p: nat, choice: Choice, i: nat)
    requires p < |s.pcs| && i < |s.pcs| && i != p
    ensures |Take(hash, s, p, choice).pcs| == |s.pcs| && Take(hash, s, p, choice).pcs[i] == s.pcs[i]
  {
  }

  /** What the process remembers from step m, and what it then compares it with. */
  lemma {:induction false} CheckCompares(hash: Content -> Digest, run: seq<State>, who: seq<nat>, choices: seq<Choice>,
                                         p: nat, m: nat, n: nat)
    requires IsRun(hash, run, who, choices) && ChecksUnlocked(run, who, p, m, n)
    ensures run[m].stamp.Some? && run[n].archive.Some? && hash(run[n].archive.value) == run[m].stamp.value
    ensures run[n + 1].archive == run[n].archive && run[n + 1].stamp == run[n].stamp
  {
    assert run[m + 1] == Take(hash, run[m], p, choices[m]);
    assert run[n + 1] == Take(hash, run[n], p, choices[n]);
    BystanderStays(hash, run, who, choices, p, m + 1, n);
  }

  /** A process that returns the cached path after a check outside the lock: the cache has been valid
      at some point of the run up to then exactly if it is valid now, and exactly if the stamp had not
      changed between reading it and hashing the archive. */
  lemma {:induction false} UnlockedCheckIff(hash: Content -> Digest, run: seq<State>, who: seq<nat>, choices: seq<Choice>,
                                            p: nat, m: nat, n: nat)
    requires IsRun(hash, run, who, choices) && Initial(run[0]) && ChecksUnlocked(run, who, p, m, n)
    ensures CacheValid(hash, run[n + 1]) <==> run[n].stamp == run[m].stamp
    ensures (exists k | 0 <= k <= n + 1 :: CacheValid(hash, run[k])) <==> run[n].stamp == run[m].stamp
  {
    CheckCompares(hash, run, who, choices, p, m, n);
    if k :| 0 <= k <= n + 1 && CacheValid(hash, run[k]) { RunKeepsCache(hash, run, who, choices, k, n + 1); }
  }

  lemma {:induction false} UnlockedLeavesFiles(hash: Content -> Digest, s: State, p: nat, choice: Choice)
    requires p < |s.pcs| && Exclusive(s) && !s.lock
    ensures var t := Take(hash, s, p, choice); t.archive == s.archive && t.stamp == s.stamp
  {
    assert !Holding(s.pcs[p]);
  }

  lemma {:induction false} FilesStayWithoutLock(hash: Content -> Digest, run: seq<State>, who: seq<nat>, choices: seq<Choice>, m: nat, n: nat)
    requires IsRun(hash, run, who, choices) && Initial(run[0]) && m <= n < |run|
    requires forall k | m <= k < n :: !run[k].lock
    ensures run[n].archive == run[m].archive && run[n].stamp == run[m].stamp
    decreases n
  {
    hide Take, Exclusive, Knows;
    if n > m {
      FilesStayWithoutLock(hash, run, who, choices, m, n - 1);
      RunKeepsInvariant(hash, run, who, choices, n - 1);
      UnlockedLeavesFiles(hash, run[n - 1], who[n - 1], choices[n - 1]);
      assert run[n - 1 + 1] == Take(hash, run[n - 1], who[n - 1], choices[n - 1]);
    }
  }

  /** Seen from outside: if there was no lock file during the check, its answer can be trusted, then
      and for the rest of the run. */
  lemma {:induction false} UnlockedCheckWithoutLock(hash: Content -> Digest, run: seq<State>, who: seq<nat>, choices: seq<Choice>,
                                                    p: nat, m: nat, n: nat, later: nat)
    requires IsRun(hash, run, who, choices) && Initial(run[0]) && ChecksUnlocked(run, who, p, m, n)
    requires forall k | m <= k < n :: !run[k].lock
    requires n < later < |run|
    ensures CacheValid(hash, run[later])
  {
    FilesStayWithoutLock(hash, run, who, choices, m, n);
    UnlockedCheckIff(hash, run, who, choices, p, m, n);
    RunKeepsCache(hash, run, who, choices, n + 1, later);
  }

  /** Process 0 has read an old stamp; process 1 then takes the lock, clears the directory and builds
      an archive with that very digest. */
  function StaleRun(b: Content, c: Content, d: Digest): seq<State>
  {
    var free := (pcs: seq<Step>) => State(false, Some(b), Some(d), pcs);
    var locked := (pcs: seq<Step>) => State(true, Some(b), Some(d), pcs);
    [ free([LookArchive(First), LookArchive(First)]),
      free([LookStamp(First), LookArchive(First)]),
      free([ReadStamp(First), LookArchive(First)]),
      free([HashArchive(First, d), LookArchive(First)]),
      free([HashArchive(First, d), LookStamp(First)]),
      free([HashArchive(First, d), ReadStamp(First)]),
      free([HashArchive(First, d), HashArchive(First, d)]),
      free([HashArchive(First, d), Acquire]),
      locked([HashArchive(First, d), LookArchive(UnderLock)]),
      locked([HashArchive(First, d), LookStamp(UnderLock)]),
      locked([HashArchive(First, d), ReadStamp(UnderLock)]),
      locked([HashArchive(First, d), HashArchive(UnderLock, d)]),
      locked([HashArchive(First, d), RemoveArchive]),
      State(true, None, Some(d), [HashArchive(First, d), RemoveStamp]),
      State(true, None, None, [HashArchive(First, d), Build]),
      State(true, None, None, [HashArchive(First, d), PlaceArchive(c)]),
      State(true, Some(c), None, [HashArchive(First, d), HashBuilt]),
      State(true, Some(c), None, [Finished(UsedCache(false)), HashBuilt]) ]
  }

  function StaleWho(): seq<nat> { [0, 0, 0, 1, 1, 1, 1, 1, 1, 1, 1, 1, 1, 1, 1, 1, 0] }

  function StaleChoices(c: Content): seq<Choice>
  {
    seq(17, i => if i == 14 then Yield(c) else Proceed)
  }

  /** So a process can return the cached path although the cache was valid at no point of the run. */
  lemma {:induction false} UnlockedCheckCanBeStale(hash: Content -> Digest, b: Content, c: Content)
    requires hash(b) != hash(c)
    ensures var run := StaleRun(b, c, hash(c));
      && IsRun(hash, run, StaleWho(), StaleChoices(c)) && Initial(run[0])
      && ChecksUnlocked(run, StaleWho(), 0, 2, 16)
      && forall i | 0 <= i < |run| :: !CacheValid(hash, run[i])
  {
    hide Take, CacheValid;
    var run, who, choices := StaleRun(b, c, hash(c)), StaleWho(), StaleChoices(c);
    assert |run| == 18 && |who| == 17 && |choices| == 17;
    forall i | 0 <= i < |who| ensures who[i] < |run[i].pcs| && run[i + 1] == Take(hash, run[i], who[i], choices[i]) {
      if i < 8 { EarlySteps(hash, b, c, i); } else { LateSteps(hash, b, c, i); }
    }
    NeverValid(hash, b, c);
  }

  lemma {:induction false} EarlySteps(hash: Content -> Digest, b: Content, c: Content, i: nat)
    requires hash(b) != hash(c) && i < 8
    ensures var run, who, choices := StaleRun(b, c, hash(c)), StaleWho(), StaleChoices(c);
      who[i] < |run[i].pcs| && run[i + 1] == Take(hash, run[i], who[i], choices[i])
  {
    hide CacheValid, Invariant, Knows;
    var run := StaleRun(b, c, hash(c));
    assert run[i + 1].pcs == run[i].pcs[StaleWho()[i] := run[i + 1].pcs[StaleWho()[i]]];
  }

  lemma {:induction false} LateSteps(hash: Content -> Digest, b: Content, c: Content, i: nat)
    requires hash(b) != hash(c) && 8 <= i < 17
    ensures var run, who, choices := StaleRun(b, c, hash(c)), StaleWho(), StaleChoices(c);
      who[i] < |run[i].pcs| && run[i + 1] == Take(hash, run[i], who[i], choices[i])
  {
    hide CacheValid, Invariant, Knows;
    var run := StaleRun(b, c, hash(c));
    assert run[i + 1].pcs == run[i].pcs[StaleWho()[i] := run[i + 1].pcs[StaleWho()[i]]];
  }

  lemma {:induction false} NeverValid(hash: Content -> Digest, b: Content, c: Content)
    requires hash(b) != hash(c)
    ensures var run := StaleRun(b, c, hash(c)); forall i | 0 <= i < |run| :: !CacheValid(hash, run[i])
  {
  }
}
