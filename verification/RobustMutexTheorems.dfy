/** What robust mutexes guarantee, over every run of the model of RobustMutex. */
module RobustMutexTheorems {
  import opened Counting
  import opened RobustMutex
  import opened MutexKinds

  ghost function Reach(kind: Kind, n: nat, schedule: Schedule): State { Run(Init(kind, n), schedule) }

  lemma ReachInv(kind: Kind, n: nat, schedule: Schedule)
    ensures Inv(Reach(kind, n, schedule))
  {
    InitInv(kind, n);
    RunInv(Init(kind, n), schedule);
  }

  /** There are never two live owners, and while there is one the lock word is not
      0 and the mutex is not up for inheritance. */
  lemma OneOwner(kind: Kind, n: nat, schedule: Schedule, t: nat, u: nat)
    requires var s := Reach(kind, n, schedule);
             t < |s.ts| && u < |s.ts| && Owns(s.ts[t]) && Owns(s.ts[u])
    ensures t == u
    ensures var v := Reach(kind, n, schedule).v; v.lockIdx != 0 && v.health != Orphaned
  {
    ReachInv(kind, n, schedule);
    var s := Reach(kind, n, schedule);
    SumAt(s.ts, t, OwnsW);
    if t != u { SumTwo(s.ts, t, u, OwnsW); }
  }

  /** The lock word is 0 exactly when no live thread owns the mutex and no dead
      owner has left it to be inherited. */
  lemma FreeMeansNoOwner(s: State)
    requires Inv(s)
    ensures s.v.lockIdx == 0 <==> s.v.health != Orphaned && forall t :: 0 <= t < |s.ts| ==> !Owns(s.ts[t])
  {
    if Sum(s.ts, OwnsW) > 0 {
      var t := SumWitness(s.ts, OwnsW);
      assert Owns(s.ts[t]);
    }
    forall t | 0 <= t < |s.ts| && Owns(s.ts[t]) ensures s.v.lockIdx != 0 {
      SumAt(s.ts, t, OwnsW);
    }
  }

  /** Each death with the mutex gives at most one heir, and each heir at most one
      EOWNERDEAD: the deaths not yet inherited are the current orphan, the heirs
      that have not returned are on their way to. */
  lemma OneHeirPerDeath(kind: Kind, n: nat, schedule: Schedule)
    ensures var s := Reach(kind, n, schedule);
            && s.v.returned <= s.v.heirs <= s.v.deaths <= s.v.heirs + 1
            && (s.v.deaths == s.v.heirs + 1 <==> s.v.health == Orphaned)
            && s.v.heirs - s.v.returned == Sum(s.ts, HeirW) <= 1
  {
    ReachInv(kind, n, schedule);
    var s := Reach(kind, n, schedule);
    SumMonotone(s.ts, HeirW, OwnsW);
  }

  /** A second death is recorded only after the first was inherited, and a thread
      becomes an heir only by consuming the mark of a death. */
  lemma DeathsAndHeirsAlternate(s: State, t: nat, c: Call)
    requires Inv(s)
    ensures Alternate(s.v, Step(s, t, c).v)
  {
    if t < |s.ts| {
      SumAt(s.ts, t, OwnsW);
      assert Local(s.v, t, s.ts[t]);
      match s.ts[t].pc
      case Locking(p) => LockAlternates(s.v, t, s.ts[t], p);
      case Unlocking(p) => UnlockAlternates(s.v, t, s.ts[t], p);
      case _ =>
    }
  }

  ghost predicate Alternate(v: Vars, w: Vars)
  {
    && (w.deaths > v.deaths ==> v.health != Orphaned && w.health == Orphaned)
    && (w.heirs > v.heirs ==> v.health == Orphaned && w.health == Inconsistent)
    && (v.health == Orphaned && w.health != Orphaned ==> w.heirs == v.heirs + 1)
  }

  lemma LockAlternates(v: Vars, t: nat, th: Thread, p: LockPc)
    ensures Alternate(v, ActLock(v, t, th, p).0)
  {
  }

  lemma UnlockAlternates(v: Vars, t: nat, th: Thread, p: UnlockPc)
    ensures Alternate(v, ActUnlock(v, t, th, p).0)
  {
  }

  /** EOWNERDEAD comes back only to the thread that consumed the mark of a death;
      every call that says the mutex was taken leaves it with the caller. */
  lemma ReturnsAreRight(s: State, t: nat, c: Call)
    requires Inv(s) && t < |s.ts| && s.ts[t].pc.Locking? && Step(s, t, c).ts[t].pc.Idle?
    ensures var r := Step(s, t, c).ts[t];
            && (r.pc.last == Ok ==> r.held == s.ts[t].held + 1)
            && (r.pc.last == EOWNERDEAD ==> r.held == 1 && HeirW(s.ts[t]) == 1)
            && (r.pc.last != Ok && r.pc.last != EOWNERDEAD ==> r.held == s.ts[t].held)
            && (r.pc.last == EDEADLK ==> s.ts[t].held > 0 && s.v.kind == Errorcheck)
  {
    LockReturns(s.v, t, s.ts[t]);
  }

  lemma LockReturns(v: Vars, t: nat, th: Thread)
    requires Local(v, t, th) && th.pc.Locking? && ActLock(v, t, th, th.pc.l).1.pc.Idle?
    ensures var r := ActLock(v, t, th, th.pc.l).1;
            && (r.pc.last == Ok ==> r.held == th.held + 1)
            && (r.pc.last == EOWNERDEAD ==> r.held == 1 && HeirW(th) == 1)
            && (r.pc.last != Ok && r.pc.last != EOWNERDEAD ==> r.held == th.held)
            && (r.pc.last == EDEADLK ==> th.held > 0 && v.kind == Errorcheck)
  {
  }

  /** The node is in the list of thread t exactly while t has locks of the mutex to
      give back, so it is never in two lists. */
  lemma NodeIsWithOwner(s: State, t: nat)
    requires Inv(s) && t < |s.ts|
    ensures s.v.list == Is(t) <==> Listed(s.ts[t])
  {
    assert Local(s.v, t, s.ts[t]);
  }

  lemma NotInAnyList(s: State, t: nat)
    requires Inv(s) && t < |s.ts| && Owns(s.ts[t]) && !Listed(s.ts[t])
    ensures s.v.list == Nobody
  {
    if s.v.list.Is? {
      var u := s.v.list.t;
      assert Local(s.v, u, s.ts[u]) && Local(s.v, t, s.ts[t]);
      SumTwo(s.ts, t, u, OwnsW);
    }
  }

  /** A dying owner has taken the node out of its list before it writes the mark
      that lets an heir put the node in its own, and the heir finds it in none. */
  lemma UnlinkedBeforeInherited(s: State, t: nat)
    requires Inv(s) && t < |s.ts|
    ensures s.ts[t].pc == Dying(DPublish) || Taking(s.ts[t].pc) ==> s.v.list == Nobody
    ensures s.v.health == Orphaned ==> s.v.list == Nobody
  {
    assert Local(s.v, t, s.ts[t]);
    if s.ts[t].pc == Dying(DPublish) || Taking(s.ts[t].pc) { NotInAnyList(s, t); }
    if s.v.health == Orphaned && s.v.list.Is? {
      var u := s.v.list.t;
      assert Local(s.v, u, s.ts[u]);
      SumAt(s.ts, u, OwnsW);
    }
  }

  /** The unlocked read of the owner in lock, trylock and unlock tells a running
      thread exactly whether it has locks to give back. */
  lemma OwnerReadIsRight(s: State, t: nat)
    requires Inv(s) && t < |s.ts|
    requires s.ts[t].pc in {Locking(LReadOwner), Locking(TReadOwner), Unlocking(UReadOwner)} || s.ts[t].pc.Idle?
    ensures s.v.owner == Is(t) <==> s.ts[t].held > 0
  {
    assert Local(s.v, t, s.ts[t]);
  }

  /** For a recursive mutex count is the number of locks its owner has to give back. */
  lemma CountIsOutstanding(s: State, t: nat)
    requires Inv(s) && t < |s.ts| && s.v.kind == Recursive && s.ts[t].held > 0 && s.ts[t].pc.Idle?
    ensures s.v.count == s.ts[t].held
  {
    assert Local(s.v, t, s.ts[t]);
  }

  // ----- NOTRECOVERABLE -----

  /** NOTRECOVERABLE is left exactly when a thread that owns the mutex dies with
      it: neither lock, trylock, unlock nor pthread_mutex_consistent ever leaves it. */
  lemma NotRecoverableLeft(v: Vars, t: nat, th: Thread, c: Call)
    requires v.health == NotRecoverable
    ensures Act(v, t, th, c).0.health != NotRecoverable <==> th.pc == Dying(DPublish)
  {
  }

  /** Each step counts at most one death, and one that counts none keeps
      NOTRECOVERABLE. */
  lemma StepDeaths(s: State, t: nat, c: Call)
    ensures s.v.deaths <= Step(s, t, c).v.deaths <= s.v.deaths + 1
    ensures s.v.health == NotRecoverable && Step(s, t, c).v.deaths == s.v.deaths ==>
              Step(s, t, c).v.health == NotRecoverable
  {
    if t < |s.ts| && s.v.health == NotRecoverable { NotRecoverableLeft(s.v, t, s.ts[t], c); }
  }

  /** Over any run in which no owner dies a mutex that is not recoverable stays so. */
  lemma {:induction false} StaysNotRecoverable(s: State, schedule: Schedule)
    requires s.v.health == NotRecoverable
    ensures s.v.deaths <= Run(s, schedule).v.deaths
    ensures Run(s, schedule).v.deaths == s.v.deaths ==> Run(s, schedule).v.health == NotRecoverable
    decreases |schedule|
  {
    if schedule == [] {
    } else {
      var i := |schedule| - 1;
      StaysNotRecoverable(s, schedule[..i]);
      StepDeaths(Run(s, schedule[..i]), schedule[i].0, schedule[i].1);
    }
  }

  /** A thread that does not move stays where it is. */
  lemma {:induction false} RestsUntilItMoves(s: State, schedule: Schedule, t: nat)
    requires t < |s.ts| && forall i :: 0 <= i < |schedule| ==> schedule[i].0 != t
    ensures |Run(s, schedule).ts| == |s.ts| && Run(s, schedule).ts[t] == s.ts[t]
    decreases |schedule|
  {
    if schedule == [] {
    } else {
      RestsUntilItMoves(s, schedule[..|schedule| - 1], t);
    }
  }

  /** A call of lock or trylock that starts while the mutex is not recoverable is
      refused, whatever the other threads do before it gets to look, unless an owner
      dies in between. */
  lemma StartedCallRefused(s: State, t: nat, c: Call, others: Schedule, d: Call)
    requires t < |s.ts| && s.ts[t].pc.Idle? && (c == CallLock || c == CallTryLock)
    requires s.v.health == NotRecoverable
    requires forall i :: 0 <= i < |others| ==> others[i].0 != t
    requires Run(Step(s, t, c), others).v.deaths == s.v.deaths
    ensures var r := Step(Run(Step(s, t, c), others), t, d);
            |r.ts| == |s.ts| && r.ts[t] == Return(s.ts[t], ENOTRECOVERABLE)
  {
    StaysNotRecoverable(Step(s, t, c), others);
    RestsUntilItMoves(Step(s, t, c), others, t);
  }

  /** A caller that passed its look at the state before still gets the mutex, and
      only such a caller: one that is at the exchange or compare-exchange on the lock
      word and finds it 0. */
  lemma TakenThoughNotRecoverable(s: State, t: nat, c: Call)
    requires Inv(s) && t < |s.ts| && s.v.health == NotRecoverable && !Owns(s.ts[t])
    ensures Owns(Step(s, t, c).ts[t]) <==>
              s.v.lockIdx == 0 && s.ts[t].pc in {Locking(LSwap), Locking(LCas), Locking(LLoop), Locking(TCas)}
  {
    assert Local(s.v, t, s.ts[t]);
  }

  // ----- runs in which a mutex is owned while it is not recoverable -----

  ghost predicate Reaches(a: State, b: State)
  {
    exists schedule :: Run(a, schedule) == b
  }

  lemma ReachesStep(a: State, b: State, t: nat, c: Call)
    requires Reaches(a, b)
    ensures Reaches(a, Step(b, t, c))
  {
    var schedule :| Run(a, schedule) == b;
    assert (schedule + [(t, c)])[..|schedule|] == schedule;
    assert Run(a, schedule + [(t, c)]) == Step(b, t, c);
  }

  function Three(v: Vars, p: Thread, q: Thread, r: Thread): State { State(v, [p, q, r]) }

  lemma First(a: State, v: Vars, p: Thread, q: Thread, r: Thread, c: Call)
    requires Reaches(a, Three(v, p, q, r))
    ensures var (v', p') := Act(v, 0, p, c); Reaches(a, Three(v', p', q, r))
  {
    var (v', p') := Act(v, 0, p, c);
    ReachesStep(a, Three(v, p, q, r), 0, c);
    assert [p, q, r][0 := p'] == [p', q, r];
  }

  lemma Second(a: State, v: Vars, p: Thread, q: Thread, r: Thread, c: Call)
    requires Reaches(a, Three(v, p, q, r))
    ensures var (v', q') := Act(v, 1, q, c); Reaches(a, Three(v', p, q', r))
  {
    var (v', q') := Act(v, 1, q, c);
    ReachesStep(a, Three(v, p, q, r), 1, c);
    assert [p, q, r][1 := q'] == [p, q', r];
  }

  lemma Third(a: State, v: Vars, p: Thread, q: Thread, r: Thread, c: Call)
    requires Reaches(a, Three(v, p, q, r))
    ensures var (v', r') := Act(v, 2, r, c); Reaches(a, Three(v', p, q, r'))
  {
    var (v', r') := Act(v, 2, r, c);
    ReachesStep(a, Three(v, p, q, r), 2, c);
    assert [p, q, r][2 := r'] == [p, q, r'];
  }

  const DONE := Thread(Idle(Ok), 0)
  const GONE := Thread(Dead, 0)
  const HELD := Thread(Idle(Ok), 1)
  const HEIR := Thread(Idle(EOWNERDEAD), 1)

  /** Owned once by thread 0, then left by its death, then owned by the heir. */
  function Owned(kind: Kind, n: nat): Vars { Vars(kind, 1, false, Consistent, Is(0), n, Is(0), 0, 0, 0) }
  function Orphan(kind: Kind, n: nat): Vars { Vars(kind, 1, true, Orphaned, Is(0), n, Nobody, 1, 0, 0) }
  function Inherited(kind: Kind, n: nat): Vars { Vars(kind, 1, true, Inconsistent, Is(1), n, Is(1), 1, 1, 1) }

  lemma OwnerDies(a: State, kind: Kind, n: nat)
    requires Reaches(a, Three(Owned(kind, n), HELD, DONE, DONE))
    ensures Reaches(a, Three(Orphan(kind, n), GONE, DONE, DONE))
  {
    var v := Owned(kind, n);
    First(a, v, HELD, DONE, DONE, CallDie);
    First(a, v, Thread(Dying(DUnlink), 1), DONE, DONE, CallDie);
    First(a, v.(list := Nobody), Thread(Dying(DPublish), 1), DONE, DONE, CallDie);
    First(a, Orphan(kind, n).(event := false), Thread(Dying(DSetEvent), 0), DONE, DONE, CallDie);
  }

  // The recursive kind: an inner unlock of the heir.

  lemma OwnerTakes(a: State)
    requires a == Init(Recursive, 3) && Reaches(a, Three(a.v, DONE, DONE, DONE))
    ensures Reaches(a, Three(a.v.(lockIdx := 1), GoLock(DONE, LSetCount(Ok)), DONE, DONE))
  {
    First(a, a.v, DONE, DONE, DONE, CallLock);
    First(a, a.v, GoLock(DONE, LState), DONE, DONE, CallLock);
    First(a, a.v, GoLock(DONE, LCas), DONE, DONE, CallLock);
  }

  lemma OwnerRecords(a: State)
    requires a == Init(Recursive, 3)
    requires Reaches(a, Three(a.v.(lockIdx := 1), GoLock(DONE, LSetCount(Ok)), DONE, DONE))
    ensures Reaches(a, Three(Owned(Recursive, 1), HELD, DONE, DONE))
  {
    First(a, a.v.(lockIdx := 1), GoLock(DONE, LSetCount(Ok)), DONE, DONE, CallLock);
    First(a, a.v.(lockIdx := 1, count := 1), GoLock(DONE, LSetOwner(Ok)), DONE, DONE, CallLock);
    First(a, Owned(Recursive, 1).(list := Nobody), GoLock(DONE, LLink(Ok)), DONE, DONE, CallLock);
  }

  const ORPHAN := Orphan(Recursive, 1)
  const TAKEN := ORPHAN.(health := Inconsistent, heirs := 1)
  const INHERITED := Inherited(Recursive, 1)

  lemma HeirInherits(a: State)
    requires Reaches(a, Three(ORPHAN, GONE, DONE, DONE))
    ensures Reaches(a, Three(TAKEN, GONE, GoLock(DONE, LSetCount(EOWNERDEAD)), DONE))
  {
    Second(a, ORPHAN, GONE, DONE, DONE, CallLock);
    Second(a, ORPHAN, GONE, GoLock(DONE, LState), DONE, CallLock);
    Second(a, ORPHAN, GONE, GoLock(DONE, LCas), DONE, CallLock);
    Second(a, ORPHAN, GONE, GoLock(DONE, LReadOwner), DONE, CallLock);
    Second(a, ORPHAN, GONE, GoLock(DONE, LInherit), DONE, CallLock);
  }

  lemma HeirRecords(a: State)
    requires Reaches(a, Three(TAKEN, GONE, GoLock(DONE, LSetCount(EOWNERDEAD)), DONE))
    ensures Reaches(a, Three(INHERITED, GONE, HEIR, DONE))
  {
    Second(a, TAKEN, GONE, GoLock(DONE, LSetCount(EOWNERDEAD)), DONE, CallLock);
    Second(a, TAKEN, GONE, GoLock(DONE, LSetOwner(EOWNERDEAD)), DONE, CallLock);
    Second(a, TAKEN.(owner := Is(1)), GONE, GoLock(DONE, LLink(EOWNERDEAD)), DONE, CallLock);
  }

  /** The heir takes a second level and gives it back: the inner unlock already
      makes the mutex not recoverable. */
  lemma InnerLock(a: State)
    requires Reaches(a, Three(INHERITED, GONE, HEIR, DONE))
    ensures Reaches(a, Three(INHERITED.(count := 2), GONE, Thread(Idle(Ok), 2), DONE))
  {
    Second(a, INHERITED, GONE, HEIR, DONE, CallLock);
    Second(a, INHERITED, GONE, GoLock(HEIR, LState), DONE, CallLock);
    Second(a, INHERITED, GONE, GoLock(HEIR, LCas), DONE, CallLock);
    Second(a, INHERITED, GONE, GoLock(HEIR, LReadOwner), DONE, CallLock);
    Second(a, INHERITED, GONE, GoLock(HEIR, LBump), DONE, CallLock);
  }

  lemma InnerUnlock(a: State)
    requires Reaches(a, Three(INHERITED.(count := 2), GONE, Thread(Idle(Ok), 2), DONE))
    ensures Reaches(a, Three(INHERITED.(health := NotRecoverable), GONE, HELD, DONE))
  {
    var twice := INHERITED.(count := 2);
    var two := Thread(Idle(Ok), 2);
    Second(a, twice, GONE, two, DONE, CallUnlock);
    Second(a, twice, GONE, GoUnlock(two, UReadOwner), DONE, CallUnlock);
    Second(a, twice, GONE, GoUnlock(two, UState), DONE, CallUnlock);
    Second(a, twice.(health := NotRecoverable), GONE, GoUnlock(two, UDrop), DONE, CallUnlock);
  }

  /** Whoever owns a mutex that is not recoverable makes it inheritable by dying. */
  lemma OwnerMayDie(s: State, t: nat)
    requires t < |s.ts| && s.ts[t].pc.Idle? && s.v.list == Is(t)
    ensures exists r :: Reaches(s, r) && r.v.health == Orphaned
  {
    assert Run(s, []) == s;
    ReachesStep(s, s, t, CallDie);
    var dying := Step(s, t, CallDie);
    ReachesStep(s, dying, t, CallDie);
    var unlinked := Step(dying, t, CallDie);
    ReachesStep(s, unlinked, t, CallDie);
  }

  /** A recursive mutex whose heir has unlocked an inner level without repairing it
      is not recoverable while the heir still owns it, and becomes inheritable
      again when the heir dies. */
  lemma RecursiveLeavesNotRecoverable() returns (lost: State)
    ensures Reaches(Init(Recursive, 3), lost) && lost.v.health == NotRecoverable
    ensures |lost.ts| == 3 && lost.ts[1] == HELD && Owns(lost.ts[1])
    ensures exists again :: Reaches(lost, again) && again.v.health == Orphaned
  {
    var start := Init(Recursive, 3);
    assert Idlers(3) == [DONE, DONE, DONE];
    assert Run(start, []) == start == Three(start.v, DONE, DONE, DONE);
    OwnerTakes(start);
    OwnerRecords(start);
    OwnerDies(start, Recursive, 1);
    HeirInherits(start);
    HeirRecords(start);
    InnerLock(start);
    InnerUnlock(start);
    lost := Three(INHERITED.(health := NotRecoverable), GONE, HELD, DONE);
    OwnerMayDie(lost, 1);
  }

  // The normal kind: a caller that looked at the state too early.

  lemma NormalOwnerLocks(a: State)
    requires a == Init(Normal, 3) && Reaches(a, Three(a.v, DONE, DONE, DONE))
    ensures Reaches(a, Three(Owned(Normal, 0), HELD, DONE, DONE))
  {
    First(a, a.v, DONE, DONE, DONE, CallLock);
    First(a, a.v, GoLock(DONE, LState), DONE, DONE, CallLock);
    First(a, a.v, GoLock(DONE, LSwap), DONE, DONE, CallLock);
    First(a, a.v.(lockIdx := 1), GoLock(DONE, LSetOwner(Ok)), DONE, DONE, CallLock);
    First(a, Owned(Normal, 0).(list := Nobody), GoLock(DONE, LLink(Ok)), DONE, DONE, CallLock);
  }

  lemma NormalHeirInherits(a: State)
    requires Reaches(a, Three(Orphan(Normal, 0), GONE, DONE, DONE))
    ensures var taken := Orphan(Normal, 0).(health := Inconsistent, heirs := 1);
            Reaches(a, Three(taken, GONE, GoLock(DONE, LSetOwner(EOWNERDEAD)), DONE))
  {
    var v := Orphan(Normal, 0);
    Second(a, v, GONE, DONE, DONE, CallLock);
    Second(a, v, GONE, GoLock(DONE, LState), DONE, CallLock);
    Second(a, v, GONE, GoLock(DONE, LSwap), DONE, CallLock);
    Second(a, v, GONE, GoLock(DONE, LInherit), DONE, CallLock);
  }

  /** The heir has the mutex, and a third thread has looked at its state. */
  lemma ThirdLooks(a: State)
    requires var taken := Orphan(Normal, 0).(health := Inconsistent, heirs := 1);
             Reaches(a, Three(taken, GONE, GoLock(DONE, LSetOwner(EOWNERDEAD)), DONE))
    ensures Reaches(a, Three(Inherited(Normal, 0), GONE, HEIR, GoLock(DONE, LSwap)))
  {
    var taken := Orphan(Normal, 0).(health := Inconsistent, heirs := 1);
    var v := Inherited(Normal, 0);
    Second(a, taken, GONE, GoLock(DONE, LSetOwner(EOWNERDEAD)), DONE, CallLock);
    Second(a, taken.(owner := Is(1)), GONE, GoLock(DONE, LLink(EOWNERDEAD)), DONE, CallLock);
    Third(a, v, GONE, HEIR, DONE, CallLock);
    Third(a, v, GONE, HEIR, GoLock(DONE, LState), CallLock);
  }

  lemma HeirUnlocks(a: State)
    requires Reaches(a, Three(Inherited(Normal, 0), GONE, HEIR, GoLock(DONE, LSwap)))
    ensures var free := Inherited(Normal, 0).(health := NotRecoverable, list := Nobody, owner := Nobody, lockIdx := 0);
            Reaches(a, Three(free, GONE, DONE, GoLock(DONE, LSwap)))
  {
    var v := Inherited(Normal, 0);
    var lost := v.(health := NotRecoverable);
    var third := GoLock(DONE, LSwap);
    Second(a, v, GONE, HEIR, third, CallUnlock);
    Second(a, v, GONE, GoUnlock(HEIR, UReadOwner), third, CallUnlock);
    Second(a, v, GONE, GoUnlock(HEIR, UState), third, CallUnlock);
    Second(a, lost, GONE, GoUnlock(HEIR, UUnlink), third, CallUnlock);
    Second(a, lost.(list := Nobody, owner := Nobody), GONE, GoUnlock(HEIR, USwap), third, CallUnlock);
  }

  lemma ThirdTakes(a: State, v: Vars)
    requires v.lockIdx == 0 && v.kind == Normal && Reaches(a, Three(v, GONE, DONE, GoLock(DONE, LSwap)))
    ensures Reaches(a, Three(v.(lockIdx := 1, owner := Is(2), list := Is(2)), GONE, DONE, HELD))
  {
    Third(a, v, GONE, DONE, GoLock(DONE, LSwap), CallLock);
    Third(a, v.(lockIdx := 1), GONE, DONE, GoLock(DONE, LSetOwner(Ok)), CallLock);
    Third(a, v.(lockIdx := 1, owner := Is(2)), GONE, DONE, GoLock(DONE, LLink(Ok)), CallLock);
  }

  /** A normal mutex that its heir has unlocked without repairing it: a thread whose
      call of lock looked at the state before that unlock is told 0 and owns the
      mutex though it is not recoverable, and by dying makes it inheritable again. */
  lemma NormalOwnedNotRecoverable() returns (lost: State)
    ensures Reaches(Init(Normal, 3), lost) && lost.v.health == NotRecoverable
    ensures |lost.ts| == 3 && lost.ts[2] == HELD && Owns(lost.ts[2])
    ensures exists again :: Reaches(lost, again) && again.v.health == Orphaned
  {
    var start := Init(Normal, 3);
    assert Idlers(3) == [DONE, DONE, DONE];
    assert Run(start, []) == start == Three(start.v, DONE, DONE, DONE);
    NormalOwnerLocks(start);
    OwnerDies(start, Normal, 0);
    NormalHeirInherits(start);
    ThirdLooks(start);
    HeirUnlocks(start);
    var free := Inherited(Normal, 0).(health := NotRecoverable, list := Nobody, owner := Nobody, lockIdx := 0);
    ThirdTakes(start, free);
    lost := Three(free.(lockIdx := 1, owner := Is(2), list := Is(2)), GONE, DONE, HELD);
    OwnerMayDie(lost, 2);
  }
}
