/** What the read-write lock guarantees in every reachable state. */
module RwLockTheorems {
  import opened Counting
  import opened RwLock

  /** Read locks counted in and not yet counted out, over all threads. */
  ghost function Readers(s: State): nat { Sum(s.ts, ReadersW) }

  ghost function Reach(n: nat, schedule: Schedule): State { Run(Init(n), schedule) }

  lemma ReachInv(n: nat, schedule: Schedule)
    ensures Inv(Reach(n, schedule))
  {
    InitInv(n);
    RunInv(Init(n), schedule);
  }

  /** A writer excludes all readers and all other writers. */
  lemma WriterExcludes(s: State, t: nat)
    requires Inv(s) && t < |s.ts| && s.ts[t].writes
    ensures Readers(s) == 0
    ensures forall u :: 0 <= u < |s.ts| ==> s.ts[u].readLocks == 0 && (s.ts[u].writes ==> u == t)
  {
    SumAt(s.ts, t, WritersW);
    assert Balanced(s.v, Total(s.ts));
    forall u | 0 <= u < |s.ts| ensures s.ts[u].readLocks == 0 && (s.ts[u].writes ==> u == t) {
      SumAt(s.ts, u, ReadersW);
      if u != t { SumTwo(s.ts, t, u, ExW); }
    }
  }

  /** The number of readers is the difference of the counts, and while a writer
      waits for them it is the completed count with its sign turned. */
  lemma ReadersAreCounted(s: State)
    requires Inv(s)
    ensures !s.v.mtxEx ==> Readers(s) == s.v.shared - s.v.completed && s.v.completed >= 0
    ensures s.v.waiting ==> Readers(s) == -s.v.completed
    ensures Readers(s) <= s.v.shared
  {
    assert Balanced(s.v, Total(s.ts));
    if Total(s.ts).armed > 0 {
      var t := SumWitness(s.ts, ArmedW);
      SumAt(s.ts, t, ExW);
      NeedsMutex(s.ts[t]);
    }
    if s.v.waiting {
      var t := SumWitness(s.ts, AwaitsW);
      SumAt(s.ts, t, ArmedW);
      AwaitsArmed(s.ts[t]);
    }
  }

  lemma AwaitsArmed(th: Thread)
    ensures AwaitsW(th) <= ArmedW(th)
  {
  }

  /** Whoever gets both mutexes finds no writer: the branches for a nonzero
      exclusive count, one of which returns EBUSY and keeps both mutexes
      (pthread_rwlock_trywrlock.c:123-126), are never taken. */
  lemma BothMutexesMeanNoWriter(s: State, t: nat, m: Mode, c: Choice)
    requires Inv(s) && t < |s.ts| && s.ts[t].pc == Entering(WTest(m))
    ensures s.v.excl == 0 && Step(s, t, c).ts[t].pc == Entering(WFold(m))
  {
    IsAlone(s, t);
    assert Balanced(s.v, Total(s.ts));
    SumAt(s.ts, t, ExW);
  }

  /** Unlock decides by an unprotected read of the exclusive count whether it
      releases a read lock or the write lock, and always decides right. */
  lemma UnlockPicksOwnBranch(s: State, t: nat, c: Choice)
    requires Inv(s) && t < |s.ts| && s.ts[t].pc == Unlocking(UTest)
    ensures Step(s, t, c).ts[t].pc == Unlocking(if s.ts[t].writes then UDrop else ULockSh)
    ensures s.ts[t].writes <==> s.ts[t].readLocks == 0
  {
    assert Local(s.v, s.ts[t]);
    assert Balanced(s.v, Total(s.ts));
    SumAt(s.ts, t, ReadersW);
    SumAt(s.ts, t, WritersW);
  }

  /** Both paths to the write lock end with no reader and cleared counts. */
  lemma WriterTakesCleanLock(s: State, t: nat, c: Choice)
    requires Inv(s) && t < |s.ts| && !s.ts[t].writes && Step(s, t, c).ts[t].writes
    ensures Readers(s) == 0 && s.v.excl == 0 && s.v.shared == 0 && s.v.completed == 0
    ensures Step(s, t, c).v.excl == 1
  {
    TakesOnlyAtEnd(s.v, s.ts[t], c);
    assert Local(s.v, s.ts[t]);
    IsAlone(s, t);
    TakesClean(s.v, s.ts[t], Total(s.ts));
  }

  /** The write lock is obtained in one step only, to which both paths lead. */
  lemma TakesOnlyAtEnd(v: Vars, th: Thread, c: Choice)
    requires !th.writes
    ensures Act(v, th, c).1.writes ==> th.pc == Entering(WTake) && Act(v, th, c).0 == v.(excl := v.excl + 1)
  {
    match th.pc
    case Reading(p) => assert !ActReader(v, th, p).1.writes;
    case Awaiting(p) => assert !ActAwait(v, th, p, c).1.writes;
    case Unlocking(p) => assert !ActUnlock(v, th, p).1.writes;
    case _ =>
  }

  lemma TakesClean(v: Vars, th: Thread, k: Totals)
    requires Balanced(v, k) && Local(v, th) && FitsCounts(k, Weigh(th)) && th.pc == Entering(WTake)
    ensures k.readers == 0 && v.excl == 0 && v.shared == 0 && v.completed == 0
  {
  }

  /** A writer whose wait timed out or was cancelled turns the counts back: they
      again give the number of readers as their difference. */
  lemma CancelRestoresCounts(s: State, t: nat, c: Choice)
    requires Inv(s) && t < |s.ts| && s.ts[t].pc == Awaiting(WCancel)
    ensures var r := Step(s, t, c);
            && Readers(r) == Readers(s)
            && r.v.shared == Readers(r) && r.v.completed == 0
            && Total(r.ts).armed == 0
  {
    IsAlone(s, t);
    var th := GoAwait(s.ts[t], WCancelSh);
    assert Step(s, t, c) == State(s.v.(shared := -s.v.completed, completed := 0), s.ts[t := th]);
    TotalShifted(s.ts, t, th);
    CancelCounts(s.v, s.ts[t], Total(s.ts), Total(s.ts[t := th]));
  }

  lemma CancelCounts(v: Vars, th: Thread, k: Totals, k': Totals)
    requires Balanced(v, k) && FitsCounts(k, Weigh(th)) && th.pc == Awaiting(WCancel)
    requires ShiftedCounts(k, Weigh(th), Weigh(GoAwait(th, WCancelSh)), k')
    ensures k'.readers == k.readers == -v.completed && k'.armed == 0
  {
  }

  /** A writer that waits although the last reader has counted itself out has been
      signalled, or that reader is about to signal. */
  lemma WriterIsWoken(s: State) returns (u: nat)
    requires Inv(s) && s.v.waiting && Readers(s) == 0
    ensures s.v.signalled || (u < |s.ts| && s.ts[u].pc == Unlocking(USignal))
  {
    ReadersAreCounted(s);
    assert Balanced(s.v, Total(s.ts));
    if s.v.signalled {
      u := 0;
    } else {
      u := SumWitness(s.ts, SignalsW);
    }
  }

  /** A reader that finds a writer waiting signals exactly when it is the last. */
  lemma LastReaderSignals(s: State, t: nat, c: Choice)
    requires Inv(s) && t < |s.ts| && s.ts[t].pc == Unlocking(UCount)
    requires s.v.waiting
    ensures Step(s, t, c).ts[t].pc == Unlocking(USignal) <==> Readers(s) == 1
  {
    ReadersAreCounted(s);
  }

  // ----- the counts stay in range -----

  ghost predicate InRange(s: State)
  {
    s.v.shared <= INT_MAX && (s.v.shared == INT_MAX ==> Total(s.ts).folds > 0)
  }

  lemma ReaderInRange(v: Vars, th: Thread, p: ReaderPc, k: Totals, k': Totals)
    requires Counted(v, k) && FitsCounts(k, Weigh(th)) && Local(v, th) && th.pc == Reading(p)
    requires Weigh(th).ex > 0 ==> k.folds == Weigh(th).folds
    requires k'.folds == k.folds - Weigh(th).folds + Weigh(ActReader(v, th, p).1).folds
    requires k.readers < INT_MAX && v.shared <= INT_MAX && (v.shared == INT_MAX ==> k.folds > 0)
    ensures ActReader(v, th, p).0.shared <= INT_MAX
    ensures ActReader(v, th, p).0.shared == INT_MAX ==> k'.folds > 0
  {
  }

  lemma EnterInRange(v: Vars, th: Thread, p: EnterPc, c: Choice, k: Totals, k': Totals)
    requires Counted(v, k) && FitsCounts(k, Weigh(th)) && Local(v, th) && th.pc == Entering(p)
    requires Weigh(th).ex > 0 ==> k.folds == Weigh(th).folds
    requires k'.folds == k.folds - Weigh(th).folds + Weigh(ActEnter(v, th, p, c).1).folds
    requires k.readers < INT_MAX && v.shared <= INT_MAX && (v.shared == INT_MAX ==> k.folds > 0)
    ensures ActEnter(v, th, p, c).0.shared <= INT_MAX
    ensures ActEnter(v, th, p, c).0.shared == INT_MAX ==> k'.folds > 0
  {
  }

  lemma AwaitInRange(v: Vars, th: Thread, p: AwaitPc, c: Choice, k: Totals, k': Totals)
    requires Counted(v, k) && FitsCounts(k, Weigh(th)) && Local(v, th) && th.pc == Awaiting(p)
    requires Weigh(th).ex > 0 ==> k.folds == Weigh(th).folds
    requires k'.folds == k.folds - Weigh(th).folds + Weigh(ActAwait(v, th, p, c).1).folds
    requires k.readers < INT_MAX && v.shared <= INT_MAX && (v.shared == INT_MAX ==> k.folds > 0)
    ensures ActAwait(v, th, p, c).0.shared <= INT_MAX
    ensures ActAwait(v, th, p, c).0.shared == INT_MAX ==> k'.folds > 0
  {
  }

  lemma UnlockInRange(v: Vars, th: Thread, p: UnlockPc, k: Totals, k': Totals)
    requires Counted(v, k) && FitsCounts(k, Weigh(th)) && Local(v, th) && th.pc == Unlocking(p)
    requires Weigh(th).ex > 0 ==> k.folds == Weigh(th).folds
    requires k'.folds == k.folds - Weigh(th).folds + Weigh(ActUnlock(v, th, p).1).folds
    requires k.readers < INT_MAX && v.shared <= INT_MAX && (v.shared == INT_MAX ==> k.folds > 0)
    ensures ActUnlock(v, th, p).0.shared <= INT_MAX
    ensures ActUnlock(v, th, p).0.shared == INT_MAX ==> k'.folds > 0
  {
  }

  lemma ActInRange(v: Vars, th: Thread, c: Choice, k: Totals, k': Totals)
    requires Counted(v, k) && FitsCounts(k, Weigh(th)) && Local(v, th)
    requires Weigh(th).ex > 0 ==> k.folds == Weigh(th).folds
    requires k'.folds == k.folds - Weigh(th).folds + Weigh(Act(v, th, c).1).folds
    requires k.readers < INT_MAX && v.shared <= INT_MAX && (v.shared == INT_MAX ==> k.folds > 0)
    ensures Act(v, th, c).0.shared <= INT_MAX
    ensures Act(v, th, c).0.shared == INT_MAX ==> k'.folds > 0
  {
    match th.pc
    case Idle =>
    case Reading(p) => ReaderInRange(v, th, p, k, k');
    case Entering(p) => EnterInRange(v, th, p, c, k, k');
    case Awaiting(p) => AwaitInRange(v, th, p, c, k, k');
    case Unlocking(p) => UnlockInRange(v, th, p, k, k');
  }

  /** As long as there are never INT_MAX readers at once, no count leaves the range
      of an int, however many read locks are taken and given back in all: the
      count of entries is folded when it reaches INT_MAX. */
  lemma {:induction false} CountsInRange(n: nat, schedule: Schedule)
    requires forall i :: 0 <= i <= |schedule| ==> Readers(Reach(n, schedule[..i])) < INT_MAX
    ensures var s := Reach(n, schedule);
            InRange(s) && 0 <= s.v.shared && -INT_MAX <= s.v.completed <= INT_MAX && 0 <= s.v.excl <= 1
    decreases |schedule|
  {
    ReachInv(n, schedule);
    var s := Reach(n, schedule);
    if schedule == [] {
      IdleTotal(n);
    } else {
      var m := |schedule| - 1;
      forall i | 0 <= i <= m ensures Readers(Reach(n, schedule[..m][..i])) < INT_MAX {
        assert schedule[..m][..i] == schedule[..i];
      }
      CountsInRange(n, schedule[..m]);
      ReachInv(n, schedule[..m]);
      assert Readers(Reach(n, schedule[..m])) < INT_MAX;
      StepInRange(Reach(n, schedule[..m]), schedule[m].0, schedule[m].1);
    }
    CompletedInRange(s);
  }

  lemma StepInRange(s: State, t: nat, c: Choice)
    requires Inv(s) && InRange(s) && Readers(s) < INT_MAX
    ensures InRange(Step(s, t, c))
  {
    if t < |s.ts| {
      var th := Act(s.v, s.ts[t], c).1;
      TotalShifted(s.ts, t, th);
      IsAlone(s, t);
      assert Balanced(s.v, Total(s.ts)) && Local(s.v, s.ts[t]);
      ActInRange(s.v, s.ts[t], c, Total(s.ts), Total(s.ts[t := th]));
    }
  }

  lemma CompletedInRange(s: State)
    requires Inv(s) && InRange(s)
    ensures 0 <= s.v.shared && -INT_MAX <= s.v.completed <= INT_MAX && 0 <= s.v.excl <= 1
  {
    ReadersAreCounted(s);
    var k := Total(s.ts);
    assert Balanced(s.v, k);
    if k.writers > 0 {
      var t := SumWitness(s.ts, WritersW);
      IsAlone(s, t);
    }
  }
}
