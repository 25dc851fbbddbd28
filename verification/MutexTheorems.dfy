/** What the mutex guarantees in every reachable state, for any number of threads
    locking, trying, timing out and unlocking in any order. */
module MutexTheorems {
  import opened Counting
  import opened Mutex
  import opened MutexKinds

  lemma ReachInv(kind: Kind, n: nat, schedule: Schedule)
    ensures Inv(Run(Init(kind, n), schedule))
  {
    InitInv(kind, n);
    RunInv(Init(kind, n), schedule);
  }

  /** At most one thread has the mutex, and the lock word is 0 exactly when none has. */
  lemma Exclusion(s: State, t: nat, u: nat)
    requires Inv(s) && t < |s.ts| && u < |s.ts| && Has(s.ts[t])
    ensures s.v.lockIdx != 0
    ensures Has(s.ts[u]) ==> t == u
  {
    SumAt(s.ts, t, HasW);
    if t != u { SumTwo(s.ts, t, u, HasW); }
    assert Balanced(s.v, Total(s.ts));
  }

  lemma HeldUnlessFree(s: State) returns (t: nat)
    requires Inv(s) && s.v.lockIdx != 0
    ensures t < |s.ts| && Has(s.ts[t])
  {
    assert Balanced(s.v, Total(s.ts));
    t := SumWitness(s.ts, HasW);
  }

  /** No lost wakeup: while some thread waits for the event, the event is set, or
      the lock word says so, or some thread is about to set the event or to
      exchange in -1. */
  lemma NoLostWakeup(s: State, t: nat) returns (u: nat)
    requires Inv(s) && t < |s.ts| && IsWaiting(s.ts[t])
    ensures s.v.event || s.v.lockIdx == -1 || (u < |s.ts| && WillLook(s.ts[u]))
  {
    SumAt(s.ts, t, WaitW);
    assert Balanced(s.v, Total(s.ts));
    if !s.v.event && s.v.lockIdx != -1 {
      u := SumWitness(s.ts, LookW);
    } else {
      u := 0;
    }
  }

  /** A free mutex with a waiter always has a thread that can move on its behalf:
      the waiter itself, one about to set the event, or one that is about to take
      the mutex. */
  lemma FreeMutexNotStranded(s: State, t: nat, c: Choice) returns (u: nat)
    requires Inv(s) && t < |s.ts| && IsWaiting(s.ts[t]) && s.v.lockIdx == 0 && !c.expire
    ensures u < |s.ts|
    ensures var r := Step(s, u, c);
            || (u == t && r.ts[u].pc == Locking(LLoop(s.ts[t].pc.l.timed)))
            || r.v.event
            || Has(r.ts[u])
  {
    u := NoLostWakeup(s, t);
    if s.v.event { u := t; }
  }

  /** A thread that does not move stays where it is. */
  lemma {:induction false} RestsUntilItMoves(s: State, schedule: Schedule, t: nat)
    requires t < |s.ts| && forall i :: 0 <= i < |schedule| ==> schedule[i].0 != t
    ensures |Run(s, schedule).ts| == |s.ts| && Run(s, schedule).ts[t] == s.ts[t]
    decreases |schedule|
  {
    if schedule == [] {
    } else {
      RestsUntilItMoves(s, schedule[..|schedule| - 1], t);
    }
  }

  /** A thread that is about to set the event or to exchange in -1 can be relied on,
      however long it takes and whatever the others do before it moves: its next move
      leaves the event set, or the mutex taken by it if it was free, or -1 in the lock
      word for the holder to find. */
  lemma LookerKeepsPromise(s: State, u: nat, others: Schedule, c: Choice)
    requires Inv(s) && u < |s.ts| && WillLook(s.ts[u])
    requires forall i :: 0 <= i < |others| ==> others[i].0 != u
    ensures var r := Run(s, others);
            var q := Step(r, u, c);
            && |q.ts| == |r.ts| == |s.ts|
            && (q.v.event || (if r.v.lockIdx == 0 then Has(q.ts[u]) else q.v.lockIdx == -1 && IsWaiting(q.ts[u])))
  {
    RestsUntilItMoves(s, others, u);
  }

  const GO := Choice(CallLock, false)

  /** From every state in which a thread waits for a free mutex the mutex is taken
      after at most three moves: of that thread, and of one that was about to look. */
  lemma FreeMutexTaken(s: State, t: nat) returns (schedule: Schedule, u: nat)
    requires Inv(s) && t < |s.ts| && IsWaiting(s.ts[t]) && s.v.lockIdx == 0
    ensures |schedule| <= 3 && u < |s.ts|
    ensures forall i :: 0 <= i < |schedule| ==> schedule[i].0 == t || (WillLook(s.ts[u]) && schedule[i].0 == u)
    ensures var r := Run(s, schedule);
            |r.ts| == |s.ts| && r.v.lockIdx != 0 && (Has(r.ts[t]) || Has(r.ts[u]))
  {
    u := NoLostWakeup(s, t);
    schedule := [];
    var r := s;
    if s.v.event {
      u := t;
    } else {
      LookerOpens(s, u);
      RunAppend(s, schedule, u, GO);
      schedule, r := [(u, GO)], Step(s, u, GO);
    }
    if r.v.lockIdx == 0 {
      WokenTakes(r, t);
      RunAppend(s, schedule, t, GO);
      RunAppend(s, schedule + [(t, GO)], t, GO);
      schedule := schedule + [(t, GO)] + [(t, GO)];
    }
  }

  lemma LookerOpens(s: State, u: nat)
    requires u < |s.ts| && WillLook(s.ts[u]) && s.v.lockIdx == 0
    ensures var r := Step(s, u, GO);
            && |r.ts| == |s.ts| && (forall t :: 0 <= t < |s.ts| && t != u ==> r.ts[t] == s.ts[t])
            && if r.v.lockIdx == 0 then r.v.event else Has(r.ts[u])
  {
  }

  lemma RunAppend(s: State, schedule: Schedule, t: nat, c: Choice)
    ensures Run(s, schedule + [(t, c)]) == Step(Run(s, schedule), t, c)
  {
    assert (schedule + [(t, c)])[..|schedule|] == schedule;
  }

  /** A waiter with the event set and the mutex free takes it in two moves. */
  lemma WokenTakes(s: State, t: nat)
    requires t < |s.ts| && IsWaiting(s.ts[t]) && s.v.lockIdx == 0 && s.v.event
    ensures var r := Step(Step(s, t, GO), t, GO);
            |r.ts| == |s.ts| && r.v.lockIdx != 0 && Has(r.ts[t])
  {
    assert Step(s, t, GO) == State(s.v.(event := false), s.ts[t := GoLock(s.ts[t], LLoop(s.ts[t].pc.l.timed))]);
  }

  /** After any run from an unused mutex: one holder, and no waiter forgotten. */
  lemma AfterAnyRun(kind: Kind, n: nat, schedule: Schedule)
    ensures var s := Run(Init(kind, n), schedule);
            && (forall t, u :: 0 <= t < |s.ts| && 0 <= u < |s.ts| && Has(s.ts[t]) && Has(s.ts[u]) ==> t == u)
            && (s.v.lockIdx == 0 <==> forall t :: 0 <= t < |s.ts| ==> !Has(s.ts[t]))
            && ((exists t :: 0 <= t < |s.ts| && IsWaiting(s.ts[t])) ==>
                  s.v.event || s.v.lockIdx == -1 || exists u :: 0 <= u < |s.ts| && WillLook(s.ts[u]))
  {
    ReachInv(kind, n, schedule);
    var s := Run(Init(kind, n), schedule);
    forall t, u | 0 <= t < |s.ts| && 0 <= u < |s.ts| && Has(s.ts[t])
      ensures s.v.lockIdx != 0 && (Has(s.ts[u]) ==> t == u)
    {
      Exclusion(s, t, u);
    }
    if s.v.lockIdx != 0 { var t := HeldUnlessFree(s); }
    if t :| 0 <= t < |s.ts| && IsWaiting(s.ts[t]) { var u := NoLostWakeup(s, t); }
  }

  /** ownerThread is read without any lock, yet every reader learns correctly
      whether it is the owner itself. */
  lemma OwnerReadIsRight(s: State, t: nat)
    requires Inv(s) && t < |s.ts| && s.v.kind != Normal
    requires s.ts[t].pc != Unlocking(USwap)
    ensures s.v.owner == Is(t) <==> s.ts[t].held > 0
  {
    assert Local(s.v, t, s.ts[t]);
  }

  /** recursive_count is the number of locks the owner has still to unlock. */
  lemma CountIsOutstanding(s: State, t: nat)
    requires Inv(s) && t < |s.ts| && s.v.kind == Recursive && s.ts[t].held > 0 && s.ts[t].pc.Idle?
    ensures s.v.count == s.ts[t].held && s.v.owner == Is(t) && s.v.lockIdx != 0
  {
    Exclusion(s, t, t);
    assert Local(s.v, t, s.ts[t]);
  }

  /** What a call returns is true of the caller: 0 from a lock call means one lock
      more, EDEADLK that it holds the error-checking mutex already, EPERM that it
      does not hold the mutex, EBUSY that it found the mutex taken, ETIMEDOUT that its
      timed wait expired, and a call that fails changes nothing it holds. For EBUSY on
      a recursive mutex see BusyMeansTaken. */
  ghost predicate TrueOf(v: Vars, t: nat, a: Thread, r: Result, held: nat, c: Choice)
  {
    match r
    case Ok => if a.pc.Locking? then held == a.held + 1
               else held == (if a.pc == Unlocking(USetEvent) then a.held else a.held - 1)
    case EDEADLK => held == a.held == 1 && v.kind == Errorcheck && v.owner == Is(t)
    case EPERM => held == a.held == 0
    case EBUSY =>
      && held == a.held
      && (if v.kind == Recursive then a.pc == Locking(LTryRead) && v.owner != Is(t) && a.held == 0
          else a.pc == Locking(LTry) && v.lockIdx != 0)
    case ETIMEDOUT =>
      held == a.held && a.pc == Locking(LWait(true)) && c.expire && (v.kind != Normal ==> held == 0)
  }

  lemma ResultsAreRight(s: State, t: nat, c: Choice)
    requires Inv(s) && t < |s.ts| && !s.ts[t].pc.Idle? && Step(s, t, c).ts[t].pc.Idle?
    ensures var b := Step(s, t, c).ts[t]; TrueOf(s.v, t, s.ts[t], b.pc.last, b.held, c)
  {
    assert Local(s.v, t, s.ts[t]);
    match s.ts[t].pc
    case Locking(p) => LockResults(s.v, t, s.ts[t], p, c);
    case Unlocking(p) => UnlockResults(s.v, t, s.ts[t], p, c);
  }

  lemma LockResults(v: Vars, t: nat, th: Thread, p: LockPc, c: Choice)
    requires Local(v, t, th) && th.pc == Locking(p) && ActLock(v, t, th, p, c).1.pc.Idle?
    ensures var b := ActLock(v, t, th, p, c).1; TrueOf(v, t, th, b.pc.last, b.held, c)
  {
  }

  lemma UnlockResults(v: Vars, t: nat, th: Thread, p: UnlockPc, c: Choice)
    requires Local(v, t, th) && th.pc == Unlocking(p) && ActUnlock(v, t, th, p).1.pc.Idle?
    ensures var b := ActUnlock(v, t, th, p).1; TrueOf(v, t, th, b.pc.last, b.held, c)
  {
  }

  /** A trylock that does not get the mutex at its compare-exchange, whether it then
      returns EBUSY or looks whether it is the owner itself, found it held by some
      thread. */
  lemma BusyMeansTaken(s: State, t: nat, c: Choice) returns (u: nat)
    requires Inv(s) && t < |s.ts| && s.ts[t].pc == Locking(LTry)
    requires Step(s, t, c).ts[t].pc == Idle(EBUSY) || Step(s, t, c).ts[t].pc == Locking(LTryRead)
    ensures u < |s.ts| && Has(s.ts[u]) && (s.ts[t].held == 0 ==> u != t)
  {
    u := HeldUnlessFree(s);
  }

  /** A lock call from outside gets the mutex only from free: the step in which a
      thread comes to have it is one that found the lock word 0. */
  lemma TakenOnlyWhenFree(s: State, t: nat, c: Choice)
    requires Inv(s) && t < |s.ts| && !Has(s.ts[t]) && Has(Step(s, t, c).ts[t])
    ensures s.v.lockIdx == 0 && Step(s, t, c).v.lockIdx != 0
  {
    assert Local(s.v, t, s.ts[t]);
  }

  /** Given up only by the exchange in unlock, and only for the last of the locks. */
  lemma GivenUpOnlyByUnlock(s: State, t: nat, c: Choice)
    requires Inv(s) && t < |s.ts| && Has(s.ts[t]) && !Has(Step(s, t, c).ts[t])
    ensures s.ts[t] == Thread(Unlocking(USwap), 1)
    ensures Step(s, t, c).v.lockIdx == 0
    ensures s.v.lockIdx == -1 ==> Step(s, t, c).ts[t].pc == Unlocking(USetEvent)
  {
    assert Local(s.v, t, s.ts[t]);
    SumAt(s.ts, t, HasW);
    assert Balanced(s.v, Total(s.ts));
  }
}
