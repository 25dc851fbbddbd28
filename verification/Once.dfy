/** pthread_once over the MCS lock. Thread t uses queue node t. A step is one step
    of the lock code, one access to the done flag, or the end of init_routine,
    which may complete or be cancelled. */
module Once {
  import opened Counting
  import McsLock
  import McsTheorems

  datatype Pc =
    | Out(returned: bool)    // not in the call; whether the last call returned 0
    | Check                  // first look at done, without the lock
    | Want                   // to acquire the lock
    | Enter
    | Test                   // second look at done
    | Init                   // running init_routine
    | Mark                   // init_routine has completed, done is still to be set
    | Leave(cancelled: bool) // to release the lock
    | Release(cancelled: bool)

  /** inits is history: completed executions of init_routine. */
  datatype State = State(done: bool, inits: nat, lock: McsLock.State, pcs: seq<Pc>)

  function Start(n: nat): State
  {
    State(false, 0, McsLock.Init(n), Idlers(n))
  }

  function Idlers(n: nat): seq<Pc>
  {
    seq(n, _ => Out(false))
  }

  // ----- the steps -----

  predicate UsesLock(p: Pc) { p == Want || p == Enter || p.Leave? || p.Release? }

  function CallOf(p: Pc): McsLock.Call
  {
    if p == Want then McsLock.CallAcquire else if p.Leave? then McsLock.CallRelease else McsLock.CallNothing
  }

  /** Where the thread is after a step of the lock code that left its node at q. */
  function AfterLock(p: Pc, q: McsLock.Pc): Pc
  {
    match p
    case Want => Enter
    case Enter => if q == McsLock.Owner then Test else Enter
    case Leave(c) => Release(c)
    case Release(c) => if q == McsLock.Free then Out(!c) else p
    case _ => p
  }

  function Step(s: State, t: nat, cancel: bool): State
  {
    if t >= |s.pcs| || |s.lock.nodes| != |s.pcs| then s
    else
      var p := s.pcs[t];
      if UsesLock(p) then
        var lock := McsLock.Step(s.lock, t, CallOf(p));
        State(s.done, s.inits, lock, s.pcs[t := AfterLock(p, lock.nodes[t].pc)])
      else
        match p
        case Out(_) => s.(pcs := s.pcs[t := Check])
        case Check => s.(pcs := s.pcs[t := if s.done then Out(true) else Want])
        case Test => s.(pcs := s.pcs[t := if s.done then Leave(false) else Init])
        case Init =>
          if cancel then s.(pcs := s.pcs[t := Leave(true)])
          else s.(pcs := s.pcs[t := Mark], inits := s.inits + 1)
        case Mark => s.(pcs := s.pcs[t := Leave(false)], done := true)
  }

  type Schedule = seq<(nat, bool)>

  function Run(s: State, schedule: Schedule): State
    decreases |schedule|
  {
    if schedule == [] then s
    else
      var last := schedule[|schedule| - 1];
      Step(Run(s, schedule[..|schedule| - 1]), last.0, last.1)
  }

  // ----- the invariant -----

  /** What the thread's node is used for. */
  ghost predicate NodeUse(p: Pc, q: McsLock.Pc)
  {
    match p
    case Enter => q.Acq? && q.a != McsLock.ATry
    case Test | Init | Mark | Leave(_) => q == McsLock.Owner
    case Release(_) => q.Rel?
    case _ => q == McsLock.Free
  }

  function MarkW(p: Pc): nat { if p == Mark then 1 else 0 }

  ghost predicate Local(done: bool, p: Pc)
  {
    && (p == Init || p == Mark ==> !done)
    && (p == Out(true) || p == Leave(false) || p == Release(false) ==> done)
  }

  ghost predicate ThreadOk(s: State, t: nat)
    requires t < |s.pcs| && |s.lock.nodes| == |s.pcs|
  {
    NodeUse(s.pcs[t], s.lock.nodes[t].pc) && Local(s.done, s.pcs[t])
  }

  ghost predicate Inv(s: State)
  {
    && McsLock.Inv(s.lock) && |s.lock.nodes| == |s.pcs|
    && s.inits == (if s.done then 1 else 0) + Sum(s.pcs, MarkW)
    && (forall t :: 0 <= t < |s.pcs| ==> ThreadOk(s, t))
  }

  lemma StartInv(n: nat)
    ensures Inv(Start(n))
  {
    McsLock.InitInv(n);
    SumZero(Idlers(n), MarkW);
    assert forall t :: 0 <= t < n ==> ThreadOk(Start(n), t);
  }

  /** Only one thread at a time is between its acquire and its release. */
  lemma OneInside(s: State, t: nat, u: nat)
    requires Inv(s) && t < |s.pcs| && u < |s.pcs|
    requires s.lock.nodes[t].pc == McsLock.Owner && s.lock.nodes[u].pc == McsLock.Owner
    ensures t == u
  {
    McsTheorems.Exclusion(s.lock, t, u);
  }

  lemma LockStepInv(s: State, t: nat, cancel: bool)
    requires Inv(s) && t < |s.pcs| && UsesLock(s.pcs[t])
    ensures Inv(Step(s, t, cancel))
  {
    var p := s.pcs[t];
    var r := Step(s, t, cancel);
    assert ThreadOk(s, t);
    McsLock.StepInv(s.lock, t, CallOf(p));
    McsTheorems.OwnMoves(s.lock, t, CallOf(p));
    SumUpdate(s.pcs, t, r.pcs[t], MarkW);
    forall u | 0 <= u < |r.pcs| ensures ThreadOk(r, u) {
      assert ThreadOk(s, u);
      if u != t { McsTheorems.OthersKeepPc(s.lock, t, CallOf(p), u); }
    }
  }

  lemma FlagStepInv(s: State, t: nat, cancel: bool)
    requires Inv(s) && t < |s.pcs| && !UsesLock(s.pcs[t])
    ensures Inv(Step(s, t, cancel))
  {
    var r := Step(s, t, cancel);
    assert ThreadOk(s, t);
    SumUpdate(s.pcs, t, r.pcs[t], MarkW);
    forall u | 0 <= u < |r.pcs| ensures ThreadOk(r, u) {
      assert ThreadOk(s, u);
      if s.pcs[t] == Mark && (s.pcs[u] == Init || s.pcs[u] == Mark) { OneInside(s, t, u); }
    }
  }

  lemma StepInv(s: State, t: nat, cancel: bool)
    requires Inv(s)
    ensures Inv(Step(s, t, cancel))
  {
    if t < |s.pcs| {
      if UsesLock(s.pcs[t]) { LockStepInv(s, t, cancel); } else { FlagStepInv(s, t, cancel); }
    }
  }

  lemma {:induction false} RunInv(s: State, schedule: Schedule)
    requires Inv(s)
    ensures Inv(Run(s, schedule))
    decreases |schedule|
  {
    if schedule == [] {
    } else {
      var last := schedule[|schedule| - 1];
      var before := Run(s, schedule[..|schedule| - 1]);
      RunInv(s, schedule[..|schedule| - 1]);
      StepInv(before, last.0, last.1);
      assert Run(s, schedule) == Step(before, last.0, last.1);
    }
  }

  // ----- what pthread_once guarantees -----

  ghost function Reach(n: nat, schedule: Schedule): State { Run(Start(n), schedule) }

  lemma ReachInv(n: nat, schedule: Schedule)
    ensures Inv(Reach(n, schedule))
  {
    StartInv(n);
    RunInv(Start(n), schedule);
  }

  /** With any number of callers and any number of cancelled initialisers,
      init_routine completes at most once, and it has completed exactly once when
      the flag is set. */
  lemma CompletesAtMostOnce(n: nat, schedule: Schedule)
    ensures var s := Reach(n, schedule);
            s.inits <= 1 && (s.done ==> s.inits == 1)
  {
    ReachInv(n, schedule);
    var s := Reach(n, schedule);
    if Sum(s.pcs, MarkW) > 0 {
      var t := SumWitness(s.pcs, MarkW);
      assert ThreadOk(s, t);
      forall u | 0 <= u < |s.pcs| && u != t ensures MarkW(s.pcs[u]) == 0 {
        assert ThreadOk(s, u);
        if s.pcs[u] == Mark { OneInside(s, t, u); }
      }
      SumUpdate(s.pcs, t, Check, MarkW);
      SumZero(s.pcs[t := Check], MarkW);
    }
  }

  /** Two executions of init_routine never overlap, and none begins after one has
      completed. */
  lemma NoOverlap(s: State, t: nat, u: nat)
    requires Inv(s) && t < |s.pcs| && u < |s.pcs| && s.pcs[t] == Init
    ensures s.pcs[u] == Init || s.pcs[u] == Mark ==> u == t
    ensures !s.done && s.inits == 0
  {
    assert ThreadOk(s, t) && ThreadOk(s, u);
    if s.pcs[u] == Init || s.pcs[u] == Mark { OneInside(s, t, u); }
    if Sum(s.pcs, MarkW) > 0 {
      var m := SumWitness(s.pcs, MarkW);
      assert ThreadOk(s, m);
      OneInside(s, t, m);
    }
  }

  /** A call that has returned 0 returned after init_routine completed. */
  lemma ReturnsAfterCompletion(n: nat, schedule: Schedule, t: nat)
    requires t < |Reach(n, schedule).pcs| && Reach(n, schedule).pcs[t] == Out(true)
    ensures Reach(n, schedule).done && Reach(n, schedule).inits == 1
  {
    ReachInv(n, schedule);
    assert ThreadOk(Reach(n, schedule), t);
    CompletesAtMostOnce(n, schedule);
  }

  /** A cancelled initialiser starts a release like any other, so that the lock is
      on its way to the caller queued behind it, and that caller finds the flag
      unset and runs init_routine again. */
  lemma CancelledPassesLock(s: State, t: nat, w: nat, cancel: bool)
    requires Inv(s) && t < |s.pcs| && s.pcs[t] == Leave(true)
    requires |s.lock.q| > 1 && s.lock.q[1] == w
    ensures McsTheorems.HandingOver(Step(s, t, cancel).lock, w)
    ensures Step(s, t, cancel).done == s.done
  {
    assert ThreadOk(s, t);
    McsLock.HeadFacts(s.lock, t);
    assert McsLock.Pair(s.lock, 1) && McsLock.Place(s.lock, 1);
    McsLock.Distinct(s.lock, 0, 1);
  }

  lemma NextCallerTriesAgain(s: State, t: nat, cancel: bool)
    requires Inv(s) && t < |s.pcs| && s.pcs[t] == Test
    ensures Step(s, t, cancel).pcs[t] == (if s.inits == 0 then Init else Leave(false))
  {
    assert ThreadOk(s, t);
    if Sum(s.pcs, MarkW) > 0 {
      var m := SumWitness(s.pcs, MarkW);
      assert ThreadOk(s, m);
      OneInside(s, t, m);
    }
  }
}
