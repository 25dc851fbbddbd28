/** What the condition variable guarantees in every reachable state and over
    every run. */
module CondVarTheorems {
  import opened Counting
  import opened CondVar

  /** Registered waiters: counted in, cleanup decrement still to come. */
  ghost function Waiters(s: State): nat { Sum(s.pcs, Registered) }

  /** Wakeups issued and not yet consumed by a cleanup. */
  ghost function Wakeups(s: State): nat { s.v.queue + Sum(s.pcs, InFlight) }

  ghost function Reach(n: nat, schedule: Schedule): State { Run(Init(n), schedule) }

  lemma ReachInv(n: nat, schedule: Schedule)
    ensures Inv(Reach(n, schedule))
    ensures |Reach(n, schedule).pcs| == n
  {
    InitInv(n);
    RunInv(Init(n), schedule);
    RunThreads(Init(n), schedule);
  }

  lemma {:induction false} RunThreads(s: State, schedule: Schedule)
    ensures |Run(s, schedule).pcs| == |s.pcs|
    decreases |schedule|
  {
    if schedule == [] {
    } else {
      RunThreads(s, schedule[..|schedule| - 1]);
    }
  }

  // ----- no lost signal -----

  /** Whatever mix of waits, timeouts, cancellations, signals, broadcasts and
      destroys has run: every waiter that is owed a wakeup has one on its way, no
      more are owed than are registered, and the waits woken so far plus the
      wakeups under way are exactly what was issued. */
  lemma NoLostSignal(n: nat, schedule: Schedule)
    ensures var s := Reach(n, schedule);
            && s.v.toUnblock <= Wakeups(s)
            && s.v.toUnblock <= Waiters(s)
            && s.v.woken + Wakeups(s) == s.v.issued
  {
    ReachInv(n, schedule);
    Covered(Reach(n, schedule));
  }

  lemma Covered(s: State)
    requires Inv(s)
    ensures s.v.toUnblock <= Wakeups(s) && s.v.toUnblock <= Waiters(s)
    ensures s.v.woken + Wakeups(s) == s.v.issued
  {
    assert Balanced(s.v, Total(s.pcs));
  }

  /** A waiter that came through without expiring. */
  ghost predicate OnTime(p: Pc)
  {
    p.Cleaning? ==> p.x != WMtx(false) && p.x != WCleanup(false) && !p.x.WReset?
  }

  ghost predicate Exact(s: State)
  {
    && s.v.gone == 0
    && s.v.toUnblock == s.v.queue + Total(s.pcs).inFlight
    && (forall u :: 0 <= u < |s.pcs| ==> OnTime(s.pcs[u]))
  }

  /** What one step has to keep of that. */
  ghost predicate StaysExact(v: Vars, p: Pc, k': Totals)
  {
    v.gone == 0 && OnTime(p) && v.toUnblock == v.queue + k'.inFlight
  }

  lemma WaitExact(v: Vars, p: WaitPc, c: Choice, k: Totals, k': Totals)
    requires !c.expire && v.gone == 0 && v.toUnblock == v.queue + k.inFlight
    requires Shifted(k, Weigh(Waiting(p)), Weigh(ActWait(v, p, c).1), k')
    ensures StaysExact(ActWait(v, p, c).0, ActWait(v, p, c).1, k')
  {
  }

  lemma CleanExact(v: Vars, p: CleanPc, k: Totals, k': Totals)
    requires v.gone == 0 && OnTime(Cleaning(p)) && v.toUnblock == v.queue + k.inFlight
    requires Weigh(Cleaning(p)).inFlight <= k.inFlight
    requires Shifted(k, Weigh(Cleaning(p)), Weigh(ActClean(v, p).1), k')
    ensures StaysExact(ActClean(v, p).0, ActClean(v, p).1, k')
  {
  }

  lemma SignalExact(v: Vars, p: SignalPc, k: Totals, k': Totals)
    requires v.gone == 0 && v.toUnblock == v.queue + k.inFlight && Local(v, Signalling(p))
    requires Shifted(k, Weigh(Signalling(p)), Weigh(ActSignal(v, p).1), k')
    ensures StaysExact(ActSignal(v, p).0, ActSignal(v, p).1, k')
  {
  }

  lemma DestroyExact(v: Vars, p: DestroyPc, k: Totals, k': Totals)
    requires v.gone == 0 && v.toUnblock == v.queue + k.inFlight
    requires Shifted(k, Weigh(Destroying(p)), Weigh(ActDestroy(v, p).1), k')
    ensures StaysExact(ActDestroy(v, p).0, ActDestroy(v, p).1, k')
  {
  }

  lemma ActExact(v: Vars, p: Pc, c: Choice, k: Totals, k': Totals)
    requires Local(v, p) && Alone(k, Weigh(p))
    requires Shifted(k, Weigh(p), Weigh(Act(v, p, c).1), k')
    requires !c.expire && v.gone == 0 && OnTime(p) && v.toUnblock == v.queue + k.inFlight
    ensures StaysExact(Act(v, p, c).0, Act(v, p, c).1, k')
  {
    match p
    case Idle =>
    case Waiting(w) => WaitExact(v, w, c, k, k');
    case Cleaning(x) => CleanExact(v, x, k, k');
    case Signalling(g) => SignalExact(v, g, k, k');
    case Destroying(d) => DestroyExact(v, d, k, k');
  }

  lemma StepExact(s: State, t: nat, c: Choice)
    requires Inv(s) && Exact(s) && !c.expire
    ensures Exact(Step(s, t, c))
  {
    if t < |s.pcs| {
      var q := Act(s.v, s.pcs[t], c).1;
      TotalShifted(s.pcs, t, q);
      IsAlone(s, t);
      ActExact(s.v, s.pcs[t], c, Total(s.pcs), Total(s.pcs[t := q]));
    }
  }

  lemma {:induction false} RunExact(n: nat, schedule: Schedule)
    requires forall i :: 0 <= i < |schedule| ==> !schedule[i].1.expire
    ensures Exact(Reach(n, schedule))
    decreases |schedule|
  {
    if schedule == [] {
      IdleTotal(n);
    } else {
      var k := |schedule| - 1;
      RunExact(n, schedule[..k]);
      ReachInv(n, schedule[..k]);
      StepExact(Reach(n, schedule[..k]), schedule[k].0, schedule[k].1);
    }
  }

  /** If no wait ever times out or is cancelled, wakeups and owed waiters match
      one for one and nothing is left to collect: a wait returns only for a
      signal of its own. */
  lemma ExactWithoutExpiry(n: nat, schedule: Schedule)
    requires forall i :: 0 <= i < |schedule| ==> !schedule[i].1.expire
    ensures var s := Reach(n, schedule);
            s.v.gone == 0 && s.v.toUnblock == Wakeups(s) && s.v.issued == s.v.woken + s.v.toUnblock
  {
    RunExact(n, schedule);
    ReachInv(n, schedule);
    ExactCounts(Reach(n, schedule));
  }

  lemma ExactCounts(s: State)
    requires Inv(s) && Exact(s)
    ensures s.v.gone == 0 && s.v.toUnblock == Wakeups(s) && s.v.issued == s.v.woken + s.v.toUnblock
  {
    Covered(s);
  }

  // ----- what a signal decides -----

  /** A signaller with the mutex looks at the counters. */
  ghost predicate Deciding(p: Pc) { p.Signalling? && (p.g.SClosed? || p.g.SCheck?) }

  /** A signal or broadcast issues nothing exactly when every registered waiter
      is already owed a wakeup. The comparison at pthread_cond_signal.c:115 is
      made without the gate, while a waiter may be registering. */
  lemma NoOpIffAllOwed(s: State, t: nat, c: Choice)
    requires Inv(s) && t < |s.pcs| && Deciding(s.pcs[t])
    ensures Step(s, t, c).pcs[t] == Signalling(SUnlock(0)) <==> Waiters(s) == s.v.toUnblock
  {
    IsAlone(s, t);
    assert Balanced(s.v, Total(s.pcs));
  }

  /** A signaller at the point where it fixes how many waiters it unblocks. */
  ghost predicate Fixing(p: Pc)
  {
    p.Signalling? && p.g.SMoving? && (p.g.m.MClosed? || p.g.m.MMove?)
  }

  ghost predicate ToAll(p: Pc)
    requires Fixing(p)
  {
    p.g.m.all
  }

  /** A broadcast takes in every registered waiter that is not owed a wakeup yet,
      a signal exactly one of them, and there is always one to take. */
  lemma FixesCount(s: State, t: nat, c: Choice)
    requires Inv(s) && t < |s.pcs| && Fixing(s.pcs[t])
    ensures var r := Step(s, t, c);
            && Waiters(r) == Waiters(s) > s.v.toUnblock
            && r.v.toUnblock == (if ToAll(s.pcs[t]) then Waiters(s) else s.v.toUnblock + 1)
            && r.v.issued - s.v.issued == r.v.toUnblock - s.v.toUnblock
  {
    IsAlone(s, t);
    assert Balanced(s.v, Total(s.pcs)) && Local(s.v, s.pcs[t]);
    TotalShifted(s.pcs, t, Step(s, t, c).pcs[t]);
    MoveFixes(s.v, s.pcs[t].g.m, Total(s.pcs), Total(Step(s, t, c).pcs));
  }

  lemma MoveFixes(v: Vars, p: MovePc, k: Totals, k': Totals)
    requires Balanced(v, k) && LocalMove(v, p) && (p.MClosed? || p.MMove?)
    requires k.moving == k.clearing == 0
    requires k'.waiters == k.waiters + Registered(ActMove(v, p).1)
    ensures var w := ActMove(v, p).0;
            && k'.waiters == k.waiters > v.toUnblock
            && w.toUnblock == (if p.all then k.waiters else v.toUnblock + 1)
            && w.issued - v.issued == w.toUnblock - v.toUnblock
  {
  }

  // ----- a broadcast is atomic -----

  ghost function Members(s: State): set<int>
  {
    set u: int | 0 <= u < |s.pcs| && Registered(s.pcs[u]) > 0
  }

  /** Every registered waiter is owed a wakeup, as a broadcast leaves it. */
  ghost predicate CaughtUp(s: State) { Waiters(s) == s.v.toUnblock > 0 }

  lemma ActCaughtUp(v: Vars, p: Pc, c: Choice, k: Totals, k': Totals)
    requires Balanced(v, k) && Local(v, p) && Alone(k, Weigh(p))
    requires Shifted(k, Weigh(p), Weigh(Act(v, p, c).1), k')
    requires k.waiters == v.toUnblock > 0
    ensures k'.waiters == Act(v, p, c).0.toUnblock
    ensures Registered(Act(v, p, c).1) <= Registered(p)
  {
  }

  lemma StepCaughtUp(s: State, t: nat, c: Choice)
    requires Inv(s) && CaughtUp(s)
    ensures var r := Step(s, t, c);
            Waiters(r) == r.v.toUnblock && Members(r) <= Members(s)
  {
    if t < |s.pcs| {
      var q := Act(s.v, s.pcs[t], c).1;
      TotalShifted(s.pcs, t, q);
      IsAlone(s, t);
      ActCaughtUp(s.v, s.pcs[t], c, Total(s.pcs), Total(s.pcs[t := q]));
    }
  }

  /** From the moment a broadcast has fixed its count, and for as long as one of
      its waiters is still to do its cleanup, each step at most takes waiters out:
      no thread registers, so none can take a wakeup meant for those waiters. */
  lemma {:induction false} NoOvertaking(s: State, schedule: Schedule, i: nat)
    requires Inv(s) && CaughtUp(s)
    requires forall j :: 0 <= j <= |schedule| ==> Waiters(Run(s, schedule[..j])) > 0
    requires i <= |schedule|
    ensures Inv(Run(s, schedule[..i])) && CaughtUp(Run(s, schedule[..i]))
    ensures i > 0 ==> Members(Run(s, schedule[..i])) <= Members(Run(s, schedule[..i - 1]))
  {
    RunInv(s, schedule[..i]);
    if i == 0 {
      assert schedule[..0] == [];
    } else {
      NoOvertaking(s, schedule, i - 1);
      assert schedule[..i][..i - 1] == schedule[..i - 1];
      StepCaughtUp(Run(s, schedule[..i - 1]), schedule[i - 1].0, schedule[i - 1].1);
    }
  }

  // ----- two-level locking -----

  /** The thread is using nWaitersBlocked: between its read and its write. */
  ghost predicate UsesBlocked(p: Pc)
  {
    match p
    case Waiting(w) => w.WRead? || w.WWrite?
    case Cleaning(WReset(r)) => r.RRead? || r.RWrite?
    case Signalling(SMoving(_)) => true
    case _ => false
  }

  /** No two threads use nWaitersBlocked at once, and its value is the one last
      read when it is written: no update is lost. */
  lemma BlockedExclusive(s: State, t: nat, u: nat)
    requires Inv(s) && t < |s.pcs| && u < |s.pcs| && t != u
    requires UsesBlocked(s.pcs[t])
    ensures !UsesBlocked(s.pcs[u])
  {
    SumTwo(s.pcs, t, u, GateHold);
    SumTwo(s.pcs, t, u, MtxHold);
    assert Balanced(s.v, Total(s.pcs)) && Local(s.v, s.pcs[t]) && Local(s.v, s.pcs[u]);
  }

  /** Waiting for the gate, for the mutex, or for a wakeup that is not there. */
  ghost predicate Blocked(v: Vars, p: Pc)
  {
    match p
    case Waiting(w) => (w.WGate? && v.gate == 0) || (w.WBlock? && v.queue == 0)
    case Cleaning(WMtx(_)) => v.mtx
    case Cleaning(WReset(r)) => r.RGate? && v.gate == 0
    case Signalling(g) => (g.SMtx? && v.mtx) || (g.SGate? && v.gate == 0)
    case Destroying(d) => d.DGate? && v.gate == 0
    case _ => false
  }

  /** A blocked thread cannot move unless it gives up; any other thread in the
      middle of a call can. */
  lemma BlockedMeansStuck(v: Vars, p: Pc, c: Choice)
    requires p != Idle && p != Destroying(DDone)
    ensures Blocked(v, p) && !c.expire ==> Act(v, p, c) == (v, p)
    ensures !Blocked(v, p) ==> Act(v, p, c).1 != p
  {
  }

  /** Holding the gate and not the mutex: such a thread never blocks. */
  lemma GateHolderRuns(v: Vars, p: Pc)
    requires GateHold(p) > 0 && MtxHold(p) == 0
    ensures !Blocked(v, p)
  {
  }

  /** A thread that waits for the gate while it holds the mutex waits for a thread
      that has the gate, does not need the mutex and is not blocked. */
  lemma GateWaitIsSafe(s: State, t: nat) returns (h: nat)
    requires Inv(s) && t < |s.pcs| && MtxHold(s.pcs[t]) > 0 && Blocked(s.v, s.pcs[t])
    ensures h < |s.pcs| && h != t && GateHold(s.pcs[h]) > 0 && MtxHold(s.pcs[h]) == 0
    ensures !Blocked(s.v, s.pcs[h])
  {
    assert Balanced(s.v, Total(s.pcs)) && Local(s.v, s.pcs[t]);
    h := SumWitness(s.pcs, GateHold);
    if h != t { SumTwo(s.pcs, t, h, MtxHold); }
    GateHolderRuns(s.v, s.pcs[h]);
  }

  /** Moves a thread that holds the gate without the mutex still has to make
      before it has posted it. */
  ghost function MovesToPost(p: Pc): nat
  {
    match p
    case Waiting(WRead) => 3
    case Waiting(WWrite(_)) => 2
    case Destroying(DTry) => 2
    case _ => 1
  }

  /** Such a holder comes closer to posting the gate with every move of its own,
      whatever the others do, as long as the mutex is taken. */
  lemma GateHolderPosts(v: Vars, p: Pc, c: Choice)
    requires GateHold(p) > 0 && MtxHold(p) == 0 && v.mtx
    ensures var (r, q) := Act(v, p, c);
            if MovesToPost(p) == 1 then r.gate == v.gate + 1 && GateHold(q) == 0
            else r.gate == v.gate && GateHold(q) > 0 && MtxHold(q) == 0 && MovesToPost(q) < MovesToPost(p)
  {
  }

  /** There is never a deadlock: if some thread waits for the gate or the mutex,
      some thread in the middle of a call can move, unless a destroyer has
      already retired the condition variable. */
  lemma NoDeadlock(s: State, t: nat) returns (h: nat)
    requires Inv(s) && t < |s.pcs| && Blocked(s.v, s.pcs[t]) && s.pcs[t] != Waiting(WBlock)
    requires forall u :: 0 <= u < |s.pcs| ==> s.pcs[u] != Destroying(DDone)
    ensures h < |s.pcs| && s.pcs[h] != Idle && !Blocked(s.v, s.pcs[h])
  {
    assert Balanced(s.v, Total(s.pcs));
    if s.v.mtx {
      h := SumWitness(s.pcs, MtxHold);
      if Blocked(s.v, s.pcs[h]) {
        h := GateWaitIsSafe(s, h);
      }
    } else {
      h := UnblockedWithoutMutex(s);
    }
  }

  lemma UnblockedWithoutMutex(s: State) returns (h: nat)
    requires Inv(s) && !s.v.mtx && s.v.gate == 0
    ensures h < |s.pcs| && s.pcs[h] != Idle && !Blocked(s.v, s.pcs[h])
  {
    var k := Total(s.pcs);
    assert Balanced(s.v, k);
    if s.v.toUnblock == 0 {
      h := SumWitness(s.pcs, GateHold);
      SumAt(s.pcs, h, MtxHold);
      GateHolderRuns(s.v, s.pcs[h]);
    } else if s.v.queue > 0 {
      h := SumWitness(s.pcs, Registered);
      SumAt(s.pcs, h, MtxHold);
    } else {
      h := SumWitness(s.pcs, InFlight);
      SumAt(s.pcs, h, MtxHold);
    }
  }

  // ----- counters stay in range -----

  /** With fewer than INT_MAX/2 registered waiters no counter is out of the range of
      a 32-bit long, whatever the run has been. */
  lemma NoOverflow(n: nat, schedule: Schedule)
    requires Waiters(Reach(n, schedule)) < GONE_LIMIT
    ensures var v := Reach(n, schedule).v;
            && 0 <= v.blocked <= INT_MAX
            && 0 <= v.gone <= GONE_LIMIT
            && 0 <= v.toUnblock <= INT_MAX
  {
    ReachInv(n, schedule);
    InRange(Reach(n, schedule));
  }

  lemma InRange(s: State)
    requires Inv(s) && Waiters(s) < GONE_LIMIT
    ensures 0 <= s.v.blocked <= INT_MAX && 0 <= s.v.gone <= GONE_LIMIT && 0 <= s.v.toUnblock <= INT_MAX
  {
    var k := Total(s.pcs);
    assert Balanced(s.v, k);
    if s.v.mtx {
      var t := SumWitness(s.pcs, MtxHold);
      IsAlone(s, t);
      assert Local(s.v, s.pcs[t]);
      InRangeWithMutex(s.v, s.pcs[t], k);
    } else {
      OutsideMutex(s);
    }
  }

  lemma InRangeWithMutex(v: Vars, p: Pc, k: Totals)
    requires Balanced(v, k) && Local(v, p) && Alone(k, Weigh(p)) && MtxHold(p) > 0
    requires k.waiters < GONE_LIMIT
    ensures 0 <= v.blocked <= INT_MAX && v.toUnblock <= INT_MAX
  {
  }

  /** Without the mutex held nothing is half moved or half cleared. */
  lemma OutsideMutex(s: State)
    requires Inv(s) && !s.v.mtx
    ensures var k := Total(s.pcs); k.moving == 0 && k.clearing == 0 && k.resetting == 0
  {
    assert Balanced(s.v, Total(s.pcs));
    if Sum(s.pcs, Moving) > 0 {
      var t := SumWitness(s.pcs, Moving);
      SumAt(s.pcs, t, MtxHold);
    }
    if Sum(s.pcs, Clearing) > 0 {
      var t := SumWitness(s.pcs, Clearing);
      SumAt(s.pcs, t, MtxHold);
    }
    if Sum(s.pcs, Resetting) > 0 {
      var t := SumWitness(s.pcs, Resetting);
      SumAt(s.pcs, t, MtxHold);
    }
  }

  /** Whenever mtxUnblockLock is free the three counters together count the
      registered waiters, and fewer than INT_MAX/2 of them are gone. */
  lemma CountersCountWaiters(s: State)
    requires Inv(s) && !s.v.mtx
    ensures s.v.blocked + s.v.toUnblock - s.v.gone == Waiters(s)
    ensures s.v.blocked >= s.v.gone >= 0 && s.v.gone < GONE_LIMIT
    ensures s.v.toUnblock > 0 ==> s.v.gone == 0
  {
    assert Balanced(s.v, Total(s.pcs));
    OutsideMutex(s);
  }

  // ----- destroy -----

  /** pthread_cond_destroy succeeds exactly when no waiter is registered; then no
      thread owes a gate post, none is about to use the counters, and no other
      thread holds mtxUnblockLock. */
  lemma DestroySafe(s: State, t: nat, c: Choice)
    requires Inv(s) && t < |s.pcs| && s.pcs[t] == Destroying(DCheck)
    ensures Step(s, t, c).pcs[t] == Destroying(DDone) <==> Waiters(s) == 0
    ensures s.v.toUnblock == 0 && s.v.gate == 0
    ensures forall u :: 0 <= u < |s.pcs| && u != t ==> GateHold(s.pcs[u]) == MtxHold(s.pcs[u]) == 0
  {
    assert Balanced(s.v, Total(s.pcs));
    IsAlone(s, t);
    forall u | 0 <= u < |s.pcs| && u != t ensures GateHold(s.pcs[u]) == MtxHold(s.pcs[u]) == 0 {
      SumTwo(s.pcs, t, u, GateHold);
      SumTwo(s.pcs, t, u, MtxHold);
    }
  }

  /** Who can still come to the condition variable once destroy has found no waiter:
      a thread at the very start of a call, or a signaller that has decided and is
      about to post its tokens. */
  ghost predicate Outside(p: Pc)
  {
    p == Idle || p == Waiting(WGate) || p == Destroying(DGate) || (p.Signalling? && p.g.SMtx?)
  }

  ghost predicate Posting(p: Pc) { p.Signalling? && p.g.SPost? }

  lemma DestroyLeaves(s: State, t: nat, u: nat)
    requires Inv(s) && t < |s.pcs| && s.pcs[t] == Destroying(DCheck) && Waiters(s) == 0
    requires u < |s.pcs| && u != t
    ensures Outside(s.pcs[u]) || Posting(s.pcs[u])
    ensures Posting(s.pcs[u]) <==> InFlight(s.pcs[u]) > 0
  {
    SumTwo(s.pcs, t, u, GateHold);
    SumTwo(s.pcs, t, u, MtxHold);
    SumAt(s.pcs, u, Registered);
    assert Balanced(s.v, Total(s.pcs)) && Local(s.v, s.pcs[u]);
  }

  /** Such a signaller is left only when waits have expired: if none has, destroy
      finds every wakeup consumed and every other thread outside. */
  lemma DestroyLeavesNoPost(n: nat, schedule: Schedule, t: nat, u: nat)
    requires forall i :: 0 <= i < |schedule| ==> !schedule[i].1.expire
    requires var s := Reach(n, schedule);
             t < |s.pcs| && s.pcs[t] == Destroying(DCheck) && Waiters(s) == 0 && u < |s.pcs| && u != t
    ensures Outside(Reach(n, schedule).pcs[u]) && Wakeups(Reach(n, schedule)) == 0
  {
    var s := Reach(n, schedule);
    ReachInv(n, schedule);
    ExactWithoutExpiry(n, schedule);
    NoLostSignal(n, schedule);
    DestroyLeaves(s, t, u);
    SumAt(s.pcs, u, InFlight);
  }
}
