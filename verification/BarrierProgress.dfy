/** The barrier never jams: it blocks its callers only for want of arrivals, and a
    generation that is complete gets out. */
module BarrierProgress {
  import opened Counting
  import opened Barrier
  import BarrierTheorems
  import McsLock
  import McsTheorems

  ghost predicate Moves(s: State, u: nat)
  {
    u < |s.ts| && !s.ts[u].pc.Out? && Step(s, u) != s
  }

  /** The node belongs to the operation of a thread in the barrier. */
  lemma UserOf(s: State, a: nat) returns (u: nat)
    requires Inv(s) && a < |s.lock.nodes| && McsTheorems.Busy(s.lock.nodes[a].pc)
    ensures u < |s.ts| && s.ts[u].pc in {Enter, Transfer, Release, Closing}
    ensures NodeOf(u, Proxy(s), s.ts[u].pc) == a
  {
    if a == Proxy(s) {
      u := SumWitness(s.ts, ClosingW);
    } else {
      u := a;
      assert ThreadOk(s, u);
    }
  }

  /** A thread whose node owns the lock can move: it is between two of its calls. */
  lemma OwnerMoves(s: State, t: nat)
    requires Inv(s) && t < |s.ts| && s.lock.nodes[t].pc == McsLock.Owner
    ensures Moves(s, t)
  {
    assert ThreadOk(s, t);
    if s.ts[t].pc == Last || s.ts[t].pc == NotLast {
      LockNode(s, t);
      assert Step(s, t).lock.nodes[t].pc != s.lock.nodes[t].pc;
    }
  }

  /** While a thread is in the lock code, some thread in the barrier can move, or the
      lock is kept for a generation that drains. */
  lemma LockMoves(s: State, t: nat) returns (u: nat)
    requires Inv(s) && t < |s.ts| && s.ts[t].pc in {Enter, Transfer, Release, Closing}
    ensures Moves(s, u) || s.lock.nodes[Proxy(s)].pc == McsLock.Owner
  {
    assert ThreadOk(s, t);
    TotalFits(s.ts, t);
    var a := McsTheorems.LockNotStuck(s.lock, NodeOf(t, Proxy(s), s.ts[t].pc));
    if s.lock.nodes[a].pc != McsLock.Owner {
      u := UserOf(s, a);
      assert Step(s, u).lock == McsLock.Step(s.lock, a, McsLock.CallNothing);
    } else {
      u := a;
      if a != Proxy(s) { OwnerMoves(s, a); }
    }
  }

  /** While the lock is owned through proxynode the generation drains, and a thread of
      it can move. */
  lemma DrainMoves(s: State) returns (u: nat)
    requires Inv(s) && s.lock.nodes[Proxy(s)].pc == McsLock.Owner
    ensures Moves(s, u)
  {
    var k := Total(s.ts);
    assert Counted(s.v, k) && Phase(s.v, k);
    if k.post > 0 {
      u := SumWitness(s.ts, PostW);
    } else if k.close > 0 {
      u := SumWitness(s.ts, CloseW);
      LockNode(s, u);
      assert Step(s, u).lock.nodes[Proxy(s)].pc != s.lock.nodes[Proxy(s)].pc;
    } else if k.cross > 0 {
      u := SumWitness(s.ts, CrossW);
    } else {
      u := SumWitness(s.ts, InsideW);
      InsideDraining(s, u);
    }
  }

  /** Of a generation that drains through proxynode every thread is at the post, at
      the semaphore or past it. */
  lemma InsideDraining(s: State, u: nat)
    requires Inv(s) && s.lock.nodes[Proxy(s)].pc == McsLock.Owner
    requires u < |s.ts| && InsideW(s.ts[u]) > 0
    ensures s.ts[u].pc in {Post, Wait, Cross}
  {
    assert ThreadOk(s, u);
    TotalFits(s.ts, u);
    if McsLock.Owns(s.lock.nodes[u].pc) { McsTheorems.Exclusion(s.lock, u, Proxy(s)); }
    McsTheorems.ReleasesFinished(s.lock, Proxy(s), u);
  }

  /** Some thread in the barrier can move whenever some thread is in it, other than
      waiting for the semaphore in a generation that still fills. */
  lemma NotStuck(s: State, t: nat) returns (u: nat)
    requires Inv(s) && t < |s.ts| && !s.ts[t].pc.Out? && (s.ts[t].pc == Wait ==> s.v.draining)
    ensures Moves(s, u)
  {
    assert ThreadOk(s, t);
    u := t;
    match s.ts[t].pc {
      case Enter | Transfer | Release | Closing => u := LockMoves(s, t);
      case Arrive | Last | NotLast => OwnerMoves(s, t);
      case Wait => u := WaitMoves(s, t);
      case Close => CloserHasProxy(s, t);
      case Post | Cross => assert Step(s, t).ts[t].pc != s.ts[t].pc;
    }
    if !Moves(s, u) { u := DrainMoves(s); }
  }

  lemma WaitMoves(s: State, t: nat) returns (u: nat)
    requires Inv(s) && t < |s.ts| && s.ts[t].pc == Wait && s.v.draining
    ensures Moves(s, u) || s.lock.nodes[Proxy(s)].pc == McsLock.Owner
  {
    u := t;
    var k := Total(s.ts);
    assert Phase(s.v, k) && ProxyUse(s.v.draining, k, s.lock.nodes[Proxy(s)].pc);
    if k.last > 0 {
      u := SumWitness(s.ts, LastW);
      assert ThreadOk(s, u);
      OwnerMoves(s, u);
    } else if k.transfer > 0 {
      u := SumWitness(s.ts, TransferW);
      u := LockMoves(s, u);
    }
  }

  /** If no thread in the barrier can move, all of them wait at the semaphore for a
      generation that is short of threads: the barrier holds callers back for nothing
      but missing arrivals. */
  lemma BlocksOnlyForArrivals(threads: nat, count: nat, schedule: seq<nat>)
    requires count >= 1 && NobodyMoves(BarrierTheorems.Reach(threads, count, schedule))
    ensures ShortOfArrivals(BarrierTheorems.Reach(threads, count, schedule))
  {
    BarrierTheorems.ReachInv(threads, count, schedule);
    StuckIsShort(BarrierTheorems.Reach(threads, count, schedule));
  }

  ghost predicate NobodyMoves(s: State)
  {
    forall u :: 0 <= u < |s.ts| ==> !Moves(s, u)
  }

  ghost predicate ShortOfArrivals(s: State)
  {
    && (forall t :: 0 <= t < |s.ts| ==> s.ts[t].pc.Out? || s.ts[t].pc == Wait)
    && s.v.gen * s.v.initial <= s.v.arrivals < (s.v.gen + 1) * s.v.initial
  }

  lemma StuckIsShort(s: State)
    requires Inv(s) && NobodyMoves(s)
    ensures ShortOfArrivals(s)
  {
    forall t | 0 <= t < |s.ts| ensures s.ts[t].pc.Out? || (s.ts[t].pc == Wait && !s.v.draining) {
      if !s.ts[t].pc.Out? && (s.ts[t].pc == Wait ==> s.v.draining) { var u := NotStuck(s, t); }
    }
    NobodyInside(s);
  }

  lemma NobodyInside(s: State)
    requires Inv(s) && forall t :: 0 <= t < |s.ts| ==> s.ts[t].pc.Out? || (s.ts[t].pc == Wait && !s.v.draining)
    ensures s.v.gen * s.v.initial <= s.v.arrivals < (s.v.gen + 1) * s.v.initial
  {
    var k := Total(s.ts);
    assert Counted(s.v, k) && Phase(s.v, k);
    assert (s.v.gen + 1) * s.v.initial == s.v.gen * s.v.initial + s.v.initial;
    if s.v.draining {
      SumZero(s.ts, InsideW);
      SumZero(s.ts, LastW);
      SumZero(s.ts, TransferW);
      SumZero(s.ts, PostW);
      SumZero(s.ts, CloseW);
    }
  }

  // ----- a generation that drains gets out -----

  /** Moves a thread of a draining generation still has to make before it is out. */
  function MovesLeft(th: Thread): nat
  {
    match th.pc
    case Post | Wait => 2
    case Cross => 1
    case _ => 0
  }

  /** Every move of a thread of a draining generation brings that generation closer to
      its end, and no other thread can set it back: after at most twice as many moves
      as it has threads all of them have left. */
  lemma DrainProgress(s: State, t: nat)
    requires Inv(s) && s.lock.nodes[Proxy(s)].pc == McsLock.Owner && t < |s.ts|
    ensures var r := Step(s, t);
            && |r.ts| == |s.ts|
            && Sum(r.ts, MovesLeft) ==
                 Sum(s.ts, MovesLeft) - (if InsideW(s.ts[t]) > 0 && r != s then 1 else 0)
  {
    var r := Step(s, t);
    assert ThreadOk(s, t);
    if s.lock.nodes[t].pc == McsLock.Owner { McsTheorems.Exclusion(s.lock, t, Proxy(s)); }
    if InsideW(s.ts[t]) > 0 { InsideDraining(s, t); }
    if UsesLock(s.ts[t].pc) { LockNode(s, t); }
    SumUpdate(s.ts, t, r.ts[t], MovesLeft);
  }
}
