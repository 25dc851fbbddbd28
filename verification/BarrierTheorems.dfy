/** What the barrier guarantees over any run: generations do not mix, nobody gets
    through early, and one thread of each generation is told to be the serial one. */
module BarrierTheorems {
  import opened Counting
  import opened Barrier
  import McsLock
  import McsTheorems

  ghost function Reach(threads: nat, count: nat, schedule: seq<nat>): State
  {
    Run(Init(threads, count), schedule)
  }

  lemma ReachInv(threads: nat, count: nat, schedule: seq<nat>)
    requires count >= 1
    ensures Inv(Reach(threads, count, schedule))
  {
    InitInv(threads, count);
    RunInv(Init(threads, count), schedule);
  }

  /** A thread past the semaphore: all threads of its own generation have arrived,
      and none of a later one. */
  lemma NobodyLeavesEarly(s: State, t: nat)
    requires Inv(s) && t < |s.ts| && s.ts[t].pc == Cross
    ensures s.ts[t].round == s.v.gen
    ensures s.v.arrivals == (s.ts[t].round + 1) * s.v.initial
  {
    assert ThreadOk(s, t);
    TotalFits(s.ts, t);
    assert (s.v.gen + 1) * s.v.initial == s.v.gen * s.v.initial + s.v.initial;
  }

  /** An arrival is counted only when every thread of every earlier generation has
      incremented the height again, and it is one of the next initial arrivals. */
  lemma GenerationsDoNotMix(s: State, t: nat)
    requires Inv(s) && t < |s.ts| && s.ts[t].pc == Arrive
    ensures var r := Step(s, t);
            && r.ts[t].round == s.v.gen
            && s.v.leaves == s.v.gen * s.v.initial
            && s.v.gen * s.v.initial < r.v.arrivals <= (s.v.gen + 1) * s.v.initial
            && (r.ts[t].pc == Last <==> r.v.arrivals == (s.v.gen + 1) * s.v.initial)
  {
    assert ThreadOk(s, t);
    OwnerAlone(s, t);
    assert (s.v.gen + 1) * s.v.initial == s.v.gen * s.v.initial + s.v.initial;
  }

  /** The height is decremented by a plain access and incremented by an interlocked
      one; the two never meet. */
  lemma HeightNotRaced(s: State, t: nat, u: nat)
    requires Inv(s) && t < |s.ts| && u < |s.ts| && s.ts[t].pc == Arrive
    ensures s.ts[u].pc == Arrive ==> u == t
    ensures s.ts[u].pc != Cross
  {
    assert ThreadOk(s, t) && ThreadOk(s, u);
    OwnerAlone(s, t);
    TotalFits(s.ts, u);
    if s.ts[u].pc == Arrive { McsTheorems.Exclusion(s.lock, t, u); }
  }

  /** The thread told to be the serial one is the one whose increment completes a
      generation, so one of each initial threads. */
  lemma OneSerialPerGeneration(s: State, t: nat)
    requires Inv(s) && t < |s.ts| && s.ts[t].pc == Cross
    ensures var r := Step(s, t);
            && r.v.leaves == s.v.leaves + 1
            && r.ts[t].pc == (if r.v.leaves == (s.v.gen + 1) * s.v.initial then Close else Out(false))
            && (r.ts[t].pc == Close <==> r.v.gen == s.v.gen + 1)
  {
    TotalFits(s.ts, t);
    assert (s.v.gen + 1) * s.v.initial == s.v.gen * s.v.initial + s.v.initial;
  }

  /** While a generation fills, the semaphore is empty and every complete
      generation has produced its one serial thread, returned or about to. */
  lemma BetweenGenerations(threads: nat, count: nat, schedule: seq<nat>)
    requires count >= 1
    ensures var s := Reach(threads, count, schedule);
            && (!s.v.draining ==> s.v.sem == 0 && s.v.leaves == s.v.gen * s.v.initial)
            && s.v.serials + Sum(s.ts, CloseW) + Sum(s.ts, ClosingW) == s.v.gen
            && s.v.gen * s.v.initial <= s.v.leaves <= s.v.arrivals <= (s.v.gen + 1) * s.v.initial
  {
    ReachInv(threads, count, schedule);
    var s := Reach(threads, count, schedule);
    assert Counted(s.v, Total(s.ts)) && Phase(s.v, Total(s.ts));
    assert (s.v.gen + 1) * s.v.initial == s.v.gen * s.v.initial + s.v.initial;
  }

  /** proxynode is written by a transfer only when nothing uses it: its previous
      release is over. The transfer code itself does not look. */
  lemma ProxyFreeWhenOverwritten(s: State, t: nat)
    requires Inv(s) && t < |s.ts| && s.ts[t].pc == Last
    ensures s.lock.nodes[Proxy(s)].pc == McsLock.Free
    ensures Step(s, t).ts[t].pc == Transfer
  {
    assert ThreadOk(s, t);
    OwnerAlone(s, t);
    LockNode(s, t);
  }

  /** The lock taken by the last thread in is released by the last thread out,
      and by nobody before. */
  lemma LastOutReleases(s: State, t: nat)
    requires Inv(s) && t < |s.ts| && s.ts[t].pc == Close
    ensures s.lock.nodes[Proxy(s)].pc == McsLock.Owner && Sum(s.ts, InsideW) == 0
    ensures Step(s, t).lock.nodes[Proxy(s)].pc.Rel?
  {
    CloserHasProxy(s, t);
    TotalFits(s.ts, t);
    LockNode(s, t);
  }

  /** Once the semaphore has been posted for a generation, there is a token for
      every thread of it that still has to pass: nobody is left behind. */
  lemma TokenForEveryWaiter(s: State, t: nat)
    requires Inv(s) && t < |s.ts| && s.ts[t].pc == Wait
    requires s.v.draining && Sum(s.ts, LastW) == Sum(s.ts, TransferW) == Sum(s.ts, PostW) == 0
    ensures s.v.sem > 0 && Step(s, t).ts[t].pc == Cross
  {
    var k := Total(s.ts);
    assert Counted(s.v, k) && Phase(s.v, k);
    TotalFits(s.ts, t);
    var others := s.ts[t := Thread(Out(false), 0)];
    SumUpdate(s.ts, t, Thread(Out(false), 0), InsideW);
    SumUpdate(s.ts, t, Thread(Out(false), 0), CrossW);
    SumMonotone(others, CrossW, InsideW);
  }
}
