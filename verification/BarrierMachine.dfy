/** The barrier as the program keeps it, on top of the lock it keeps in place. */
module BarrierMachine {
  import opened Barrier
  import McsLock
  import McsMachine

  class Bar {
    var nCurrentBarrierHeight: int
    const nInitialBarrierHeight: int
    var semBarrierBreeched: nat
    const lock: McsMachine.Lock
    var draining: bool                                   // history, like the next five
    var gen: nat
    var base: nat
    var arrivals: nat
    var leaves: nat
    var serials: nat
    var ts: seq<Thread>

    ghost function Fields(): Vars
      reads this
    {
      Vars(nCurrentBarrierHeight, nInitialBarrierHeight, semBarrierBreeched, draining, gen, base,
           arrivals, leaves, serials)
    }

    ghost function Abs(): State
      reads this, lock, lock.nodes
    {
      State(Fields(), lock.Abs(), ts)
    }

    ghost predicate Valid()
      reads this, lock, lock.nodes
    {
      Inv(Abs())
    }

    constructor (threads: nat, count: nat)
      requires count >= 1
      ensures fresh(lock) && fresh(lock.nodes) && Valid() && Abs() == Init(threads, count)
    {
      nCurrentBarrierHeight, nInitialBarrierHeight, semBarrierBreeched := count, count, 0;
      draining, gen, base, arrivals, leaves, serials := false, 0, 0, 0, 0, 0;
      lock := new McsMachine.Lock(threads + 1);
      ts := Idlers(threads);
      new;
      assert Abs() == Init(threads, count);
      InitInv(threads, count);
    }

    /** A step on the barrier's own fields (pthread_barrier_wait.c:64-101). */
    method Field(th: Thread) returns (r: Thread)
      modifies this
      ensures ts == old(ts) && (Fields(), r) == Act(old(Fields()), th)
    {
      r := th;
      match th.pc {
        case Arrive =>
          nCurrentBarrierHeight := nCurrentBarrierHeight - 1;
          arrivals := arrivals + 1;
          draining := nCurrentBarrierHeight == 0;
          r := Thread(if nCurrentBarrierHeight == 0 then Last else NotLast, gen);
        case Post =>
          if nInitialBarrierHeight > 1 {
            semBarrierBreeched := semBarrierBreeched + (nInitialBarrierHeight - 1);
          }
          r := th.(pc := Cross);
        case Wait =>
          if semBarrierBreeched > 0 {
            semBarrierBreeched := semBarrierBreeched - 1;
            r := th.(pc := Cross);
          }
        case Cross =>
          nCurrentBarrierHeight := nCurrentBarrierHeight + 1;
          leaves := leaves + 1;
          if nCurrentBarrierHeight == nInitialBarrierHeight && nInitialBarrierHeight >= 0 {
            gen, base := gen + 1, base + nInitialBarrierHeight;
            r := th.(pc := Close);
          } else {
            r := th.(pc := Out(false));
          }
        case _ =>
      }
    }

    /** A step of the lock code for thread t. */
    method LockStep(t: nat, th: Thread) returns (r: Thread)
      requires lock.Valid() && |ts| + 1 == lock.nodes.Length && t < |ts| && UsesLock(th.pc)
      modifies this, lock, lock.nodes
      ensures var n := NodeOf(t, |ts|, th.pc);
              && ts == old(ts)
              && lock.Abs() == McsLock.Step(old(lock.Abs()), n, CallOf(|ts|, th.pc))
              && r == th.(pc := AfterLock(th.pc, lock.Abs().nodes[n].pc))
              && Fields() == Around(old(Fields()), th.pc, r.pc)
    {
      var n := NodeOf(t, |ts|, th.pc);
      lock.Advance(n, CallOf(|ts|, th.pc));
      r := th.(pc := AfterLock(th.pc, lock.nodes[n].pc));
      if th.pc == Close {
        draining := false;
      } else if th.pc == Closing && r.pc != Closing {
        serials := serials + 1;
      }
    }

    /** The next step of thread t. */
    method Advance(t: nat)
      requires Valid()
      modifies this, lock, lock.nodes
      ensures Valid() && Abs() == Step(old(Abs()), t)
    {
      ghost var before := Abs();
      if t < |ts| {
        var th := ts[t];
        if UsesLock(th.pc) { th := LockStep(t, th); } else { th := Field(th); }
        ts := ts[t := th];
      }
      assert Abs() == Step(before, t);
      StepInv(before, t);
    }

    /** Threads moving in the order the schedule gives. */
    method Execute(schedule: seq<nat>)
      requires Valid()
      modifies this, lock, lock.nodes
      ensures Valid() && Abs() == Run(old(Abs()), schedule)
    {
      for i := 0 to |schedule|
        invariant Valid() && Abs() == Run(old(Abs()), schedule[..i])
      {
        Advance(schedule[i]);
        assert schedule[..i + 1][..i] == schedule[..i];
      }
      assert schedule[..|schedule|] == schedule;
    }
  }
}
