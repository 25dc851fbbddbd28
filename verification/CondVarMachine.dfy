/** The condition variable as the program keeps it: fields updated in place, one
    statement of one thread at a time. */
module CondVarMachine {
  import opened CondVar

  class Cond {
    var nWaitersBlocked: int
    var nWaitersGone: int
    var nWaitersToUnblock: int
    var semBlockLock: nat
    var semBlockQueue: nat
    var mtxUnblockLock: bool
    ghost var issued: nat
    ghost var woken: nat
    var pcs: seq<Pc>

    ghost function Abs(): State
      reads this
    {
      State(Vars(nWaitersBlocked, nWaitersGone, nWaitersToUnblock, semBlockLock, semBlockQueue,
                 mtxUnblockLock, issued, woken), pcs)
    }

    ghost predicate Valid()
      reads this
    {
      Inv(Abs())
    }

    constructor (threads: nat)
      ensures Valid() && Abs() == Init(threads)
    {
      nWaitersBlocked, nWaitersGone, nWaitersToUnblock := 0, 0, 0;
      semBlockLock, semBlockQueue, mtxUnblockLock := 1, 0, false;
      issued, woken := 0, 0;
      pcs := Idlers(threads);
      new;
      assert Abs() == Init(threads);
      InitInv(threads);
    }

    /** The next statement of thread t. */
    method Advance(t: nat, c: Choice)
      requires Valid()
      modifies this
      ensures Valid() && Abs() == Step(old(Abs()), t, c)
    {
      ghost var before := Abs();
      if t < |pcs| {
        var q;
        match pcs[t] {
          case Idle => q := ActIdle(Vars(0, 0, 0, 0, 0, false, 0, 0), c).1;
          case Waiting(w) => q := TimedWait(w, c);
          case Cleaning(x) => q := WaitCleanup(x);
          case Signalling(g) => q := Unblock(g);
          case Destroying(d) => q := Destroy(d);
        }
        pcs := pcs[t := q];
      }
      assert Abs() == Step(before, t, c);
      StepInv(before, t, c);
    }

    method TimedWait(p: WaitPc, c: Choice) returns (q: Pc)
      modifies this
      ensures pcs == old(pcs) && (Abs().v, q) == ActWait(old(Abs().v), p, c)
    {
      q := Waiting(p);
      match p {
        case WGate =>
          if c.expire {
            q := Idle;
          } else if semBlockLock > 0 {
            semBlockLock := semBlockLock - 1;
            q := Waiting(WRead);
          }
        case WRead => q := Waiting(WWrite(nWaitersBlocked));
        case WWrite(b) => nWaitersBlocked := b + 1; q := Waiting(WPost);
        case WPost => semBlockLock := semBlockLock + 1; q := Waiting(WBlock);
        case WBlock =>
          if c.expire {
            q := Cleaning(WMtx(false));
          } else if semBlockQueue > 0 {
            semBlockQueue := semBlockQueue - 1;
            q := Cleaning(WMtx(true));
          }
      }
    }

    method WaitCleanup(p: CleanPc) returns (q: Pc)
      modifies this
      ensures pcs == old(pcs) && (Abs().v, q) == ActClean(old(Abs().v), p)
    {
      q := Cleaning(p);
      match p {
        case WMtx(took) =>
          if !mtxUnblockLock {
            mtxUnblockLock := true;
            q := Cleaning(WCleanup(took));
          }
        case WCleanup(took) =>
          woken := if took then woken + 1 else woken;
          var nSignalsWasLeft := nWaitersToUnblock;
          if nSignalsWasLeft != 0 {
            nWaitersToUnblock := nWaitersToUnblock - 1;
            q := Cleaning(WUnlock(nSignalsWasLeft));
          } else {
            nWaitersGone := nWaitersGone + 1;
            q := Cleaning(if nWaitersGone == GONE_LIMIT then WReset(RGate) else WUnlock(0));
          }
        case WUnlock(left) =>
          mtxUnblockLock := false;
          q := if left == 1 then Cleaning(WOpen) else Idle;
        case WOpen => semBlockLock := semBlockLock + 1; q := Idle;
        case WReset(RGate) =>
          if semBlockLock > 0 {
            semBlockLock := semBlockLock - 1;
            q := Cleaning(WReset(RRead));
          }
        case WReset(RRead) => q := Cleaning(WReset(RWrite(nWaitersBlocked)));
        case WReset(RWrite(b)) =>
          nWaitersBlocked := b - nWaitersGone;
          q := Cleaning(WReset(RPost(if nWaitersGone >= 0 then nWaitersGone else 0)));
        case WReset(RPost(g)) => semBlockLock := semBlockLock + 1; q := Cleaning(WReset(RClear(g)));
        case WReset(RClear(_)) => nWaitersGone := 0; q := Cleaning(WUnlock(0));
      }
    }

    method Unblock(p: SignalPc) returns (q: Pc)
      modifies this
      ensures pcs == old(pcs) && (Abs().v, q) == ActSignal(old(Abs().v), p)
    {
      q := Signalling(p);
      match p {
        case SMtx(all) =>
          if !mtxUnblockLock {
            mtxUnblockLock := true;
            q := Signalling(SBranch(all));
          }
        case SBranch(all) => q := Signalling(if nWaitersToUnblock != 0 then SClosed(all) else SCheck(all));
        case SClosed(all) => q := Signalling(if nWaitersBlocked == 0 then SUnlock(0) else SMoving(MClosed(all)));
        case SCheck(all) => q := Signalling(if nWaitersBlocked > nWaitersGone then SGate(all) else SUnlock(0));
        case SGate(all) =>
          if semBlockLock > 0 {
            semBlockLock := semBlockLock - 1;
            q := Signalling(SMoving(MCollect(all)));
          }
        case SMoving(MClosed(all)) =>
          var n: nat := if all && nWaitersBlocked >= 0 then nWaitersBlocked else 1;
          nWaitersToUnblock := nWaitersToUnblock + n;
          issued := issued + n;
          q := Signalling(SMoving(MWrite(nWaitersBlocked, n)));
        case SMoving(MCollect(all)) =>
          if nWaitersGone != 0 {
            nWaitersBlocked := nWaitersBlocked - nWaitersGone;
            nWaitersGone := 0;
          }
          q := Signalling(SMoving(MMove(all)));
        case SMoving(MMove(all)) =>
          var n: nat := if all && nWaitersBlocked >= 0 then nWaitersBlocked else 1;
          nWaitersToUnblock := n;
          issued := issued + n;
          q := Signalling(SMoving(MWrite(nWaitersBlocked, n)));
        case SMoving(MWrite(b, n)) => nWaitersBlocked := b - n; q := Signalling(SUnlock(n));
        case SUnlock(n) =>
          mtxUnblockLock := false;
          q := if n > 0 then Signalling(SPost(n)) else Idle;
        case SPost(n) => semBlockQueue := semBlockQueue + n; q := Idle;
      }
    }

    method Destroy(p: DestroyPc) returns (q: Pc)
      modifies this
      ensures pcs == old(pcs) && (Abs().v, q) == ActDestroy(old(Abs().v), p)
    {
      q := Destroying(p);
      match p {
        case DGate =>
          if semBlockLock > 0 {
            semBlockLock := semBlockLock - 1;
            q := Destroying(DTry);
          }
        case DTry =>
          if mtxUnblockLock {
            q := Destroying(DBack);
          } else {
            mtxUnblockLock := true;
            q := Destroying(DCheck);
          }
        case DBack => semBlockLock := semBlockLock + 1; q := Idle;
        case DCheck => q := Destroying(if nWaitersBlocked > nWaitersGone then DBusyPost else DDone);
        case DBusyPost => semBlockLock := semBlockLock + 1; q := Destroying(DBusyUnlock);
        case DBusyUnlock => mtxUnblockLock := false; q := Idle;
        case DDone =>
      }
    }

    /** Threads moving in the order the schedule gives. */
    method Execute(schedule: Schedule)
      requires Valid()
      modifies this
      ensures Valid() && Abs() == Run(old(Abs()), schedule)
    {
      for i := 0 to |schedule|
        invariant Valid() && Abs() == Run(old(Abs()), schedule[..i])
      {
        Advance(schedule[i].0, schedule[i].1);
        RunNext(old(Abs()), schedule, i);
      }
      assert schedule[..|schedule|] == schedule;
    }
  }
}
