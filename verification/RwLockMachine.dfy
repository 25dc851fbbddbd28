/** The read-write lock as the program keeps it: fields updated in place. */
module RwLockMachine {
  import opened RwLock

  class Rwl {
    var nSharedAccessCount: int
    var nExclusiveAccessCount: int
    var nCompletedSharedAccessCount: int
    var mtxExclusiveAccess: bool
    var mtxSharedAccessCompleted: bool
    var waiting: bool
    var signalled: bool
    var ts: seq<Thread>

    ghost function Abs(): State
      reads this
    {
      State(Vars(nSharedAccessCount, nExclusiveAccessCount, nCompletedSharedAccessCount,
                 mtxExclusiveAccess, mtxSharedAccessCompleted, waiting, signalled), ts)
    }

    ghost predicate Valid()
      reads this
    {
      Inv(Abs())
    }

    constructor (threads: nat)
      ensures Valid() && Abs() == Init(threads)
    {
      nSharedAccessCount, nExclusiveAccessCount, nCompletedSharedAccessCount := 0, 0, 0;
      mtxExclusiveAccess, mtxSharedAccessCompleted, waiting, signalled := false, false, false, false;
      ts := Idlers(threads);
      new;
      assert Abs() == Init(threads);
      InitInv(threads);
    }

    /** The next statement of thread t. */
    method Advance(t: nat, c: Choice)
      requires Valid()
      modifies this
      ensures Valid() && Abs() == Step(old(Abs()), t, c)
    {
      ghost var before := Abs();
      if t < |ts| {
        var th := ts[t];
        match th.pc {
          case Idle => th := ActCall(Vars(0, 0, 0, false, false, false, false), th, c).1;
          case Reading(p) => th := ReadLock(th, p);
          case Entering(p) => th := WriteLock(th, p, c);
          case Awaiting(p) => th := AwaitReaders(th, p, c);
          case Unlocking(p) => th := Unlock(th, p);
        }
        ts := ts[t := th];
      }
      assert Abs() == Step(before, t, c);
      StepInv(before, t, c);
    }

    method ReadLock(th: Thread, p: ReaderPc) returns (r: Thread)
      modifies this
      ensures ts == old(ts) && (Abs().v, r) == ActReader(old(Abs().v), th, p)
    {
      r := th;
      match p {
        case RLockEx(m) =>
          if !mtxExclusiveAccess {
            mtxExclusiveAccess := true;
            r := GoRead(th, RCount);
          } else if m == Try {
            r := Done(th);
          }
        case RCount =>
          nSharedAccessCount := nSharedAccessCount + 1;
          r := GoRead(th.(readLocks := th.readLocks + 1), if nSharedAccessCount == INT_MAX then RLockSh else RUnlockEx);
        case RLockSh =>
          if !mtxSharedAccessCompleted {
            mtxSharedAccessCompleted := true;
            r := GoRead(th, RFold);
          }
        case RFold =>
          nSharedAccessCount := nSharedAccessCount - nCompletedSharedAccessCount;
          nCompletedSharedAccessCount := 0;
          r := GoRead(th, RUnlockSh);
        case RUnlockSh => mtxSharedAccessCompleted := false; r := GoRead(th, RUnlockEx);
        case RUnlockEx => mtxExclusiveAccess := false; r := Done(th);
      }
    }

    method WriteLock(th: Thread, p: EnterPc, c: Choice) returns (r: Thread)
      modifies this
      ensures ts == old(ts) && (Abs().v, r) == ActEnter(old(Abs().v), th, p, c)
    {
      r := th;
      match p {
        case WLockEx(m) =>
          if m == Timed && c.fail {
            r := Done(th);
          } else if !mtxExclusiveAccess {
            mtxExclusiveAccess := true;
            r := GoEnter(th, WLockSh(m));
          } else if m == Try {
            r := Done(th);
          }
        case WLockSh(m) =>
          if m == Timed && c.fail {
            r := GoEnter(th, WFailEx);
          } else if !mtxSharedAccessCompleted {
            mtxSharedAccessCompleted := true;
            r := GoEnter(th, WTest(m));
          } else if m == Try {
            r := GoEnter(th, WFailEx);
          }
        case WFailEx => mtxExclusiveAccess := false; r := Done(th);
        case WTest(m) =>
          r := GoEnter(th, if nExclusiveAccessCount == 0 then WFold(m) else if m == Try then WStuck else WTake);
        case WFold(m) =>
          if nCompletedSharedAccessCount > 0 {
            nSharedAccessCount := nSharedAccessCount - nCompletedSharedAccessCount;
            nCompletedSharedAccessCount := 0;
          }
          r := GoEnter(th, WCheck(m));
        case WCheck(m) =>
          if nSharedAccessCount <= 0 {
            r := GoEnter(th, WTake);
          } else if m == Try {
            r := GoEnter(th, WBusySh);
          } else {
            r := GoAwait(th, WArm);
          }
        case WBusySh => mtxSharedAccessCompleted := false; r := GoEnter(th, WBusyEx);
        case WBusyEx => mtxExclusiveAccess := false; r := Done(th);
        case WStuck =>
        case WTake => nExclusiveAccessCount := nExclusiveAccessCount + 1; r := Done(th).(writes := true);
      }
    }

    method AwaitReaders(th: Thread, p: AwaitPc, c: Choice) returns (r: Thread)
      modifies this
      ensures ts == old(ts) && (Abs().v, r) == ActAwait(old(Abs().v), th, p, c)
    {
      r := th;
      match p {
        case WArm => nCompletedSharedAccessCount := -nSharedAccessCount; r := GoAwait(th, WWait);
        case WWait =>
          waiting, signalled := true, false;
          mtxSharedAccessCompleted := false;
          r := GoAwait(th, WWaiting);
        case WWaiting =>
          if c.expire || signalled || c.wake {
            waiting, signalled := false, false;
            r := GoAwait(th, if c.expire then WExpired else WRelock);
          }
        case WRelock =>
          if !mtxSharedAccessCompleted {
            mtxSharedAccessCompleted := true;
            r := GoAwait(th, WLoop);
          }
        case WLoop => r := GoAwait(th, if nCompletedSharedAccessCount < 0 then WWait else WClear);
        case WClear => nSharedAccessCount := 0; r := GoEnter(th, WTake);
        case WExpired =>
          if !mtxSharedAccessCompleted {
            mtxSharedAccessCompleted := true;
            r := GoAwait(th, WCancel);
          }
        case WCancel =>
          nSharedAccessCount := -nCompletedSharedAccessCount;
          nCompletedSharedAccessCount := 0;
          r := GoAwait(th, WCancelSh);
        case WCancelSh => mtxSharedAccessCompleted := false; r := GoAwait(th, WCancelEx);
        case WCancelEx => mtxExclusiveAccess := false; r := Done(th);
      }
    }

    method Unlock(th: Thread, p: UnlockPc) returns (r: Thread)
      modifies this
      ensures ts == old(ts) && (Abs().v, r) == ActUnlock(old(Abs().v), th, p)
    {
      r := th;
      match p {
        case UTest => r := GoUnlock(th, if nExclusiveAccessCount == 0 then ULockSh else UDrop);
        case ULockSh =>
          if !mtxSharedAccessCompleted {
            mtxSharedAccessCompleted := true;
            r := GoUnlock(th, UCount);
          }
        case UCount =>
          nCompletedSharedAccessCount := nCompletedSharedAccessCount + 1;
          r := GoUnlock(th.(readLocks := if th.readLocks > 0 then th.readLocks - 1 else 0),
                 if nCompletedSharedAccessCount == 0 then USignal else UUnlockSh);
        case USignal => signalled := waiting; r := GoUnlock(th, UUnlockSh);
        case UUnlockSh => mtxSharedAccessCompleted := false; r := Done(th);
        case UDrop =>
          nExclusiveAccessCount := nExclusiveAccessCount - 1;
          r := GoUnlock(th.(writes := false), UFreeSh);
        case UFreeSh => mtxSharedAccessCompleted := false; r := GoUnlock(th, UFreeEx);
        case UFreeEx => mtxExclusiveAccess := false; r := Done(th);
      }
    }

    /** Threads moving in the order the schedule gives. */
    method Execute(schedule: Schedule)
      requires Valid()
      modifies this
      ensures Valid() && Abs() == Run(old(Abs()), schedule)
    {
      for i := 0 to |schedule|
        invariant Valid() && Abs() == Run(old(Abs()), schedule[..i])
      {
        Advance(schedule[i].0, schedule[i].1);
        assert schedule[..i + 1][..i] == schedule[..i];
      }
      assert schedule[..|schedule|] == schedule;
    }
  }
}
