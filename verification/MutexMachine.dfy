/** The mutex as the program keeps it: fields updated in place. */
module MutexMachine {
  import opened Mutex
  import opened MutexKinds

  class Mx {
    const kind: Kind
    var lock_idx: int
    var event: bool
    var ownerThread: Owner
    var recursive_count: int
    var ts: seq<Thread>

    ghost function Abs(): State
      reads this
    {
      State(Vars(kind, lock_idx, event, ownerThread, recursive_count), ts)
    }

    ghost predicate Valid()
      reads this
    {
      Inv(Abs())
    }

    constructor (kind: Kind, threads: nat)
      ensures Valid() && Abs() == Init(kind, threads)
    {
      this.kind := kind;
      lock_idx, event, ownerThread, recursive_count := 0, false, Nobody, 0;
      ts := Idlers(threads);
      new;
      assert Abs() == Init(kind, threads);
      InitInv(kind, threads);
    }

    /** InterlockedExchange on the lock word. */
    method Exchange(x: int) returns (was: int)
      modifies this`lock_idx
      ensures was == old(lock_idx) && lock_idx == x
    {
      was := lock_idx;
      lock_idx := x;
    }

    /** InterlockedCompareExchange of 1 for 0 on the lock word. */
    method TakeIfFree() returns (free: bool)
      modifies this`lock_idx
      ensures free == (old(lock_idx) == 0) && lock_idx == (if free then 1 else old(lock_idx))
    {
      free := lock_idx == 0;
      if free { lock_idx := 1; }
    }

    /** The next operation of thread t. */
    method Advance(t: nat, c: Choice)
      requires Valid()
      modifies this
      ensures Valid() && Abs() == Step(old(Abs()), t, c)
    {
      ghost var before := Abs();
      if t < |ts| {
        var th := ts[t];
        match th.pc {
          case Idle(_) => th := ActCall(Vars(kind, lock_idx, event, ownerThread, recursive_count), th, c).1;
          case Locking(l) => th := Lock(t, th, l, c);
          case Unlocking(u) => th := Unlock(t, th, u);
        }
        ts := ts[t := th];
      }
      assert Abs() == Step(before, t, c);
      StepInv(before, t, c);
    }

    method Lock(t: nat, th: Thread, p: LockPc, c: Choice) returns (r: Thread)
      modifies this
      ensures ts == old(ts) && (Abs().v, r) == ActLock(old(Abs().v), t, th, p, c)
    {
      r := th;
      match p {
        case LSwap(timed) =>
          var was := Exchange(1);
          r := if was == 0 then Locked(th) else GoLock(th, LLoop(timed));
        case LCas(timed) =>
          var free := TakeIfFree();
          r := GoLock(th, if free then LSetCount else LReadOwner(timed));
        case LReadOwner(timed) =>
          if ownerThread != Is(t) {
            r := GoLock(th, LLoop(timed));
          } else if kind == Recursive {
            r := GoLock(th, LBump);
          } else {
            r := Return(th, EDEADLK);
          }
        case LLoop(timed) =>
          var was := Exchange(-1);
          if was != 0 {
            r := GoLock(th, LWait(timed));
          } else {
            r := if kind == Normal then Locked(th) else GoLock(th, LSetCount);
          }
        case LWait(timed) =>
          if timed && c.expire {
            r := Return(th, ETIMEDOUT);
          } else if event {
            event := false;
            r := GoLock(th, LLoop(timed));
          }
        case LTry =>
          var free := TakeIfFree();
          if free {
            r := if kind == Normal then Locked(th) else GoLock(th, LSetCount);
          } else {
            r := if kind == Recursive then GoLock(th, LTryRead) else Return(th, EBUSY);
          }
        case LTryRead => r := if ownerThread == Is(t) then GoLock(th, LBump) else Return(th, EBUSY);
        case LBump => recursive_count := recursive_count + 1; r := Locked(th);
        case LSetCount => recursive_count := 1; r := GoLock(th, LSetOwner);
        case LSetOwner => ownerThread := Is(t); r := Locked(th);
      }
    }

    method Unlock(t: nat, th: Thread, p: UnlockPc) returns (r: Thread)
      modifies this
      ensures ts == old(ts) && (Abs().v, r) == ActUnlock(old(Abs().v), t, th, p)
    {
      match p {
        case UReadOwner =>
          if ownerThread != Is(t) {
            r := Return(th, EPERM);
          } else {
            r := GoUnlock(th, if kind == Recursive then UDrop else UClear);
          }
        case UDrop =>
          recursive_count := recursive_count - 1;
          r := if recursive_count == 0 then GoUnlock(th, UClear) else Return(Dropped(th), Ok);
        case UClear => ownerThread := Nobody; r := GoUnlock(th, USwap);
        case USwap =>
          var was := Exchange(0);
          r := if was < 0 then GoUnlock(Dropped(th), USetEvent) else Return(Dropped(th), Ok);
        case USetEvent => event := true; r := Return(th, Ok);
      }
    }

    /** Threads moving in the order the schedule gives. */
    method Execute(schedule: Schedule)
      requires Valid()
      modifies this
      ensures Valid() && Abs() == Run(old(Abs()), schedule)
    {
      for i := 0 to |schedule|
        invariant Valid() && Abs() == Run(old(Abs()), schedule[..i])
      {
        Advance(schedule[i].0, schedule[i].1);
        assert schedule[..i + 1][..i] == schedule[..i];
      }
      assert schedule[..|schedule|] == schedule;
    }
  }
}
