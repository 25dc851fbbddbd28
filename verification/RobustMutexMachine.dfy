/** The robust mutex as the program keeps it: fields updated in place. */
module RobustMutexMachine {
  import opened RobustMutex
  import opened MutexKinds

  class Rmx {
    const kind: Kind
    var lock_idx: int
    var event: bool
    var stateInconsistent: Health
    var ownerThread: Who
    var recursive_count: int
    var list: Who
    var deaths: nat        // history
    var heirs: nat         // history
    var returned: nat      // history
    var ts: seq<Thread>

    ghost function Fields(): Vars
      reads this
    {
      Vars(kind, lock_idx, event, stateInconsistent, ownerThread, recursive_count, list, deaths, heirs, returned)
    }

    ghost function Abs(): State
      reads this
    {
      State(Fields(), ts)
    }

    ghost predicate Valid()
      reads this
    {
      Inv(Abs())
    }

    constructor (kind: Kind, threads: nat)
      ensures Valid() && Abs() == Init(kind, threads)
    {
      this.kind := kind;
      lock_idx, event, stateInconsistent, ownerThread, recursive_count := 0, false, Consistent, Nobody, 0;
      list, deaths, heirs, returned := Nobody, 0, 0, 0;
      ts := Idlers(threads);
      new;
      assert Abs() == Init(kind, threads);
      InitInv(kind, threads);
    }

    /** ptw32_robust_mutex_inherit: one compare-exchange decides who the heir is. */
    method Inherit() returns (r: Result)
      modifies this`stateInconsistent, this`heirs
      ensures r == EOWNERDEAD <==> old(stateInconsistent) == Orphaned
      ensures r == ENOTRECOVERABLE <==> old(stateInconsistent) == NotRecoverable
      ensures r == EOWNERDEAD || r == ENOTRECOVERABLE || r == Ok
      ensures stateInconsistent == if r == EOWNERDEAD then Inconsistent else old(stateInconsistent)
      ensures heirs == old(heirs) + if r == EOWNERDEAD then 1 else 0
    {
      match stateInconsistent {
        case Orphaned =>
          stateInconsistent := Inconsistent;
          heirs := heirs + 1;
          r := EOWNERDEAD;
        case NotRecoverable => r := ENOTRECOVERABLE;
        case Consistent => r := Ok;
        case Inconsistent => r := Ok;
      }
    }

    /** The next operation of thread t. */
    method Advance(t: nat, c: Call)
      requires Valid()
      modifies this
      ensures Valid() && Abs() == Step(old(Abs()), t, c)
    {
      ghost var before := Abs();
      if t < |ts| {
        var th := ts[t];
        match th.pc {
          case Idle(_) => th := Begin(t, th, c);
          case Locking(l) => th := Lock(t, th, l);
          case Unlocking(u) => th := Unlock(t, th, u);
          case Dying(d) => th := Die(t, th, d);
          case Dead =>
        }
        ts := ts[t := th];
      }
      assert Abs() == Step(before, t, c);
      StepInv(before, t, c);
    }

    method Begin(t: nat, th: Thread, c: Call) returns (r: Thread)
      modifies this`stateInconsistent
      ensures (Fields(), r) == ActCall(old(Fields()), t, th, c)
    {
      match c {
        case CallLock => r := GoLock(th, LState);
        case CallTryLock => r := GoLock(th, TState);
        case CallUnlock => r := GoUnlock(th, UReadOwner);
        case CallConsistent =>
          if stateInconsistent == Inconsistent {
            stateInconsistent := Consistent;
            r := Return(th, Ok);
          } else {
            r := Return(th, EINVAL);
          }
        case CallDie => r := th.(pc := if list == Is(t) then Dying(DUnlink) else Dead);
      }
    }

    /** Where a thread goes on after it has taken the mutex. */
    method Take(th: Thread, r: Result) returns (th': Thread)
      ensures th' == Taken(Fields(), th, r)
    {
      th' := GoLock(th, if kind == Normal then LSetOwner(r) else LSetCount(r));
    }

    method Lock(t: nat, th: Thread, p: LockPc) returns (r: Thread)
      modifies this
      ensures ts == old(ts) && (Fields(), r) == ActLock(old(Fields()), t, th, p)
    {
      r := th;
      match p {
        case LState =>
          if stateInconsistent == NotRecoverable {
            r := Return(th, ENOTRECOVERABLE);
          } else {
            r := GoLock(th, if kind == Normal then LSwap else LCas);
          }
        case LSwap =>
          var was := lock_idx;
          lock_idx := 1;
          if was == 0 { r := Take(th, Ok); } else { r := GoLock(th, LInherit); }
        case LCas =>
          if lock_idx == 0 {
            lock_idx := 1;
            r := Take(th, Ok);
          } else {
            r := GoLock(th, LReadOwner);
          }
        case LReadOwner =>
          if ownerThread != Is(t) {
            r := GoLock(th, LInherit);
          } else if kind == Recursive {
            r := GoLock(th, LBump);
          } else {
            r := Return(th, EDEADLK);
          }
        case LBump =>
          recursive_count := recursive_count + 1;
          r := Thread(Idle(Ok), th.held + 1);
        case LInherit =>
          var result := Inherit();
          if result == EOWNERDEAD {
            r := Take(th, EOWNERDEAD);
          } else {
            r := if result == ENOTRECOVERABLE then Return(th, ENOTRECOVERABLE) else GoLock(th, LLoop);
          }
        case LLoop =>
          var was := lock_idx;
          lock_idx := -1;
          if was == 0 { r := Take(th, Ok); } else { r := GoLock(th, LWait); }
        case LWait =>
          if event {
            event := false;
            r := GoLock(th, LRecheck);
          }
        case LRecheck => r := GoLock(th, if stateInconsistent == NotRecoverable then LWakeNext else LInherit);
        case LWakeNext => event := true; r := Return(th, ENOTRECOVERABLE);
        case LSetCount(result) => recursive_count := 1; r := GoLock(th, LSetOwner(result));
        case LSetOwner(result) => ownerThread := Is(t); r := GoLock(th, LLink(result));
        case LLink(result) =>
          list := Is(t);
          if result == EOWNERDEAD { returned := returned + 1; }
          r := Thread(Idle(result), 1);
        case TState =>
          r := if stateInconsistent == NotRecoverable then Return(th, ENOTRECOVERABLE) else GoLock(th, TCas);
        case TCas =>
          if lock_idx == 0 {
            lock_idx := 1;
            r := Take(th, Ok);
          } else {
            r := GoLock(th, if kind == Recursive then TReadOwner else TInherit);
          }
        case TReadOwner => r := GoLock(th, if ownerThread == Is(t) then LBump else TInherit);
        case TInherit =>
          var result := Inherit();
          if result == EOWNERDEAD {
            r := GoLock(th, LSetCount(EOWNERDEAD));
          } else {
            r := Return(th, if result == Ok then EBUSY else ENOTRECOVERABLE);
          }
      }
    }

    method Unlock(t: nat, th: Thread, p: UnlockPc) returns (r: Thread)
      modifies this
      ensures ts == old(ts) && (Fields(), r) == ActUnlock(old(Fields()), t, th, p)
    {
      match p {
        case UReadOwner => r := if ownerThread == Is(t) then GoUnlock(th, UState) else Return(th, EPERM);
        case UState =>
          if stateInconsistent == Inconsistent { stateInconsistent := NotRecoverable; }
          r := GoUnlock(th, if kind == Recursive then UDrop else UUnlink);
        case UDrop =>
          recursive_count := recursive_count - 1;
          if recursive_count == 0 {
            r := GoUnlock(th, UUnlink);
          } else {
            r := Thread(Idle(Ok), if th.held > 0 then th.held - 1 else 0);
          }
        case UUnlink => list, ownerThread := Nobody, Nobody; r := GoUnlock(th, USwap);
        case USwap =>
          var was := lock_idx;
          lock_idx := 0;
          r := Thread(if was < 0 then Unlocking(USetEvent) else Idle(Ok), 0);
        case USetEvent => event := true; r := Return(th, Ok);
      }
    }

    method Die(t: nat, th: Thread, p: DiePc) returns (r: Thread)
      modifies this
      ensures ts == old(ts) && (Fields(), r) == ActDie(old(Fields()), th, p)
    {
      match p {
        case DUnlink => list := Nobody; r := th.(pc := Dying(DPublish));
        case DPublish =>
          stateInconsistent := Orphaned;
          deaths := deaths + 1;
          r := Thread(Dying(DSetEvent), 0);
        case DSetEvent => event := true; r := th.(pc := Dead);
      }
    }

    /** Threads moving in the order the schedule gives. */
    method Execute(schedule: Schedule)
      requires Valid()
      modifies this
      ensures Valid() && Abs() == Run(old(Abs()), schedule)
    {
      for i := 0 to |schedule|
        invariant Valid() && Abs() == Run(old(Abs()), schedule[..i])
      {
        Advance(schedule[i].0, schedule[i].1);
        assert schedule[..i + 1][..i] == schedule[..i];
      }
      assert schedule[..|schedule|] == schedule;
    }
  }
}
