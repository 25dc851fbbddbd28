/** Mutexes that are not robust: the lock word lock_idx, the auto-reset event, and
    for the recursive and error-checking kinds the owner and the lock count
    (pthread_mutex_lock.c, pthread_mutex_timedlock.c, pthread_mutex_trylock.c,
    pthread_mutex_unlock.c). One step is one interlocked operation, one event
    operation, or one plain read or write of another field. */
module Mutex {
  import opened Counting
  import opened MutexKinds

  datatype Result = Ok | EBUSY | EDEADLK | ETIMEDOUT | EPERM

  datatype Owner = Nobody | Is(t: nat)

  datatype Call = CallLock | CallTimedLock | CallTryLock | CallUnlock

  datatype Choice = Choice(call: Call, expire: bool)

  /** pthread_mutex_lock, pthread_mutex_timedlock and pthread_mutex_trylock. */
  datatype LockPc =
    | LSwap(timed: bool)       // exchange in 1
    | LCas(timed: bool)        // compare-exchange 0 -> 1
    | LReadOwner(timed: bool)
    | LLoop(timed: bool)       // exchange in -1
    | LWait(timed: bool)       // wait for the event
    | LTry | LTryRead
    | LBump | LSetCount | LSetOwner

  /** pthread_mutex_unlock. */
  datatype UnlockPc = UReadOwner | UDrop | UClear | USwap | USetEvent

  datatype Pc = Idle(last: Result) | Locking(l: LockPc) | Unlocking(u: UnlockPc)

  /** held is history: successful locks of this thread minus successful unlocks. */
  datatype Thread = Thread(pc: Pc, held: nat)

  datatype Vars = Vars(kind: Kind, lockIdx: int, event: bool, owner: Owner, count: int)

  datatype State = State(v: Vars, ts: seq<Thread>)

  function Init(kind: Kind, n: nat): State
  {
    State(Vars(kind, 0, false, Nobody, 0), Idlers(n))
  }

  function Idlers(n: nat): seq<Thread>
  {
    seq(n, _ => Thread(Idle(Ok), 0))
  }

  // ----- the steps -----

  function Return(th: Thread, r: Result): Thread { th.(pc := Idle(r)) }
  function GoLock(th: Thread, l: LockPc): Thread { th.(pc := Locking(l)) }
  function GoUnlock(th: Thread, u: UnlockPc): Thread { th.(pc := Unlocking(u)) }
  function Locked(th: Thread): Thread { Thread(Idle(Ok), th.held + 1) }
  function Dropped(th: Thread): Thread { th.(held := if th.held > 0 then th.held - 1 else 0) }

  /** A normal mutex may be unlocked by its holder; when nobody holds it the call
      exchanges 0 for 0 and fails. Unlocking another thread's normal mutex is
      outside what the code provides for (pthread_mutex_unlock.c:58-62). */
  function ActCall(v: Vars, th: Thread, c: Choice): (Vars, Thread)
  {
    match c.call
    case CallLock => (v, GoLock(th, if v.kind == Normal then LSwap(false) else LCas(false)))
    case CallTimedLock => (v, GoLock(th, if v.kind == Normal then LSwap(true) else LCas(true)))
    case CallTryLock => (v, GoLock(th, LTry))
    case CallUnlock =>
      if v.kind != Normal then (v, GoUnlock(th, UReadOwner))
      else if th.held > 0 then (v, GoUnlock(th, USwap))
      else if v.lockIdx == 0 then (v, Return(th, EPERM))
      else (v, th)
  }

  function ActLock(v: Vars, t: nat, th: Thread, p: LockPc, c: Choice): (Vars, Thread)
  {
    match p
    case LSwap(timed) =>
      (v.(lockIdx := 1), if v.lockIdx == 0 then Locked(th) else GoLock(th, LLoop(timed)))
    case LCas(timed) =>
      if v.lockIdx == 0 then (v.(lockIdx := 1), GoLock(th, LSetCount)) else (v, GoLock(th, LReadOwner(timed)))
    case LReadOwner(timed) =>
      (v, if v.owner != Is(t) then GoLock(th, LLoop(timed))
          else if v.kind == Recursive then GoLock(th, LBump)
          else Return(th, EDEADLK))
    case LLoop(timed) =>
      (v.(lockIdx := -1),
       if v.lockIdx != 0 then GoLock(th, LWait(timed))
       else if v.kind == Normal then Locked(th)
       else GoLock(th, LSetCount))
    case LWait(timed) =>
      if timed && c.expire then (v, Return(th, ETIMEDOUT))
      else if v.event then (v.(event := false), GoLock(th, LLoop(timed)))
      else (v, th)
    case LTry =>
      if v.lockIdx == 0 then
        (v.(lockIdx := 1), if v.kind == Normal then Locked(th) else GoLock(th, LSetCount))
      else (v, if v.kind == Recursive then GoLock(th, LTryRead) else Return(th, EBUSY))
    case LTryRead => (v, if v.owner == Is(t) then GoLock(th, LBump) else Return(th, EBUSY))
    case LBump => (v.(count := v.count + 1), Locked(th))
    case LSetCount => (v.(count := 1), GoLock(th, LSetOwner))
    case LSetOwner => (v.(owner := Is(t)), Locked(th))
  }

  function ActUnlock(v: Vars, t: nat, th: Thread, p: UnlockPc): (Vars, Thread)
  {
    match p
    case UReadOwner =>
      (v, if v.owner != Is(t) then Return(th, EPERM)
          else GoUnlock(th, if v.kind == Recursive then UDrop else UClear))
    case UDrop =>
      (v.(count := v.count - 1), if v.count == 1 then GoUnlock(th, UClear) else Return(Dropped(th), Ok))
    case UClear => (v.(owner := Nobody), GoUnlock(th, USwap))
    case USwap =>
      (v.(lockIdx := 0), if v.lockIdx < 0 then GoUnlock(Dropped(th), USetEvent) else Return(Dropped(th), Ok))
    case USetEvent => (v.(event := true), Return(th, Ok))
  }

  function Act(v: Vars, t: nat, th: Thread, c: Choice): (Vars, Thread)
  {
    match th.pc
    case Idle(_) => ActCall(v, th, c)
    case Locking(l) => ActLock(v, t, th, l, c)
    case Unlocking(u) => ActUnlock(v, t, th, u)
  }

  function Step(s: State, t: nat, c: Choice): State
  {
    if t >= |s.ts| then s
    else
      var (v, th) := Act(s.v, t, s.ts[t], c);
      State(v, s.ts[t := th])
  }

  type Schedule = seq<(nat, Choice)>

  function Run(s: State, schedule: Schedule): State
    decreases |schedule|
  {
    if schedule == [] then s
    else
      var last := schedule[|schedule| - 1];
      Step(Run(s, schedule[..|schedule| - 1]), last.0, last.1)
  }

  // ----- the invariant -----

  /** The thread has the mutex: from the operation that takes the lock word from 0
      to the one that puts 0 back. */
  predicate Has(th: Thread)
  {
    th.held > 0 || th.pc == Locking(LSetCount) || th.pc == Locking(LSetOwner)
  }

  predicate IsWaiting(th: Thread) { th.pc.Locking? && th.pc.l.LWait? }

  /** The thread is about to set the event, or to exchange in -1 and look again. */
  predicate WillLook(th: Thread)
  {
    th.pc == Unlocking(USetEvent) || (th.pc.Locking? && th.pc.l.LLoop?)
  }

  function HasW(th: Thread): nat { if Has(th) then 1 else 0 }
  function WaitW(th: Thread): nat { if IsWaiting(th) then 1 else 0 }
  function LookW(th: Thread): nat { if WillLook(th) then 1 else 0 }

  datatype Totals = Totals(has: nat, waits: nat, looks: nat)

  ghost function Total(ts: seq<Thread>): Totals
  {
    Totals(Sum(ts, HasW), Sum(ts, WaitW), Sum(ts, LookW))
  }

  ghost predicate Balanced(v: Vars, k: Totals)
  {
    && v.lockIdx in {-1, 0, 1}
    && k.has == (if v.lockIdx == 0 then 0 else 1)
    && (k.waits > 0 ==> v.event || v.lockIdx == -1 || k.looks > 0)
  }

  /** The thread is recorded as the owner. */
  predicate Recorded(th: Thread) { th.held > 0 && th.pc != Unlocking(USwap) }

  ghost predicate Local(v: Vars, t: nat, th: Thread)
  {
    if v.kind == Normal then
      && th.held <= 1
      && v.owner == Nobody
      && (th.pc.Locking? ==> th.pc.l.LSwap? || th.pc.l.LLoop? || th.pc.l.LWait? || th.pc.l.LTry?)
      && (th.pc.Unlocking? ==> th.pc.u == USwap || th.pc.u == USetEvent)
      && (th.pc == Unlocking(USwap) ==> th.held == 1)
    else
      && (v.owner == Is(t) <==> Recorded(th))
      && (v.kind == Errorcheck ==> th.held <= 1)
      && (v.kind == Recursive && th.held > 0 ==>
            v.count == (if th.pc == Unlocking(UClear) || th.pc == Unlocking(USwap) then th.held - 1 else th.held))
      && match th.pc
         case Idle(_) => true
         case Locking(l) =>
           (match l
            case LSwap(_) => false
            case LLoop(_) => th.held == 0
            case LWait(_) => th.held == 0
            case LSetCount => th.held == 0
            case LSetOwner => th.held == 0 && v.count == 1
            case LBump => th.held > 0 && v.kind == Recursive
            case LTryRead => v.kind == Recursive
            case _ => true)
         case Unlocking(u) =>
           (match u
            case UReadOwner => true
            case UDrop => th.held > 0 && v.kind == Recursive
            case UClear => th.held == 1
            case USwap => th.held == 1
            case USetEvent => th.held == 0)
  }

  ghost predicate AllLocal(v: Vars, ts: seq<Thread>)
  {
    forall u :: 0 <= u < |ts| ==> Local(v, u, ts[u])
  }

  ghost predicate Inv(s: State)
  {
    Balanced(s.v, Total(s.ts)) && AllLocal(s.v, s.ts)
  }

  lemma AllIdle(n: nat, w: Thread -> nat)
    requires w(Thread(Idle(Ok), 0)) == 0
    ensures Sum(Idlers(n), w) == 0
  {
    SumZero(Idlers(n), w);
  }

  lemma InitInv(kind: Kind, n: nat)
    ensures Inv(Init(kind, n))
  {
    AllIdle(n, HasW);
    AllIdle(n, WaitW);
    AllIdle(n, LookW);
    assert Total(Idlers(n)) == Totals(0, 0, 0);
  }

  // ----- one step keeps it -----

  ghost predicate Shifted(k: Totals, a: Thread, b: Thread, k': Totals)
  {
    && k'.has == k.has - HasW(a) + HasW(b)
    && k'.waits == k.waits - WaitW(a) + WaitW(b)
    && k'.looks == k.looks - LookW(a) + LookW(b)
  }

  ghost predicate Within(k: Totals, a: Thread)
  {
    HasW(a) <= k.has && WaitW(a) <= k.waits && LookW(a) <= k.looks
  }

  lemma TotalShifted(ts: seq<Thread>, t: nat, b: Thread)
    requires t < |ts|
    ensures Shifted(Total(ts), ts[t], b, Total(ts[t := b])) && Within(Total(ts), ts[t])
  {
    SumUpdate(ts, t, b, HasW);
    SumUpdate(ts, t, b, WaitW);
    SumUpdate(ts, t, b, LookW);
    SumAt(ts, t, HasW);
    SumAt(ts, t, WaitW);
    SumAt(ts, t, LookW);
  }

  lemma CallBalanced(v: Vars, t: nat, th: Thread, c: Choice, k: Totals, k': Totals)
    requires Balanced(v, k) && Local(v, t, th) && Within(k, th) && th.pc.Idle?
    requires Shifted(k, th, ActCall(v, th, c).1, k')
    ensures Balanced(ActCall(v, th, c).0, k')
  {
  }

  lemma LockBalanced(v: Vars, t: nat, th: Thread, p: LockPc, c: Choice, k: Totals, k': Totals)
    requires Balanced(v, k) && Local(v, t, th) && Within(k, th) && th.pc == Locking(p)
    requires Shifted(k, th, ActLock(v, t, th, p, c).1, k')
    ensures Balanced(ActLock(v, t, th, p, c).0, k')
  {
  }

  lemma UnlockBalanced(v: Vars, t: nat, th: Thread, p: UnlockPc, k: Totals, k': Totals)
    requires Balanced(v, k) && Local(v, t, th) && Within(k, th) && th.pc == Unlocking(p)
    requires Shifted(k, th, ActUnlock(v, t, th, p).1, k')
    ensures Balanced(ActUnlock(v, t, th, p).0, k')
  {
  }

  lemma ActBalanced(v: Vars, t: nat, th: Thread, c: Choice, k: Totals, k': Totals)
    requires Balanced(v, k) && Local(v, t, th) && Within(k, th)
    requires Shifted(k, th, Act(v, t, th, c).1, k')
    ensures Balanced(Act(v, t, th, c).0, k')
  {
    match th.pc
    case Idle(_) => CallBalanced(v, t, th, c, k, k');
    case Locking(p) => LockBalanced(v, t, th, p, c, k, k');
    case Unlocking(p) => UnlockBalanced(v, t, th, p, k, k');
  }

  lemma CallArrives(v: Vars, t: nat, th: Thread, c: Choice)
    requires Local(v, t, th) && th.pc.Idle?
    ensures Local(ActCall(v, th, c).0, t, ActCall(v, th, c).1)
  {
  }

  lemma LockArrives(v: Vars, t: nat, th: Thread, p: LockPc, c: Choice)
    requires Local(v, t, th) && th.pc == Locking(p) && (Has(th) ==> v.lockIdx != 0)
    ensures Local(ActLock(v, t, th, p, c).0, t, ActLock(v, t, th, p, c).1)
  {
  }

  lemma UnlockArrives(v: Vars, t: nat, th: Thread, p: UnlockPc)
    requires Local(v, t, th) && th.pc == Unlocking(p)
    ensures Local(ActUnlock(v, t, th, p).0, t, ActUnlock(v, t, th, p).1)
  {
  }

  lemma ActArrives(v: Vars, t: nat, th: Thread, c: Choice)
    requires Local(v, t, th) && (Has(th) ==> v.lockIdx != 0)
    ensures Local(Act(v, t, th, c).0, t, Act(v, t, th, c).1)
  {
    match th.pc
    case Idle(_) => CallArrives(v, t, th, c);
    case Locking(p) => LockArrives(v, t, th, p, c);
    case Unlocking(p) => UnlockArrives(v, t, th, p);
  }

  /** Another thread u keeps what it relies on: not both have the mutex. */
  lemma ActKeeps(v: Vars, t: nat, th: Thread, c: Choice, u: nat, uh: Thread)
    requires t != u && Local(v, t, th) && Local(v, u, uh)
    requires HasW(th) + HasW(uh) <= (if v.lockIdx == 0 then 0 else 1)
    ensures Local(Act(v, t, th, c).0, u, uh)
  {
  }

  lemma StepBalanced(s: State, t: nat, c: Choice)
    requires Inv(s) && t < |s.ts|
    ensures Balanced(Step(s, t, c).v, Total(Step(s, t, c).ts))
  {
    var th := Act(s.v, t, s.ts[t], c).1;
    TotalShifted(s.ts, t, th);
    ActBalanced(s.v, t, s.ts[t], c, Total(s.ts), Total(s.ts[t := th]));
  }

  lemma StepInv(s: State, t: nat, c: Choice)
    requires Inv(s)
    ensures Inv(Step(s, t, c))
  {
    if t < |s.ts| {
      StepBalanced(s, t, c);
      SumAt(s.ts, t, HasW);
      ActArrives(s.v, t, s.ts[t], c);
      forall u | 0 <= u < |s.ts| && u != t ensures Local(Act(s.v, t, s.ts[t], c).0, u, s.ts[u]) {
        SumTwo(s.ts, t, u, HasW);
        ActKeeps(s.v, t, s.ts[t], c, u, s.ts[u]);
      }
    }
  }

  lemma {:induction false} RunInv(s: State, schedule: Schedule)
    requires Inv(s)
    ensures Inv(Run(s, schedule))
    decreases |schedule|
  {
    if schedule == [] {
    } else {
      var last := schedule[|schedule| - 1];
      RunInv(s, schedule[..|schedule| - 1]);
      StepInv(Run(s, schedule[..|schedule| - 1]), last.0, last.1);
    }
  }
}
