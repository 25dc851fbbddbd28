/** Robust mutexes, interleaved: lock, trylock, unlock, pthread_mutex_consistent and
    the death of threads, on one mutex, by any number of threads
    (pthread_mutex_lock.c:150-272, pthread_mutex_trylock.c:107-162,
    pthread_mutex_unlock.c:119-175, pthread_mutex_consistent.c,
    pthread_win32_attach_detach_np.c:250-263). */
module RobustMutex {
  import opened Counting
  import opened MutexKinds

  datatype Result = Ok | EBUSY | EDEADLK | EPERM | EINVAL | EOWNERDEAD | ENOTRECOVERABLE

  datatype Who = Nobody | Is(t: nat)

  /** stateInconsistent; Orphaned is the -1 a dying owner writes. */
  datatype Health = Orphaned | Consistent | Inconsistent | NotRecoverable

  datatype Call = CallLock | CallTryLock | CallUnlock | CallConsistent | CallDie

  datatype LockPc =
    | LState | LSwap | LCas | LReadOwner | LBump
    | LInherit | LLoop | LWait | LRecheck | LWakeNext
    | LSetCount(r: Result) | LSetOwner(r: Result) | LLink(r: Result)
    | TState | TCas | TReadOwner | TInherit

  datatype UnlockPc = UReadOwner | UState | UDrop | UUnlink | USwap | USetEvent

  datatype DiePc = DUnlink | DPublish | DSetEvent

  datatype Pc = Idle(last: Result) | Locking(l: LockPc) | Unlocking(u: UnlockPc) | Dying(d: DiePc) | Dead

  /** held is history: the locks the thread has and has still to give back. */
  datatype Thread = Thread(pc: Pc, held: nat)

  datatype Vars = Vars(
    kind: Kind, lockIdx: int, event: bool, health: Health, owner: Who, count: int,
    list: Who,         // the thread in whose robustMxList the node is
    deaths: nat,       // history: owners that died with the mutex
    heirs: nat,        // history: threads that inherited it
    returned: nat)     // history: calls that returned EOWNERDEAD

  datatype State = State(v: Vars, ts: seq<Thread>)

  function Init(kind: Kind, n: nat): State
  {
    State(Vars(kind, 0, false, Consistent, Nobody, 0, Nobody, 0, 0, 0), Idlers(n))
  }

  function Idlers(n: nat): seq<Thread>
  {
    seq(n, _ => Thread(Idle(Ok), 0))
  }

  // ----- the steps -----

  function Return(th: Thread, r: Result): Thread { th.(pc := Idle(r)) }
  function GoLock(th: Thread, l: LockPc): Thread { th.(pc := Locking(l)) }
  function GoUnlock(th: Thread, u: UnlockPc): Thread { th.(pc := Unlocking(u)) }

  function ActCall(v: Vars, t: nat, th: Thread, c: Call): (Vars, Thread)
  {
    match c
    case CallLock => (v, GoLock(th, LState))
    case CallTryLock => (v, GoLock(th, TState))
    case CallUnlock => (v, GoUnlock(th, UReadOwner))
    case CallConsistent =>
      if v.health == Inconsistent then (v.(health := Consistent), Return(th, Ok)) else (v, Return(th, EINVAL))
    case CallDie => (v, th.(pc := if v.list == Is(t) then Dying(DUnlink) else Dead))
  }

  /** Where a thread that has just taken the mutex goes on. */
  function Taken(v: Vars, th: Thread, r: Result): Thread
  {
    GoLock(th, if v.kind == Normal then LSetOwner(r) else LSetCount(r))
  }

  function ActLock(v: Vars, t: nat, th: Thread, p: LockPc): (Vars, Thread)
  {
    match p
    case LState =>
      (v, if v.health == NotRecoverable then Return(th, ENOTRECOVERABLE)
          else GoLock(th, if v.kind == Normal then LSwap else LCas))
    case LSwap => (v.(lockIdx := 1), if v.lockIdx == 0 then Taken(v, th, Ok) else GoLock(th, LInherit))
    case LCas =>
      if v.lockIdx == 0 then (v.(lockIdx := 1), Taken(v, th, Ok)) else (v, GoLock(th, LReadOwner))
    case LReadOwner =>
      (v, if v.owner != Is(t) then GoLock(th, LInherit)
          else if v.kind == Recursive then GoLock(th, LBump)
          else Return(th, EDEADLK))
    case LBump => (v.(count := v.count + 1), Thread(Idle(Ok), th.held + 1))
    case LInherit =>
      if v.health == Orphaned then (v.(health := Inconsistent, heirs := v.heirs + 1), Taken(v, th, EOWNERDEAD))
      else (v, if v.health == NotRecoverable then Return(th, ENOTRECOVERABLE) else GoLock(th, LLoop))
    case LLoop => (v.(lockIdx := -1), if v.lockIdx == 0 then Taken(v, th, Ok) else GoLock(th, LWait))
    case LWait => if v.event then (v.(event := false), GoLock(th, LRecheck)) else (v, th)
    case LRecheck => (v, GoLock(th, if v.health == NotRecoverable then LWakeNext else LInherit))
    case LWakeNext => (v.(event := true), Return(th, ENOTRECOVERABLE))
    case LSetCount(r) => (v.(count := 1), GoLock(th, LSetOwner(r)))
    case LSetOwner(r) => (v.(owner := Is(t)), GoLock(th, LLink(r)))
    case LLink(r) =>
      (v.(list := Is(t), returned := v.returned + (if r == EOWNERDEAD then 1 else 0)), Thread(Idle(r), 1))
    case TState => (v, if v.health == NotRecoverable then Return(th, ENOTRECOVERABLE) else GoLock(th, TCas))
    case TCas =>
      if v.lockIdx == 0 then (v.(lockIdx := 1), Taken(v, th, Ok))
      else (v, GoLock(th, if v.kind == Recursive then TReadOwner else TInherit))
    case TReadOwner => (v, GoLock(th, if v.owner == Is(t) then LBump else TInherit))
    case TInherit =>
      if v.health == Orphaned then
        (v.(health := Inconsistent, heirs := v.heirs + 1), GoLock(th, LSetCount(EOWNERDEAD)))
      else (v, Return(th, if v.health == NotRecoverable then ENOTRECOVERABLE else EBUSY))
  }

  function ActUnlock(v: Vars, t: nat, th: Thread, p: UnlockPc): (Vars, Thread)
  {
    match p
    case UReadOwner => (v, if v.owner == Is(t) then GoUnlock(th, UState) else Return(th, EPERM))
    case UState =>
      (v.(health := if v.health == Inconsistent then NotRecoverable else v.health),
       GoUnlock(th, if v.kind == Recursive then UDrop else UUnlink))
    case UDrop =>
      (v.(count := v.count - 1),
       if v.count == 1 then GoUnlock(th, UUnlink) else Thread(Idle(Ok), if th.held > 0 then th.held - 1 else 0))
    case UUnlink => (v.(list := Nobody, owner := Nobody), GoUnlock(th, USwap))
    case USwap => (v.(lockIdx := 0), Thread(if v.lockIdx < 0 then Unlocking(USetEvent) else Idle(Ok), 0))
    case USetEvent => (v.(event := true), Return(th, Ok))
  }

  /** The dying thread takes the node out of its list, leaving itself recorded as
      the owner, before it writes -1. */
  function ActDie(v: Vars, th: Thread, p: DiePc): (Vars, Thread)
  {
    match p
    case DUnlink => (v.(list := Nobody), th.(pc := Dying(DPublish)))
    case DPublish => (v.(health := Orphaned, deaths := v.deaths + 1), Thread(Dying(DSetEvent), 0))
    case DSetEvent => (v.(event := true), th.(pc := Dead))
  }

  function Act(v: Vars, t: nat, th: Thread, c: Call): (Vars, Thread)
  {
    match th.pc
    case Idle(_) => ActCall(v, t, th, c)
    case Locking(l) => ActLock(v, t, th, l)
    case Unlocking(u) => ActUnlock(v, t, th, u)
    case Dying(d) => ActDie(v, th, d)
    case Dead => (v, th)
  }

  function Step(s: State, t: nat, c: Call): State
  {
    if t >= |s.ts| then s
    else
      var (v, th) := Act(s.v, t, s.ts[t], c);
      State(v, s.ts[t := th])
  }

  type Schedule = seq<(nat, Call)>

  function Run(s: State, schedule: Schedule): State
    decreases |schedule|
  {
    if schedule == [] then s
    else
      var last := schedule[|schedule| - 1];
      Step(Run(s, schedule[..|schedule| - 1]), last.0, last.1)
  }

  // ----- the invariant -----

  predicate Taking(p: Pc) { p.Locking? && (p.l.LSetCount? || p.l.LSetOwner? || p.l.LLink?) }

  /** The thread owns the mutex: from the operation that took it to the one that
      gives it up, by unlocking or by dying. */
  predicate Owns(th: Thread) { th.held > 0 || Taking(th.pc) }

  function OwnsW(th: Thread): nat { if Owns(th) then 1 else 0 }

  /** The thread is about to return EOWNERDEAD. */
  function HeirW(th: Thread): nat { if Taking(th.pc) && th.pc.l.r == EOWNERDEAD then 1 else 0 }

  function Orphans(v: Vars): nat { if v.health == Orphaned then 1 else 0 }

  /** The lock word is not 0 exactly while there is one owner, or one orphan. */
  ghost predicate Balanced(v: Vars, owners: nat, heirs: nat)
  {
    && v.lockIdx in {-1, 0, 1}
    && owners + Orphans(v) == (if v.lockIdx == 0 then 0 else 1)
    && v.deaths == v.heirs + Orphans(v)
    && v.heirs == v.returned + heirs
  }

  /** The thread is recorded as owner. */
  predicate Recorded(th: Thread)
  {
    (th.held > 0 && th.pc != Unlocking(USwap)) || (th.pc.Locking? && th.pc.l.LLink?)
  }

  /** The node is in the thread's list. */
  predicate Listed(th: Thread)
  {
    th.held > 0 && th.pc != Unlocking(USwap) && th.pc != Dying(DPublish)
  }

  /** held may not be counted down yet where count has been. */
  function CountOf(th: Thread): int
  {
    if th.pc == Unlocking(UUnlink) || th.pc == Unlocking(USwap) then th.held - 1 else th.held
  }

  ghost predicate Local(v: Vars, t: nat, th: Thread)
  {
    && (th.pc != Dead && !(th.pc == Dying(DSetEvent)) ==> (v.owner == Is(t) <==> Recorded(th)))
    && (v.list == Is(t) <==> Listed(th))
    && (v.kind == Recursive && th.held > 0 ==> v.count == CountOf(th))
    && (v.kind != Recursive ==> th.held <= 1)
    && match th.pc
       case Idle(_) => true
       case Locking(l) =>
         (Taking(th.pc) ==> th.held == 0 && (l.r == Ok || l.r == EOWNERDEAD))
         && (l == LBump ==> th.held > 0 && v.kind == Recursive)
         && (l == TReadOwner ==> v.kind == Recursive)
         && (l == LCas || l == LReadOwner ==> v.kind != Normal)
         && (v.kind == Recursive && (l.LSetOwner? || l.LLink?) ==> v.count == 1)
         && (th.held > 0 ==> v.kind == Normal || l == LState || l == LCas || l == LReadOwner || l == LBump
                             || l == TState || l == TCas || l == TReadOwner || l == TInherit)
       case Unlocking(u) =>
         (u == UState || u == UDrop ==> th.held > 0)
         && (u == UDrop ==> v.kind == Recursive)
         && (u == UUnlink || u == USwap ==> th.held == 1)
         && (u == USetEvent ==> th.held == 0)
       case Dying(d) => if d == DSetEvent then th.held == 0 else th.held > 0
       case Dead => th.held == 0
  }

  ghost predicate AllLocal(v: Vars, ts: seq<Thread>)
  {
    && (forall u :: 0 <= u < |ts| ==> Local(v, u, ts[u]))
    && (v.list.Is? ==> v.list.t < |ts|)
  }

  ghost predicate Inv(s: State)
  {
    Balanced(s.v, Sum(s.ts, OwnsW), Sum(s.ts, HeirW)) && AllLocal(s.v, s.ts)
  }

  lemma AllIdle(n: nat, w: Thread -> nat)
    requires w(Thread(Idle(Ok), 0)) == 0
    ensures Sum(Idlers(n), w) == 0
  {
    SumZero(Idlers(n), w);
  }

  lemma InitInv(kind: Kind, n: nat)
    ensures Inv(Init(kind, n))
  {
    AllIdle(n, OwnsW);
    AllIdle(n, HeirW);
    InitLocal(kind, n);
  }

  lemma InitLocal(kind: Kind, n: nat)
    ensures AllLocal(Init(kind, n).v, Idlers(n))
  {
  }

  // ----- one step keeps it -----

  ghost predicate Shifted(owners: nat, heirs: nat, th: Thread, th': Thread, owners': nat, heirs': nat)
  {
    && OwnsW(th) <= owners && owners' == owners - OwnsW(th) + OwnsW(th')
    && HeirW(th) <= heirs && heirs' == heirs - HeirW(th) + HeirW(th')
  }

  lemma TakingBalanced(v: Vars, t: nat, th: Thread, owners: nat, heirs: nat, owners': nat, heirs': nat)
    requires Balanced(v, owners, heirs) && Taking(th.pc) && th.held == 0
    requires var (v', th') := ActLock(v, t, th, th.pc.l); Shifted(owners, heirs, th, th', owners', heirs')
    ensures Balanced(ActLock(v, t, th, th.pc.l).0, owners', heirs')
  {
  }

  lemma UnlockBalanced(v: Vars, t: nat, th: Thread, p: UnlockPc, owners: nat, heirs: nat, owners': nat, heirs': nat)
    requires Balanced(v, owners, heirs) && Local(v, t, th) && th.pc == Unlocking(p)
    requires Shifted(owners, heirs, th, ActUnlock(v, t, th, p).1, owners', heirs')
    ensures Balanced(ActUnlock(v, t, th, p).0, owners', heirs')
  {
  }

  lemma DieBalanced(v: Vars, t: nat, th: Thread, p: DiePc, owners: nat, heirs: nat, owners': nat, heirs': nat)
    requires Balanced(v, owners, heirs) && Local(v, t, th) && th.pc == Dying(p)
    requires Shifted(owners, heirs, th, ActDie(v, th, p).1, owners', heirs')
    ensures Balanced(ActDie(v, th, p).0, owners', heirs')
  {
  }

  lemma LockBalanced(v: Vars, t: nat, th: Thread, owners: nat, heirs: nat, owners': nat, heirs': nat)
    requires Balanced(v, owners, heirs) && th.pc.Locking? && !Taking(th.pc) && (th.pc.l == LBump ==> th.held > 0)
    requires var (v', th') := ActLock(v, t, th, th.pc.l); Shifted(owners, heirs, th, th', owners', heirs')
    ensures Balanced(ActLock(v, t, th, th.pc.l).0, owners', heirs')
  {
  }

  lemma ActBalanced(v: Vars, t: nat, th: Thread, c: Call, owners: nat, heirs: nat, owners': nat, heirs': nat)
    requires Balanced(v, owners, heirs) && Local(v, t, th)
    requires Shifted(owners, heirs, th, Act(v, t, th, c).1, owners', heirs')
    ensures Balanced(Act(v, t, th, c).0, owners', heirs')
  {
    if Taking(th.pc) { TakingBalanced(v, t, th, owners, heirs, owners', heirs'); }
    else if th.pc.Locking? { LockBalanced(v, t, th, owners, heirs, owners', heirs'); }
    else if th.pc.Unlocking? { UnlockBalanced(v, t, th, th.pc.u, owners, heirs, owners', heirs'); }
    else if th.pc.Dying? { DieBalanced(v, t, th, th.pc.d, owners, heirs, owners', heirs'); }
  }

  lemma TakingArrives(v: Vars, t: nat, th: Thread)
    requires Local(v, t, th) && Taking(th.pc)
    ensures var (v', th') := ActLock(v, t, th, th.pc.l); Local(v', t, th')
  {
  }

  /** The points of trylock, and of a recursive lock. */
  predicate Trying(p: LockPc) { p == TState || p == TCas || p == TReadOwner || p == TInherit || p == LBump }

  lemma TryArrives(v: Vars, t: nat, th: Thread)
    requires Local(v, t, th) && th.pc.Locking? && Trying(th.pc.l)
    requires Owns(th) ==> v.lockIdx != 0 && v.health != Orphaned
    ensures var (v', th') := ActLock(v, t, th, th.pc.l); Local(v', t, th')
  {
  }

  lemma LockArrives(v: Vars, t: nat, th: Thread)
    requires Local(v, t, th) && th.pc.Locking? && !Taking(th.pc) && !Trying(th.pc.l)
    requires Owns(th) ==> v.lockIdx != 0 && v.health != Orphaned
    ensures var (v', th') := ActLock(v, t, th, th.pc.l); Local(v', t, th')
  {
  }

  lemma ActArrives(v: Vars, t: nat, th: Thread, c: Call)
    requires Local(v, t, th) && (Owns(th) ==> v.lockIdx != 0 && v.health != Orphaned)
    ensures var (v', th') := Act(v, t, th, c); Local(v', t, th')
  {
    if Taking(th.pc) { TakingArrives(v, t, th); }
    else if th.pc.Locking? && Trying(th.pc.l) { TryArrives(v, t, th); }
    else if th.pc.Locking? { LockArrives(v, t, th); }
  }

  /** Another thread u keeps what it relies on: they do not both own the mutex. */
  lemma ActKeeps(v: Vars, t: nat, th: Thread, c: Call, u: nat, uh: Thread)
    requires t != u && Local(v, t, th) && Local(v, u, uh)
    requires OwnsW(th) + OwnsW(uh) + Orphans(v) <= (if v.lockIdx == 0 then 0 else 1)
    ensures Local(Act(v, t, th, c).0, u, uh)
  {
  }

  lemma SumsShifted(ts: seq<Thread>, t: nat, b: Thread)
    requires t < |ts|
    ensures Shifted(Sum(ts, OwnsW), Sum(ts, HeirW), ts[t], b, Sum(ts[t := b], OwnsW), Sum(ts[t := b], HeirW))
  {
    SumUpdate(ts, t, b, OwnsW);
    SumUpdate(ts, t, b, HeirW);
    SumAt(ts, t, OwnsW);
    SumAt(ts, t, HeirW);
  }

  lemma StepBalanced(s: State, t: nat, c: Call)
    requires Inv(s) && t < |s.ts|
    ensures var r := Step(s, t, c); Balanced(r.v, Sum(r.ts, OwnsW), Sum(r.ts, HeirW))
  {
    var b := Act(s.v, t, s.ts[t], c).1;
    SumsShifted(s.ts, t, b);
    ActBalanced(s.v, t, s.ts[t], c, Sum(s.ts, OwnsW), Sum(s.ts, HeirW),
                Sum(s.ts[t := b], OwnsW), Sum(s.ts[t := b], HeirW));
  }

  /** A step puts the node in the list of the acting thread or of nobody. */
  lemma ListedByActor(v: Vars, t: nat, th: Thread, c: Call)
    ensures var l := Act(v, t, th, c).0.list; l == v.list || l == Nobody || l == Is(t)
  {
  }

  lemma StepInv(s: State, t: nat, c: Call)
    requires Inv(s)
    ensures Inv(Step(s, t, c))
  {
    if t < |s.ts| {
      StepBalanced(s, t, c);
      ListedByActor(s.v, t, s.ts[t], c);
      SumAt(s.ts, t, OwnsW);
      ActArrives(s.v, t, s.ts[t], c);
      forall u | 0 <= u < |s.ts| && u != t ensures Local(Act(s.v, t, s.ts[t], c).0, u, s.ts[u]) {
        SumTwo(s.ts, t, u, OwnsW);
        ActKeeps(s.v, t, s.ts[t], c, u, s.ts[u]);
      }
    }
  }

  lemma {:induction false} RunInv(s: State, schedule: Schedule)
    requires Inv(s)
    ensures Inv(Run(s, schedule))
    decreases |schedule|
  {
    if schedule == [] {
    } else {
      var last := schedule[|schedule| - 1];
      var before := Run(s, schedule[..|schedule| - 1]);
      RunInv(s, schedule[..|schedule| - 1]);
      StepInv(before, last.0, last.1);
      assert Run(s, schedule) == Step(before, last.0, last.1);
    }
  }
}
