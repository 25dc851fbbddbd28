/** Read-write locks (pthread_rwlock_*.c): two mutexes, a condition variable and
    three counters. Active readers are counted as a difference of two counters,
    the second of which goes below zero while a writer waits for them.

    The mutexes and the condition variable are used by what is proved of them in
    Mutex and CondVar: a mutex has one holder; a signal given while a waiter is
    registered wakes it; a wait may also end without a signal. */
module RwLock {
  import opened Counting

  const INT_MAX: int := 0x7fff_ffff

  datatype Mode = Block | Try | Timed

  datatype Call = CallRead(m: Mode) | CallWrite(m: Mode) | CallUnlock

  /** fail: a timed wait for a mutex gives up. wake: the condition wait returns
      without a signal. expire: it returns because of a timeout or cancellation. */
  datatype Choice = Choice(call: Call, fail: bool, wake: bool, expire: bool)

  /** pthread_rwlock_rdlock and pthread_rwlock_tryrdlock. */
  datatype ReaderPc = RLockEx(m: Mode) | RCount | RLockSh | RFold | RUnlockSh | RUnlockEx

  /** pthread_rwlock_wrlock, pthread_rwlock_timedwrlock, pthread_rwlock_trywrlock,
      but for the wait. */
  datatype EnterPc =
    | WLockEx(m: Mode) | WLockSh(m: Mode) | WFailEx
    | WTest(m: Mode) | WFold(m: Mode) | WCheck(m: Mode)
    | WBusySh | WBusyEx | WStuck | WTake

  /** The writer's wait for the readers, and ptw32_rwlock_cancelwrwait. */
  datatype AwaitPc =
    | WArm | WWait | WWaiting | WRelock | WLoop | WClear
    | WExpired | WCancel | WCancelSh | WCancelEx

  /** pthread_rwlock_unlock. */
  datatype UnlockPc = UTest | ULockSh | UCount | USignal | UUnlockSh | UDrop | UFreeSh | UFreeEx

  datatype Pc =
    Idle | Reading(r: ReaderPc) | Entering(e: EnterPc) | Awaiting(a: AwaitPc) | Unlocking(u: UnlockPc)

  /** readLocks: read locks counted in and not yet counted out. writes: the thread has
      the write lock. Both are history. */
  datatype Thread = Thread(pc: Pc, readLocks: nat, writes: bool)

  datatype Vars = Vars(
    shared: int,        // nSharedAccessCount
    excl: int,          // nExclusiveAccessCount
    completed: int,     // nCompletedSharedAccessCount
    mtxEx: bool,        // mtxExclusiveAccess is held
    mtxSh: bool,        // mtxSharedAccessCompleted is held
    waiting: bool,      // a writer is registered on cndSharedAccessCompleted
    signalled: bool)    // and has been signalled

  datatype State = State(v: Vars, ts: seq<Thread>)

  function Init(n: nat): State
  {
    State(Vars(0, 0, 0, false, false, false, false), Idlers(n))
  }

  function Idlers(n: nat): seq<Thread>
  {
    seq(n, _ => Thread(Idle, 0, false))
  }

  // ----- the steps -----

  function GoRead(th: Thread, p: ReaderPc): Thread { th.(pc := Reading(p)) }
  function GoEnter(th: Thread, p: EnterPc): Thread { th.(pc := Entering(p)) }
  function GoAwait(th: Thread, p: AwaitPc): Thread { th.(pc := Awaiting(p)) }
  function GoUnlock(th: Thread, p: UnlockPc): Thread { th.(pc := Unlocking(p)) }
  function Done(th: Thread): Thread { th.(pc := Idle) }

  /** Unlocking a lock the thread does not hold is outside what the code provides for. */
  function ActCall(v: Vars, th: Thread, c: Choice): (Vars, Thread)
  {
    match c.call
    case CallRead(m) => (v, GoRead(th, RLockEx(m)))
    case CallWrite(m) => (v, GoEnter(th, WLockEx(m)))
    case CallUnlock => (v, if th.readLocks > 0 || th.writes then GoUnlock(th, UTest) else th)
  }

  /** pthread_rwlock_rdlock.c:83-108. */
  function ActReader(v: Vars, th: Thread, p: ReaderPc): (Vars, Thread)
  {
    match p
    case RLockEx(m) =>
      if !v.mtxEx then (v.(mtxEx := true), GoRead(th, RCount))
      else (v, if m == Try then Done(th) else th)
    case RCount =>
      (v.(shared := v.shared + 1),
       GoRead(th.(readLocks := th.readLocks + 1), if v.shared + 1 == INT_MAX then RLockSh else RUnlockEx))
    case RLockSh => if v.mtxSh then (v, th) else (v.(mtxSh := true), GoRead(th, RFold))
    case RFold => (v.(shared := v.shared - v.completed, completed := 0), GoRead(th, RUnlockSh))
    case RUnlockSh => (v.(mtxSh := false), GoRead(th, RUnlockEx))
    case RUnlockEx => (v.(mtxEx := false), Done(th))
  }

  /** pthread_rwlock_wrlock.c:83-137, pthread_rwlock_timedwrlock.c:84-143,
      pthread_rwlock_trywrlock.c:83-126: up to the decision to wait. */
  function ActEnter(v: Vars, th: Thread, p: EnterPc, c: Choice): (Vars, Thread)
  {
    match p
    case WLockEx(m) =>
      if m == Timed && c.fail then (v, Done(th))
      else if !v.mtxEx then (v.(mtxEx := true), GoEnter(th, WLockSh(m)))
      else (v, if m == Try then Done(th) else th)
    case WLockSh(m) =>
      if m == Timed && c.fail then (v, GoEnter(th, WFailEx))
      else if !v.mtxSh then (v.(mtxSh := true), GoEnter(th, WTest(m)))
      else (v, if m == Try then GoEnter(th, WFailEx) else th)
    case WFailEx => (v.(mtxEx := false), Done(th))
    case WTest(m) =>
      (v, GoEnter(th, if v.excl == 0 then WFold(m) else if m == Try then WStuck else WTake))
    case WFold(m) =>
      (if v.completed > 0 then v.(shared := v.shared - v.completed, completed := 0) else v, GoEnter(th, WCheck(m)))
    case WCheck(m) =>
      (v, if v.shared <= 0 then GoEnter(th, WTake) else if m == Try then GoEnter(th, WBusySh) else GoAwait(th, WArm))
    case WBusySh => (v.(mtxSh := false), GoEnter(th, WBusyEx))
    case WBusyEx => (v.(mtxEx := false), Done(th))
    case WStuck => (v, th)
    case WTake => (v.(excl := v.excl + 1), Done(th).(writes := true))
  }

  /** The wait for the readers (pthread_rwlock_wrlock.c:104-130), and
      ptw32_rwlock_cancelwrwait.c:50-56 when it fails. The condition wait gives up
      mtxSharedAccessCompleted when it registers and takes it again on return. */
  function ActAwait(v: Vars, th: Thread, p: AwaitPc, c: Choice): (Vars, Thread)
  {
    match p
    case WArm => (v.(completed := -v.shared), GoAwait(th, WWait))
    case WWait => (v.(waiting := true, signalled := false, mtxSh := false), GoAwait(th, WWaiting))
    case WWaiting =>
      if c.expire then (v.(waiting := false, signalled := false), GoAwait(th, WExpired))
      else if v.signalled || c.wake then (v.(waiting := false, signalled := false), GoAwait(th, WRelock))
      else (v, th)
    case WRelock => if v.mtxSh then (v, th) else (v.(mtxSh := true), GoAwait(th, WLoop))
    case WLoop => (v, GoAwait(th, if v.completed < 0 then WWait else WClear))
    case WClear => (v.(shared := 0), GoEnter(th, WTake))
    case WExpired => if v.mtxSh then (v, th) else (v.(mtxSh := true), GoAwait(th, WCancel))
    case WCancel => (v.(shared := -v.completed, completed := 0), GoAwait(th, WCancelSh))
    case WCancelSh => (v.(mtxSh := false), GoAwait(th, WCancelEx))
    case WCancelEx => (v.(mtxEx := false), Done(th))
  }

  /** pthread_rwlock_unlock.c:75-97. */
  function ActUnlock(v: Vars, th: Thread, p: UnlockPc): (Vars, Thread)
  {
    match p
    case UTest => (v, GoUnlock(th, if v.excl == 0 then ULockSh else UDrop))
    case ULockSh => if v.mtxSh then (v, th) else (v.(mtxSh := true), GoUnlock(th, UCount))
    case UCount =>
      (v.(completed := v.completed + 1),
       GoUnlock(th.(readLocks := if th.readLocks > 0 then th.readLocks - 1 else 0),
         if v.completed + 1 == 0 then USignal else UUnlockSh))
    case USignal => (v.(signalled := v.waiting), GoUnlock(th, UUnlockSh))
    case UUnlockSh => (v.(mtxSh := false), Done(th))
    case UDrop => (v.(excl := v.excl - 1), GoUnlock(th.(writes := false), UFreeSh))
    case UFreeSh => (v.(mtxSh := false), GoUnlock(th, UFreeEx))
    case UFreeEx => (v.(mtxEx := false), Done(th))
  }

  function Act(v: Vars, th: Thread, c: Choice): (Vars, Thread)
  {
    match th.pc
    case Idle => ActCall(v, th, c)
    case Reading(r) => ActReader(v, th, r)
    case Entering(e) => ActEnter(v, th, e, c)
    case Awaiting(a) => ActAwait(v, th, a, c)
    case Unlocking(u) => ActUnlock(v, th, u)
  }

  function Step(s: State, t: nat, c: Choice): State
  {
    if t >= |s.ts| then s
    else
      var (v, th) := Act(s.v, s.ts[t], c);
      State(v, s.ts[t := th])
  }

  type Schedule = seq<(nat, Choice)>

  function Run(s: State, schedule: Schedule): State
    decreases |schedule|
  {
    if schedule == [] then s
    else
      var last := schedule[|schedule| - 1];
      Step(Run(s, schedule[..|schedule| - 1]), last.0, last.1)
  }

  // ----- weights -----

  /** ex, sh: the thread holds mtxExclusiveAccess, mtxSharedAccessCompleted.
      readers, writers: its read locks; whether it has the write lock.
      armed: a writer has turned the completed count into a count of the readers
      it waits for. awaits: it is registered on the condition variable. signals:
      the thread is about to signal. folds: it is about to fold the counts. */
  datatype Totals = Totals(ex: nat, sh: nat, readers: nat, writers: nat, armed: nat,
                           awaits: nat, signals: nat, folds: nat)

  const NOTHING: Totals := Totals(0, 0, 0, 0, 0, 0, 0, 0)

  function WeighReader(p: ReaderPc): Totals
  {
    match p
    case RLockEx(_) => NOTHING
    case RCount | RUnlockEx => NOTHING.(ex := 1)
    case RLockSh => NOTHING.(ex := 1, folds := 1)
    case RFold => NOTHING.(ex := 1, sh := 1, folds := 1)
    case RUnlockSh => NOTHING.(ex := 1, sh := 1)
  }

  function WeighEnter(p: EnterPc): Totals
  {
    match p
    case WLockEx(_) => NOTHING
    case WLockSh(_) | WFailEx | WBusyEx => NOTHING.(ex := 1)
    case WTest(_) | WFold(_) | WCheck(_) | WBusySh | WStuck | WTake => NOTHING.(ex := 1, sh := 1)
  }

  function WeighAwait(p: AwaitPc): Totals
  {
    match p
    case WArm | WCancelSh => NOTHING.(ex := 1, sh := 1)
    case WWait | WLoop | WClear | WCancel => NOTHING.(ex := 1, sh := 1, armed := 1)
    case WRelock | WExpired => NOTHING.(ex := 1, armed := 1)
    case WWaiting => NOTHING.(ex := 1, armed := 1, awaits := 1)
    case WCancelEx => NOTHING.(ex := 1)
  }

  function WeighUnlock(p: UnlockPc): Totals
  {
    match p
    case UTest | ULockSh | UDrop => NOTHING
    case UCount | UUnlockSh => NOTHING.(sh := 1)
    case USignal => NOTHING.(sh := 1, signals := 1)
    case UFreeSh => NOTHING.(ex := 1, sh := 1)
    case UFreeEx => NOTHING.(ex := 1)
  }

  function WeighPc(p: Pc): Totals
  {
    match p
    case Idle => NOTHING
    case Reading(r) => WeighReader(r)
    case Entering(e) => WeighEnter(e)
    case Awaiting(a) => WeighAwait(a)
    case Unlocking(u) => WeighUnlock(u)
  }

  function Weigh(th: Thread): Totals
  {
    var k := WeighPc(th.pc);
    var w := if th.writes then 1 else 0;
    k.(ex := k.ex + w, sh := k.sh + w, readers := th.readLocks, writers := w)
  }

  function ExW(th: Thread): nat { Weigh(th).ex }
  function ShW(th: Thread): nat { Weigh(th).sh }
  function ReadersW(th: Thread): nat { Weigh(th).readers }
  function WritersW(th: Thread): nat { Weigh(th).writers }
  function ArmedW(th: Thread): nat { Weigh(th).armed }
  function AwaitsW(th: Thread): nat { Weigh(th).awaits }
  function SignalsW(th: Thread): nat { Weigh(th).signals }
  function FoldsW(th: Thread): nat { Weigh(th).folds }

  ghost function Total(ts: seq<Thread>): Totals
  {
    Totals(Sum(ts, ExW), Sum(ts, ShW), Sum(ts, ReadersW), Sum(ts, WritersW), Sum(ts, ArmedW),
           Sum(ts, AwaitsW), Sum(ts, SignalsW), Sum(ts, FoldsW))
  }

  // ----- the invariant -----

  /** The mutexes have one holder each; the exclusive count is the writers. */
  ghost predicate Tokens(v: Vars, k: Totals)
  {
    && k.ex == (if v.mtxEx then 1 else 0)
    && k.sh == (if v.mtxSh then 1 else 0)
    && v.excl == k.writers
  }

  /** The active readers are the difference of the counts, or, while a writer waits
      for them, the completed count below zero. A writer excludes them. */
  ghost predicate Counted(v: Vars, k: Totals)
  {
    && (k.writers > 0 ==> k.readers == 0 && v.shared == 0 && v.completed == 0)
    && (k.armed > 0 ==> k.readers == -v.completed && k.readers <= v.shared)
    && (k.armed == 0 ==> k.readers == v.shared - v.completed && v.completed >= 0)
  }

  /** A writer that waits although no reader is left has been, or is about to be,
      signalled. */
  ghost predicate Waking(v: Vars, k: Totals)
  {
    && v.waiting == (k.awaits > 0)
    && (v.waiting && v.completed == 0 ==> v.signalled || k.signals > 0)
  }

  ghost predicate Balanced(v: Vars, k: Totals)
  {
    Tokens(v, k) && Counted(v, k) && Waking(v, k)
  }

  /** What a thread may rely on where it is. */
  ghost predicate Local(v: Vars, th: Thread)
  {
    match th.pc
    case Entering(e) => LocalEnter(v, e)
    case Awaiting(a) => LocalAwait(v, a)
    case Unlocking(u) => LocalUnlock(th, u)
    case _ => true
  }

  ghost predicate LocalEnter(v: Vars, p: EnterPc)
  {
    match p
    case WStuck => false
    case WFold(_) => v.excl == 0
    case WCheck(_) => v.completed == 0 && v.shared >= 0 && v.excl == 0
    case WTake => v.completed == 0 && v.shared == 0 && v.excl == 0
    case _ => true
  }

  ghost predicate LocalAwait(v: Vars, p: AwaitPc)
  {
    match p
    case WArm => v.completed == 0 && v.shared > 0 && v.excl == 0
    case WWait => v.completed < 0
    case WClear => v.completed >= 0
    case _ => true
  }

  ghost predicate LocalUnlock(th: Thread, p: UnlockPc)
  {
    match p
    case UTest => th.readLocks > 0 || th.writes
    case ULockSh => th.readLocks > 0
    case UCount => th.readLocks > 0
    case UDrop => th.writes
    case _ => true
  }

  ghost predicate AllLocal(v: Vars, ts: seq<Thread>)
  {
    forall u :: 0 <= u < |ts| ==> Local(v, ts[u])
  }

  ghost predicate Inv(s: State)
  {
    Balanced(s.v, Total(s.ts)) && AllLocal(s.v, s.ts)
  }

  lemma AllIdle(n: nat, w: Thread -> nat)
    requires w(Thread(Idle, 0, false)) == 0
    ensures Sum(Idlers(n), w) == 0
  {
    SumZero(Idlers(n), w);
  }

  lemma IdleTotal(n: nat)
    ensures Total(Idlers(n)) == NOTHING
  {
    AllIdle(n, ExW);
    AllIdle(n, ShW);
    AllIdle(n, ReadersW);
    AllIdle(n, WritersW);
    AllIdle(n, ArmedW);
    AllIdle(n, AwaitsW);
    AllIdle(n, SignalsW);
    AllIdle(n, FoldsW);
  }

  lemma InitInv(n: nat)
    ensures Inv(Init(n))
  {
    IdleTotal(n);
  }

  // ----- one step keeps it -----

  // The sums after one thread's weights have changed from w to x, and what the
  // sums say about that thread: with a mutex it is alone in what the mutex guards.

  ghost predicate ShiftedTokens(k: Totals, w: Totals, x: Totals, k': Totals)
  {
    && k'.ex == k.ex - w.ex + x.ex
    && k'.sh == k.sh - w.sh + x.sh
    && k'.writers == k.writers - w.writers + x.writers
  }

  ghost predicate ShiftedCounts(k: Totals, w: Totals, x: Totals, k': Totals)
  {
    && k'.readers == k.readers - w.readers + x.readers
    && k'.writers == k.writers - w.writers + x.writers
    && k'.armed == k.armed - w.armed + x.armed
  }

  ghost predicate ShiftedWaking(k: Totals, w: Totals, x: Totals, k': Totals)
  {
    && k'.awaits == k.awaits - w.awaits + x.awaits
    && k'.signals == k.signals - w.signals + x.signals
  }

  ghost predicate Shifted(k: Totals, w: Totals, x: Totals, k': Totals)
  {
    && ShiftedTokens(k, w, x, k') && ShiftedCounts(k, w, x, k') && ShiftedWaking(k, w, x, k')
    && k'.folds == k.folds - w.folds + x.folds
  }

  ghost predicate FitsTokens(k: Totals, w: Totals)
  {
    w.ex <= k.ex && w.sh <= k.sh && w.writers <= k.writers
  }

  ghost predicate FitsCounts(k: Totals, w: Totals)
  {
    && w.readers <= k.readers && w.armed <= k.armed && w.writers <= k.writers && w.ex <= 1
    && (w.ex > 0 ==> k.writers == w.writers && k.armed == w.armed)
  }

  ghost predicate FitsWaking(k: Totals, w: Totals)
  {
    && w.awaits <= k.awaits && w.signals <= k.signals && w.ex <= 1
    && (w.ex > 0 ==> k.awaits == w.awaits)
    && (w.sh > 0 ==> k.signals == w.signals)
  }

  ghost predicate Alone(k: Totals, w: Totals)
  {
    && FitsTokens(k, w) && FitsCounts(k, w) && FitsWaking(k, w)
    && w.folds <= k.folds && (w.ex > 0 ==> k.folds == w.folds)
  }

  lemma TotalShifted(ts: seq<Thread>, t: nat, b: Thread)
    requires t < |ts|
    ensures Shifted(Total(ts), Weigh(ts[t]), Weigh(b), Total(ts[t := b]))
  {
    SumUpdate(ts, t, b, ExW);
    SumUpdate(ts, t, b, ShW);
    SumUpdate(ts, t, b, ReadersW);
    SumUpdate(ts, t, b, WritersW);
    SumUpdate(ts, t, b, ArmedW);
    SumUpdate(ts, t, b, AwaitsW);
    SumUpdate(ts, t, b, SignalsW);
    SumUpdate(ts, t, b, FoldsW);
  }

  lemma OnlyAt(ts: seq<Thread>, t: nat, w: Thread -> nat)
    requires t < |ts|
    requires w(Thread(Idle, 0, false)) == 0
    requires forall u :: 0 <= u < |ts| && u != t ==> w(ts[u]) == 0
    ensures Sum(ts, w) == w(ts[t])
  {
    SumUpdate(ts, t, Thread(Idle, 0, false), w);
    SumZero(ts[t := Thread(Idle, 0, false)], w);
  }

  /** Whatever else a thread counts towards, it does so with a mutex. */
  lemma NeedsMutex(th: Thread)
    ensures ExW(th) == 0 ==> WritersW(th) == ArmedW(th) == AwaitsW(th) == FoldsW(th) == 0
    ensures ShW(th) == 0 ==> WritersW(th) == SignalsW(th) == 0
  {
  }

  lemma AloneWithEx(s: State, t: nat)
    requires Inv(s) && t < |s.ts| && ExW(s.ts[t]) > 0
    ensures var (k, w) := (Total(s.ts), Weigh(s.ts[t]));
            k.writers == w.writers && k.armed == w.armed && k.awaits == w.awaits && k.folds == w.folds
  {
    forall u | 0 <= u < |s.ts| && u != t
      ensures WritersW(s.ts[u]) == ArmedW(s.ts[u]) == AwaitsW(s.ts[u]) == FoldsW(s.ts[u]) == 0
    {
      SumTwo(s.ts, t, u, ExW);
      assert Balanced(s.v, Total(s.ts));
      NeedsMutex(s.ts[u]);
    }
    OnlyAt(s.ts, t, WritersW);
    OnlyAt(s.ts, t, ArmedW);
    OnlyAt(s.ts, t, AwaitsW);
    OnlyAt(s.ts, t, FoldsW);
  }

  lemma AloneWithSh(s: State, t: nat)
    requires Inv(s) && t < |s.ts| && ShW(s.ts[t]) > 0
    ensures var (k, w) := (Total(s.ts), Weigh(s.ts[t]));
            k.writers == w.writers && k.signals == w.signals
  {
    forall u | 0 <= u < |s.ts| && u != t
      ensures WritersW(s.ts[u]) == SignalsW(s.ts[u]) == 0
    {
      SumTwo(s.ts, t, u, ShW);
      assert Balanced(s.v, Total(s.ts));
      NeedsMutex(s.ts[u]);
    }
    OnlyAt(s.ts, t, WritersW);
    OnlyAt(s.ts, t, SignalsW);
  }

  lemma IsAlone(s: State, t: nat)
    requires Inv(s) && t < |s.ts|
    ensures Alone(Total(s.ts), Weigh(s.ts[t]))
  {
    SumAt(s.ts, t, ExW);
    SumAt(s.ts, t, ShW);
    SumAt(s.ts, t, ReadersW);
    SumAt(s.ts, t, WritersW);
    SumAt(s.ts, t, ArmedW);
    SumAt(s.ts, t, AwaitsW);
    SumAt(s.ts, t, SignalsW);
    SumAt(s.ts, t, FoldsW);
    assert Tokens(s.v, Total(s.ts));
    if ExW(s.ts[t]) > 0 { AloneWithEx(s, t); }
    if ShW(s.ts[t]) > 0 { AloneWithSh(s, t); }
  }

  lemma ReaderTokens(v: Vars, th: Thread, p: ReaderPc, k: Totals, k': Totals)
    requires th.pc == Reading(p) && Tokens(v, k) && Local(v, th) && FitsTokens(k, Weigh(th))
    requires ShiftedTokens(k, Weigh(th), Weigh(ActReader(v, th, p).1), k')
    ensures Tokens(ActReader(v, th, p).0, k')
  {
  }

  lemma EnterTokens(v: Vars, th: Thread, p: EnterPc, c: Choice, k: Totals, k': Totals)
    requires th.pc == Entering(p) && Tokens(v, k) && Local(v, th) && FitsTokens(k, Weigh(th))
    requires ShiftedTokens(k, Weigh(th), Weigh(ActEnter(v, th, p, c).1), k')
    ensures Tokens(ActEnter(v, th, p, c).0, k')
  {
  }

  lemma AwaitTokens(v: Vars, th: Thread, p: AwaitPc, c: Choice, k: Totals, k': Totals)
    requires th.pc == Awaiting(p) && Tokens(v, k) && Local(v, th) && FitsTokens(k, Weigh(th))
    requires ShiftedTokens(k, Weigh(th), Weigh(ActAwait(v, th, p, c).1), k')
    ensures Tokens(ActAwait(v, th, p, c).0, k')
  {
  }

  lemma UnlockTokens(v: Vars, th: Thread, p: UnlockPc, k: Totals, k': Totals)
    requires th.pc == Unlocking(p) && Tokens(v, k) && Local(v, th) && FitsTokens(k, Weigh(th))
    requires ShiftedTokens(k, Weigh(th), Weigh(ActUnlock(v, th, p).1), k')
    ensures Tokens(ActUnlock(v, th, p).0, k')
  {
  }

  lemma ReaderCounted(v: Vars, th: Thread, p: ReaderPc, k: Totals, k': Totals)
    requires th.pc == Reading(p) && Counted(v, k) && Local(v, th) && FitsCounts(k, Weigh(th))
    requires ShiftedCounts(k, Weigh(th), Weigh(ActReader(v, th, p).1), k')
    ensures Counted(ActReader(v, th, p).0, k')
  {
  }

  lemma EnterCounted(v: Vars, th: Thread, p: EnterPc, c: Choice, k: Totals, k': Totals)
    requires th.pc == Entering(p) && Counted(v, k) && Local(v, th) && FitsCounts(k, Weigh(th))
    requires ShiftedCounts(k, Weigh(th), Weigh(ActEnter(v, th, p, c).1), k')
    ensures Counted(ActEnter(v, th, p, c).0, k')
  {
  }

  lemma AwaitCounted(v: Vars, th: Thread, p: AwaitPc, c: Choice, k: Totals, k': Totals)
    requires th.pc == Awaiting(p) && Counted(v, k) && Local(v, th) && FitsCounts(k, Weigh(th))
    requires ShiftedCounts(k, Weigh(th), Weigh(ActAwait(v, th, p, c).1), k')
    ensures Counted(ActAwait(v, th, p, c).0, k')
  {
  }

  lemma UnlockCounted(v: Vars, th: Thread, p: UnlockPc, k: Totals, k': Totals)
    requires th.pc == Unlocking(p) && Counted(v, k) && Local(v, th) && FitsCounts(k, Weigh(th))
    requires ShiftedCounts(k, Weigh(th), Weigh(ActUnlock(v, th, p).1), k')
    ensures Counted(ActUnlock(v, th, p).0, k')
  {
  }

  lemma ReaderWaking(v: Vars, th: Thread, p: ReaderPc, k: Totals, k': Totals)
    requires th.pc == Reading(p) && Waking(v, k) && Local(v, th) && FitsWaking(k, Weigh(th))
    requires ShiftedWaking(k, Weigh(th), Weigh(ActReader(v, th, p).1), k')
    ensures Waking(ActReader(v, th, p).0, k')
  {
  }

  lemma EnterWaking(v: Vars, th: Thread, p: EnterPc, c: Choice, k: Totals, k': Totals)
    requires th.pc == Entering(p) && Waking(v, k) && Local(v, th) && FitsWaking(k, Weigh(th))
    requires ShiftedWaking(k, Weigh(th), Weigh(ActEnter(v, th, p, c).1), k')
    ensures Waking(ActEnter(v, th, p, c).0, k')
  {
  }

  lemma AwaitWaking(v: Vars, th: Thread, p: AwaitPc, c: Choice, k: Totals, k': Totals)
    requires th.pc == Awaiting(p) && Waking(v, k) && Local(v, th) && FitsWaking(k, Weigh(th))
    requires ShiftedWaking(k, Weigh(th), Weigh(ActAwait(v, th, p, c).1), k')
    ensures Waking(ActAwait(v, th, p, c).0, k')
  {
  }

  lemma UnlockWaking(v: Vars, th: Thread, p: UnlockPc, k: Totals, k': Totals)
    requires th.pc == Unlocking(p) && Waking(v, k) && Local(v, th) && FitsWaking(k, Weigh(th))
    requires ShiftedWaking(k, Weigh(th), Weigh(ActUnlock(v, th, p).1), k')
    ensures Waking(ActUnlock(v, th, p).0, k')
  {
  }

  // Where the thread arrives it finds what it needs there.

  lemma EnterArrives(v: Vars, th: Thread, p: EnterPc, c: Choice, k: Totals)
    requires th.pc == Entering(p) && v.excl == k.writers && Counted(v, k) && Local(v, th)
    requires FitsCounts(k, Weigh(th))
    ensures Local(ActEnter(v, th, p, c).0, ActEnter(v, th, p, c).1)
  {
  }

  lemma AwaitArrives(v: Vars, th: Thread, p: AwaitPc, c: Choice, k: Totals)
    requires th.pc == Awaiting(p) && v.excl == k.writers && Counted(v, k) && Local(v, th)
    requires FitsCounts(k, Weigh(th))
    ensures Local(ActAwait(v, th, p, c).0, ActAwait(v, th, p, c).1)
  {
  }

  lemma UnlockArrives(v: Vars, th: Thread, p: UnlockPc, k: Totals)
    requires th.pc == Unlocking(p) && v.excl == k.writers && Counted(v, k) && Local(v, th)
    requires FitsCounts(k, Weigh(th))
    ensures Local(ActUnlock(v, th, p).0, ActUnlock(v, th, p).1)
  {
  }

  lemma ActTokens(v: Vars, th: Thread, c: Choice, k: Totals, k': Totals)
    requires Tokens(v, k) && Local(v, th) && FitsTokens(k, Weigh(th))
    requires ShiftedTokens(k, Weigh(th), Weigh(Act(v, th, c).1), k')
    ensures Tokens(Act(v, th, c).0, k')
  {
    match th.pc
    case Idle =>
    case Reading(p) => ReaderTokens(v, th, p, k, k');
    case Entering(p) => EnterTokens(v, th, p, c, k, k');
    case Awaiting(p) => AwaitTokens(v, th, p, c, k, k');
    case Unlocking(p) => UnlockTokens(v, th, p, k, k');
  }

  lemma ActCounted(v: Vars, th: Thread, c: Choice, k: Totals, k': Totals)
    requires Counted(v, k) && Local(v, th) && FitsCounts(k, Weigh(th))
    requires ShiftedCounts(k, Weigh(th), Weigh(Act(v, th, c).1), k')
    ensures Counted(Act(v, th, c).0, k')
  {
    match th.pc
    case Idle =>
    case Reading(p) => ReaderCounted(v, th, p, k, k');
    case Entering(p) => EnterCounted(v, th, p, c, k, k');
    case Awaiting(p) => AwaitCounted(v, th, p, c, k, k');
    case Unlocking(p) => UnlockCounted(v, th, p, k, k');
  }

  lemma ActWaking(v: Vars, th: Thread, c: Choice, k: Totals, k': Totals)
    requires Waking(v, k) && Local(v, th) && FitsWaking(k, Weigh(th))
    requires ShiftedWaking(k, Weigh(th), Weigh(Act(v, th, c).1), k')
    ensures Waking(Act(v, th, c).0, k')
  {
    match th.pc
    case Idle =>
    case Reading(p) => ReaderWaking(v, th, p, k, k');
    case Entering(p) => EnterWaking(v, th, p, c, k, k');
    case Awaiting(p) => AwaitWaking(v, th, p, c, k, k');
    case Unlocking(p) => UnlockWaking(v, th, p, k, k');
  }

  lemma ActArrives(v: Vars, th: Thread, c: Choice, k: Totals)
    requires v.excl == k.writers && Counted(v, k) && Local(v, th) && FitsCounts(k, Weigh(th))
    ensures Local(Act(v, th, c).0, Act(v, th, c).1)
  {
    match th.pc
    case Idle =>
    case Reading(_) =>
    case Entering(p) =>
      EnterArrives(v, th, p, c, k);
    case Awaiting(p) =>
      AwaitArrives(v, th, p, c, k);
    case Unlocking(p) =>
      UnlockArrives(v, th, p, k);
  }

  /** Every other thread keeps what it relies on: the mutexes keep the two apart. */
  lemma ActKeeps(v: Vars, th: Thread, c: Choice, uh: Thread)
    requires Local(v, th) && Local(v, uh)
    requires ExW(th) + ExW(uh) <= 1 && ShW(th) + ShW(uh) <= 1
    ensures Local(Act(v, th, c).0, uh)
  {
  }

  lemma StepBalanced(s: State, t: nat, c: Choice)
    requires Inv(s) && t < |s.ts|
    ensures Balanced(Step(s, t, c).v, Total(Step(s, t, c).ts))
  {
    var (v, th) := Act(s.v, s.ts[t], c);
    TotalShifted(s.ts, t, th);
    IsAlone(s, t);
    ActTokens(s.v, s.ts[t], c, Total(s.ts), Total(s.ts[t := th]));
    ActCounted(s.v, s.ts[t], c, Total(s.ts), Total(s.ts[t := th]));
    ActWaking(s.v, s.ts[t], c, Total(s.ts), Total(s.ts[t := th]));
  }

  lemma StepInv(s: State, t: nat, c: Choice)
    requires Inv(s)
    ensures Inv(Step(s, t, c))
  {
    if t < |s.ts| {
      var (v, th) := Act(s.v, s.ts[t], c);
      IsAlone(s, t);
      StepBalanced(s, t, c);
      ActArrives(s.v, s.ts[t], c, Total(s.ts));
      forall u | 0 <= u < |s.ts| && u != t ensures Local(v, s.ts[u]) {
        SumTwo(s.ts, t, u, ExW);
        SumTwo(s.ts, t, u, ShW);
        ActKeeps(s.v, s.ts[t], c, s.ts[u]);
      }
    }
  }

  lemma {:induction false} RunInv(s: State, schedule: Schedule)
    requires Inv(s)
    ensures Inv(Run(s, schedule)) && |Run(s, schedule).ts| == |s.ts|
    decreases |schedule|
  {
    if schedule == [] {
    } else {
      var last := schedule[|schedule| - 1];
      RunInv(s, schedule[..|schedule| - 1]);
      StepInv(Run(s, schedule[..|schedule| - 1]), last.0, last.1);
    }
  }
}
