/** Condition variables: the waiter and signaller sides of the two-level locking
    scheme (pthread_cond_wait.c, pthread_cond_signal.c, pthread_cond_destroy.c).

    One step is one access to shared memory or one semaphore/mutex operation of
    one thread. nWaitersBlocked is read and written in separate steps, because
    its exclusive use is something to prove and not to assume. The other two
    counters are only touched between lock and unlock of mtxUnblockLock. */
module CondVar {
  import opened Counting

  const INT_MAX: int := 0x7fff_ffff
  const GONE_LIMIT: int := 0x3fff_ffff   // INT_MAX / 2

  /** What an idle thread calls next. */
  datatype Call = CallWait | CallSignal | CallBroadcast | CallDestroy

  /** Everything the code leaves open: the call an idle thread makes, and whether
      a wait gives up (timeout, cancellation or a failed semaphore wait). */
  datatype Choice = Choice(call: Call, expire: bool)

  /** ptw32_cond_timedwait, up to and including the blocking wait. */
  datatype WaitPc = WGate | WRead | WWrite(b: int) | WPost | WBlock

  /** ptw32_cond_wait_cleanup. */
  datatype CleanPc =
    | WMtx(took: bool) | WCleanup(took: bool) | WUnlock(left: int) | WOpen
    | WReset(r: ResetPc)

  /** Folding INT_MAX/2 gone waiters into nWaitersBlocked. */
  datatype ResetPc = RGate | RRead | RWrite(b: int) | RPost(g: nat) | RClear(g: nat)

  /** ptw32_cond_unblock. */
  datatype SignalPc =
    | SMtx(all: bool) | SBranch(all: bool) | SUnlock(n: nat) | SPost(n: nat)
    | SClosed(all: bool) | SCheck(all: bool) | SGate(all: bool)
    | SMoving(m: MovePc)

  /** Moving waiters from nWaitersBlocked to nWaitersToUnblock. */
  datatype MovePc = MClosed(all: bool) | MCollect(all: bool) | MMove(all: bool) | MWrite(b: int, n: nat)

  /** pthread_cond_destroy. */
  datatype DestroyPc = DGate | DTry | DBack | DCheck | DBusyPost | DBusyUnlock | DDone

  datatype Pc =
    | Idle
    | Waiting(w: WaitPc)
    | Cleaning(x: CleanPc)
    | Signalling(g: SignalPc)
    | Destroying(d: DestroyPc)

  /** The condition variable. The last two fields are history: they record what
      happened and no step reads them. */
  datatype Vars = Vars(
    blocked: int,     // nWaitersBlocked
    gone: int,        // nWaitersGone
    toUnblock: int,   // nWaitersToUnblock
    gate: nat,        // semBlockLock
    queue: nat,       // semBlockQueue
    mtx: bool,        // mtxUnblockLock is held
    issued: nat,      // wakeups that signals and broadcasts decided to issue
    woken: nat)       // waits that took a token and did their cleanup

  datatype State = State(v: Vars, pcs: seq<Pc>)

  function Init(n: nat): State
  {
    State(Vars(0, 0, 0, 1, 0, false, 0, 0), Idlers(n))
  }

  function Idlers(n: nat): seq<Pc>
  {
    seq(n, _ => Idle)
  }

  // ----- the steps: what a thread at p does to the variables, and where it goes -----

  function ActIdle(v: Vars, c: Choice): (Vars, Pc)
  {
    match c.call
    case CallWait => (v, Waiting(WGate))
    case CallSignal => (v, Signalling(SMtx(false)))
    case CallBroadcast => (v, Signalling(SMtx(true)))
    case CallDestroy => (v, Destroying(DGate))
  }

  /** pthread_cond_wait.c:388-439. */
  function ActWait(v: Vars, p: WaitPc, c: Choice): (Vars, Pc)
  {
    match p
    case WGate =>
      if c.expire then (v, Idle)                          // cancelled before it registered
      else if v.gate == 0 then (v, Waiting(p))
      else (v.(gate := v.gate - 1), Waiting(WRead))
    case WRead => (v, Waiting(WWrite(v.blocked)))
    case WWrite(b) => (v.(blocked := b + 1), Waiting(WPost))
    case WPost => (v.(gate := v.gate + 1), Waiting(WBlock))
    case WBlock =>
      if c.expire then (v, Cleaning(WMtx(false)))
      else if v.queue == 0 then (v, Waiting(p))
      else (v.(queue := v.queue - 1), Cleaning(WMtx(true)))
  }

  /** pthread_cond_wait.c:295-345. */
  function ActClean(v: Vars, p: CleanPc): (Vars, Pc)
  {
    match p
    case WMtx(took) =>
      if v.mtx then (v, Cleaning(p)) else (v.(mtx := true), Cleaning(WCleanup(took)))
    case WCleanup(took) =>
      var v := if took then v.(woken := v.woken + 1) else v;
      if v.toUnblock != 0 then
        (v.(toUnblock := v.toUnblock - 1), Cleaning(WUnlock(v.toUnblock)))
      else
        (v.(gone := v.gone + 1), Cleaning(if v.gone + 1 == GONE_LIMIT then WReset(RGate) else WUnlock(0)))
    case WUnlock(left) => (v.(mtx := false), if left == 1 then Cleaning(WOpen) else Idle)
    case WOpen => (v.(gate := v.gate + 1), Idle)
    case WReset(r) => ActReset(v, r)
  }

  /** pthread_cond_wait.c:305-330. */
  function ActReset(v: Vars, p: ResetPc): (Vars, Pc)
  {
    match p
    case RGate =>
      if v.gate == 0 then (v, Cleaning(WReset(p))) else (v.(gate := v.gate - 1), Cleaning(WReset(RRead)))
    case RRead => (v, Cleaning(WReset(RWrite(v.blocked))))
    case RWrite(b) =>
      (v.(blocked := b - v.gone), Cleaning(WReset(RPost(if v.gone >= 0 then v.gone else 0))))
    case RPost(g) => (v.(gate := v.gate + 1), Cleaning(WReset(RClear(g))))
    case RClear(_) => (v.(gone := 0), Cleaning(WUnlock(0)))
  }

  /** pthread_cond_signal.c:92-151. */
  function ActSignal(v: Vars, p: SignalPc): (Vars, Pc)
  {
    match p
    case SMtx(all) =>
      if v.mtx then (v, Signalling(p)) else (v.(mtx := true), Signalling(SBranch(all)))
    case SBranch(all) =>
      (v, Signalling(if v.toUnblock != 0 then SClosed(all) else SCheck(all)))
    case SClosed(all) =>
      (v, Signalling(if v.blocked == 0 then SUnlock(0) else SMoving(MClosed(all))))
    case SCheck(all) =>
      (v, Signalling(if v.blocked > v.gone then SGate(all) else SUnlock(0)))
    case SGate(all) =>
      if v.gate == 0 then (v, Signalling(p))
      else (v.(gate := v.gate - 1), Signalling(SMoving(MCollect(all))))
    case SMoving(m) => ActMove(v, m)
    case SUnlock(n) => (v.(mtx := false), if n > 0 then Signalling(SPost(n)) else Idle)
    case SPost(n) => (v.(queue := v.queue + n), Idle)
  }

  /** pthread_cond_signal.c:103-113 and 124-138. The write of nWaitersBlocked is a
      step of its own, MWrite. */
  function ActMove(v: Vars, p: MovePc): (Vars, Pc)
  {
    match p
    case MClosed(all) => AddToUnblock(v, all)
    case MCollect(all) =>
      (if v.gone != 0 then v.(blocked := v.blocked - v.gone, gone := 0) else v,
       Signalling(SMoving(MMove(all))))
    case MMove(all) => AddToUnblock(v.(toUnblock := 0), all)
    case MWrite(b, n) => (v.(blocked := b - n), Signalling(SUnlock(n)))
  }

  function AddToUnblock(v: Vars, all: bool): (Vars, Pc)
  {
    var n: nat := if all && v.blocked >= 0 then v.blocked else 1;
    (v.(toUnblock := v.toUnblock + n, issued := v.issued + n),
     Signalling(SMoving(MWrite(v.blocked, n))))
  }

  /** pthread_cond_destroy.c:148-201. */
  function ActDestroy(v: Vars, p: DestroyPc): (Vars, Pc)
  {
    match p
    case DGate =>
      if v.gate == 0 then (v, Destroying(p)) else (v.(gate := v.gate - 1), Destroying(DTry))
    case DTry => if v.mtx then (v, Destroying(DBack)) else (v.(mtx := true), Destroying(DCheck))
    case DBack => (v.(gate := v.gate + 1), Idle)
    case DCheck => (v, Destroying(if v.blocked > v.gone then DBusyPost else DDone))
    case DBusyPost => (v.(gate := v.gate + 1), Destroying(DBusyUnlock))
    case DBusyUnlock => (v.(mtx := false), Idle)
    case DDone => (v, Destroying(p))
  }

  function Act(v: Vars, p: Pc, c: Choice): (Vars, Pc)
  {
    match p
    case Idle => ActIdle(v, c)
    case Waiting(w) => ActWait(v, w, c)
    case Cleaning(x) => ActClean(v, x)
    case Signalling(g) => ActSignal(v, g)
    case Destroying(d) => ActDestroy(v, d)
  }

  function Step(s: State, t: nat, c: Choice): State
  {
    if t >= |s.pcs| then s
    else
      var (v, p) := Act(s.v, s.pcs[t], c);
      State(v, s.pcs[t := p])
  }

  type Schedule = seq<(nat, Choice)>

  /** The state after the threads have moved in the order the schedule gives. */
  function Run(s: State, schedule: Schedule): State
    decreases |schedule|
  {
    if schedule == [] then s
    else
      var last := schedule[|schedule| - 1];
      Step(Run(s, schedule[..|schedule| - 1]), last.0, last.1)
  }

  lemma RunNext(s: State, schedule: Schedule, i: nat)
    requires i < |schedule|
    ensures Run(s, schedule[..i + 1]) == Step(Run(s, schedule[..i]), schedule[i].0, schedule[i].1)
  {
    assert schedule[..i + 1][..i] == schedule[..i];
  }

  // ----- weights -----

  /** How a thread at a point counts towards each sum:
      gates     - it holds the gate token (semBlockLock)
      mtxs      - it holds mtxUnblockLock
      waiters   - it is registered: counted in, cleanup decrement still to come
      moving    - waiters already added to nWaitersToUnblock, not yet off nWaitersBlocked
      clearing  - waiters already off nWaitersBlocked, not yet off nWaitersGone
      resetting - it is folding nWaitersGone into nWaitersBlocked
      inFlight  - wakeups on their way: decided but not posted, or taken by a
                  waiter that has not done its cleanup yet */
  datatype Totals = Totals(gates: nat, mtxs: nat, waiters: nat, moving: nat, clearing: nat,
                           resetting: nat, inFlight: nat)

  const NOTHING: Totals := Totals(0, 0, 0, 0, 0, 0, 0)

  function WeighWait(p: WaitPc): Totals
  {
    match p
    case WRead | WWrite(_) => NOTHING.(gates := 1)
    case WPost => NOTHING.(gates := 1, waiters := 1)
    case WBlock => NOTHING.(waiters := 1)
    case WGate => NOTHING
  }

  function WeighClean(p: CleanPc): Totals
  {
    match p
    case WMtx(took) => NOTHING.(waiters := 1, inFlight := if took then 1 else 0)
    case WCleanup(took) => NOTHING.(mtxs := 1, waiters := 1, inFlight := if took then 1 else 0)
    case WUnlock(left) => NOTHING.(mtxs := 1, gates := if left == 1 then 1 else 0)
    case WOpen => NOTHING.(gates := 1)
    case WReset(r) => WeighReset(r)
  }

  function WeighReset(p: ResetPc): Totals
  {
    match p
    case RGate => NOTHING.(mtxs := 1, resetting := 1)
    case RRead | RWrite(_) => NOTHING.(gates := 1, mtxs := 1, resetting := 1)
    case RPost(g) => NOTHING.(gates := 1, mtxs := 1, clearing := g, resetting := 1)
    case RClear(g) => NOTHING.(mtxs := 1, clearing := g, resetting := 1)
  }

  function WeighSignal(p: SignalPc): Totals
  {
    match p
    case SMtx(_) => NOTHING
    case SBranch(_) | SClosed(_) | SCheck(_) | SGate(_) => NOTHING.(mtxs := 1)
    case SMoving(m) => WeighMove(m)
    case SUnlock(n) => NOTHING.(mtxs := 1, inFlight := n)
    case SPost(n) => NOTHING.(inFlight := n)
  }

  function WeighMove(p: MovePc): Totals
  {
    match p
    case MClosed(_) => NOTHING.(mtxs := 1)
    case MCollect(_) | MMove(_) => NOTHING.(gates := 1, mtxs := 1)
    case MWrite(_, n) => NOTHING.(mtxs := 1, moving := n, inFlight := n)
  }

  function WeighDestroy(p: DestroyPc): Totals
  {
    match p
    case DGate => NOTHING
    case DTry | DBack => NOTHING.(gates := 1)
    case DCheck | DBusyPost | DDone => NOTHING.(gates := 1, mtxs := 1)
    case DBusyUnlock => NOTHING.(mtxs := 1)
  }

  function Weigh(p: Pc): Totals
  {
    match p
    case Idle => NOTHING
    case Waiting(w) => WeighWait(w)
    case Cleaning(x) => WeighClean(x)
    case Signalling(g) => WeighSignal(g)
    case Destroying(d) => WeighDestroy(d)
  }

  function GateHold(p: Pc): nat { Weigh(p).gates }
  function MtxHold(p: Pc): nat { Weigh(p).mtxs }
  function Registered(p: Pc): nat { Weigh(p).waiters }
  function Moving(p: Pc): nat { Weigh(p).moving }
  function Clearing(p: Pc): nat { Weigh(p).clearing }
  function Resetting(p: Pc): nat { Weigh(p).resetting }
  function InFlight(p: Pc): nat { Weigh(p).inFlight }

  ghost function Total(pcs: seq<Pc>): Totals
  {
    Totals(Sum(pcs, GateHold), Sum(pcs, MtxHold), Sum(pcs, Registered), Sum(pcs, Moving),
           Sum(pcs, Clearing), Sum(pcs, Resetting), Sum(pcs, InFlight))
  }

  // ----- the invariant -----

  function Owed(v: Vars): nat { if v.toUnblock > 0 then 1 else 0 }

  /** Counters against the number of threads at each place:
      the gate is one token held by exactly one of {free, a thread, the pending
      unblocking}; the mutex has one holder; waiters are conserved; every waiter
      still to be unblocked has a wakeup on its way. */
  ghost predicate Balanced(v: Vars, k: Totals)
  {
    && v.gate + k.gates + Owed(v) == 1
    && k.mtxs == (if v.mtx then 1 else 0)
    && v.blocked + v.toUnblock - v.gone - k.moving + k.clearing == k.waiters
    && v.issued == v.woken + v.queue + k.inFlight
    && 0 <= v.toUnblock <= v.queue + k.inFlight
    && 0 <= v.gone <= GONE_LIMIT
    && v.gone - k.clearing <= v.blocked - k.moving
    && (v.toUnblock > 0 ==> v.gone == 0)
    && (v.gone == GONE_LIMIT ==> k.resetting > 0)
  }

  /** What a thread at p may rely on. */
  ghost predicate Local(v: Vars, p: Pc)
  {
    match p
    case Waiting(WWrite(b)) => b == v.blocked
    case Cleaning(WUnlock(left)) => left >= 0
    case Cleaning(WReset(r)) => v.toUnblock == 0 && v.gone == GONE_LIMIT && LocalReset(v, r)
    case Signalling(SClosed(_)) => v.toUnblock > 0
    case Signalling(SCheck(_)) => v.toUnblock == 0
    case Signalling(SGate(_)) => v.toUnblock == 0 && v.blocked > v.gone
    case Signalling(SMoving(m)) => LocalMove(v, m)
    case Signalling(SPost(n)) => n > 0
    case _ => true
  }

  ghost predicate LocalReset(v: Vars, p: ResetPc)
  {
    match p
    case RWrite(b) => b == v.blocked
    case RPost(g) => g == v.gone
    case RClear(g) => g == v.gone
    case _ => true
  }

  ghost predicate LocalMove(v: Vars, p: MovePc)
  {
    match p
    case MClosed(_) => v.toUnblock > 0 && v.blocked > 0
    case MCollect(_) => v.toUnblock == 0 && v.blocked > v.gone
    case MMove(_) => v.toUnblock == 0 && v.blocked > 0 && v.gone == 0
    case MWrite(b, n) => b == v.blocked && 1 <= n <= b && n <= v.toUnblock
  }

  ghost predicate Inv(s: State)
  {
    && Balanced(s.v, Total(s.pcs))
    && AllLocal(s.v, s.pcs)
  }

  ghost predicate AllLocal(v: Vars, pcs: seq<Pc>)
  {
    forall u :: 0 <= u < |pcs| ==> Local(v, pcs[u])
  }

  lemma AllIdle(n: nat, w: Pc -> nat)
    requires w(Idle) == 0
    ensures Sum(Idlers(n), w) == 0
  {
    SumZero(Idlers(n), w);
  }

  lemma IdleTotal(n: nat)
    ensures Total(Idlers(n)) == Totals(0, 0, 0, 0, 0, 0, 0)
  {
    AllIdle(n, GateHold);
    AllIdle(n, MtxHold);
    AllIdle(n, Registered);
    AllIdle(n, Moving);
    AllIdle(n, Clearing);
    AllIdle(n, Resetting);
    AllIdle(n, InFlight);
  }

  lemma InitBalanced(n: nat)
    ensures Balanced(Init(n).v, Total(Init(n).pcs))
  {
    IdleTotal(n);
  }

  lemma InitInv(n: nat)
    ensures Inv(Init(n))
  {
    InitBalanced(n);
  }

  // ----- one step keeps it -----

  /** What the tokens say about a thread at p: with the mutex it is alone in it. */
  ghost predicate Alone(k: Totals, w: Totals)
  {
    && w.gates <= k.gates && w.mtxs <= k.mtxs && w.waiters <= k.waiters
    && w.moving <= k.moving && w.clearing <= k.clearing
    && w.resetting <= k.resetting && w.inFlight <= k.inFlight
    && (w.mtxs > 0 ==>
          k.moving == w.moving && k.clearing == w.clearing && k.resetting == w.resetting)
  }

  /** The sums after one thread's weights have changed from w to x. */
  ghost predicate Shifted(k: Totals, w: Totals, x: Totals, k': Totals)
  {
    && k'.gates == k.gates - w.gates + x.gates
    && k'.mtxs == k.mtxs - w.mtxs + x.mtxs
    && k'.waiters == k.waiters - w.waiters + x.waiters
    && k'.moving == k.moving - w.moving + x.moving
    && k'.clearing == k.clearing - w.clearing + x.clearing
    && k'.resetting == k.resetting - w.resetting + x.resetting
    && k'.inFlight == k.inFlight - w.inFlight + x.inFlight
  }

  lemma TotalShifted(pcs: seq<Pc>, t: nat, q: Pc)
    requires t < |pcs|
    ensures Shifted(Total(pcs), Weigh(pcs[t]), Weigh(q), Total(pcs[t := q]))
  {
    SumUpdate(pcs, t, q, GateHold);
    SumUpdate(pcs, t, q, MtxHold);
    SumUpdate(pcs, t, q, Registered);
    SumUpdate(pcs, t, q, Moving);
    SumUpdate(pcs, t, q, Clearing);
    SumUpdate(pcs, t, q, Resetting);
    SumUpdate(pcs, t, q, InFlight);
  }

  lemma OnlyAt(pcs: seq<Pc>, t: nat, w: Pc -> nat)
    requires t < |pcs|
    requires w(Idle) == 0
    requires forall u :: 0 <= u < |pcs| && u != t ==> w(pcs[u]) == 0
    ensures Sum(pcs, w) == w(pcs[t])
  {
    SumUpdate(pcs, t, Idle, w);
    SumZero(pcs[t := Idle], w);
  }

  /** Moves and resets happen with the mutex. */
  lemma NeedsMutex(p: Pc)
    ensures MtxHold(p) == 0 ==> Moving(p) == Clearing(p) == Resetting(p) == 0
  {
  }

  lemma AloneWithMutex(s: State, t: nat)
    requires Inv(s) && t < |s.pcs| && MtxHold(s.pcs[t]) > 0
    ensures var (k, w) := (Total(s.pcs), Weigh(s.pcs[t]));
            k.moving == w.moving && k.clearing == w.clearing && k.resetting == w.resetting
  {
    forall u | 0 <= u < |s.pcs| && u != t
      ensures Moving(s.pcs[u]) == Clearing(s.pcs[u]) == Resetting(s.pcs[u]) == 0
    {
      SumTwo(s.pcs, t, u, MtxHold);
      assert Balanced(s.v, Total(s.pcs));
      NeedsMutex(s.pcs[u]);
    }
    OnlyAt(s.pcs, t, Moving);
    OnlyAt(s.pcs, t, Clearing);
    OnlyAt(s.pcs, t, Resetting);
  }

  lemma IsAlone(s: State, t: nat)
    requires Inv(s) && t < |s.pcs|
    ensures Alone(Total(s.pcs), Weigh(s.pcs[t]))
  {
    SumAt(s.pcs, t, GateHold);
    SumAt(s.pcs, t, MtxHold);
    SumAt(s.pcs, t, Registered);
    SumAt(s.pcs, t, Moving);
    SumAt(s.pcs, t, Clearing);
    SumAt(s.pcs, t, Resetting);
    SumAt(s.pcs, t, InFlight);
    if MtxHold(s.pcs[t]) > 0 { AloneWithMutex(s, t); }
  }

  lemma WaitBalanced(v: Vars, p: WaitPc, c: Choice, k: Totals, k': Totals)
    requires Balanced(v, k) && Local(v, Waiting(p)) && Alone(k, Weigh(Waiting(p)))
    requires Shifted(k, Weigh(Waiting(p)), Weigh(ActWait(v, p, c).1), k')
    ensures Balanced(ActWait(v, p, c).0, k')
  {
  }

  lemma ResetBalanced(v: Vars, p: ResetPc, k: Totals, k': Totals)
    requires Balanced(v, k) && Local(v, Cleaning(WReset(p))) && Alone(k, Weigh(Cleaning(WReset(p))))
    requires Shifted(k, Weigh(Cleaning(WReset(p))), Weigh(ActReset(v, p).1), k')
    ensures Balanced(ActReset(v, p).0, k')
  {
  }

  lemma CleanBalanced(v: Vars, p: CleanPc, k: Totals, k': Totals)
    requires Balanced(v, k) && Local(v, Cleaning(p)) && Alone(k, Weigh(Cleaning(p)))
    requires Shifted(k, Weigh(Cleaning(p)), Weigh(ActClean(v, p).1), k')
    ensures Balanced(ActClean(v, p).0, k')
  {
    if p.WReset? { ResetBalanced(v, p.r, k, k'); }
  }

  lemma MoveBalanced(v: Vars, p: MovePc, k: Totals, k': Totals)
    requires Balanced(v, k) && Local(v, Signalling(SMoving(p))) && Alone(k, Weigh(Signalling(SMoving(p))))
    requires Shifted(k, Weigh(Signalling(SMoving(p))), Weigh(ActMove(v, p).1), k')
    ensures Balanced(ActMove(v, p).0, k')
  {
  }

  lemma SignalBalanced(v: Vars, p: SignalPc, k: Totals, k': Totals)
    requires Balanced(v, k) && Local(v, Signalling(p)) && Alone(k, Weigh(Signalling(p)))
    requires Shifted(k, Weigh(Signalling(p)), Weigh(ActSignal(v, p).1), k')
    ensures Balanced(ActSignal(v, p).0, k')
  {
    if p.SMoving? { MoveBalanced(v, p.m, k, k'); }
  }

  lemma DestroyBalanced(v: Vars, p: DestroyPc, k: Totals, k': Totals)
    requires Balanced(v, k) && Local(v, Destroying(p)) && Alone(k, Weigh(Destroying(p)))
    requires Shifted(k, Weigh(Destroying(p)), Weigh(ActDestroy(v, p).1), k')
    ensures Balanced(ActDestroy(v, p).0, k')
  {
  }

  /** The acting thread: the counters stay balanced. */
  lemma ActBalanced(v: Vars, p: Pc, c: Choice, k: Totals, k': Totals)
    requires Balanced(v, k) && Local(v, p) && Alone(k, Weigh(p))
    requires Shifted(k, Weigh(p), Weigh(Act(v, p, c).1), k')
    ensures Balanced(Act(v, p, c).0, k')
  {
    match p
    case Idle =>
    case Waiting(w) => WaitBalanced(v, w, c, k, k');
    case Cleaning(x) => CleanBalanced(v, x, k, k');
    case Signalling(g) => SignalBalanced(v, g, k, k');
    case Destroying(d) => DestroyBalanced(v, d, k, k');
  }

  /** The acting thread finds what it needs where it arrives. */
  lemma ActArrives(v: Vars, p: Pc, c: Choice, k: Totals)
    requires Balanced(v, k) && Local(v, p) && Alone(k, Weigh(p))
    ensures Local(Act(v, p, c).0, Act(v, p, c).1)
  {
  }

  /** Every other thread, at q, can still rely on what it relied on: the gate and
      the mutex keep the two apart. */
  lemma ActKeeps(v: Vars, p: Pc, c: Choice, q: Pc)
    requires Local(v, p) && Local(v, q)
    requires GateHold(p) + GateHold(q) + Owed(v) <= 1 && MtxHold(p) + MtxHold(q) <= 1
    ensures Local(Act(v, p, c).0, q)
  {
  }

  lemma StepInv(s: State, t: nat, c: Choice)
    requires Inv(s)
    ensures Inv(Step(s, t, c))
  {
    if t < |s.pcs| {
      var p := s.pcs[t];
      var (v, q) := Act(s.v, p, c);
      TotalShifted(s.pcs, t, q);
      IsAlone(s, t);
      ActBalanced(s.v, p, c, Total(s.pcs), Total(s.pcs[t := q]));
      ActArrives(s.v, p, c, Total(s.pcs));
      forall u | 0 <= u < |s.pcs| && u != t ensures Local(v, s.pcs[u]) {
        SumTwo(s.pcs, t, u, GateHold);
        SumTwo(s.pcs, t, u, MtxHold);
        ActKeeps(s.v, p, c, s.pcs[u]);
      }
    }
  }

  /** Every reachable state, for any number of threads and any order of steps. */
  lemma {:induction false} RunInv(s: State, schedule: Schedule)
    requires Inv(s)
    ensures Inv(Run(s, schedule))
    decreases |schedule|
  {
    if schedule == [] {
    } else {
      var last := schedule[|schedule| - 1];
      RunInv(s, schedule[..|schedule| - 1]);
      StepInv(Run(s, schedule[..|schedule| - 1]), last.0, last.1);
    }
  }
}
