/** pthread_barrier_wait over the MCS lock. Thread t uses queue node t; the last
    node is the barrier's proxynode. A step is either one step of the lock code on
    one node, or one access to the barrier's own fields. */
module Barrier {
  import opened Counting
  import McsLock
  import McsTheorems

  datatype Pc =
    | Out(serial: bool)      // not in the barrier; what the last call returned
    | Enter                  // acquiring the lock
    | Arrive                 // has the lock, to decrement the height
    | Last                   // arrived last, to transfer its node to proxynode
    | Transfer
    | Post                   // to post the semaphore for the others
    | NotLast                // arrived, to release the lock
    | Release
    | Wait                   // waits for the semaphore
    | Cross                  // to increment the height
    | Close                  // left last, to release the lock through proxynode
    | Closing

  /** round is history: the generation in which the thread last arrived. */
  datatype Thread = Thread(pc: Pc, round: nat)

  /** The first three are the barrier; the rest is history. base is the number of
      arrivals in complete generations, gen the number of those. draining: the last
      thread of a generation has arrived and the lock is kept for it. */
  datatype Vars = Vars(
    height: int,       // nCurrentBarrierHeight
    initial: int,      // nInitialBarrierHeight
    sem: nat,          // semBarrierBreeched
    draining: bool, gen: nat, base: nat, arrivals: nat, leaves: nat, serials: nat)

  datatype State = State(v: Vars, lock: McsLock.State, ts: seq<Thread>)

  function Init(threads: nat, count: nat): State
  {
    State(Vars(count, count, 0, false, 0, 0, 0, 0, 0), McsLock.Init(threads + 1), Idlers(threads))
  }

  function Idlers(n: nat): seq<Thread>
  {
    seq(n, _ => Thread(Out(false), 0))
  }

  // ----- the steps -----

  /** The barrier fields and the thread. */
  function Act(v: Vars, th: Thread): (Vars, Thread)
  {
    match th.pc
    case Arrive =>
      (v.(height := v.height - 1, arrivals := v.arrivals + 1, draining := v.height == 1),
       Thread(if v.height == 1 then Last else NotLast, v.gen))
    case Post => (v.(sem := v.sem + (if v.initial > 1 then v.initial - 1 else 0)), th.(pc := Cross))
    case Wait => if v.sem > 0 then (v.(sem := v.sem - 1), th.(pc := Cross)) else (v, th)
    case Cross =>
      var w := v.(height := v.height + 1, leaves := v.leaves + 1);
      if w.height == w.initial && w.initial >= 0 then
        (w.(gen := w.gen + 1, base := w.base + w.initial), th.(pc := Close))
      else (w, th.(pc := Out(false)))
    case _ => (v, th)
  }

  /** The thread's next step is one of the lock code. */
  predicate UsesLock(p: Pc)
  {
    p.Out? || p == Enter || p == Last || p == Transfer || p == NotLast || p == Release || p == Close || p == Closing
  }

  function NodeOf(t: nat, proxy: nat, p: Pc): nat
  {
    if p == Close || p == Closing then proxy else t
  }

  function CallOf(proxy: nat, p: Pc): McsLock.Call
  {
    match p
    case Out(_) => McsLock.CallAcquire
    case Last => McsLock.CallTransfer(proxy)
    case NotLast => McsLock.CallRelease
    case Close => McsLock.CallRelease
    case _ => McsLock.CallNothing
  }

  /** Where the thread is after a step of the lock code that left its node at q. */
  function AfterLock(p: Pc, q: McsLock.Pc): Pc
  {
    match p
    case Out(_) => Enter
    case Enter => if q == McsLock.Owner then Arrive else Enter
    case Last => if q.Move? then Transfer else Last
    case Transfer => if q == McsLock.Free then Post else Transfer
    case NotLast => Release
    case Release => if q == McsLock.Free then Wait else Release
    case Close => Closing
    case Closing => if q == McsLock.Free then Out(true) else Closing
    case _ => p
  }

  /** The barrier's fields around a step of the lock code that takes a thread from p
      to q: only the history changes. */
  function Around(v: Vars, p: Pc, q: Pc): Vars
  {
    if p == Close then v.(draining := false)
    else if p == Closing && q != Closing then v.(serials := v.serials + 1)
    else v
  }

  ghost function Proxy(s: State): nat { |s.ts| }

  function Step(s: State, t: nat): State
  {
    if t >= |s.ts| || |s.lock.nodes| != |s.ts| + 1 then s
    else
      var th := s.ts[t];
      if UsesLock(th.pc) then
        var n := NodeOf(t, |s.ts|, th.pc);
        var lock := McsLock.Step(s.lock, n, CallOf(|s.ts|, th.pc));
        var p := AfterLock(th.pc, lock.nodes[n].pc);
        State(Around(s.v, th.pc, p), lock, s.ts[t := th.(pc := p)])
      else
        var (v, th') := Act(s.v, th);
        State(v, s.lock, s.ts[t := th'])
  }

  function Run(s: State, schedule: seq<nat>): State
    decreases |schedule|
  {
    if schedule == [] then s
    else Step(Run(s, schedule[..|schedule| - 1]), schedule[|schedule| - 1])
  }

  // ----- weights -----

  /** Arrived and not yet out again. */
  function InsideW(th: Thread): nat
  {
    match th.pc
    case Last | Transfer | Post | NotLast | Release | Wait | Cross => 1
    case _ => 0
  }
  function LastW(th: Thread): nat { if th.pc == Last then 1 else 0 }
  function TransferW(th: Thread): nat { if th.pc == Transfer then 1 else 0 }
  function PostW(th: Thread): nat { if th.pc == Post then 1 else 0 }
  function CrossW(th: Thread): nat { if th.pc == Cross then 1 else 0 }
  function CloseW(th: Thread): nat { if th.pc == Close then 1 else 0 }
  function ClosingW(th: Thread): nat { if th.pc == Closing then 1 else 0 }

  datatype Totals = Totals(inside: nat, last: nat, transfer: nat, post: nat, cross: nat, close: nat, closing: nat)

  ghost function Total(ts: seq<Thread>): Totals
  {
    Totals(Sum(ts, InsideW), Sum(ts, LastW), Sum(ts, TransferW), Sum(ts, PostW), Sum(ts, CrossW),
           Sum(ts, CloseW), Sum(ts, ClosingW))
  }

  function Weigh(th: Thread): Totals
  {
    Totals(InsideW(th), LastW(th), TransferW(th), PostW(th), CrossW(th), CloseW(th), ClosingW(th))
  }

  // ----- the invariant -----

  /** How many have arrived, left and been told to be the serial thread. */
  ghost predicate Counted(v: Vars, k: Totals)
  {
    && v.initial >= 1 && 0 <= v.height <= v.initial
    && v.arrivals - v.leaves == v.initial - v.height == k.inside
    && v.base == v.gen * v.initial
    && v.serials + k.close + k.closing == v.gen
  }

  /** A generation fills, then drains: while it fills nobody is past the semaphore
      and the semaphore is empty; while it drains the tokens and the threads that
      took one are those still to leave. */
  ghost predicate Phase(v: Vars, k: Totals)
  {
    if !v.draining then
      && v.leaves == v.base && v.height >= 1 && v.sem == 0
      && k.last == 0 && k.transfer == 0 && k.post == 0 && k.cross == 0 && k.close == 0
    else
      && k.last + k.transfer + k.post + k.close <= 1
      && (if k.close == 1 then v.height == v.initial && v.leaves == v.base && v.sem == 0 && k.cross == 0
          else if k.last + k.transfer + k.post == 1 then
            v.height == 0 && v.leaves == v.base && v.sem == 0 && k.cross == 0
          else
            v.height < v.initial && v.leaves == v.base + v.height && v.sem + k.cross == v.initial - v.height)
  }

  /** What proxynode is used for. */
  ghost predicate ProxyUse(draining: bool, k: Totals, proxy: McsLock.Pc)
  {
    match proxy
    case Free => k.transfer == 0 && k.closing == 0 && (draining ==> k.last == 1)
    case Target => k.transfer == 1 && k.closing == 0 && draining
    case Owner => k.transfer == 0 && k.closing == 0 && k.last == 0 && draining
    case Rel(_) => k.transfer == 0 && k.closing == 1 && !draining
    case _ => false
  }

  /** What a thread's own node is used for. */
  ghost predicate NodeUse(p: Pc, proxy: nat, q: McsLock.Pc)
  {
    match p
    case Enter => q.Acq? && q.a != McsLock.ATry
    case Arrive | Last | NotLast => q == McsLock.Owner
    case Transfer => q.Move? && q.new_node == proxy
    case Release => q.Rel?
    case _ => q == McsLock.Free
  }

  ghost predicate Local(v: Vars, th: Thread)
  {
    InsideW(th) > 0 ==> th.round == v.gen
  }

  ghost predicate ThreadOk(s: State, t: nat)
    requires t < |s.ts| && |s.lock.nodes| == |s.ts| + 1
  {
    NodeUse(s.ts[t].pc, Proxy(s), s.lock.nodes[t].pc) && Local(s.v, s.ts[t])
  }

  ghost predicate Inv(s: State)
  {
    && McsLock.Inv(s.lock) && |s.lock.nodes| == |s.ts| + 1
    && Counted(s.v, Total(s.ts))
    && Phase(s.v, Total(s.ts))
    && ProxyUse(s.v.draining, Total(s.ts), s.lock.nodes[Proxy(s)].pc)
    && (forall t :: 0 <= t < |s.ts| ==> ThreadOk(s, t))
  }

  lemma AllOut(n: nat, w: Thread -> nat)
    requires w(Thread(Out(false), 0)) == 0
    ensures Sum(Idlers(n), w) == 0
  {
    SumZero(Idlers(n), w);
  }

  lemma InitInv(threads: nat, count: nat)
    requires count >= 1
    ensures Inv(Init(threads, count))
  {
    McsLock.InitInv(threads + 1);
    AllOut(threads, InsideW);
    AllOut(threads, LastW);
    AllOut(threads, TransferW);
    AllOut(threads, PostW);
    AllOut(threads, CrossW);
    AllOut(threads, CloseW);
    AllOut(threads, ClosingW);
    var s := Init(threads, count);
    assert Total(s.ts) == Totals(0, 0, 0, 0, 0, 0, 0);
    assert forall t :: 0 <= t < |s.ts| ==> ThreadOk(s, t);
  }

  // ----- one step keeps it -----

  ghost predicate Shifted(k: Totals, w: Totals, x: Totals, k': Totals)
  {
    && k'.inside == k.inside - w.inside + x.inside
    && k'.last == k.last - w.last + x.last
    && k'.transfer == k.transfer - w.transfer + x.transfer
    && k'.post == k.post - w.post + x.post
    && k'.cross == k.cross - w.cross + x.cross
    && k'.close == k.close - w.close + x.close
    && k'.closing == k.closing - w.closing + x.closing
  }

  ghost predicate Fits(k: Totals, w: Totals)
  {
    && w.inside <= k.inside && w.last <= k.last && w.transfer <= k.transfer && w.post <= k.post
    && w.cross <= k.cross && w.close <= k.close && w.closing <= k.closing
  }

  lemma TotalShifted(ts: seq<Thread>, t: nat, b: Thread)
    requires t < |ts|
    ensures Shifted(Total(ts), Weigh(ts[t]), Weigh(b), Total(ts[t := b]))
  {
    SumUpdate(ts, t, b, InsideW);
    SumUpdate(ts, t, b, LastW);
    SumUpdate(ts, t, b, TransferW);
    SumUpdate(ts, t, b, PostW);
    SumUpdate(ts, t, b, CrossW);
    SumUpdate(ts, t, b, CloseW);
    SumUpdate(ts, t, b, ClosingW);
  }

  lemma TotalFits(ts: seq<Thread>, t: nat)
    requires t < |ts|
    ensures Fits(Total(ts), Weigh(ts[t]))
  {
    SumAt(ts, t, InsideW);
    SumAt(ts, t, LastW);
    SumAt(ts, t, TransferW);
    SumAt(ts, t, PostW);
    SumAt(ts, t, CrossW);
    SumAt(ts, t, CloseW);
    SumAt(ts, t, ClosingW);
  }

  /** A thread that owns the lock with its own node finds proxynode free and the
      generation still filling, unless it is itself the last one. */
  lemma OwnerAlone(s: State, t: nat)
    requires Inv(s) && t < |s.ts| && s.lock.nodes[t].pc == McsLock.Owner
    ensures s.lock.nodes[Proxy(s)].pc == McsLock.Free
    ensures s.ts[t].pc != Last ==> !s.v.draining
  {
    var m := Proxy(s);
    var k := Total(s.ts);
    if McsLock.Owns(s.lock.nodes[m].pc) { McsTheorems.Exclusion(s.lock, t, m); }
    McsTheorems.ReleasesFinished(s.lock, t, m);
    assert ThreadOk(s, t);
    if s.lock.nodes[m].pc == McsLock.Target {
      var u := SumWitness(s.ts, TransferW);
      assert ThreadOk(s, u);
      McsTheorems.Exclusion(s.lock, t, u);
    } else if s.v.draining && s.ts[t].pc != Last {
      var u := SumWitness(s.ts, LastW);
      assert ThreadOk(s, u);
      McsTheorems.Exclusion(s.lock, t, u);
    }
  }

  // the barrier's own fields

  lemma ActCounted(v: Vars, th: Thread, k: Totals, k': Totals)
    requires Counted(v, k) && Phase(v, k) && Fits(k, Weigh(th)) && !UsesLock(th.pc)
    requires th.pc == Arrive ==> !v.draining
    requires Shifted(k, Weigh(th), Weigh(Act(v, th).1), k')
    ensures Counted(Act(v, th).0, k')
  {
    if th.pc == Cross { assert (v.gen + 1) * v.initial == v.gen * v.initial + v.initial; }
  }

  lemma ActPhase(v: Vars, th: Thread, k: Totals, k': Totals)
    requires Counted(v, k) && Phase(v, k) && Fits(k, Weigh(th)) && !UsesLock(th.pc)
    requires th.pc == Arrive ==> !v.draining
    requires Shifted(k, Weigh(th), Weigh(Act(v, th).1), k')
    ensures Phase(Act(v, th).0, k')
  {
  }

  lemma ActProxyUse(v: Vars, th: Thread, k: Totals, k': Totals, proxy: McsLock.Pc)
    requires ProxyUse(v.draining, k, proxy) && Phase(v, k) && Fits(k, Weigh(th)) && !UsesLock(th.pc)
    requires th.pc == Arrive ==> !v.draining && proxy == McsLock.Free
    requires Shifted(k, Weigh(th), Weigh(Act(v, th).1), k')
    ensures ProxyUse(Act(v, th).0.draining, k', proxy)
  {
  }

  lemma ActArrives(v: Vars, th: Thread)
    requires !UsesLock(th.pc) && Local(v, th)
    ensures Local(Act(v, th).0, Act(v, th).1)
  {
  }

  lemma ActKeeps(v: Vars, th: Thread, k: Totals, uh: Thread)
    requires Counted(v, k) && !UsesLock(th.pc) && Local(v, uh)
    requires InsideW(th) + InsideW(uh) <= k.inside
    ensures Local(Act(v, th).0, uh)
  {
  }

  lemma FieldTotals(s: State, t: nat)
    requires Inv(s) && t < |s.ts| && !UsesLock(s.ts[t].pc)
    ensures var (v, ts) := (Step(s, t).v, Step(s, t).ts);
            && Counted(v, Total(ts)) && Phase(v, Total(ts))
            && ProxyUse(v.draining, Total(ts), s.lock.nodes[Proxy(s)].pc)
  {
    var th := Act(s.v, s.ts[t]).1;
    assert ThreadOk(s, t);
    if s.ts[t].pc == Arrive { OwnerAlone(s, t); }
    TotalShifted(s.ts, t, th);
    TotalFits(s.ts, t);
    var k' := Total(s.ts[t := th]);
    ActCounted(s.v, s.ts[t], Total(s.ts), k');
    ActPhase(s.v, s.ts[t], Total(s.ts), k');
    ActProxyUse(s.v, s.ts[t], Total(s.ts), k', s.lock.nodes[Proxy(s)].pc);
  }

  lemma FieldThread(s: State, t: nat, u: nat)
    requires Inv(s) && t < |s.ts| && !UsesLock(s.ts[t].pc) && u < |s.ts|
    ensures ThreadOk(Step(s, t), u)
  {
    assert ThreadOk(s, t) && ThreadOk(s, u);
    if u == t {
      ActArrives(s.v, s.ts[t]);
    } else {
      SumTwo(s.ts, t, u, InsideW);
      ActKeeps(s.v, s.ts[t], Total(s.ts), s.ts[u]);
    }
  }

  lemma FieldStepInv(s: State, t: nat)
    requires Inv(s) && t < |s.ts| && !UsesLock(s.ts[t].pc)
    ensures Inv(Step(s, t))
  {
    FieldTotals(s, t);
    var r := Step(s, t);
    forall u | 0 <= u < |r.ts| ensures ThreadOk(r, u) { FieldThread(s, t, u); }
  }

  // a step of the lock code

  /** What the lock code promises about the node it worked on. */
  ghost predicate NodeMoved(p: Pc, proxy: nat, q: McsLock.Pc, q': McsLock.Pc)
  {
    match p
    case Out(_) => q' == McsLock.Acq(McsLock.ASwap)
    case Enter => q' == McsLock.Owner || (q'.Acq? && q'.a != McsLock.ATry)
    case Last => q'.Move? && q'.new_node == proxy
    case Transfer => q' == McsLock.Free || (q'.Move? && q'.new_node == proxy)
    case NotLast | Close => q' == McsLock.Rel(McsLock.RRead)
    case Release | Closing => q' == McsLock.Free || q'.Rel?
    case _ => false
  }

  /** And about proxynode when it worked on another node. */
  function ProxyMoved(p: Pc, q: McsLock.Pc, proxy: McsLock.Pc): McsLock.Pc
  {
    match p
    case Last => McsLock.Target
    case Transfer => if q == McsLock.Free then McsLock.Owner else McsLock.Target
    case _ => proxy
  }

  lemma LockCounted(v: Vars, th: Thread, q: McsLock.Pc, k: Totals, k': Totals)
    requires Counted(v, k) && Phase(v, k) && UsesLock(th.pc) && Fits(k, Weigh(th))
    requires Shifted(k, Weigh(th), Weigh(th.(pc := AfterLock(th.pc, q))), k')
    ensures Counted(Around(v, th.pc, AfterLock(th.pc, q)), k')
  {
  }

  lemma LockPhase(v: Vars, th: Thread, proxy: nat, q: McsLock.Pc, q': McsLock.Pc, k: Totals, k': Totals)
    requires Counted(v, k) && Phase(v, k) && UsesLock(th.pc) && Fits(k, Weigh(th))
    requires NodeMoved(th.pc, proxy, q, q')
    requires Shifted(k, Weigh(th), Weigh(th.(pc := AfterLock(th.pc, q'))), k')
    ensures Phase(Around(v, th.pc, AfterLock(th.pc, q')), k')
  {
  }

  lemma LockProxyUse(v: Vars, th: Thread, m: nat, q: McsLock.Pc, q': McsLock.Pc, proxy: McsLock.Pc,
                     k: Totals, k': Totals)
    requires ProxyUse(v.draining, k, proxy) && Phase(v, k) && UsesLock(th.pc) && Fits(k, Weigh(th))
    requires NodeMoved(th.pc, m, q, q')
    requires th.pc == Close || th.pc == Closing ==> q == proxy
    requires th.pc == Last ==> proxy == McsLock.Free
    requires Shifted(k, Weigh(th), Weigh(th.(pc := AfterLock(th.pc, q'))), k')
    ensures ProxyUse(Around(v, th.pc, AfterLock(th.pc, q')).draining, k',
                     if th.pc == Close || th.pc == Closing then q' else ProxyMoved(th.pc, q', proxy))
  {
  }

  /** At Close proxynode owns the lock; at Closing it is being released. */
  lemma CloserHasProxy(s: State, t: nat)
    requires Inv(s) && t < |s.ts|
    ensures s.ts[t].pc == Close ==> s.lock.nodes[Proxy(s)].pc == McsLock.Owner
    ensures s.ts[t].pc == Closing ==> s.lock.nodes[Proxy(s)].pc.Rel?
  {
    TotalFits(s.ts, t);
  }

  lemma LockNode(s: State, t: nat)
    requires Inv(s) && t < |s.ts| && UsesLock(s.ts[t].pc)
    ensures var p := s.ts[t].pc;
            var n := NodeOf(t, Proxy(s), p);
            NodeMoved(p, Proxy(s), s.lock.nodes[n].pc, Step(s, t).lock.nodes[n].pc)
  {
    assert ThreadOk(s, t);
    CloserHasProxy(s, t);
    var p := s.ts[t].pc;
    if p == Last { OwnerAlone(s, t); }
    McsTheorems.OwnMoves(s.lock, NodeOf(t, Proxy(s), p), CallOf(Proxy(s), p));
  }

  /** The other nodes: only the last arrival touches another one, proxynode. */
  lemma LockOthers(s: State, t: nat, j: nat)
    requires Inv(s) && t < |s.ts| && UsesLock(s.ts[t].pc)
    requires j <= |s.ts| && j != NodeOf(t, Proxy(s), s.ts[t].pc)
    ensures var r := Step(s, t);
            |r.lock.nodes| == |s.lock.nodes| &&
            r.lock.nodes[j].pc ==
              (if j == Proxy(s) then ProxyMoved(s.ts[t].pc, r.lock.nodes[t].pc, s.lock.nodes[j].pc)
               else s.lock.nodes[j].pc)
  {
    assert ThreadOk(s, t);
    CloserHasProxy(s, t);
    var p := s.ts[t].pc;
    if j == Proxy(s) && (p == Last || p == Transfer) {
      if p == Last {
        OwnerAlone(s, t);
      } else {
        McsTheorems.OwnMoves(s.lock, t, McsLock.CallNothing);
        McsTheorems.TargetKept(s.lock, t, McsLock.CallNothing, j);
      }
    } else {
      McsTheorems.OthersKeepPc(s.lock, NodeOf(t, Proxy(s), p), CallOf(Proxy(s), p), j);
    }
  }

  lemma LockTotals(s: State, t: nat)
    requires Inv(s) && t < |s.ts| && UsesLock(s.ts[t].pc)
    ensures var r := Step(s, t);
            && |r.lock.nodes| == |s.lock.nodes|
            && Counted(r.v, Total(r.ts)) && Phase(r.v, Total(r.ts))
            && ProxyUse(r.v.draining, Total(r.ts), r.lock.nodes[Proxy(s)].pc)
  {
    var r := Step(s, t);
    var p := s.ts[t].pc;
    var n := NodeOf(t, Proxy(s), p);
    var q := r.lock.nodes[n].pc;
    assert ThreadOk(s, t);
    LockNode(s, t);
    if n != Proxy(s) { LockOthers(s, t, Proxy(s)); }
    if p == Last { OwnerAlone(s, t); }
    TotalShifted(s.ts, t, s.ts[t].(pc := AfterLock(p, q)));
    TotalFits(s.ts, t);
    LockCounted(s.v, s.ts[t], q, Total(s.ts), Total(r.ts));
    LockPhase(s.v, s.ts[t], Proxy(s), s.lock.nodes[n].pc, q, Total(s.ts), Total(r.ts));
    LockProxyUse(s.v, s.ts[t], Proxy(s), s.lock.nodes[n].pc, q, s.lock.nodes[Proxy(s)].pc, Total(s.ts), Total(r.ts));
  }

  lemma LockThread(s: State, t: nat, u: nat)
    requires Inv(s) && t < |s.ts| && UsesLock(s.ts[t].pc) && u < |s.ts|
    ensures |Step(s, t).lock.nodes| == |s.lock.nodes| && ThreadOk(Step(s, t), u)
  {
    assert ThreadOk(s, t) && ThreadOk(s, u);
    LockNode(s, t);
    if NodeOf(t, Proxy(s), s.ts[t].pc) != u { LockOthers(s, t, u); }
  }

  lemma LockStepInv(s: State, t: nat)
    requires Inv(s) && t < |s.ts| && UsesLock(s.ts[t].pc)
    ensures Inv(Step(s, t))
  {
    var r := Step(s, t);
    McsLock.StepInv(s.lock, NodeOf(t, Proxy(s), s.ts[t].pc), CallOf(Proxy(s), s.ts[t].pc));
    LockTotals(s, t);
    forall u | 0 <= u < |r.ts| ensures ThreadOk(r, u) { LockThread(s, t, u); }
  }

  lemma StepInv(s: State, t: nat)
    requires Inv(s)
    ensures Inv(Step(s, t))
  {
    if t < |s.ts| {
      if UsesLock(s.ts[t].pc) { LockStepInv(s, t); } else { FieldStepInv(s, t); }
    }
  }

  /** Every reachable state, for any height and any number of threads that enter
      the barrier any number of times. */
  lemma {:induction false} RunInv(s: State, schedule: seq<nat>)
    requires Inv(s)
    ensures Inv(Run(s, schedule))
    decreases |schedule|
  {
    if schedule == [] {
    } else {
      var before := Run(s, schedule[..|schedule| - 1]);
      RunInv(s, schedule[..|schedule| - 1]);
      StepInv(before, schedule[|schedule| - 1]);
      assert Run(s, schedule) == Step(before, schedule[|schedule| - 1]);
    }
  }
}
