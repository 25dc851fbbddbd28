/** The MCS queue lock with blocking flags and node transfer (ptw32_MCS_lock.c).

    The program counters belong to queue nodes, not to threads: a node is used by
    one operation at a time, and one thread may hold several locks with several
    nodes. A node at Free is memory the library must not touch: nodes are local
    variables of the calling thread. One step is one access to shared memory or
    one event operation. */
module McsLock {

  datatype Link = Nil | To(node: nat)

  /** A flag word: 0, -1, or the handle of an event. */
  datatype Flag = Clear | Raised | Handle

  /** The event whose handle a flag holds. Promised is history: the releaser named
      has read the handle and is about to set the event; no step reads it. */
  datatype Event = Closed | Pending | Promised(giver: nat) | Signalled

  /** ptw32_mcs_lock_acquire and ptw32_mcs_lock_try_acquire. */
  datatype AcqPc =
    | ASwap | ATry | ALink(pred: nat) | AFlag(pred: nat) | ASignal(pred: nat)
    | ARead | ACreate | ABlock

  /** ptw32_mcs_lock_release; x is what the first read of next returned. */
  datatype RelPc =
    | RRead | RCas | RWait(x: Link) | RCreate(x: Link) | RBlock(x: Link)
    | RReread | RPass(succ: nat) | RSignal(succ: nat)

  /** ptw32_mcs_node_transfer. */
  datatype MovePc = XCas | XSpin | XWait | XCreate | XBlock | XNext | XFlag

  datatype Pc =
    | Free
    | Target                          // initialised by a transfer that is under way
    | Owner
    | Acq(a: AcqPc)
    | Rel(r: RelPc)
    | Move(new_node: nat, x: MovePc)

  datatype Node = Node(
    pc: Pc,
    next: Link,
    ready: Flag,       // readyFlag
    linked: Flag,      // nextFlag
    readyEv: Event,
    linkedEv: Event,
    ticket: nat)       // history: how many nodes had joined the queue before this one

  /** The lock word is tail; q and served are history: the nodes in the queue, in
      order, and the number of nodes that have left it. */
  datatype State = State(tail: Link, q: seq<nat>, served: nat, nodes: seq<Node>)

  datatype Call = CallAcquire | CallTry | CallRelease | CallTransfer(new_node: nat) | CallNothing

  function Init(n: nat): State
  {
    State(Nil, [], 0, seq(n, _ => Node(Free, Nil, Clear, Clear, Closed, Closed, 0)))
  }

  // ----- the steps -----

  function At(s: State, k: nat, n: Node): State
    requires k < |s.nodes|
  {
    s.(nodes := s.nodes[k := n])
  }

  function Goto(s: State, k: nat, p: Pc): State
    requires k < |s.nodes|
  {
    At(s, k, s.nodes[k].(pc := p))
  }

  function Fresh(n: Node, p: Pc): Node
  {
    n.(pc := p, next := Nil, ready := Clear, linked := Clear)
  }

  /** Joining the queue: the exchange on the lock word. */
  function Join(s: State, k: nat, p: Pc): State
    requires k < |s.nodes|
  {
    At(s.(tail := To(k), q := s.q + [k]), k, s.nodes[k].(pc := p, ticket := s.served + |s.q|))
  }

  function Leave(s: State): State
  {
    s.(q := if s.q == [] then s.q else s.q[1..], served := s.served + 1)
  }

  function StepCall(s: State, k: nat, c: Call): State
    requires k < |s.nodes|
  {
    var n := s.nodes[k];
    match c
    case CallAcquire => if n.pc == Free then At(s, k, Fresh(n, Acq(ASwap))) else s
    case CallTry => if n.pc == Free then At(s, k, Fresh(n, Acq(ATry))) else s
    case CallRelease => if n.pc == Owner then Goto(s, k, Rel(RRead)) else s
    case CallTransfer(m) =>
      if n.pc == Owner && m < |s.nodes| && s.nodes[m].pc == Free then
        Goto(At(s, m, Fresh(s.nodes[m], Target)), k, Move(m, XCas))
      else s
    case CallNothing => s
  }

  /** ptw32_MCS_lock.c:186-196, 109-163 and 260-263. */
  function StepAcq(s: State, k: nat, p: AcqPc): State
    requires k < |s.nodes|
  {
    var n := s.nodes[k];
    match p
    case ASwap =>
      Join(s, k, match s.tail case Nil => Owner case To(pred) => Acq(ALink(pred)))
    case ATry => if s.tail == Nil then Join(s, k, Owner) else Goto(s, k, Free)
    case ALink(pred) =>
      if pred >= |s.nodes| then s
      else Goto(At(s, pred, s.nodes[pred].(next := To(k))), k, Acq(AFlag(pred)))
    case AFlag(pred) =>
      if pred >= |s.nodes| then s
      else
        (match s.nodes[pred].linked
         case Clear => Goto(At(s, pred, s.nodes[pred].(linked := Raised)), k, Acq(ARead))
         case Raised => Goto(s, k, Acq(ARead))
         case Handle => Goto(s, k, Acq(ASignal(pred))))
    case ASignal(pred) =>
      if pred >= |s.nodes| then s
      else Goto(At(s, pred, s.nodes[pred].(linkedEv := Signalled)), k, Acq(ARead))
    case ARead => Goto(s, k, if n.ready == Clear then Acq(ACreate) else Owner)
    case ACreate =>
      if n.ready == Clear then At(s, k, n.(pc := Acq(ABlock), ready := Handle, readyEv := Pending))
      else Goto(s, k, Owner)
    case ABlock =>
      if n.readyEv == Signalled then At(s, k, n.(pc := Owner, readyEv := Closed)) else s
  }

  /** Where release goes once nextFlag has been found set. */
  function Known(x: Link): RelPc
  {
    match x case Nil => RReread case To(m) => RPass(m)
  }

  /** ptw32_MCS_lock.c:213-243. */
  function StepRel(s: State, k: nat, p: RelPc): State
    requires k < |s.nodes|
  {
    var n := s.nodes[k];
    match p
    case RRead => Goto(s, k, Rel(if n.next == Nil then RCas else RWait(n.next)))
    case RCas =>
      if s.tail == To(k) then Leave(Goto(s.(tail := Nil), k, Free)) else Goto(s, k, Rel(RWait(Nil)))
    case RWait(x) => Goto(s, k, Rel(if n.linked == Clear then RCreate(x) else Known(x)))
    case RCreate(x) =>
      if n.linked == Clear then At(s, k, n.(pc := Rel(RBlock(x)), linked := Handle, linkedEv := Pending))
      else Goto(s, k, Rel(Known(x)))
    case RBlock(x) =>
      if n.linkedEv == Signalled then At(s, k, n.(pc := Rel(Known(x)), linkedEv := Closed)) else s
    case RReread => if n.next == Nil then s else Goto(s, k, Rel(RPass(n.next.node)))
    case RPass(m) =>
      if m >= |s.nodes| then s
      else
        (match s.nodes[m].ready
         case Clear => Leave(Goto(At(s, m, s.nodes[m].(ready := Raised)), k, Free))
         case Raised => Leave(Goto(s, k, Free))
         case Handle => Leave(Goto(At(s, m, s.nodes[m].(readyEv := Promised(k))), k, Rel(RSignal(m)))))
    case RSignal(m) =>
      if m >= |s.nodes| then s
      else Goto(At(s, m, s.nodes[m].(readyEv := Signalled)), k, Free)
  }

  /** The end of a transfer: node m stands in the queue where k stood. */
  function Replace(s: State, k: nat, m: nat): State
    requires k < |s.nodes| && m < |s.nodes|
  {
    Goto(At(s.(q := if s.q == [] then s.q else s.q[0 := m]),
            m, s.nodes[m].(pc := Owner, ticket := s.nodes[k].ticket)),
         k, Free)
  }

  /** ptw32_MCS_lock.c:288-309. */
  function StepMove(s: State, k: nat, m: nat, p: MovePc): State
    requires k < |s.nodes|
  {
    var n := s.nodes[k];
    if m >= |s.nodes| then s
    else
      match p
      case XCas =>
        if s.tail == To(k) then Replace(s.(tail := To(m)), k, m) else Goto(s, k, Move(m, XSpin))
      case XSpin => if n.next == Nil then s else Goto(s, k, Move(m, XWait))
      case XWait => Goto(s, k, Move(m, if n.linked == Clear then XCreate else XNext))
      case XCreate =>
        if n.linked == Clear then At(s, k, n.(pc := Move(m, XBlock), linked := Handle, linkedEv := Pending))
        else Goto(s, k, Move(m, XNext))
      case XBlock =>
        if n.linkedEv == Signalled then At(s, k, n.(pc := Move(m, XNext), linkedEv := Closed)) else s
      case XNext => Goto(At(s, m, s.nodes[m].(next := n.next)), k, Move(m, XFlag))
      case XFlag => Replace(At(s, m, s.nodes[m].(linked := n.linked)), k, m)
  }

  function Step(s: State, k: nat, c: Call): (r: State)
    ensures |r.nodes| == |s.nodes|
  {
    if k >= |s.nodes| then s
    else
      match s.nodes[k].pc
      case Free => StepCall(s, k, c)
      case Owner => StepCall(s, k, c)
      case Target => s
      case Acq(a) => StepAcq(s, k, a)
      case Rel(r) => StepRel(s, k, r)
      case Move(m, x) => StepMove(s, k, m, x)
  }

  type Schedule = seq<(nat, Call)>

  function Run(s: State, schedule: Schedule): State
    decreases |schedule|
  {
    if schedule == [] then s
    else
      var last := schedule[|schedule| - 1];
      Step(Run(s, schedule[..|schedule| - 1]), last.0, last.1)
  }

  // ----- the invariant -----

  /** The node stands in the queue. */
  predicate Queued(p: Pc)
  {
    match p
    case Owner => true
    case Acq(a) => a != ASwap && a != ATry
    case Rel(r) => !r.RSignal?
    case Move(_, _) => true
    case _ => false
  }

  /** The node owns the lock, or is giving it away. */
  predicate Owns(p: Pc) { Queued(p) && !p.Acq? }

  /** The queue is where the tickets say, and the lock word is its last node. */
  ghost predicate Place(s: State, i: nat)
    requires i < |s.q|
  {
    && s.q[i] < |s.nodes|
    && Queued(s.nodes[s.q[i]].pc)
    && s.nodes[s.q[i]].ticket == s.served + i
  }

  ghost predicate Placed(s: State, k: nat)
    requires k < |s.nodes|
  {
    Queued(s.nodes[k].pc) ==>
      var i := s.nodes[k].ticket - s.served;
      0 <= i < |s.q| && s.q[i] == k
  }

  ghost predicate Shape(s: State)
  {
    && (forall i :: 0 <= i < |s.q| ==> Place(s, i))
    && (forall k :: 0 <= k < |s.nodes| ==> Placed(s, k))
    && s.tail == (if s.q == [] then Nil else To(s.q[|s.q| - 1]))
  }

  /** nextFlag has not been set by a successor / has been set, and if that was
      through an event the event has been set too. */
  predicate Unset(p: Node) { p.linked == Clear || (p.linked == Handle && p.linkedEv == Pending) }
  predicate IsSet(p: Node)
  {
    p.linked == Raised || (p.linked == Handle && (p.linkedEv == Closed || p.linkedEv == Signalled))
  }

  /** A waiting node k behind its predecessor p. */
  ghost predicate Behind(p: Node, pi: nat, k: Node, ki: nat)
  {
    k.pc.Acq? &&
    match k.pc.a
    case ALink(x) => x == pi && p.next == Nil && Unset(p) && k.ready == Clear
    case AFlag(x) => x == pi && p.next == To(ki) && Unset(p) && k.ready == Clear
    case ASignal(x) =>
      x == pi && p.next == To(ki) && p.linked == Handle && p.linkedEv == Pending && k.ready == Clear
    case ARead => p.next == To(ki) && IsSet(p) && k.ready == Clear
    case ACreate => p.next == To(ki) && IsSet(p) && k.ready == Clear
    case ABlock => p.next == To(ki) && IsSet(p) && k.ready == Handle && k.readyEv == Pending
    case _ => false
  }

  ghost predicate Pair(s: State, i: nat)
    requires 0 < i < |s.q|
  {
    && s.q[i - 1] < |s.nodes| && s.q[i] < |s.nodes|
    && Behind(s.nodes[s.q[i - 1]], s.q[i - 1], s.nodes[s.q[i]], s.q[i])
  }

  ghost predicate Pairs(s: State)
  {
    && (forall i :: 0 < i < |s.q| ==> Pair(s, i))
    && (s.q != [] ==>
          var l := s.q[|s.q| - 1];
          l < |s.nodes| && s.nodes[l].next == Nil && s.nodes[l].linked == Clear)
  }

  /** The successor has finished linking itself behind the head. */
  ghost predicate HasLinked(s: State)
  {
    && |s.q| >= 2 && s.q[0] < |s.nodes|
    && IsSet(s.nodes[s.q[0]]) && s.nodes[s.q[0]].next == To(s.q[1])
  }

  ghost predicate HeadRel(s: State, r: RelPc)
    requires s.q != []
  {
    match r
    case RRead => true
    case RCas => true
    case RWait(x) => |s.q| >= 2 && (x == Nil || x == To(s.q[1]))
    case RCreate(x) => |s.q| >= 2 && (x == Nil || x == To(s.q[1]))
    case RBlock(x) => |s.q| >= 2 && (x == Nil || x == To(s.q[1]))
    case RReread => HasLinked(s)
    case RPass(m) => HasLinked(s) && m == s.q[1]
    case RSignal(_) => false
  }

  ghost predicate HeadMove(s: State, m: nat, x: MovePc)
    requires s.q != []
  {
    && m < |s.nodes| && s.nodes[m].pc == Target && s.nodes[m].linked == Clear
    && (x == XFlag || s.nodes[m].next == Nil)
    && match x
       case XCas => true
       case XSpin => |s.q| >= 2
       case XWait => |s.q| >= 2
       case XCreate => |s.q| >= 2
       case XBlock => |s.q| >= 2
       case XNext => HasLinked(s)
       case XFlag => HasLinked(s) && s.nodes[m].next == To(s.q[1])
  }

  /** The first node owns the lock or has been given it. */
  ghost predicate Head(s: State)
  {
    s.q != [] ==>
      && s.q[0] < |s.nodes|
      && var h := s.nodes[s.q[0]];
         match h.pc
         case Owner => true
         case Rel(r) => HeadRel(s, r)
         case Move(m, x) => HeadMove(s, m, x)
         case Acq(ARead) => h.ready == Raised
         case Acq(ACreate) => h.ready == Raised
         case Acq(ABlock) =>
           && h.ready == Handle
           && (h.readyEv == Signalled ||
               (h.readyEv.Promised? && h.readyEv.giver < |s.nodes|
                && s.nodes[h.readyEv.giver].pc == Rel(RSignal(s.q[0]))))
         case _ => false
  }

  /** What holds of one node by itself. */
  ghost predicate Tidy(s: State, k: nat)
    requires k < |s.nodes|
  {
    var n := s.nodes[k];
    && (n.linkedEv != Closed <==> (n.pc.Rel? && n.pc.r.RBlock?) || (n.pc.Move? && n.pc.x.XBlock?))
    && (n.linkedEv != Closed ==> n.linked == Handle && !n.linkedEv.Promised?)
    && (n.readyEv != Closed <==> n.pc == Acq(ABlock))
    && (n.pc == Acq(ASwap) || n.pc == Acq(ATry) ==>
          n.next == Nil && n.ready == Clear && n.linked == Clear)
    && (n.pc.Rel? && n.pc.r.RSignal? ==>
          && s.q != [] && s.q[0] == n.pc.r.succ < |s.nodes|
          && s.nodes[s.q[0]].pc == Acq(ABlock) && s.nodes[s.q[0]].readyEv == Promised(k))
  }

  ghost predicate AllTidy(s: State) { forall k :: 0 <= k < |s.nodes| ==> Tidy(s, k) }

  ghost predicate Inv(s: State)
  {
    Shape(s) && Pairs(s) && Head(s) && AllTidy(s)
  }

  lemma InitInv(n: nat)
    ensures Inv(Init(n))
  {
  }

  /** A node in the queue, by its place: either the head, or waiting. */
  lemma Locate(s: State, k: nat) returns (i: nat)
    requires Inv(s) && k < |s.nodes| && Queued(s.nodes[k].pc)
    ensures i < |s.q| && s.q[i] == k && s.nodes[k].ticket == s.served + i
    ensures Owns(s.nodes[k].pc) ==> i == 0
    ensures i > 0 ==> s.nodes[k].pc.Acq?
  {
    assert Placed(s, k);
    i := s.nodes[k].ticket - s.served;
    if i > 0 { assert Pair(s, i); }
  }

  lemma Distinct(s: State, i: nat, j: nat)
    requires Shape(s) && i < |s.q| && j < |s.q|
    ensures i != j ==> s.q[i] != s.q[j]
  {
    assert Place(s, i) && Place(s, j);
  }

  // ----- one step keeps it -----

  /** The queue, the lock word, the tickets and who stands in the queue are as before. */
  ghost predicate SameQueue(s: State, r: State)
  {
    && r.q == s.q && r.tail == s.tail && r.served == s.served && |r.nodes| == |s.nodes|
    && (forall j :: 0 <= j < |s.nodes| ==>
          r.nodes[j].ticket == s.nodes[j].ticket && Queued(r.nodes[j].pc) == Queued(s.nodes[j].pc))
  }

  lemma SameShape(s: State, r: State)
    requires Shape(s) && SameQueue(s, r)
    ensures Shape(r)
  {
    forall i | 0 <= i < |r.q| ensures Place(r, i) { assert Place(s, i); }
    forall j | 0 <= j < |r.nodes| ensures Placed(r, j) { assert Placed(s, j); }
  }

  /** Only node k has changed. */
  ghost predicate OnlyNode(s: State, r: State, k: nat)
  {
    && k < |s.nodes| && |r.nodes| == |s.nodes|
    && (forall j :: 0 <= j < |s.nodes| && j != k ==> r.nodes[j] == s.nodes[j])
  }

  /** What the successor and the queue's end see of a node is kept. */
  ghost predicate LooksSame(n: Node, n': Node)
  {
    && n'.next == n.next
    && (Unset(n) ==> Unset(n'))
    && (IsSet(n) ==> IsSet(n'))
    && (n.linked == Handle && n.linkedEv == Pending ==> n'.linked == n.linked && n'.linkedEv == n.linkedEv)
  }

  /** A queued node changes its own state: besides itself only the pairs with its
      neighbours have to be looked at again. */
  lemma OwnStep(s: State, r: State, k: nat, i: nat)
    requires Inv(s) && i < |s.q| && s.q[i] == k && k < |s.nodes| && Queued(s.nodes[k].pc)
    requires SameQueue(s, r) && OnlyNode(s, r, k)
    requires LooksSame(s.nodes[k], r.nodes[k])
    requires i + 1 == |s.q| ==> r.nodes[k].linked == Clear
    requires i > 0 ==> Pair(r, i)
    requires Head(r) && Tidy(r, k)
    requires s.nodes[k].readyEv.Promised? ==> r.nodes[k].readyEv == s.nodes[k].readyEv && r.nodes[k].pc == s.nodes[k].pc
    ensures Inv(r)
  {
    SameShape(s, r);
    forall j | 0 < j < |r.q| ensures Pair(r, j) { PairKept(s, r, k, i, j); }
    LastKept(s, r, k, i);
    forall j | 0 <= j < |r.nodes| ensures Tidy(r, j) { assert Tidy(s, j); }
  }

  lemma PairKept(s: State, r: State, k: nat, i: nat, j: nat)
    requires Inv(s) && i < |s.q| && s.q[i] == k && k < |s.nodes|
    requires SameQueue(s, r) && OnlyNode(s, r, k)
    requires LooksSame(s.nodes[k], r.nodes[k])
    requires i > 0 ==> Pair(r, i)
    requires 0 < j < |r.q|
    ensures Pair(r, j)
  {
    assert Pair(s, j);
    Distinct(s, j, i);
    Distinct(s, j - 1, i);
  }

  lemma LastKept(s: State, r: State, k: nat, i: nat)
    requires Inv(s) && i < |s.q| && s.q[i] == k && k < |s.nodes|
    requires SameQueue(s, r) && OnlyNode(s, r, k) && LooksSame(s.nodes[k], r.nodes[k])
    requires i + 1 == |s.q| ==> r.nodes[k].linked == Clear
    ensures var l := r.q[|r.q| - 1];
            l < |r.nodes| && r.nodes[l].next == Nil && r.nodes[l].linked == Clear
  {
    if i + 1 < |s.q| { Distinct(s, i, |s.q| - 1); }
  }

  /** The head of the queue: what its successor's state says about it. */
  lemma HeadFacts(s: State, k: nat)
    requires Inv(s) && k < |s.nodes| && Owns(s.nodes[k].pc)
    ensures s.q != [] && s.q[0] == k && s.nodes[k].ticket == s.served
    ensures |s.q| == 1 ==> s.tail == To(k) && s.nodes[k].next == Nil && s.nodes[k].linked == Clear
    ensures |s.q| > 1 ==> s.tail != To(k)
    ensures |s.q| > 1 ==> s.nodes[k].next == Nil || s.nodes[k].next == To(s.q[1])
    ensures |s.q| > 1 && IsSet(s.nodes[k]) ==> HasLinked(s)
    ensures IsSet(s.nodes[k]) || Unset(s.nodes[k])
  {
    var i := Locate(s, k);
    assert Tidy(s, k);
    if |s.q| > 1 {
      assert Pair(s, 1);
      Distinct(s, 0, |s.q| - 1);
    }
  }

  lemma RelOwnInv(s: State, k: nat, p: RelPc)
    requires Inv(s) && k < |s.nodes| && s.nodes[k].pc == Rel(p)
    requires !p.RPass? && !p.RSignal? && (p.RCas? ==> s.tail != To(k))
    ensures Inv(StepRel(s, k, p))
  {
    HeadFacts(s, k);
    RelOwnHead(s, k, p);
    assert Tidy(s, k);
    var r := StepRel(s, k, p);
    if r != s { OwnStep(s, r, k, 0); }
  }

  lemma RelOwnHead(s: State, k: nat, p: RelPc)
    requires Inv(s) && k < |s.nodes| && s.nodes[k].pc == Rel(p)
    requires !p.RPass? && !p.RSignal? && (p.RCas? ==> s.tail != To(k))
    ensures Head(StepRel(s, k, p)) && Tidy(StepRel(s, k, p), k)
  {
    HeadFacts(s, k);
    assert Tidy(s, k);
  }

  lemma MoveOwnInv(s: State, k: nat, m: nat, p: MovePc)
    requires Inv(s) && k < |s.nodes| && s.nodes[k].pc == Move(m, p)
    requires p != XNext && p != XFlag && (p == XCas ==> s.tail != To(k))
    ensures Inv(StepMove(s, k, m, p))
  {
    HeadFacts(s, k);
    MoveOwnHead(s, k, m, p);
    assert Tidy(s, k);
    var r := StepMove(s, k, m, p);
    if r != s { OwnStep(s, r, k, 0); }
  }

  lemma MoveOwnHead(s: State, k: nat, m: nat, p: MovePc)
    requires Inv(s) && k < |s.nodes| && s.nodes[k].pc == Move(m, p)
    requires p != XNext && p != XFlag && (p == XCas ==> s.tail != To(k))
    ensures |StepMove(s, k, m, p).nodes| == |s.nodes|
    ensures Head(StepMove(s, k, m, p)) && Tidy(StepMove(s, k, m, p), k)
  {
    HeadFacts(s, k);
    assert Tidy(s, k);
  }

  lemma WaitOwnInv(s: State, k: nat, p: AcqPc)
    requires Inv(s) && k < |s.nodes| && s.nodes[k].pc == Acq(p)
    requires p == ARead || p == ACreate || p == ABlock
    ensures Inv(StepAcq(s, k, p))
  {
    var i := Locate(s, k);
    assert Tidy(s, k);
    var r := StepAcq(s, k, p);
    if i > 0 { WaitBehind(s, k, p, i); } else { WaitInFront(s, k, p); }
    if r != s { OwnStep(s, r, k, i); }
  }

  lemma WaitInFront(s: State, k: nat, p: AcqPc)
    requires Inv(s) && s.q != [] && s.q[0] == k < |s.nodes| && s.nodes[k].pc == Acq(p)
    requires p == ARead || p == ACreate || p == ABlock
    ensures Head(StepAcq(s, k, p))
  {
  }

  lemma WaitBehind(s: State, k: nat, p: AcqPc, i: nat)
    requires Inv(s) && 0 < i < |s.q| && s.q[i] == k < |s.nodes| && s.nodes[k].pc == Acq(p)
    requires p == ARead || p == ACreate || p == ABlock
    ensures Pair(StepAcq(s, k, p), i)
    ensures Head(StepAcq(s, k, p))
  {
    assert Pair(s, i);
    Distinct(s, i - 1, i);
    Distinct(s, 0, i);
    assert Tidy(s, k);
    if s.nodes[s.q[0]].pc.Move? { assert !Queued(s.nodes[s.nodes[s.q[0]].pc.new_node].pc); }
  }

  /** A successor links itself behind its predecessor: both nodes change. */
  lemma LinkInv(s: State, k: nat, p: AcqPc)
    requires Inv(s) && k < |s.nodes| && s.nodes[k].pc == Acq(p)
    requires p.ALink? || p.AFlag? || p.ASignal?
    ensures Inv(StepAcq(s, k, p))
  {
    var i := Locate(s, k);
    LinkShape(s, k, p, i);
    var r := StepAcq(s, k, p);
    assert Pairs(r) by {
      forall j | 0 < j < |r.q| ensures Pair(r, j) { LinkPair(s, k, p, i, j); }
      LinkLast(s, k, p, i);
    }
    LinkHead(s, k, p, i);
    LinkTidy(s, k, p, i);
  }

  lemma LinkShape(s: State, k: nat, p: AcqPc, i: nat)
    requires Inv(s) && i < |s.q| && s.q[i] == k < |s.nodes| && s.nodes[k].pc == Acq(p)
    requires p.ALink? || p.AFlag? || p.ASignal?
    ensures i > 0 && s.q[i - 1] == p.pred < |s.nodes| && p.pred != k
    ensures SameQueue(s, StepAcq(s, k, p)) && Shape(StepAcq(s, k, p))
  {
    assert i > 0 && Pair(s, i);
    Distinct(s, i - 1, i);
    SameShape(s, StepAcq(s, k, p));
  }

  lemma LinkTidy(s: State, k: nat, p: AcqPc, i: nat)
    requires Inv(s) && 0 < i < |s.q| && s.q[i] == k < |s.nodes| && s.nodes[k].pc == Acq(p)
    requires p.ALink? || p.AFlag? || p.ASignal?
    ensures AllTidy(StepAcq(s, k, p))
  {
    var r := StepAcq(s, k, p);
    assert Pair(s, i) && Place(s, i - 1);
    Distinct(s, i - 1, i);
    Distinct(s, 0, i);
    assert Tidy(s, p.pred) && Tidy(s, k);
    forall j | 0 <= j < |r.nodes| ensures Tidy(r, j) { assert Tidy(s, j); }
  }

  lemma LinkPair(s: State, k: nat, p: AcqPc, i: nat, j: nat)
    requires Inv(s) && 0 < i < |s.q| && s.q[i] == k < |s.nodes| && s.nodes[k].pc == Acq(p)
    requires p.ALink? || p.AFlag? || p.ASignal?
    requires 0 < j < |s.q|
    ensures Pair(StepAcq(s, k, p), j)
  {
    assert Pair(s, i) && Pair(s, j);
    Distinct(s, i - 1, i);
    if j != i { LinkOtherPair(s, k, p, i, j); }
  }

  lemma LinkOtherPair(s: State, k: nat, p: AcqPc, i: nat, j: nat)
    requires Inv(s) && 0 < i < |s.q| && s.q[i] == k < |s.nodes| && s.nodes[k].pc == Acq(p)
    requires p.ALink? || p.AFlag? || p.ASignal?
    requires 0 < j < |s.q| && j != i
    ensures Pair(StepAcq(s, k, p), j)
  {
    assert Pair(s, i) && Pair(s, j);
    Distinct(s, i - 1, i);
    Distinct(s, j, i);
    Distinct(s, j - 1, i - 1);
    if j == i + 1 { Distinct(s, j, i - 1); } else { LinkEarlierPair(s, k, p, i, j); }
  }

  lemma LinkEarlierPair(s: State, k: nat, p: AcqPc, i: nat, j: nat)
    requires Inv(s) && 0 < i < |s.q| && s.q[i] == k < |s.nodes| && s.nodes[k].pc == Acq(p)
    requires p.ALink? || p.AFlag? || p.ASignal?
    requires 0 < j < |s.q| && j != i && j != i + 1
    ensures Pair(StepAcq(s, k, p), j)
  {
    assert Pair(s, i) && Pair(s, j);
    Distinct(s, i - 1, i);
    Distinct(s, j, i);
    Distinct(s, j - 1, i);
    Distinct(s, j - 1, i - 1);
    if j != i - 1 { Distinct(s, j, i - 1); }
  }

  lemma LinkLast(s: State, k: nat, p: AcqPc, i: nat)
    requires Inv(s) && 0 < i < |s.q| && s.q[i] == k < |s.nodes| && s.nodes[k].pc == Acq(p)
    requires p.ALink? || p.AFlag? || p.ASignal?
    ensures var r := StepAcq(s, k, p);
            var l := r.q[|r.q| - 1]; l < |r.nodes| && r.nodes[l].next == Nil && r.nodes[l].linked == Clear
  {
    assert Pair(s, i);
    Distinct(s, i - 1, i);
    Distinct(s, i - 1, |s.q| - 1);
  }

  lemma LinkHead(s: State, k: nat, p: AcqPc, i: nat)
    requires Inv(s) && 0 < i < |s.q| && s.q[i] == k < |s.nodes| && s.nodes[k].pc == Acq(p)
    requires p.ALink? || p.AFlag? || p.ASignal?
    ensures Head(StepAcq(s, k, p))
  {
    assert Pair(s, i) && Place(s, 0);
    Distinct(s, i - 1, i);
    Distinct(s, 0, i);
    Distinct(s, 0, i - 1);
    if s.nodes[s.q[0]].pc.Move? { LinkHeadMove(s, k, p, i); }
  }

  lemma LinkHeadMove(s: State, k: nat, p: AcqPc, i: nat)
    requires Inv(s) && 0 < i < |s.q| && s.q[i] == k < |s.nodes| && s.nodes[k].pc == Acq(p)
    requires p.ALink? || p.AFlag? || p.ASignal?
    requires s.q[0] < |s.nodes| && s.nodes[s.q[0]].pc.Move?
    ensures Head(StepAcq(s, k, p))
  {
    assert Pair(s, i) && Place(s, 0) && Place(s, i - 1);
    Distinct(s, i - 1, i);
    Distinct(s, 0, i);
    Distinct(s, 0, i - 1);
    var m := s.nodes[s.q[0]].pc.new_node;
    assert m != k && m != p.pred;
  }

  /** A transfer writes into the new node. */
  lemma NextInv(s: State, k: nat, m: nat)
    requires Inv(s) && k < |s.nodes| && s.nodes[k].pc == Move(m, XNext)
    ensures Inv(StepMove(s, k, m, XNext))
  {
    HeadFacts(s, k);
    var r := StepMove(s, k, m, XNext);
    SameShape(s, r);
    NextPairs(s, k, m);
    forall j | 0 <= j < |r.nodes| ensures Tidy(r, j) { assert Tidy(s, j); }
  }

  lemma NextPairs(s: State, k: nat, m: nat)
    requires Inv(s) && k < |s.nodes| && s.nodes[k].pc == Move(m, XNext)
    ensures Pairs(StepMove(s, k, m, XNext))
  {
    HeadFacts(s, k);
    var r := StepMove(s, k, m, XNext);
    forall i | 0 < i < |r.q| ensures Pair(r, i) {
      assert Pair(s, i) && Place(s, i) && Place(s, i - 1);
      Distinct(s, i, 0);
    }
    assert Place(s, |s.q| - 1);
  }

  /** The releaser that found an event handle sets the event. */
  lemma SignalInv(s: State, k: nat, m: nat)
    requires Inv(s) && k < |s.nodes| && s.nodes[k].pc == Rel(RSignal(m))
    ensures Inv(StepRel(s, k, RSignal(m)))
  {
    assert Tidy(s, k) && Placed(s, k) && Place(s, 0);
    var r := StepRel(s, k, RSignal(m));
    SameShape(s, r);
    SignalPairs(s, k, m);
    forall j | 0 <= j < |r.nodes| ensures Tidy(r, j) { assert Tidy(s, j); }
  }

  lemma SignalPairs(s: State, k: nat, m: nat)
    requires Inv(s) && k < |s.nodes| && s.nodes[k].pc == Rel(RSignal(m))
    ensures Pairs(StepRel(s, k, RSignal(m)))
  {
    assert Tidy(s, k);
    var r := StepRel(s, k, RSignal(m));
    forall i | 0 < i < |r.q| ensures Pair(r, i) {
      assert Pair(s, i) && Place(s, i) && Place(s, i - 1);
      Distinct(s, i, 0);
    }
    assert Place(s, |s.q| - 1);
  }

  /** The head leaves the queue: everything behind it moves up by one. */
  lemma LeaveShape(s: State, r: State)
    requires Shape(s) && s.q != [] && s.q[0] < |s.nodes|
    requires r.q == s.q[1..] && r.served == s.served + 1 && |r.nodes| == |s.nodes|
    requires forall j :: 0 <= j < |s.nodes| ==> r.nodes[j].ticket == s.nodes[j].ticket
    requires forall j :: 0 <= j < |s.nodes| && j != s.q[0] ==> Queued(r.nodes[j].pc) == Queued(s.nodes[j].pc)
    requires !Queued(r.nodes[s.q[0]].pc)
    requires r.tail == (if |s.q| == 1 then Nil else s.tail)
    ensures Shape(r)
  {
    forall i | 0 <= i < |r.q| ensures Place(r, i) { assert Place(s, i + 1); Distinct(s, 0, i + 1); }
    assert Place(s, 0);
    forall j | 0 <= j < |r.nodes| ensures Placed(r, j) { assert Placed(s, j); }
  }

  lemma FreeInv(s: State, k: nat)
    requires Inv(s) && k < |s.nodes| && s.nodes[k].pc == Rel(RCas) && s.tail == To(k)
    ensures Inv(StepRel(s, k, RCas))
  {
    HeadFacts(s, k);
    assert Tidy(s, k) && Place(s, 0);
    var r := StepRel(s, k, RCas);
    LeaveShape(s, r);
    forall j | 0 <= j < |r.nodes| ensures Tidy(r, j) { assert Tidy(s, j); }
  }

  lemma PassInv(s: State, k: nat, m: nat)
    requires Inv(s) && k < |s.nodes| && s.nodes[k].pc == Rel(RPass(m))
    ensures Inv(StepRel(s, k, RPass(m)))
  {
    HeadFacts(s, k);
    assert Place(s, 0) && Place(s, 1);
    Distinct(s, 0, 1);
    LeaveShape(s, StepRel(s, k, RPass(m)));
    PassPairs(s, k, m);
    PassHead(s, k, m);
    PassTidy(s, k, m);
  }

  lemma PassPairs(s: State, k: nat, m: nat)
    requires Inv(s) && k < |s.nodes| && s.nodes[k].pc == Rel(RPass(m))
    ensures Pairs(StepRel(s, k, RPass(m)))
  {
    HeadFacts(s, k);
    var r := StepRel(s, k, RPass(m));
    assert (|s.q| >= 2 ==> Place(s, 1)) && HeadRel(s, RPass(m));
    assert r.q == s.q[1..];
    forall i | 0 < i < |r.q| ensures Pair(r, i) { PassPair(s, k, m, i); }
    Distinct(s, 0, |s.q| - 1);
  }

  lemma PassPair(s: State, k: nat, m: nat, i: nat)
    requires Inv(s) && k < |s.nodes| && s.nodes[k].pc == Rel(RPass(m))
    requires 0 < i < |s.q| - 1
    ensures 0 < i < |StepRel(s, k, RPass(m)).q| && Pair(StepRel(s, k, RPass(m)), i)
  {
    HeadFacts(s, k);
    assert Place(s, 1) && Pair(s, i + 1);
    Distinct(s, i + 1, 0);
    Distinct(s, i + 1, 1);
    Distinct(s, i, 0);
    var r := StepRel(s, k, RPass(m));
    assert r.q == s.q[1..] && r.nodes[s.q[i + 1]] == s.nodes[s.q[i + 1]];
  }

  lemma PassHead(s: State, k: nat, m: nat)
    requires Inv(s) && k < |s.nodes| && s.nodes[k].pc == Rel(RPass(m))
    ensures Head(StepRel(s, k, RPass(m)))
  {
    HeadFacts(s, k);
    assert Pair(s, 1);
    Distinct(s, 0, 1);
  }

  lemma PassTidy(s: State, k: nat, m: nat)
    requires Inv(s) && k < |s.nodes| && s.nodes[k].pc == Rel(RPass(m))
    ensures AllTidy(StepRel(s, k, RPass(m)))
  {
    forall j | 0 <= j < |StepRel(s, k, RPass(m)).nodes| ensures Tidy(StepRel(s, k, RPass(m)), j) {
      PassTidyAt(s, k, m, j);
    }
  }

  lemma PassTidyAt(s: State, k: nat, m: nat, j: nat)
    requires Inv(s) && k < |s.nodes| && s.nodes[k].pc == Rel(RPass(m)) && j < |StepRel(s, k, RPass(m)).nodes|
    ensures Tidy(StepRel(s, k, RPass(m)), j)
  {
    HeadFacts(s, k);
    assert Pair(s, 1);
    Distinct(s, 0, 1);
    assert Tidy(s, j);
  }

  // ----- the queue head is replaced -----

  lemma ReplaceShape(s: State, r: State, k: nat, m: nat)
    requires Shape(s) && s.q != [] && s.q[0] == k < |s.nodes| && m < |s.nodes| && !Queued(s.nodes[m].pc)
    requires r.q == s.q[0 := m] && r.served == s.served && |r.nodes| == |s.nodes|
    requires forall j :: 0 <= j < |s.nodes| && j != k && j != m ==> r.nodes[j] == s.nodes[j]
    requires r.nodes[m].pc == Owner && r.nodes[k].pc == Free
    requires r.nodes[m].ticket == s.nodes[k].ticket && r.nodes[k].ticket == s.nodes[k].ticket
    requires r.tail == (if |s.q| == 1 then To(m) else s.tail)
    ensures Shape(r)
  {
    assert Place(s, 0);
    forall i | 0 <= i < |r.q| ensures Place(r, i) { assert Place(s, i); Distinct(s, 0, i); }
    forall j | 0 <= j < |r.nodes| ensures Placed(r, j) { assert Placed(s, j); }
  }

  lemma ReplaceAloneInv(s: State, k: nat, m: nat)
    requires Inv(s) && k < |s.nodes| && s.nodes[k].pc == Move(m, XCas) && s.tail == To(k)
    ensures Inv(StepMove(s, k, m, XCas))
  {
    HeadFacts(s, k);
    var r := StepMove(s, k, m, XCas);
    ReplaceShape(s, r, k, m);
    forall j | 0 <= j < |r.nodes| ensures Tidy(r, j) { assert Tidy(s, j); }
  }

  lemma ReplaceInv(s: State, k: nat, m: nat)
    requires Inv(s) && k < |s.nodes| && s.nodes[k].pc == Move(m, XFlag)
    ensures Inv(StepMove(s, k, m, XFlag))
  {
    HeadFacts(s, k);
    var r := StepMove(s, k, m, XFlag);
    ReplaceShape(s, r, k, m);
    ReplacePairs(s, k, m);
    forall j | 0 <= j < |r.nodes| ensures Tidy(r, j) { assert Tidy(s, j); }
  }

  lemma ReplacePairs(s: State, k: nat, m: nat)
    requires Inv(s) && k < |s.nodes| && s.nodes[k].pc == Move(m, XFlag)
    ensures Pairs(StepMove(s, k, m, XFlag))
  {
    HeadFacts(s, k);
    var r := StepMove(s, k, m, XFlag);
    assert Tidy(s, k) && Tidy(s, m);
    forall i | 0 < i < |r.q| ensures Pair(r, i) {
      assert Pair(s, i) && Place(s, i) && Place(s, i - 1);
      Distinct(s, i, 0);
      Distinct(s, i - 1, 0);
    }
    assert Place(s, |s.q| - 1);
    Distinct(s, 0, |s.q| - 1);
  }

  // ----- a node joins the queue -----

  lemma JoinInv(s: State, k: nat)
    requires Inv(s) && k < |s.nodes| && (s.nodes[k].pc == Acq(ASwap) || s.nodes[k].pc == Acq(ATry))
    ensures Inv(StepAcq(s, k, s.nodes[k].pc.a))
  {
    var r := StepAcq(s, k, s.nodes[k].pc.a);
    assert Tidy(s, k) && Placed(s, k);
    JoinShape(s, k);
    JoinPairs(s, k);
    assert s.q != [] ==> Place(s, 0);
    forall j | 0 <= j < |r.nodes| ensures Tidy(r, j) { assert Tidy(s, j); }
  }

  lemma JoinShape(s: State, k: nat)
    requires Inv(s) && k < |s.nodes| && (s.nodes[k].pc == Acq(ASwap) || s.nodes[k].pc == Acq(ATry))
    ensures Shape(StepAcq(s, k, s.nodes[k].pc.a))
  {
    var r := StepAcq(s, k, s.nodes[k].pc.a);
    forall i | 0 <= i < |r.q| ensures Place(r, i) { if i < |s.q| { assert Place(s, i); } }
    forall j | 0 <= j < |r.nodes| ensures Placed(r, j) { assert Placed(s, j); }
  }

  lemma JoinPairs(s: State, k: nat)
    requires Inv(s) && k < |s.nodes| && (s.nodes[k].pc == Acq(ASwap) || s.nodes[k].pc == Acq(ATry))
    ensures Pairs(StepAcq(s, k, s.nodes[k].pc.a))
  {
    var r := StepAcq(s, k, s.nodes[k].pc.a);
    assert Tidy(s, k);
    forall i | 0 < i < |r.q| ensures Pair(r, i) {
      assert Place(s, i - 1);
      if i < |s.q| { assert Pair(s, i) && Place(s, i); }
      assert Tidy(s, s.q[i - 1]);
    }
    assert s.q != [] ==> Place(s, |s.q| - 1);
  }

  // ----- calls -----

  lemma CallInv(s: State, k: nat, c: Call)
    requires Inv(s) && k < |s.nodes| && (s.nodes[k].pc == Free || s.nodes[k].pc == Owner)
    ensures Inv(StepCall(s, k, c))
  {
    if s.nodes[k].pc == Owner && c == CallRelease {
      ReleaseCallInv(s, k);
    } else if StepCall(s, k, c) != s {
      CallShape(s, k, c);
      CallPairs(s, k, c);
      CallHead(s, k, c);
      CallTidy(s, k, c);
    }
  }

  lemma ReleaseCallInv(s: State, k: nat)
    requires Inv(s) && k < |s.nodes| && s.nodes[k].pc == Owner
    ensures Inv(StepCall(s, k, CallRelease))
  {
    HeadFacts(s, k);
    assert Tidy(s, k);
    OwnStep(s, StepCall(s, k, CallRelease), k, 0);
  }

  lemma CallShape(s: State, k: nat, c: Call)
    requires Inv(s) && k < |s.nodes|
    requires (s.nodes[k].pc == Free && c != CallRelease) || (s.nodes[k].pc == Owner && c.CallTransfer?)
    ensures Shape(StepCall(s, k, c))
  {
    SameShape(s, StepCall(s, k, c));
  }

  lemma CallTidy(s: State, k: nat, c: Call)
    requires Inv(s) && k < |s.nodes|
    requires (s.nodes[k].pc == Free && c != CallRelease) || (s.nodes[k].pc == Owner && c.CallTransfer?)
    ensures AllTidy(StepCall(s, k, c))
  {
    var r := StepCall(s, k, c);
    forall j | 0 <= j < |r.nodes| ensures Tidy(r, j) { assert Tidy(s, j); }
  }

  lemma CallPairs(s: State, k: nat, c: Call)
    requires Inv(s) && k < |s.nodes|
    requires (s.nodes[k].pc == Free && c != CallRelease) || (s.nodes[k].pc == Owner && c.CallTransfer?)
    ensures Pairs(StepCall(s, k, c))
  {
    var r := StepCall(s, k, c);
    forall i | 0 < i < |r.q| ensures Pair(r, i) { assert Pair(s, i) && Place(s, i) && Place(s, i - 1); }
    assert s.q != [] ==> Place(s, |s.q| - 1);
  }

  lemma CallHead(s: State, k: nat, c: Call)
    requires Inv(s) && k < |s.nodes|
    requires (s.nodes[k].pc == Free && c != CallRelease) || (s.nodes[k].pc == Owner && c.CallTransfer?)
    ensures Head(StepCall(s, k, c))
  {
    assert s.q != [] ==> Place(s, 0);
    if s.nodes[k].pc == Owner { HeadFacts(s, k); }
  }

  lemma StepInv(s: State, k: nat, c: Call)
    requires Inv(s)
    ensures Inv(Step(s, k, c))
  {
    if k < |s.nodes| {
      match s.nodes[k].pc
      case Free | Owner => CallInv(s, k, c);
      case Target =>
      case Acq(a) => AcqInv(s, k, a);
      case Rel(r) => RelInv(s, k, r);
      case Move(m, x) => MoveInv(s, k, m, x);
    }
  }

  lemma AcqInv(s: State, k: nat, p: AcqPc)
    requires Inv(s) && k < |s.nodes| && s.nodes[k].pc == Acq(p)
    ensures Inv(StepAcq(s, k, p))
  {
    match p
    case ASwap | ATry => JoinInv(s, k);
    case ALink(_) | AFlag(_) | ASignal(_) => LinkInv(s, k, p);
    case ARead | ACreate | ABlock => WaitOwnInv(s, k, p);
  }

  lemma RelInv(s: State, k: nat, p: RelPc)
    requires Inv(s) && k < |s.nodes| && s.nodes[k].pc == Rel(p)
    ensures Inv(StepRel(s, k, p))
  {
    match p
    case RPass(m) => PassInv(s, k, m);
    case RSignal(m) => SignalInv(s, k, m);
    case RCas => if s.tail == To(k) { FreeInv(s, k); } else { RelOwnInv(s, k, p); }
    case _ => RelOwnInv(s, k, p);
  }

  lemma MoveInv(s: State, k: nat, m: nat, p: MovePc)
    requires Inv(s) && k < |s.nodes| && s.nodes[k].pc == Move(m, p)
    ensures Inv(StepMove(s, k, m, p))
  {
    match p
    case XNext => NextInv(s, k, m);
    case XFlag => ReplaceInv(s, k, m);
    case XCas => if s.tail == To(k) { ReplaceAloneInv(s, k, m); } else { MoveOwnInv(s, k, m, p); }
    case _ => MoveOwnInv(s, k, m, p);
  }

  /** Every reachable state, for any number of nodes and any order of steps. */
  lemma {:induction false} RunInv(s: State, schedule: Schedule)
    requires Inv(s)
    ensures Inv(Run(s, schedule)) && |Run(s, schedule).nodes| == |s.nodes|
    decreases |schedule|
  {
    if schedule == [] {
    } else {
      var last := schedule[|schedule| - 1];
      var before := Run(s, schedule[..|schedule| - 1]);
      RunInv(s, schedule[..|schedule| - 1]);
      StepInv(before, last.0, last.1);
      assert Run(s, schedule) == Step(before, last.0, last.1);
    }
  }
}
