/** What the MCS queue lock guarantees in every reachable state: exclusion, first
    come first served, no use of a node that has been released, and no lost
    hand-off. */
module McsTheorems {
  import opened McsLock

  lemma ReachInv(n: nat, schedule: Schedule)
    ensures Inv(Run(Init(n), schedule))
  {
    InitInv(n);
    RunInv(Init(n), schedule);
  }

  // ----- exclusion and order -----

  /** At most one node owns the lock or is in the middle of giving it away. */
  lemma Exclusion(s: State, k: nat, m: nat)
    requires Inv(s) && k < |s.nodes| && m < |s.nodes|
    requires Owns(s.nodes[k].pc) && Owns(s.nodes[m].pc)
    ensures k == m
  {
    HeadFacts(s, k);
    HeadFacts(s, m);
  }

  /** No node joins with the ticket of another node in the queue, tickets are
      handed out in the order of the exchanges on the lock word, and nothing but a
      transfer gives a node a ticket that was handed out before. */
  lemma TicketsInOrder(s: State, k: nat, c: Call)
    requires Inv(s) && k < |s.nodes|
    requires !Queued(s.nodes[k].pc) && Queued(Step(s, k, c).nodes[k].pc)
    ensures Step(s, k, c).nodes[k].ticket == s.served + |s.q|
    ensures forall m :: 0 <= m < |s.nodes| && Queued(s.nodes[m].pc) ==> s.nodes[m].ticket < s.served + |s.q|
  {
    forall m | 0 <= m < |s.nodes| && Queued(s.nodes[m].pc)
      ensures s.nodes[m].ticket < s.served + |s.q|
    {
      var i := Locate(s, m);
    }
  }

  /** First come, first served: the node that gets the lock is the one whose
      ticket is next, and the count of served nodes moves by one exactly when the
      owner gives the lock up. A transfer moves a place in the queue to another
      node and serves nobody. */
  lemma ServedInOrder(s: State, k: nat, c: Call)
    requires Inv(s) && k < |s.nodes|
    ensures var r := Step(s, k, c);
            && (Owns(r.nodes[k].pc) ==> r.nodes[k].ticket == r.served)
            && s.served <= r.served <= s.served + 1
            && (r.served == s.served + 1 <==>
                  Owns(s.nodes[k].pc) && !Owns(r.nodes[k].pc) && !s.nodes[k].pc.Move?)
  {
    StepInv(s, k, c);
    var r := Step(s, k, c);
    if Owns(r.nodes[k].pc) { HeadFacts(r, k); }
    match s.nodes[k].pc
    case Acq(a) => AcqServes(s, k, a);
    case Rel(p) => RelServes(s, k, p);
    case Move(m, x) => MoveServes(s, k, m, x);
    case _ => CallServes(s, k, c);
  }

  lemma CallServes(s: State, k: nat, c: Call)
    requires k < |s.nodes|
    ensures StepCall(s, k, c).served == s.served
    ensures s.nodes[k].pc == Owner ==> Owns(StepCall(s, k, c).nodes[k].pc)
  {
  }

  lemma AcqServes(s: State, k: nat, p: AcqPc)
    requires k < |s.nodes|
    ensures StepAcq(s, k, p).served == s.served
  {
  }

  lemma RelServes(s: State, k: nat, p: RelPc)
    requires Inv(s) && k < |s.nodes| && s.nodes[k].pc == Rel(p)
    ensures var r := StepRel(s, k, p);
            && |r.nodes| == |s.nodes|
            && r.served == s.served + (if Queued(Rel(p)) && !Owns(r.nodes[k].pc) then 1 else 0)
  {
    if Queued(Rel(p)) { HeadFacts(s, k); }
  }

  lemma MoveServes(s: State, k: nat, m: nat, x: MovePc)
    requires k < |s.nodes|
    ensures StepMove(s, k, m, x).served == s.served
  {
  }

  /** Transfer, once it has the link, hands the old node's place, ticket and
      successor to the new node and frees the old one. */
  lemma TransferTakesPlace(s: State, k: nat, c: Call)
    requires Inv(s) && k < |s.nodes| && s.nodes[k].pc.Move? && Step(s, k, c).nodes[k].pc == Free
    ensures var r := Step(s, k, c);
            var m := s.nodes[k].pc.new_node;
            && m < |s.nodes| && r.nodes[m].pc == Owner
            && s.q != [] && s.q[0] == k && r.q == s.q[0 := m]
            && r.nodes[m].ticket == s.nodes[k].ticket
            && r.nodes[m].next == s.nodes[k].next
            && (|s.q| > 1 ==> IsSet(r.nodes[m]))
  {
    HeadFacts(s, k);
    assert Tidy(s, s.nodes[k].pc.new_node);
  }

  // ----- nodes are not used after release -----

  /** The nodes other than its own whose memory the next step of node k reads or
      writes; TouchesComplete shows that there are no others. Setting an event uses a
      handle, not a node. */
  function Touches(p: Pc): set<nat>
  {
    match p
    case Acq(ALink(pred)) => {pred}
    case Acq(AFlag(pred)) => {pred}
    case Rel(RPass(m)) => {m}
    case Move(m, _) => {m}
    case _ => {}
  }

  /** Node n with other memory: the link and the two flags. */
  function WithMemory(n: Node, next: Link, ready: Flag, linked: Flag): Node
  {
    n.(next := next, ready := ready, linked := linked)
  }

  function Overwrite(s: State, m: nat, next: Link, ready: Flag, linked: Flag): State
    requires m < |s.nodes|
  {
    At(s, m, WithMemory(s.nodes[m], next, ready, linked))
  }

  /** The step of node k neither depends on the memory of any other node that is not
      in Touches nor changes it: with other memory in node m it is the same step, and
      m still has that memory after it. */
  lemma TouchesComplete(s: State, k: nat, c: Call, m: nat, next: Link, ready: Flag, linked: Flag)
    requires k < |s.nodes| && m < |s.nodes| && m != k && m !in Touches(s.nodes[k].pc)
    requires !(s.nodes[k].pc == Owner && c == CallTransfer(m))
    ensures Step(Overwrite(s, m, next, ready, linked), k, c) == Overwrite(Step(s, k, c), m, next, ready, linked)
  {
    match s.nodes[k].pc
    case Free => CallLeaves(s, k, c, m, next, ready, linked);
    case Owner => CallLeaves(s, k, c, m, next, ready, linked);
    case Target =>
    case Acq(a) => AcqLeaves(s, k, a, m, next, ready, linked);
    case Rel(r) => RelLeaves(s, k, r, m, next, ready, linked);
    case Move(x, p) => MoveLeaves(s, k, x, p, m, next, ready, linked);
  }

  lemma CallLeaves(s: State, k: nat, c: Call, m: nat, next: Link, ready: Flag, linked: Flag)
    requires k < |s.nodes| && m < |s.nodes| && m != k && !(s.nodes[k].pc == Owner && c == CallTransfer(m))
    ensures |StepCall(s, k, c).nodes| == |s.nodes|
    ensures StepCall(Overwrite(s, m, next, ready, linked), k, c)
         == Overwrite(StepCall(s, k, c), m, next, ready, linked)
  {
    assert StepCall(Overwrite(s, m, next, ready, linked), k, c).nodes
        == Overwrite(StepCall(s, k, c), m, next, ready, linked).nodes;
  }

  lemma AcqLeaves(s: State, k: nat, p: AcqPc, m: nat, next: Link, ready: Flag, linked: Flag)
    requires k < |s.nodes| && m < |s.nodes| && m != k && m !in Touches(Acq(p))
    ensures |StepAcq(s, k, p).nodes| == |s.nodes|
    ensures StepAcq(Overwrite(s, m, next, ready, linked), k, p)
         == Overwrite(StepAcq(s, k, p), m, next, ready, linked)
  {
    assert StepAcq(Overwrite(s, m, next, ready, linked), k, p).nodes
        == Overwrite(StepAcq(s, k, p), m, next, ready, linked).nodes;
  }

  lemma RelLeaves(s: State, k: nat, p: RelPc, m: nat, next: Link, ready: Flag, linked: Flag)
    requires k < |s.nodes| && m < |s.nodes| && m != k && m !in Touches(Rel(p))
    ensures |StepRel(s, k, p).nodes| == |s.nodes|
    ensures StepRel(Overwrite(s, m, next, ready, linked), k, p)
         == Overwrite(StepRel(s, k, p), m, next, ready, linked)
  {
    match p
    case RPass(x) => PassLeaves(s, k, x, m, next, ready, linked);
    case RSignal(x) => SignalLeaves(s, k, x, m, next, ready, linked);
    case _ => RelOwnLeaves(s, k, p, m, next, ready, linked);
  }

  lemma PassLeaves(s: State, k: nat, x: nat, m: nat, next: Link, ready: Flag, linked: Flag)
    requires k < |s.nodes| && m < |s.nodes| && m != k && m != x
    ensures |StepRel(s, k, RPass(x)).nodes| == |s.nodes|
    ensures StepRel(Overwrite(s, m, next, ready, linked), k, RPass(x))
         == Overwrite(StepRel(s, k, RPass(x)), m, next, ready, linked)
  {
    assert StepRel(Overwrite(s, m, next, ready, linked), k, RPass(x)).nodes
        == Overwrite(StepRel(s, k, RPass(x)), m, next, ready, linked).nodes;
  }

  lemma SignalLeaves(s: State, k: nat, x: nat, m: nat, next: Link, ready: Flag, linked: Flag)
    requires k < |s.nodes| && m < |s.nodes| && m != k
    ensures |StepRel(s, k, RSignal(x)).nodes| == |s.nodes|
    ensures StepRel(Overwrite(s, m, next, ready, linked), k, RSignal(x))
         == Overwrite(StepRel(s, k, RSignal(x)), m, next, ready, linked)
  {
    assert StepRel(Overwrite(s, m, next, ready, linked), k, RSignal(x)).nodes
        == Overwrite(StepRel(s, k, RSignal(x)), m, next, ready, linked).nodes;
  }

  lemma RelOwnLeaves(s: State, k: nat, p: RelPc, m: nat, next: Link, ready: Flag, linked: Flag)
    requires k < |s.nodes| && m < |s.nodes| && m != k && !p.RPass? && !p.RSignal?
    ensures |StepRel(s, k, p).nodes| == |s.nodes|
    ensures StepRel(Overwrite(s, m, next, ready, linked), k, p)
         == Overwrite(StepRel(s, k, p), m, next, ready, linked)
  {
    assert StepRel(Overwrite(s, m, next, ready, linked), k, p).nodes
        == Overwrite(StepRel(s, k, p), m, next, ready, linked).nodes;
  }

  lemma MoveLeaves(s: State, k: nat, x: nat, p: MovePc, m: nat, next: Link, ready: Flag, linked: Flag)
    requires k < |s.nodes| && m < |s.nodes| && m != k && m != x
    ensures |StepMove(s, k, x, p).nodes| == |s.nodes|
    ensures StepMove(Overwrite(s, m, next, ready, linked), k, x, p)
         == Overwrite(StepMove(s, k, x, p), m, next, ready, linked)
  {
    if p == XCas {
      ReplaceLeaves(s, k, x, m, next, ready, linked);
    } else if p == XNext || p == XFlag {
      CopyLeaves(s, k, x, p, m, next, ready, linked);
    } else {
      MoveOwnLeaves(s, k, x, p, m, next, ready, linked);
    }
  }

  lemma ReplaceLeaves(s: State, k: nat, x: nat, m: nat, next: Link, ready: Flag, linked: Flag)
    requires k < |s.nodes| && m < |s.nodes| && m != k && m != x
    ensures |StepMove(s, k, x, XCas).nodes| == |s.nodes|
    ensures StepMove(Overwrite(s, m, next, ready, linked), k, x, XCas)
         == Overwrite(StepMove(s, k, x, XCas), m, next, ready, linked)
  {
    assert StepMove(Overwrite(s, m, next, ready, linked), k, x, XCas).nodes
        == Overwrite(StepMove(s, k, x, XCas), m, next, ready, linked).nodes;
  }

  lemma CopyLeaves(s: State, k: nat, x: nat, p: MovePc, m: nat, next: Link, ready: Flag, linked: Flag)
    requires k < |s.nodes| && m < |s.nodes| && m != k && m != x && (p == XNext || p == XFlag)
    ensures |StepMove(s, k, x, p).nodes| == |s.nodes|
    ensures StepMove(Overwrite(s, m, next, ready, linked), k, x, p)
         == Overwrite(StepMove(s, k, x, p), m, next, ready, linked)
  {
    assert StepMove(Overwrite(s, m, next, ready, linked), k, x, p).nodes
        == Overwrite(StepMove(s, k, x, p), m, next, ready, linked).nodes;
  }

  lemma MoveOwnLeaves(s: State, k: nat, x: nat, p: MovePc, m: nat, next: Link, ready: Flag, linked: Flag)
    requires k < |s.nodes| && m < |s.nodes| && m != k && m != x && p != XCas && p != XNext && p != XFlag
    ensures |StepMove(s, k, x, p).nodes| == |s.nodes|
    ensures StepMove(Overwrite(s, m, next, ready, linked), k, x, p)
         == Overwrite(StepMove(s, k, x, p), m, next, ready, linked)
  {
    assert StepMove(Overwrite(s, m, next, ready, linked), k, x, p).nodes
        == Overwrite(StepMove(s, k, x, p), m, next, ready, linked).nodes;
  }

  /** So the next step of any node is the same whatever is in the memory of a node
      that is free. */
  lemma FreeNodesUnread(s: State, k: nat, c: Call, m: nat, next: Link, ready: Flag, linked: Flag)
    requires Inv(s) && k < |s.nodes| && m < |s.nodes| && m != k && s.nodes[m].pc == Free
    requires !(s.nodes[k].pc == Owner && c == CallTransfer(m))
    ensures Step(Overwrite(s, m, next, ready, linked), k, c) == Overwrite(Step(s, k, c), m, next, ready, linked)
  {
    if m in Touches(s.nodes[k].pc) { NoAccessAfterRelease(s, k, m); }
    TouchesComplete(s, k, c, m, next, ready, linked);
  }

  /** Every access hits the node it is meant for, in the same use of that node: a
      successor reaches its predecessor, which is still in the queue right in
      front of it, a releaser its waiting successor, and a transfer its target.
      A node that is free is touched by nobody. */
  lemma NoAccessAfterRelease(s: State, k: nat, m: nat)
    requires Inv(s) && k < |s.nodes| && m in Touches(s.nodes[k].pc)
    ensures m < |s.nodes| && s.nodes[m].pc != Free && m != k
    ensures s.nodes[k].pc.Acq? ==>
              Queued(s.nodes[m].pc) && s.nodes[m].ticket + 1 == s.nodes[k].ticket
    ensures s.nodes[k].pc.Rel? ==>
              s.nodes[m].pc.Acq? && Queued(s.nodes[m].pc) && s.nodes[m].ticket == s.nodes[k].ticket + 1
    ensures s.nodes[k].pc.Move? ==> s.nodes[m].pc == Target
  {
    var i := Locate(s, k);
    if s.nodes[k].pc.Acq? {
      assert i > 0 && Pair(s, i) && Place(s, i - 1) && Place(s, i);
      Distinct(s, i - 1, i);
    } else {
      HeadFacts(s, k);
      if s.nodes[k].pc.Rel? {
        assert Pair(s, 1) && Place(s, 1);
        Distinct(s, 0, 1);
      }
    }
  }

  /** The same for the steps themselves: a step of node k leaves every free node
      other than k alone, unless a transfer is called with it as its target. */
  lemma FreeNodesUntouched(s: State, k: nat, c: Call, m: nat)
    requires Inv(s) && k < |s.nodes| && m < |s.nodes| && m != k && s.nodes[m].pc == Free
    ensures Step(s, k, c).nodes[m] == s.nodes[m] || (s.nodes[k].pc == Owner && c == CallTransfer(m))
  {
    match s.nodes[k].pc
    case Acq(a) => AcqTouches(s, k, a, m);
    case Rel(p) => RelTouches(s, k, p, m);
    case Move(x, p) => NoAccessAfterRelease(s, k, x);
    case _ =>
  }

  lemma AcqTouches(s: State, k: nat, p: AcqPc, m: nat)
    requires Inv(s) && k < |s.nodes| && m < |s.nodes| && m != k && s.nodes[m].pc == Free
    requires s.nodes[k].pc == Acq(p)
    ensures |StepAcq(s, k, p).nodes| == |s.nodes| && StepAcq(s, k, p).nodes[m] == s.nodes[m]
  {
    if p.ALink? || p.AFlag? {
      NoAccessAfterRelease(s, k, p.pred);
    } else if p.ASignal? {
      EventsAreOpen(s, k);
      assert Tidy(s, p.pred);
    }
  }

  lemma RelTouches(s: State, k: nat, p: RelPc, m: nat)
    requires Inv(s) && k < |s.nodes| && m < |s.nodes| && m != k && s.nodes[m].pc == Free
    requires s.nodes[k].pc == Rel(p)
    ensures |StepRel(s, k, p).nodes| == |s.nodes| && StepRel(s, k, p).nodes[m] == s.nodes[m]
  {
    if p.RPass? {
      NoAccessAfterRelease(s, k, p.succ);
    } else if p.RSignal? {
      EventsAreOpen(s, k);
    }
  }

  /** An event is only ever set while its waiter still waits on it. */
  lemma EventsAreOpen(s: State, k: nat)
    requires Inv(s) && k < |s.nodes|
    ensures s.nodes[k].pc.Acq? && s.nodes[k].pc.a.ASignal? ==>
              s.nodes[k].pc.a.pred < |s.nodes| && s.nodes[s.nodes[k].pc.a.pred].linkedEv == Pending
    ensures s.nodes[k].pc.Rel? && s.nodes[k].pc.r.RSignal? ==>
              var m := s.nodes[k].pc.r.succ;
              m < |s.nodes| && s.nodes[m].pc == Acq(ABlock) && s.nodes[m].readyEv == Promised(k)
  {
    assert Tidy(s, k);
    if s.nodes[k].pc.Acq? && s.nodes[k].pc.a.ASignal? {
      var i := Locate(s, k);
      assert i > 0 && Pair(s, i);
    }
  }

  /** When a node owns the lock, every earlier release is finished. */
  lemma ReleasesFinished(s: State, k: nat, m: nat)
    requires Inv(s) && k < |s.nodes| && Owns(s.nodes[k].pc) && m < |s.nodes|
    ensures !(s.nodes[m].pc.Rel? && s.nodes[m].pc.r.RSignal?)
  {
    HeadFacts(s, k);
    assert Tidy(s, m);
  }

  // ----- no lost hand-off -----

  ghost function Position(s: State, w: nat): int
    requires w < |s.nodes|
  {
    s.nodes[w].ticket - s.served
  }

  /** Node w waits, and the lock is being handed to it: the owner in front of it
      has started its release, or has passed the lock already. */
  ghost predicate HandingOver(s: State, w: nat)
  {
    && w < |s.nodes| && s.nodes[w].pc.Acq? && Queued(s.nodes[w].pc)
    && (Position(s, w) == 0 ||
        (Position(s, w) == 1 && s.q != [] && s.q[0] < |s.nodes| && s.nodes[s.q[0]].pc.Rel?))
  }

  /** The node on the other side of the hand-off; w itself when nothing is left
      for the other side to do. */
  ghost function Giver(s: State, w: nat): nat
    requires HandingOver(s, w)
  {
    if Position(s, w) == 1 then s.q[0]
    else if s.nodes[w].readyEv.Promised? then s.nodes[w].readyEv.giver
    else w
  }

  function RelLeft(p: RelPc): nat
  {
    match p
    case RRead => 8
    case RCas => 7
    case RWait(_) => 6
    case RCreate(_) => 5
    case RBlock(_) => 4
    case RReread => 3
    case RPass(_) => 2
    case RSignal(_) => 1
  }

  function AcqLeft(p: AcqPc): nat
  {
    match p
    case ALink(_) => 6
    case AFlag(_) => 5
    case ASignal(_) => 4
    case ARead => 3
    case ACreate => 2
    case ABlock => 1
    case _ => 0
  }

  /** How many moves of w and of its giver the hand-off can still take. */
  ghost function Left(s: State, w: nat): nat
    requires HandingOver(s, w)
  {
    AcqLeft(s.nodes[w].pc.a) +
    (if Position(s, w) == 1 then RelLeft(s.nodes[s.q[0]].pc.r)
     else if s.nodes[w].readyEv.Promised? then 1 else 0)
  }

  /** Whichever side reaches the flag first, one of the two can move. */
  lemma HandOffNotStuck(s: State, w: nat, c: Call) returns (a: nat)
    requires Inv(s) && HandingOver(s, w)
    ensures a == w || a == Giver(s, w)
    ensures Step(s, a, c) != s
  {
    var i := Locate(s, w);
    assert Tidy(s, w);
    if i == 1 {
      var h := s.q[0];
      HeadFacts(s, h);
      assert Pair(s, 1) && Tidy(s, h);
      if s.nodes[h].pc.r.RBlock? && s.nodes[h].linkedEv == Pending {
        a := w;
        WaiterMoves(s, w, c);
      } else {
        a := h;
        GiverMoves(s, h, c);
      }
    } else {
      a := if s.nodes[w].readyEv.Promised? then s.nodes[w].readyEv.giver else w;
    }
  }

  lemma WaiterMoves(s: State, w: nat, c: Call)
    requires Inv(s) && w < |s.nodes| && s.nodes[w].pc.Acq? && !s.nodes[w].pc.a.ABlock?
    requires Queued(s.nodes[w].pc) && Position(s, w) > 0
    ensures Step(s, w, c) != s
  {
    var i := Locate(s, w);
    assert Pair(s, i);
    Distinct(s, i - 1, i);
    assert Step(s, w, c).nodes[w].pc != s.nodes[w].pc;
  }

  lemma GiverMoves(s: State, h: nat, c: Call)
    requires Inv(s) && h < |s.nodes| && s.nodes[h].pc.Rel? && Owns(s.nodes[h].pc)
    requires s.nodes[h].pc.r.RBlock? ==> s.nodes[h].linkedEv == Signalled
    ensures Step(s, h, c) != s
  {
    HeadFacts(s, h);
    if s.nodes[h].pc.r.RPass? { assert Pair(s, 1); }
    assert Step(s, h, c).nodes[h].pc != s.nodes[h].pc;
  }

  /** A node is in the middle of an operation. */
  predicate Busy(p: Pc) { p.Acq? || p.Rel? || p.Move? }

  /** The lock never jams: while any operation is under way, some operation can move
      by itself, unless the lock is owned by a node whose owner has yet to call. */
  lemma LockNotStuck(s: State, k: nat) returns (a: nat)
    requires Inv(s) && k < |s.nodes| && Busy(s.nodes[k].pc)
    ensures a < |s.nodes|
    ensures s.nodes[a].pc == Owner || (Busy(s.nodes[a].pc) && Step(s, a, CallNothing) != s)
  {
    a := k;
    if Queued(s.nodes[k].pc) {
      var i := Locate(s, k);
      assert Place(s, 0);
      a := s.q[0];
      match s.nodes[a].pc
      case Acq(_) => a := HandOffNotStuck(s, a, CallNothing);
      case Rel(_) => a := ReleaseNotStuck(s, a);
      case Move(_, _) => a := TransferNotStuck(s, a);
      case _ =>
    } else {
      assert Tidy(s, k);
      assert Step(s, k, CallNothing).nodes[k].pc != s.nodes[k].pc;
    }
  }

  lemma ReleaseNotStuck(s: State, h: nat) returns (a: nat)
    requires Inv(s) && h < |s.nodes| && s.nodes[h].pc.Rel? && Owns(s.nodes[h].pc)
    ensures a < |s.nodes| && Busy(s.nodes[a].pc) && Step(s, a, CallNothing) != s
  {
    HeadFacts(s, h);
    if |s.q| > 1 {
      assert Pair(s, 1) && Place(s, 1);
      a := HandOffNotStuck(s, s.q[1], CallNothing);
    } else {
      a := h;
      GiverMoves(s, h, CallNothing);
    }
  }

  lemma TransferNotStuck(s: State, h: nat) returns (a: nat)
    requires Inv(s) && h < |s.nodes| && s.nodes[h].pc.Move?
    ensures a < |s.nodes| && Busy(s.nodes[a].pc) && Step(s, a, CallNothing) != s
  {
    HeadFacts(s, h);
    assert Tidy(s, h);
    a := h;
    if Step(s, h, CallNothing).nodes[h].pc == s.nodes[h].pc {
      assert |s.q| > 1 && Pair(s, 1) && Place(s, 1);
      a := s.q[1];
      WaiterMoves(s, a, CallNothing);
    }
  }

  /** Every step of either side brings the hand-off closer to its end, and no
      other node can set it back: after at most Left moves of the two, w owns the
      lock. */
  lemma HandOffProgress(s: State, w: nat, a: nat, c: Call)
    requires Inv(s) && HandingOver(s, w)
    ensures var r := Step(s, a, c);
            || r.nodes[w].pc == Owner
            || (&& HandingOver(r, w)
                && (if (a == w || a == Giver(s, w)) && r != s then Left(r, w) < Left(s, w)
                    else Left(r, w) == Left(s, w)))
  {
    var i := Locate(s, w);
    if a < |s.nodes| {
      if a == w {
        WaiterProgress(s, w, c);
      } else if a == Giver(s, w) {
        GiverProgress(s, w, c);
      } else {
        OthersProgress(s, w, a, c);
      }
    }
  }

  lemma WaiterProgress(s: State, w: nat, c: Call)
    requires Inv(s) && HandingOver(s, w)
    ensures var r := Step(s, w, c);
            || r == s
            || r.nodes[w].pc == Owner
            || (HandingOver(r, w) && Left(r, w) < Left(s, w))
  {
    var i := Locate(s, w);
    assert Tidy(s, w);
    if i == 1 { SecondProgress(s, w, c); }
  }

  lemma SecondProgress(s: State, w: nat, c: Call)
    requires Inv(s) && HandingOver(s, w) && Position(s, w) == 1
    ensures var r := Step(s, w, c);
            || r == s
            || r.nodes[w].pc == Owner
            || (HandingOver(r, w) && Left(r, w) < Left(s, w))
  {
    var i := Locate(s, w);
    assert Tidy(s, w);
    assert Pair(s, 1);
    HeadFacts(s, s.q[0]);
  }

  lemma GiverProgress(s: State, w: nat, c: Call)
    requires Inv(s) && HandingOver(s, w) && Giver(s, w) != w
    ensures var r := Step(s, Giver(s, w), c);
            r == s || (HandingOver(r, w) && Left(r, w) < Left(s, w))
  {
    var i := Locate(s, w);
    assert Tidy(s, w);
    if i == 1 { HeadGiverProgress(s, w, c); }
  }

  lemma HeadGiverProgress(s: State, w: nat, c: Call)
    requires Inv(s) && HandingOver(s, w) && Position(s, w) == 1 && s.q[0] != w
    ensures var r := Step(s, s.q[0], c);
            r == s || (HandingOver(r, w) && Left(r, w) < Left(s, w))
  {
    var i := Locate(s, w);
    assert Tidy(s, w);
    HeadFacts(s, s.q[0]);
    assert Pair(s, 1);
  }

  lemma OthersProgress(s: State, w: nat, a: nat, c: Call)
    requires Inv(s) && HandingOver(s, w) && a < |s.nodes| && a != w && a != Giver(s, w)
    ensures var r := Step(s, a, c);
            HandingOver(r, w) && Left(r, w) == Left(s, w)
  {
    var i := Locate(s, w);
    if Owns(s.nodes[a].pc) { HeadFacts(s, a); }
    assert Tidy(s, a);
    if i == 1 {
      ReleasesFinished(s, s.q[0], a);
      Distinct(s, 0, 1);
      OthersLeaveIt(s, s.q[0], a, c);
    }
    OthersLeaveIt(s, w, a, c);
  }

  /** A step of another node changes neither the place of a queued node nor, unless
      it is the giver, what that node waits for. */
  lemma OthersLeaveIt(s: State, m: nat, a: nat, c: Call)
    requires Inv(s) && m < |s.nodes| && Queued(s.nodes[m].pc) && a < |s.nodes| && a != m
    requires s.nodes[a].pc != Rel(RSignal(m))
    requires !Owns(s.nodes[a].pc)
    ensures var r := Step(s, a, c);
            && r.served == s.served && |r.q| >= |s.q| && r.q[..|s.q|] == s.q
            && r.nodes[m].pc == s.nodes[m].pc && r.nodes[m].readyEv == s.nodes[m].readyEv
            && r.nodes[m].ticket == s.nodes[m].ticket
  {
    match s.nodes[a].pc
    case Acq(p) => AcqLeavesIt(s, m, a, p);
    case Rel(p) => assert Tidy(s, a);
    case _ =>
  }

  lemma AcqLeavesIt(s: State, m: nat, a: nat, p: AcqPc)
    requires m < |s.nodes| && a < |s.nodes| && a != m
    ensures var r := StepAcq(s, a, p);
            && r.served == s.served && |r.q| >= |s.q| && r.q[..|s.q|] == s.q && |r.nodes| == |s.nodes|
            && r.nodes[m].pc == s.nodes[m].pc && r.nodes[m].readyEv == s.nodes[m].readyEv
            && r.nodes[m].ticket == s.nodes[m].ticket
  {
  }

  /** How many of the moves of a schedule, made from s, were moves of w or of its
      giver that changed something while the lock was being handed to w. */
  ghost function Useful(s: State, w: nat, schedule: Schedule): nat
    decreases |schedule|
  {
    if schedule == [] then 0
    else
      var i := |schedule| - 1;
      var before := Run(s, schedule[..i]);
      var a := schedule[i].0;
      Useful(s, w, schedule[..i]) +
      (if HandingOver(before, w) && (a == w || a == Giver(before, w)) && Step(before, a, schedule[i].1) != before
       then 1 else 0)
  }

  /** Whatever the other nodes do, and in whatever order: as long as w has not come
      to own the lock, w and its giver have made fewer useful moves than Left allows. */
  lemma {:induction false} HandOffBounded(s: State, w: nat, schedule: Schedule)
    requires Inv(s) && HandingOver(s, w)
    requires forall j :: 0 <= j <= |schedule| ==> !OwnedBy(Run(s, schedule[..j]), w)
    ensures Inv(Run(s, schedule)) && HandingOver(Run(s, schedule), w)
    ensures Useful(s, w, schedule) + Left(Run(s, schedule), w) <= Left(s, w)
    decreases |schedule|
  {
    RunInv(s, schedule);
    if schedule == [] {
    } else {
      var i := |schedule| - 1;
      forall j | 0 <= j <= i ensures !OwnedBy(Run(s, schedule[..i][..j]), w) {
        assert schedule[..i][..j] == schedule[..j];
      }
      HandOffBounded(s, w, schedule[..i]);
      var before := Run(s, schedule[..i]);
      HandOffProgress(before, w, schedule[i].0, schedule[i].1);
      assert schedule[..|schedule|] == schedule;
      assert Run(s, schedule) == Step(before, schedule[i].0, schedule[i].1);
    }
  }

  ghost predicate OwnedBy(s: State, w: nat)
  {
    w < |s.nodes| && s.nodes[w].pc == Owner
  }

  /** The hand-off can always be completed by moves of the two sides alone. */
  lemma HandOffCompletes(s: State, w: nat) returns (schedule: Schedule)
    requires Inv(s) && HandingOver(s, w)
    ensures OwnedBy(Run(s, schedule), w) && |schedule| <= Left(s, w)
  {
    schedule := [];
    var r := s;
    while !OwnedBy(r, w)
      invariant Inv(r) && r == Run(s, schedule)
      invariant OwnedBy(r, w) || HandingOver(r, w)
      invariant |schedule| + (if OwnedBy(r, w) then 0 else Left(r, w)) <= Left(s, w)
      decreases if OwnedBy(r, w) then 0 else Left(r, w) + 1
    {
      var a := HandOffNotStuck(r, w, CallNothing);
      HandOffProgress(r, w, a, CallNothing);
      StepInv(r, a, CallNothing);
      assert (schedule + [(a, CallNothing)])[..|schedule|] == schedule;
      schedule := schedule + [(a, CallNothing)];
      r := Step(r, a, CallNothing);
    }
  }

  // ----- what a user of the lock sees of one step -----

  /** A node keeps to its operation until that is over: an acquisition ends with the
      lock, a release and a transfer end with the node free. */
  lemma OwnMoves(s: State, k: nat, c: Call)
    requires Inv(s) && k < |s.nodes|
    ensures var (p, q) := (s.nodes[k].pc, Step(s, k, c).nodes[k].pc);
            match p
            case Acq(a) => if a == ATry then q == Owner || q == Free else q == Owner || (q.Acq? && q.a != ATry)
            case Rel(_) => q == Free || q.Rel?
            case Move(m, _) =>
              (q.Move? && q.new_node == m) || (q == Free && m < |s.nodes| && Step(s, k, c).nodes[m].pc == Owner)
            case _ => true
  {
    match s.nodes[k].pc
    case Acq(a) => AcqMoves(s, k, a);
    case Rel(r) => RelMoves(s, k, r);
    case Move(m, x) => HeadFacts(s, k);
    case _ =>
  }

  lemma AcqMoves(s: State, k: nat, a: AcqPc)
    requires k < |s.nodes| && s.nodes[k].pc == Acq(a)
    ensures var q := StepAcq(s, k, a).nodes;
            |q| == |s.nodes| &&
            if a == ATry then q[k].pc == Owner || q[k].pc == Free
            else q[k].pc == Owner || (q[k].pc.Acq? && q[k].pc.a != ATry)
  {
  }

  lemma RelMoves(s: State, k: nat, r: RelPc)
    requires k < |s.nodes| && s.nodes[k].pc == Rel(r)
    ensures var q := StepRel(s, k, r).nodes; |q| == |s.nodes| && (q[k].pc == Free || q[k].pc.Rel?)
  {
  }

  /** Other nodes keep their operation, but for the target of a transfer. */
  lemma OthersKeepPc(s: State, k: nat, c: Call, j: nat)
    requires Inv(s) && k < |s.nodes| && j < |s.nodes| && j != k
    requires !(s.nodes[k].pc.Move? && s.nodes[k].pc.new_node == j)
    requires !(s.nodes[k].pc == Owner && c == CallTransfer(j))
    ensures Step(s, k, c).nodes[j].pc == s.nodes[j].pc
  {
    match s.nodes[k].pc
    case Acq(a) => AcqKeepsPc(s, k, a, j);
    case Rel(r) => RelKeepsPc(s, k, r, j);
    case _ =>
  }

  lemma AcqKeepsPc(s: State, k: nat, a: AcqPc, j: nat)
    requires k < |s.nodes| && j < |s.nodes| && j != k
    ensures |StepAcq(s, k, a).nodes| == |s.nodes| && StepAcq(s, k, a).nodes[j].pc == s.nodes[j].pc
  {
  }

  lemma RelKeepsPc(s: State, k: nat, r: RelPc, j: nat)
    requires k < |s.nodes| && j < |s.nodes| && j != k
    ensures |StepRel(s, k, r).nodes| == |s.nodes| && StepRel(s, k, r).nodes[j].pc == s.nodes[j].pc
  {
  }

  /** Until it is over a transfer leaves its target waiting. */
  lemma TargetKept(s: State, k: nat, c: Call, m: nat)
    requires Inv(s) && k < |s.nodes| && s.nodes[k].pc.Move? && s.nodes[k].pc.new_node == m
    ensures m < |s.nodes| && m != k
    ensures Step(s, k, c).nodes[k].pc.Move? ==> Step(s, k, c).nodes[m].pc == Target
  {
    HeadFacts(s, k);
  }
}
