/** The MCS lock as the program keeps it: a lock word and queue nodes that are
    written in place. */
module McsMachine {
  import opened McsLock

  class Lock {
    var tail: Link
    const nodes: array<Node>
    var q: seq<nat>      // history
    var served: nat      // history

    ghost function Abs(): State
      reads this, nodes
    {
      State(tail, q, served, nodes[..])
    }

    ghost predicate Valid()
      reads this, nodes
    {
      Inv(Abs())
    }

    constructor (n: nat)
      ensures fresh(nodes) && Valid() && Abs() == Init(n)
    {
      tail, q, served := Nil, [], 0;
      nodes := new Node[n](_ => Node(Free, Nil, Clear, Clear, Closed, Closed, 0));
      new;
      assert nodes[..] == Init(n).nodes;
      InitInv(n);
    }

    /** The node's thread goes on to p. */
    method Goto(k: nat, p: Pc)
      requires k < nodes.Length
      modifies nodes
      ensures Abs() == McsLock.Goto(old(Abs()), k, p)
    {
      nodes[k] := nodes[k].(pc := p);
    }

    /** The fields of a node as a call finds them set up. */
    method SetUp(k: nat, p: Pc)
      requires k < nodes.Length
      modifies nodes
      ensures Abs() == At(old(Abs()), k, Fresh(old(Abs()).nodes[k], p))
    {
      nodes[k] := nodes[k].(pc := p, next := Nil, ready := Clear, linked := Clear);
    }

    /** The lock word becomes this node, which so joins the queue. */
    method Join(k: nat, p: Pc)
      requires k < nodes.Length
      modifies this`tail, this`q, nodes
      ensures Abs() == McsLock.Join(old(Abs()), k, p)
    {
      nodes[k] := nodes[k].(pc := p, ticket := served + |q|);
      tail := To(k);
      q := q + [k];
    }

    /** The head of the queue leaves it. */
    method Leave()
      modifies this`q, this`served
      ensures Abs() == McsLock.Leave(old(Abs()))
    {
      if q != [] { q := q[1..]; }
      served := served + 1;
    }

    method Call(k: nat, c: McsLock.Call)
      requires k < nodes.Length
      modifies this, nodes
      ensures Abs() == StepCall(old(Abs()), k, c)
    {
      match c {
        case CallAcquire => if nodes[k].pc == Free { SetUp(k, Acq(ASwap)); }
        case CallTry => if nodes[k].pc == Free { SetUp(k, Acq(ATry)); }
        case CallRelease => if nodes[k].pc == Owner { Goto(k, Rel(RRead)); }
        case CallTransfer(m) =>
          if nodes[k].pc == Owner && m < nodes.Length && nodes[m].pc == Free {
            SetUp(m, Target);
            Goto(k, Move(m, XCas));
          }
        case CallNothing =>
      }
    }

    /** ptw32_mcs_lock_acquire, ptw32_mcs_lock_try_acquire. */
    method Acquire(k: nat, p: AcqPc)
      requires k < nodes.Length
      modifies this, nodes
      ensures Abs() == StepAcq(old(Abs()), k, p)
    {
      var n := nodes[k];
      match p {
        case ASwap => Join(k, match tail case Nil => Owner case To(pred) => Acq(ALink(pred)));
        case ATry => if tail == Nil { Join(k, Owner); } else { Goto(k, Free); }
        case ALink(pred) =>
          if pred < nodes.Length {
            nodes[pred] := nodes[pred].(next := To(k));
            Goto(k, Acq(AFlag(pred)));
          }
        case AFlag(pred) =>
          if pred < nodes.Length {
            var e := nodes[pred].linked;
            if e == Clear { nodes[pred] := nodes[pred].(linked := Raised); }
            Goto(k, if e == Handle then Acq(ASignal(pred)) else Acq(ARead));
          }
        case ASignal(pred) =>
          if pred < nodes.Length {
            nodes[pred] := nodes[pred].(linkedEv := Signalled);
            Goto(k, Acq(ARead));
          }
        case ARead => Goto(k, if n.ready == Clear then Acq(ACreate) else Owner);
        case ACreate =>
          if n.ready == Clear {
            nodes[k] := n.(pc := Acq(ABlock), ready := Handle, readyEv := Pending);
          } else {
            Goto(k, Owner);
          }
        case ABlock =>
          if n.readyEv == Signalled { nodes[k] := n.(pc := Owner, readyEv := Closed); }
      }
    }

    /** ptw32_mcs_lock_release. */
    method Release(k: nat, p: RelPc)
      requires k < nodes.Length
      modifies this, nodes
      ensures Abs() == StepRel(old(Abs()), k, p)
    {
      var n := nodes[k];
      match p {
        case RRead => Goto(k, Rel(if n.next == Nil then RCas else RWait(n.next)));
        case RCas =>
          if tail == To(k) {
            tail := Nil;
            Goto(k, Free);
            Leave();
          } else {
            Goto(k, Rel(RWait(Nil)));
          }
        case RWait(x) => Goto(k, Rel(if n.linked == Clear then RCreate(x) else Known(x)));
        case RCreate(x) =>
          if n.linked == Clear {
            nodes[k] := n.(pc := Rel(RBlock(x)), linked := Handle, linkedEv := Pending);
          } else {
            Goto(k, Rel(Known(x)));
          }
        case RBlock(x) =>
          if n.linkedEv == Signalled { nodes[k] := n.(pc := Rel(Known(x)), linkedEv := Closed); }
        case RReread => if n.next != Nil { Goto(k, Rel(RPass(n.next.node))); }
        case RPass(m) =>
          if m < nodes.Length {
            var e := nodes[m].ready;
            if e == Clear { nodes[m] := nodes[m].(ready := Raised); }
            if e == Handle { nodes[m] := nodes[m].(readyEv := Promised(k)); }
            Goto(k, if e == Handle then Rel(RSignal(m)) else Free);
            Leave();
          }
        case RSignal(m) =>
          if m < nodes.Length {
            nodes[m] := nodes[m].(readyEv := Signalled);
            Goto(k, Free);
          }
      }
    }

    /** The end of a transfer. */
    method Replace(k: nat, m: nat)
      requires k < nodes.Length && m < nodes.Length
      modifies this`q, nodes
      ensures Abs() == McsLock.Replace(old(Abs()), k, m)
    {
      if q != [] { q := q[0 := m]; }
      nodes[m] := nodes[m].(pc := Owner, ticket := nodes[k].ticket);
      Goto(k, Free);
    }

    /** ptw32_mcs_node_transfer. */
    method Transfer(k: nat, m: nat, p: MovePc)
      requires k < nodes.Length
      modifies this, nodes
      ensures Abs() == StepMove(old(Abs()), k, m, p)
    {
      if m < nodes.Length {
        var n := nodes[k];
        match p {
          case XCas =>
            if tail == To(k) {
              tail := To(m);
              Replace(k, m);
            } else {
              Goto(k, Move(m, XSpin));
            }
          case XSpin => if n.next != Nil { Goto(k, Move(m, XWait)); }
          case XWait => Goto(k, Move(m, if n.linked == Clear then XCreate else XNext));
          case XCreate =>
            if n.linked == Clear {
              nodes[k] := n.(pc := Move(m, XBlock), linked := Handle, linkedEv := Pending);
            } else {
              Goto(k, Move(m, XNext));
            }
          case XBlock =>
            if n.linkedEv == Signalled { nodes[k] := n.(pc := Move(m, XNext), linkedEv := Closed); }
          case XNext =>
            nodes[m] := nodes[m].(next := n.next);
            Goto(k, Move(m, XFlag));
          case XFlag =>
            nodes[m] := nodes[m].(linked := n.linked);
            Replace(k, m);
        }
      }
    }

    /** The next step of the operation on node k, or the call c on it. */
    method Advance(k: nat, c: McsLock.Call)
      requires Valid()
      modifies this, nodes
      ensures Valid() && Abs() == Step(old(Abs()), k, c)
    {
      ghost var before := Abs();
      if k < nodes.Length {
        match nodes[k].pc {
          case Free => Call(k, c);
          case Owner => Call(k, c);
          case Target =>
          case Acq(a) => Acquire(k, a);
          case Rel(r) => Release(k, r);
          case Move(m, x) => Transfer(k, m, x);
        }
      }
      assert Abs() == Step(before, k, c);
      StepInv(before, k, c);
    }

    /** Nodes moving in the order the schedule gives. */
    method Execute(schedule: Schedule)
      requires Valid()
      modifies this, nodes
      ensures Valid() && Abs() == Run(old(Abs()), schedule)
    {
      for i := 0 to |schedule|
        invariant Valid() && Abs() == Run(old(Abs()), schedule[..i])
      {
        Advance(schedule[i].0, schedule[i].1);
        assert schedule[..i + 1][..i] == schedule[..i];
      }
      assert schedule[..|schedule|] == schedule;
    }
  }
}
