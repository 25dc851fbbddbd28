/** First come, first served, over whole runs of the MCS lock. */
module McsOrder {
  import opened McsLock
  import McsTheorems

  /** The node that joins the queue in a step of node k, if it does. */
  ghost function JoinIn(s: State, k: nat, c: Call): seq<nat>
  {
    if k < |s.nodes| && !Queued(s.nodes[k].pc) && Queued(Step(s, k, c).nodes[k].pc) then [k] else []
  }

  /** The node that gets the lock in a step of node k, if it does. A transfer gives
      the lock to nobody new: its target stands for the old node. */
  ghost function GainIn(s: State, k: nat, c: Call): seq<nat>
  {
    if k < |s.nodes| && !Owns(s.nodes[k].pc) && Owns(Step(s, k, c).nodes[k].pc) then [k] else []
  }

  /** The nodes that joined the queue, in the order in which they did. */
  ghost function Joins(s: State, schedule: Schedule): seq<nat>
    decreases |schedule|
  {
    if schedule == [] then []
    else
      var i := |schedule| - 1;
      Joins(s, schedule[..i]) + JoinIn(Run(s, schedule[..i]), schedule[i].0, schedule[i].1)
  }

  /** The nodes that got the lock, in the order in which they did. */
  ghost function Gains(s: State, schedule: Schedule): seq<nat>
    decreases |schedule|
  {
    if schedule == [] then []
    else
      var i := |schedule| - 1;
      Gains(s, schedule[..i]) + GainIn(Run(s, schedule[..i]), schedule[i].0, schedule[i].1)
  }

  ghost predicate HeadOwns(s: State)
  {
    s.q != [] && s.q[0] < |s.nodes| && Owns(s.nodes[s.q[0]].pc)
  }

  /** How many nodes have got the lock. */
  ghost function Got(s: State): nat { s.served + if HeadOwns(s) then 1 else 0 }

  /** Those that got the lock are the first that joined, and those still to get it
      stand in the queue as they joined. */
  ghost predicate InOrder(s: State, joins: seq<nat>, gains: seq<nat>)
  {
    && |joins| == s.served + |s.q|
    && Got(s) <= |joins| && gains == joins[..Got(s)]
    && (forall i :: 0 <= i < |s.q| && Got(s) <= s.served + i ==> joins[s.served + i] == s.q[i])
  }

  // What a step can do to the queue: a node joins, the owner leaves, the owner is
  // replaced in its place, the first node gets the lock, or nothing.

  ghost predicate Joined(s: State, r: State, k: nat)
  {
    r.q == s.q + [k] && r.served == s.served && HeadOwns(r) == (s.q == [] || HeadOwns(s))
  }

  ghost predicate Left(s: State, r: State)
  {
    s.q != [] && r.q == s.q[1..] && r.served == s.served + 1 && HeadOwns(s) && !HeadOwns(r)
  }

  ghost predicate SamePlaces(s: State, r: State)
  {
    && |r.q| == |s.q| && r.served == s.served
    && (forall i :: 0 < i < |s.q| ==> r.q[i] == s.q[i])
    && (r.q == s.q || (HeadOwns(s) && HeadOwns(r)))
  }

  ghost predicate Changed(s: State, r: State, k: nat, join: seq<nat>, gain: seq<nat>)
  {
    if join != [] then join == [k] && Joined(s, r, k) && gain == (if s.q == [] then [k] else [])
    else if gain != [] then
      gain == [k] && r.q == s.q != [] && s.q[0] == k && r.served == s.served && !HeadOwns(s) && HeadOwns(r)
    else
      Left(s, r) || (SamePlaces(s, r) && HeadOwns(r) == HeadOwns(s))
  }

  lemma StepInOrder(s: State, k: nat, c: Call, joins: seq<nat>, gains: seq<nat>)
    requires InOrder(s, joins, gains) && Changed(s, Step(s, k, c), k, JoinIn(s, k, c), GainIn(s, k, c))
    ensures InOrder(Step(s, k, c), joins + JoinIn(s, k, c), gains + GainIn(s, k, c))
  {
  }

  lemma StepChanges(s: State, k: nat, c: Call)
    requires Inv(s)
    ensures Changed(s, Step(s, k, c), k, JoinIn(s, k, c), GainIn(s, k, c))
  {
    if k < |s.nodes| {
      StepInv(s, k, c);
      if s.q != [] { assert Place(s, 0); }
      match s.nodes[k].pc
      case Acq(a) => if a == ASwap || a == ATry { JoinChanges(s, k, c); } else { WaitChanges(s, k, c); }
      case Rel(p) => RelChanges(s, k, c);
      case Move(m, x) => MoveChanges(s, k, c);
      case _ => CallChanges(s, k, c);
    }
  }

  lemma JoinChanges(s: State, k: nat, c: Call)
    requires Inv(s) && k < |s.nodes| && (s.nodes[k].pc == Acq(ASwap) || s.nodes[k].pc == Acq(ATry))
    ensures Changed(s, Step(s, k, c), k, JoinIn(s, k, c), GainIn(s, k, c))
  {
    if s.q != [] { assert Place(s, 0); }
  }

  lemma WaitChanges(s: State, k: nat, c: Call)
    requires Inv(s) && k < |s.nodes| && s.nodes[k].pc.Acq? && Queued(s.nodes[k].pc)
    ensures Changed(s, Step(s, k, c), k, JoinIn(s, k, c), GainIn(s, k, c))
  {
    var a := s.nodes[k].pc.a;
    if a.ALink? || a.AFlag? || a.ASignal? { LinkChanges(s, k, a); } else { FlagChanges(s, k, a); }
  }

  lemma LinkChanges(s: State, k: nat, a: AcqPc)
    requires Inv(s) && k < |s.nodes| && s.nodes[k].pc == Acq(a) && (a.ALink? || a.AFlag? || a.ASignal?)
    ensures var r := StepAcq(s, k, a);
            && SamePlaces(s, r) && HeadOwns(r) == HeadOwns(s)
            && |r.nodes| == |s.nodes| && r.nodes[k].pc.Acq?
  {
    var i := Locate(s, k);
    LinkShape(s, k, a, i);
    assert Place(s, 0);
  }

  lemma FlagChanges(s: State, k: nat, a: AcqPc)
    requires Inv(s) && k < |s.nodes| && s.nodes[k].pc == Acq(a) && (a == ARead || a == ACreate || a == ABlock)
    ensures var r := StepAcq(s, k, a);
            && r.q == s.q && r.served == s.served && |r.nodes| == |s.nodes|
            && if r.nodes[k].pc == Owner then s.q != [] && s.q[0] == k && !HeadOwns(s) && HeadOwns(r)
               else r.nodes[k].pc.Acq? && HeadOwns(r) == HeadOwns(s)
  {
    var i := Locate(s, k);
    AcqInv(s, k, a);
    if StepAcq(s, k, a).nodes[k].pc == Owner { HeadFacts(StepAcq(s, k, a), k); }
  }

  lemma RelChanges(s: State, k: nat, c: Call)
    requires Inv(s) && k < |s.nodes| && s.nodes[k].pc.Rel?
    ensures Changed(s, Step(s, k, c), k, JoinIn(s, k, c), GainIn(s, k, c))
  {
    match s.nodes[k].pc.r
    case RCas => if s.tail == To(k) { FreeChanges(s, k); } else { RelOwnChanges(s, k); }
    case RPass(m) => PassChanges(s, k, m);
    case RSignal(m) => SignalChanges(s, k, m);
    case _ => RelOwnChanges(s, k);
  }

  lemma FreeChanges(s: State, k: nat)
    requires Inv(s) && k < |s.nodes| && s.nodes[k].pc == Rel(RCas) && s.tail == To(k)
    ensures Left(s, StepRel(s, k, RCas)) && StepRel(s, k, RCas).nodes[k].pc == Free
  {
    HeadFacts(s, k);
  }

  lemma PassChanges(s: State, k: nat, m: nat)
    requires Inv(s) && k < |s.nodes| && s.nodes[k].pc == Rel(RPass(m))
    ensures var r := StepRel(s, k, RPass(m));
            Left(s, r) && |r.nodes| == |s.nodes| && !Queued(r.nodes[k].pc)
  {
    HeadFacts(s, k);
    assert Pair(s, 1) && Place(s, 1);
    Distinct(s, 0, 1);
  }

  lemma SignalChanges(s: State, k: nat, m: nat)
    requires Inv(s) && k < |s.nodes| && s.nodes[k].pc == Rel(RSignal(m))
    ensures var r := StepRel(s, k, RSignal(m));
            && SamePlaces(s, r) && HeadOwns(r) == HeadOwns(s)
            && |r.nodes| == |s.nodes| && !Queued(r.nodes[k].pc)
  {
    assert Tidy(s, k);
  }

  lemma RelOwnChanges(s: State, k: nat)
    requires Inv(s) && k < |s.nodes| && s.nodes[k].pc.Rel?
    requires var p := s.nodes[k].pc.r; !p.RPass? && !p.RSignal? && (p.RCas? ==> s.tail != To(k))
    ensures var r := StepRel(s, k, s.nodes[k].pc.r);
            && SamePlaces(s, r) && HeadOwns(r) == HeadOwns(s)
            && |r.nodes| == |s.nodes| && Owns(r.nodes[k].pc)
  {
    HeadFacts(s, k);
  }

  lemma MoveChanges(s: State, k: nat, c: Call)
    requires Inv(s) && k < |s.nodes| && s.nodes[k].pc.Move?
    ensures Changed(s, Step(s, k, c), k, JoinIn(s, k, c), GainIn(s, k, c))
  {
    HeadFacts(s, k);
  }

  lemma CallChanges(s: State, k: nat, c: Call)
    requires Inv(s) && k < |s.nodes| && !s.nodes[k].pc.Acq? && !s.nodes[k].pc.Rel? && !s.nodes[k].pc.Move?
    ensures Changed(s, Step(s, k, c), k, JoinIn(s, k, c), GainIn(s, k, c))
  {
    if s.q != [] { assert Place(s, 0); }
  }

  lemma {:induction false} RunInOrder(n: nat, schedule: Schedule)
    ensures Inv(Run(Init(n), schedule))
    ensures InOrder(Run(Init(n), schedule), Joins(Init(n), schedule), Gains(Init(n), schedule))
    decreases |schedule|
  {
    McsTheorems.ReachInv(n, schedule);
    if schedule == [] {
    } else {
      var i := |schedule| - 1;
      var before := Run(Init(n), schedule[..i]);
      RunInOrder(n, schedule[..i]);
      StepChanges(before, schedule[i].0, schedule[i].1);
      StepInOrder(before, schedule[i].0, schedule[i].1, Joins(Init(n), schedule[..i]), Gains(Init(n), schedule[..i]));
    }
  }

  /** First come, first served: after any run, with transfers or without, the nodes
      that have got the lock are the first of those that joined the queue, in the
      same order, and all but the present owner have given it up again. */
  lemma FirstComeFirstServed(n: nat, schedule: Schedule)
    ensures var s := Run(Init(n), schedule);
            var (joins, gains) := (Joins(Init(n), schedule), Gains(Init(n), schedule));
            && gains <= joins && |joins| == s.served + |s.q|
            && |gains| == s.served + (if HeadOwns(s) then 1 else 0)
  {
    RunInOrder(n, schedule);
  }

  /** After any run from an unused lock at most one node owns it. */
  lemma OneOwner(n: nat, schedule: Schedule, k: nat, m: nat)
    requires var s := Run(Init(n), schedule);
             k < |s.nodes| && m < |s.nodes| && Owns(s.nodes[k].pc) && Owns(s.nodes[m].pc)
    ensures k == m
  {
    McsTheorems.ReachInv(n, schedule);
    McsTheorems.Exclusion(Run(Init(n), schedule), k, m);
  }
}
