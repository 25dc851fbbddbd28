/** Robust mutexes with the calls run one at a time: every list stays a linked list
    of exactly the mutexes its thread owns, and a mutex that is not recoverable
    stays so. */
module RobustCalls {
  import opened RobustMutex
  import opened MutexKinds
  import opened RobustLists
  import opened Sequences

  class Process {
    const mutexes: set<Mutex>
    const threads: set<ThreadStruct>

    const nodes: set<RobustNode>

    /** Each mutex has one node. */
    ghost predicate Paired()
      reads nodes`mx
    {
      && (forall m :: m in mutexes ==> m.robustNode in nodes && m.robustNode.mx == m)
      && (forall n :: n in nodes ==> n.mx != null && n.mx in mutexes && n.mx.robustNode == n)
    }

    /** The list of t is a chain of nodes of mutexes t is recorded to own. */
    ghost predicate ListOk(t: ThreadStruct)
      requires Paired()
      reads mutexes`ownerThread, t`robustMxList, t`held, nodes`mx, nodes`prev, nodes`next
    {
      && (forall n :: n in t.held ==> n in nodes && n.mx.ownerThread == t)
      && t.Listed()
    }

    /** Each list is in order, and a running thread's list has all the mutexes it is
        recorded to own. */
    ghost predicate Lists()
      reads mutexes`ownerThread, threads`robustMxList, threads`held, threads`alive, nodes`mx, nodes`prev, nodes`next
    {
      && Paired()
      && (forall t :: t in threads ==> ListOk(t))
      && (forall m :: m in mutexes && m.ownerThread in threads && m.ownerThread.alive ==>
           m.robustNode in m.ownerThread.held)
    }

    ghost predicate MutexOk(m: Mutex)
      reads m, m.robustNode`stateInconsistent, threads`alive
    {
      && (m.ownerThread == null <==> m.lock_idx == 0)
      && (m.ownerThread != null ==> m.ownerThread in threads)
      && (m.robustNode.stateInconsistent == Orphaned <==>
           m.ownerThread != null && m.ownerThread in threads && !m.ownerThread.alive)
      && (m.kind == Recursive && m.ownerThread != null ==> m.recursive_count >= 1)
      && (m.kind != Recursive && m.robustNode.stateInconsistent == NotRecoverable ==> m.ownerThread == null)
    }

    ghost predicate Valid()
      reads mutexes, threads, nodes
    {
      && Lists()
      && (forall m :: m in mutexes ==> MutexOk(m))
      && (forall t :: t in threads && !t.alive ==> t.held == [])
    }

    constructor (mutexes: set<Mutex>, threads: set<ThreadStruct>)
      requires forall m :: m in mutexes ==> m.robustNode.mx == m && m.lock_idx == 0 && m.ownerThread == null
      requires forall m :: m in mutexes ==> m.robustNode.stateInconsistent == Consistent
      requires forall t :: t in threads ==> t.alive && t.held == [] && t.Listed()
      ensures Valid() && this.mutexes == mutexes && this.threads == threads
    {
      this.mutexes, this.threads := mutexes, threads;
      nodes := set m | m in mutexes :: m.robustNode;
    }

    /** The node of a mutex is in no list but that of the recorded owner. */
    lemma NodeListed(mx: Mutex)
      requires Lists() && mx in mutexes
      ensures forall t :: t in threads && mx.robustNode in t.held ==> mx.ownerThread == t
    {
      assert mx.robustNode.mx == mx;
    }

    /** ptw32_robust_mutex_add. */
    method Own(mx: Mutex, tp: ThreadStruct)
      requires Lists() && mx in mutexes && tp in threads
      requires mx.ownerThread == null || (mx.ownerThread in threads && mx.ownerThread.held == [])
      modifies mx`ownerThread, tp`robustMxList, tp`held, mx.robustNode`prev, mx.robustNode`next, tp.held`prev
      ensures Lists() && mx.ownerThread == tp && tp.held == [mx.robustNode] + old(tp.held)
    {
      NodeListed(mx);
      mx.ownerThread := tp;
      tp.Add(mx.robustNode);
      forall t | t in threads && t != tp ensures ListOk(t) {
        forall n | n in t.held
          ensures n in nodes && n.mx.ownerThread == t && n.prev == old(n.prev) && n.next == old(n.next)
        {
          assert n in nodes && old(n.mx.ownerThread) == t;
        }
        assert old(t.Listed());
      }
    }

    method Unlink(mx: Mutex, tp: ThreadStruct, ghost k: nat)
      requires Lists() && mx in mutexes && tp in threads && k < |tp.held| && tp.held[k] == mx.robustNode
      modifies tp`robustMxList, tp`held, tp.held`prev, tp.held`next
      ensures forall t :: t in threads ==> t.Listed()
      ensures tp.held == Without(old(tp.held), k)
      ensures forall n :: n in tp.held <==> n in old(tp.held) && n != mx.robustNode
    {
      WithoutMembers(tp.held, k);
      tp.Remove(mx.robustNode, k);
      forall t | t in threads && t != tp ensures t.Listed() {
        forall n | n in t.held ensures n.prev == old(n.prev) && n.next == old(n.next) {
          assert n in nodes && old(n.mx.ownerThread) == t;
        }
        assert old(t.Listed());
      }
    }

    /** ptw32_robust_mutex_remove by the owner, which leaves otp in its place. */
    method Disown(mx: Mutex, tp: ThreadStruct, otp: ThreadStruct?, ghost k: nat)
      requires Lists() && mx in mutexes && tp in threads && k < |tp.held| && tp.held[k] == mx.robustNode
      requires otp == null || (otp == tp && !tp.alive)
      modifies mx`ownerThread, tp`robustMxList, tp`held, tp.held`prev, tp.held`next
      ensures Lists() && mx.ownerThread == otp && tp.held == Without(old(tp.held), k)
      ensures forall n :: n in tp.held <==> n in old(tp.held) && n != mx.robustNode
    {
      assert ListOk(tp);
      NodeListed(mx);
      Unlink(mx, tp, k);
      mx.ownerThread := otp;
      assert ListOk(tp);
      forall t | t in threads && t != tp ensures ListOk(t) {
        assert old(ListOk(t));
      }
    }

    /** ptw32_robust_mutex_inherit. */
    method Inherit(mx: Mutex) returns (r: Result)
      modifies mx.robustNode`stateInconsistent
      ensures var was := old(mx.robustNode.stateInconsistent);
              && mx.robustNode.stateInconsistent == (if was == Orphaned then Inconsistent else was)
              && r == (if was == Orphaned then EOWNERDEAD else if was == NotRecoverable then ENOTRECOVERABLE else Ok)
    {
      r := Ok;
      if mx.robustNode.stateInconsistent == Orphaned {
        mx.robustNode.stateInconsistent := Inconsistent;
        r := EOWNERDEAD;
      } else if mx.robustNode.stateInconsistent == NotRecoverable {
        r := ENOTRECOVERABLE;
      }
    }

    /** The loop of a caller that finds the mutex owned: it inherits from a dead
        owner, or it blocks. With one call at a time nobody sets the event meanwhile;
        a leftover signal makes it go round once more. */
    method Contend(mx: Mutex) returns (r: Result, blocked: bool)
      requires mx.lock_idx != 0 && mx.robustNode.stateInconsistent != NotRecoverable
      modifies mx`lock_idx, mx`event, mx.robustNode`stateInconsistent
      ensures blocked <==> old(mx.robustNode.stateInconsistent) != Orphaned
      ensures blocked ==>
                (r == Ok && mx.lock_idx == -1 && !mx.event
                && mx.robustNode.stateInconsistent == old(mx.robustNode.stateInconsistent))
      ensures !blocked ==>
                (r == EOWNERDEAD && mx.robustNode.stateInconsistent == Inconsistent
                && mx.lock_idx == old(mx.lock_idx) && mx.event == old(mx.event))
    {
      blocked := false;
      r := Inherit(mx);
      while r == Ok
        invariant r == Ok || r == EOWNERDEAD
        invariant r == Ok ==>
                    (mx.robustNode.stateInconsistent == old(mx.robustNode.stateInconsistent) && mx.lock_idx != 0
                    && old(mx.robustNode.stateInconsistent) != Orphaned)
        invariant r == EOWNERDEAD ==>
                    (old(mx.robustNode.stateInconsistent) == Orphaned && mx.robustNode.stateInconsistent == Inconsistent
                    && mx.lock_idx == old(mx.lock_idx) && mx.event == old(mx.event))
        decreases r == Ok, mx.event
      {
        mx.lock_idx := -1;
        if !mx.event {
          blocked := true;
          return;
        }
        mx.event := false;
        r := Inherit(mx);
      }
    }

    /** The part of pthread_mutex_lock that works on the mutex itself: take says
        whether the caller is to be its owner. */
    method Decide(tp: ThreadStruct, mx: Mutex) returns (r: Result, blocked: bool, take: bool)
      requires MutexOk(mx) && tp.alive
      modifies mx`lock_idx, mx`recursive_count, mx`event, mx.robustNode`stateInconsistent
      ensures var was, owner := old(mx.robustNode.stateInconsistent), old(mx.ownerThread);
              if was == NotRecoverable then !blocked && !take && r == ENOTRECOVERABLE && unchanged(mx, mx.robustNode)
              else if owner == null then
                !blocked && take && r == Ok && mx.lock_idx == 1 && unchanged(mx.robustNode)
              else if was == Orphaned then
                (!blocked && take && r == EOWNERDEAD && mx.lock_idx != 0
                && mx.robustNode.stateInconsistent == Inconsistent)
              else if owner == tp && mx.kind != Normal then
                (!blocked && !take && mx.lock_idx == old(mx.lock_idx) && unchanged(mx.robustNode)
                && r == (if mx.kind == Recursive then Ok else EDEADLK))
              else blocked && !take && mx.lock_idx == -1 && mx.robustNode.stateInconsistent == was
      ensures take && mx.kind == Recursive ==> mx.recursive_count == 1
      ensures !take ==>
                mx.recursive_count ==
                  old(mx.recursive_count) + (if mx.kind == Recursive && r == Ok && !blocked then 1 else 0)
    {
      r, blocked, take := Ok, false, false;
      if mx.robustNode.stateInconsistent == NotRecoverable {
        r := ENOTRECOVERABLE;
      } else if mx.kind == Normal {
        var was := mx.lock_idx;
        mx.lock_idx := 1;
        if was != 0 { r, blocked := Contend(mx); }
        take := !blocked;
      } else if mx.lock_idx == 0 {
        mx.lock_idx, mx.recursive_count := 1, 1;
        take := true;
      } else if mx.ownerThread == tp {
        if mx.kind == Recursive {
          mx.recursive_count := mx.recursive_count + 1;
        } else {
          r := EDEADLK;
        }
      } else {
        r, blocked := Contend(mx);
        take := !blocked;
        if take { mx.recursive_count := 1; }
      }
    }

    /** pthread_mutex_lock. The caller may block, in which case it does not return. */
    method Lock(tp: ThreadStruct, mx: Mutex) returns (r: Result, blocked: bool)
      requires Valid() && tp in threads && tp.alive && mx in mutexes
      modifies mx, mx.robustNode, tp`robustMxList, tp`held, tp.held`prev
      ensures Valid()
      ensures var was, owner := old(mx.robustNode.stateInconsistent), old(mx.ownerThread);
              if was == NotRecoverable then
                (!blocked && r == ENOTRECOVERABLE && mx.robustNode.stateInconsistent == was
                && mx.ownerThread == owner && tp.held == old(tp.held))
              else if owner == null || was == Orphaned then
                (!blocked && r == (if was == Orphaned then EOWNERDEAD else Ok) && mx.ownerThread == tp
                && mx.robustNode.stateInconsistent == (if was == Orphaned then Inconsistent else was)
                && tp.held == [mx.robustNode] + old(tp.held))
              else if owner == tp && mx.kind != Normal then
                (!blocked && r == (if mx.kind == Recursive then Ok else EDEADLK)
                && mx.robustNode.stateInconsistent == was && mx.ownerThread == owner && tp.held == old(tp.held))
              else
                (blocked && mx.robustNode.stateInconsistent == was && mx.ownerThread == owner
                && tp.held == old(tp.held))
      ensures mx.kind == Recursive && !blocked && (r == Ok || r == EOWNERDEAD) ==>
                mx.recursive_count == if old(mx.ownerThread) == tp then old(mx.recursive_count) + 1 else 1
    {
      var take;
      assert MutexOk(mx);
      r, blocked, take := Decide(tp, mx);
      if take { Own(mx, tp); }
      forall m | m in mutexes ensures MutexOk(m) {
        assert old(MutexOk(m));
        if m != mx { NodesDiffer(m, mx); }
      }
    }

    /** The part of pthread_mutex_trylock that works on the mutex itself. */
    method DecideTry(tp: ThreadStruct, mx: Mutex) returns (r: Result, take: bool)
      requires MutexOk(mx) && tp.alive
      modifies mx`lock_idx, mx`recursive_count, mx.robustNode`stateInconsistent
      ensures var was, owner := old(mx.robustNode.stateInconsistent), old(mx.ownerThread);
              && take == (was != NotRecoverable && (owner == null || was == Orphaned))
              && mx.robustNode.stateInconsistent == (if was == Orphaned then Inconsistent else was)
              && r == (if was == NotRecoverable then ENOTRECOVERABLE
                       else if owner == null then Ok
                       else if was == Orphaned then EOWNERDEAD
                       else if owner == tp && mx.kind == Recursive then Ok else EBUSY)
      ensures mx.lock_idx == if take && old(mx.ownerThread) == null then 1 else old(mx.lock_idx)
      ensures take && mx.kind == Recursive ==> mx.recursive_count == 1
      ensures !take ==> mx.recursive_count == old(mx.recursive_count) + (if r == Ok then 1 else 0)
    {
      take := false;
      if mx.robustNode.stateInconsistent == NotRecoverable {
        r := ENOTRECOVERABLE;
      } else if mx.lock_idx == 0 {
        mx.lock_idx := 1;
        if mx.kind != Normal { mx.recursive_count := 1; }
        r, take := Ok, true;
      } else if mx.kind == Recursive && mx.ownerThread == tp {
        mx.recursive_count := mx.recursive_count + 1;
        r := Ok;
      } else {
        r := Inherit(mx);
        if r == EOWNERDEAD {
          mx.recursive_count := 1;
          take := true;
        } else {
          r := EBUSY;
        }
      }
    }

    /** pthread_mutex_trylock. */
    method TryLock(tp: ThreadStruct, mx: Mutex) returns (r: Result)
      requires Valid() && tp in threads && tp.alive && mx in mutexes
      modifies mx, mx.robustNode, tp`robustMxList, tp`held, tp.held`prev
      ensures Valid()
      ensures var was, owner := old(mx.robustNode.stateInconsistent), old(mx.ownerThread);
              if was != NotRecoverable && (owner == null || was == Orphaned) then
                (r == (if was == Orphaned then EOWNERDEAD else Ok) && mx.ownerThread == tp
                && mx.robustNode.stateInconsistent == (if was == Orphaned then Inconsistent else was)
                && tp.held == [mx.robustNode] + old(tp.held))
              else
                (r == (if was == NotRecoverable then ENOTRECOVERABLE
                       else if owner == tp && mx.kind == Recursive then Ok else EBUSY)
                && mx.robustNode.stateInconsistent == was && mx.ownerThread == owner && tp.held == old(tp.held))
      ensures mx.kind == Recursive && (r == Ok || r == EOWNERDEAD) ==>
                mx.recursive_count == if old(mx.ownerThread) == tp then old(mx.recursive_count) + 1 else 1
    {
      var take;
      assert MutexOk(mx);
      r, take := DecideTry(tp, mx);
      if take { Own(mx, tp); }
      forall m | m in mutexes ensures MutexOk(m) {
        assert old(MutexOk(m));
        if m != mx { NodesDiffer(m, mx); }
      }
    }

    /** The place of the node of a mutex in the list of its running owner. */
    lemma PlaceInList(mx: Mutex) returns (k: nat)
      requires Lists() && mx in mutexes && mx.ownerThread in threads && mx.ownerThread.alive
      ensures k < |mx.ownerThread.held| && mx.ownerThread.held[k] == mx.robustNode
    {
      assert mx.robustNode in mx.ownerThread.held;
      k :| 0 <= k < |mx.ownerThread.held| && mx.ownerThread.held[k] == mx.robustNode;
    }

    /** pthread_mutex_unlock: only the owner may, and it may give its mutexes back in
        any order; k is the place the mutex had in the list. */
    method Unlock(tp: ThreadStruct, mx: Mutex) returns (r: Result, ghost k: nat)
      requires Valid() && tp in threads && tp.alive && mx in mutexes
      modifies mx, mx.robustNode`stateInconsistent, tp`robustMxList, tp`held, tp.held`prev, tp.held`next
      ensures Valid()
      ensures r == if old(mx.ownerThread) == tp then Ok else EPERM
      ensures r == EPERM ==> unchanged(mx, mx.robustNode) && tp.held == old(tp.held)
      ensures r == Ok ==>
                var was := old(mx.robustNode.stateInconsistent);
                mx.robustNode.stateInconsistent == if was == Inconsistent then NotRecoverable else was
      ensures r == Ok && mx.kind == Recursive && old(mx.recursive_count) > 1 ==>
                (mx.ownerThread == tp && mx.recursive_count == old(mx.recursive_count) - 1 && tp.held == old(tp.held))
      ensures r == Ok && !(mx.kind == Recursive && old(mx.recursive_count) > 1) ==>
                (mx.ownerThread == null && mx.lock_idx == 0 && (old(mx.lock_idx) < 0 ==> mx.event)
                && k < |old(tp.held)| && old(tp.held)[k] == mx.robustNode && tp.held == Without(old(tp.held), k))
    {
      r, k := EPERM, 0;
      if mx.ownerThread == tp {
        r := Ok;
        assert MutexOk(mx);
        k := PlaceInList(mx);
        var last := GiveBack(mx);
        if last { Release(tp, mx, k); }
        forall m | m in mutexes ensures MutexOk(m) {
          assert old(MutexOk(m));
          if m != mx { NodesDiffer(m, mx); }
        }
      }
    }

    /** The part of pthread_mutex_unlock by the owner that works on the mutex itself;
        last says whether it gives the mutex up. */
    method GiveBack(mx: Mutex) returns (last: bool)
      modifies mx`recursive_count, mx.robustNode`stateInconsistent
      ensures last == (mx.kind != Recursive || old(mx.recursive_count) == 1)
      ensures mx.recursive_count == old(mx.recursive_count) - (if mx.kind == Recursive then 1 else 0)
      ensures var was := old(mx.robustNode.stateInconsistent);
              mx.robustNode.stateInconsistent == if was == Inconsistent then NotRecoverable else was
    {
      if mx.robustNode.stateInconsistent == Inconsistent {
        mx.robustNode.stateInconsistent := NotRecoverable;
      }
      if mx.kind == Recursive {
        mx.recursive_count := mx.recursive_count - 1;
      }
      last := mx.kind != Recursive || mx.recursive_count == 0;
    }

    /** The last unlock: the mutex leaves the list before the lock word is cleared. */
    method Release(tp: ThreadStruct, mx: Mutex, ghost k: nat)
      requires Lists() && mx in mutexes && tp in threads && k < |tp.held| && tp.held[k] == mx.robustNode
      modifies mx`ownerThread, mx`lock_idx, mx`event, tp`robustMxList, tp`held, tp.held`prev, tp.held`next
      ensures Lists() && tp.held == Without(old(tp.held), k)
      ensures mx.ownerThread == null && mx.lock_idx == 0 && mx.event == (old(mx.event) || old(mx.lock_idx) < 0)
    {
      Disown(mx, tp, null, k);
      var was := mx.lock_idx;
      mx.lock_idx := 0;
      if was < 0 { mx.event := true; }
    }

    /** pthread_mutex_consistent. */
    method MakeConsistent(mx: Mutex) returns (r: Result)
      requires Valid() && mx in mutexes
      modifies mx.robustNode`stateInconsistent
      ensures Valid()
      ensures var was := old(mx.robustNode.stateInconsistent);
              && r == (if was == Inconsistent then Ok else EINVAL)
              && mx.robustNode.stateInconsistent == (if was == Inconsistent then Consistent else was)
    {
      assert MutexOk(mx);
      r := EINVAL;
      if mx.robustNode.stateInconsistent == Inconsistent {
        mx.robustNode.stateInconsistent := Consistent;
        r := Ok;
      }
    }

    /** One round of the loop that empties the list of a dead thread: the head is
        taken out and its mutex left to be inherited. */
    method OrphanFirst(tp: ThreadStruct, mx: Mutex)
      requires Lists() && tp in threads && !tp.alive && mx in mutexes && tp.held != [] && tp.held[0] == mx.robustNode
      modifies mx`ownerThread, mx`event, mx.robustNode`stateInconsistent
      modifies tp`robustMxList, tp`held, tp.held`prev, tp.held`next
      ensures Lists() && mx.ownerThread == tp && mx.robustNode.stateInconsistent == Orphaned && mx.event
      ensures |tp.held| < |old(tp.held)|
      ensures forall n :: n in tp.held <==> n in old(tp.held) && n != mx.robustNode
    {
      Disown(mx, tp, tp, 0);
      Publish(mx);
    }

    /** The mark of a death, and the signal to a waiter. */
    method Publish(mx: Mutex)
      requires Lists()
      modifies mx`event, mx.robustNode`stateInconsistent
      ensures Lists() && mx.robustNode.stateInconsistent == Orphaned && mx.event
    {
      mx.robustNode.stateInconsistent := Orphaned;
      mx.event := true;
    }

    /** The mutexes in the list of tp are the ones it is recorded to own, as long as
        it runs. */
    lemma OwnedAreListed(tp: ThreadStruct)
      requires Lists() && tp in threads && tp.alive
      ensures forall m :: m in mutexes ==> (m.robustNode in tp.held <==> m.ownerThread == tp)
    {
      assert ListOk(tp);
      forall m | m in mutexes ensures m.robustNode in tp.held <==> m.ownerThread == tp {
        assert m.robustNode.mx == m;
      }
    }

    /** The end of a thread: pthread_win32_thread_detach_np empties its list, and
        every mutex that was in it is left to be inherited. */
    method Exit(tp: ThreadStruct)
      requires Valid() && tp in threads && tp.alive
      modifies tp, nodes, mutexes
      ensures Valid() && !tp.alive && tp.robustMxList == null && tp.held == []
      ensures forall m :: m in mutexes && old(m.ownerThread) == tp ==>
                m.ownerThread == tp && m.robustNode.stateInconsistent == Orphaned && m.event
      ensures forall m :: m in mutexes && old(m.ownerThread) != tp ==>
                unchanged(m`ownerThread, m`lock_idx, m`recursive_count, m`event, m.robustNode`stateInconsistent)
    {
      OwnedAreListed(tp);
      tp.alive := false;
      Empty(tp);
      forall m | m in mutexes ensures MutexOk(m) {
        assert old(MutexOk(m));
      }
    }

    /** The loop itself. */
    method Empty(tp: ThreadStruct)
      requires Lists() && tp in threads && !tp.alive
      modifies tp`robustMxList, tp`held, nodes, mutexes
      ensures Lists() && tp.robustMxList == null && tp.held == []
      ensures forall m :: m in mutexes ==> unchanged(m`ownerThread, m`lock_idx, m`recursive_count)
      ensures forall m :: m in mutexes && m.robustNode in old(tp.held) ==>
                m.robustNode.stateInconsistent == Orphaned && m.event
      ensures forall m :: m in mutexes && m.robustNode !in old(tp.held) ==>
                unchanged(m`event, m.robustNode`stateInconsistent)
    {
      while tp.robustMxList != null
        invariant Lists()
        invariant forall n :: n in tp.held ==> n in old(tp.held)
        invariant forall m :: m in mutexes ==> unchanged(m`ownerThread, m`lock_idx, m`recursive_count)
        invariant forall m :: m in mutexes && m.robustNode in old(tp.held) && m.robustNode !in tp.held ==>
                    m.robustNode.stateInconsistent == Orphaned && m.event
        invariant forall m :: m in mutexes && m.robustNode !in old(tp.held) ==>
                    unchanged(m`event, m.robustNode`stateInconsistent)
        decreases |tp.held|
      {
        assert ListOk(tp);
        var mx := tp.robustMxList.mx;
        forall m | m in mutexes && m != mx ensures m.robustNode != mx.robustNode { NodesDiffer(m, mx); }
        OrphanFirst(tp, mx);
      }
      assert ListOk(tp);
    }

    ghost predicate Known(e: Event)
    {
      (e.Repairs? || e.t in threads) && (e.Exits? || e.m in mutexes)
    }

    lemma NodesDiffer(m: Mutex, mx: Mutex)
      requires Paired() && m in mutexes && mx in mutexes && m != mx
      ensures m.robustNode != mx.robustNode
    {
      assert m.robustNode.mx == m && mx.robustNode.mx == mx;
    }

    /** One call, by a thread that is still running. A mutex stops being not
        recoverable exactly when the thread that ends owned it. */
    method Do(e: Event)
      requires Valid() && Known(e)
      modifies threads, nodes, mutexes
      ensures Valid()
      ensures forall m :: m in mutexes && old(m.robustNode.stateInconsistent) == NotRecoverable ==>
                (m.robustNode.stateInconsistent != NotRecoverable <==>
                  e.Exits? && old(e.t.alive) && old(m.ownerThread) == e.t)
    {
      if e.Exits? {
        if e.t.alive { Exit(e.t); }
      } else if e.Repairs? {
        forall m | m in mutexes && m != e.m ensures m.robustNode != e.m.robustNode { NodesDiffer(m, e.m); }
        var r := MakeConsistent(e.m);
      } else if e.t.alive {
        forall m | m in mutexes && m != e.m ensures m.robustNode != e.m.robustNode { NodesDiffer(m, e.m); }
        assert ListOk(e.t);
        Call(e);
      }
    }

    method Call(e: Event)
      requires Valid() && Known(e) && !e.Exits? && !e.Repairs? && e.t.alive
      modifies e.m, e.m.robustNode, e.t`robustMxList, e.t`held, e.t.held`prev, e.t.held`next
      ensures Valid()
      ensures old(e.m.robustNode.stateInconsistent) == NotRecoverable ==>
                e.m.robustNode.stateInconsistent == NotRecoverable
    {
      match e {
        case Locks(t, m) => var r, blocked := Lock(t, m);
        case Tries(t, m) => var r := TryLock(t, m);
        case Unlocks(t, m) => var r, k := Unlock(t, m);
      }
    }

    /** Any calls, one after the other: a mutex of the normal or errorcheck kind that
        is not recoverable is never owned and never recovers. */
    method Execute(es: seq<Event>)
      requires Valid() && forall i :: 0 <= i < |es| ==> Known(es[i])
      modifies threads, nodes, mutexes
      ensures Valid()
      ensures forall m ::
                m in mutexes && m.kind != Recursive && old(m.robustNode.stateInconsistent) == NotRecoverable ==>
                m.robustNode.stateInconsistent == NotRecoverable && m.ownerThread == null
    {
      for i := 0 to |es|
        invariant Valid()
        invariant forall m ::
                    m in mutexes && m.kind != Recursive && old(m.robustNode.stateInconsistent) == NotRecoverable ==>
                    m.robustNode.stateInconsistent == NotRecoverable && MutexOk(m)
      {
        Do(es[i]);
      }
    }
  }

  datatype Event =
    | Locks(t: ThreadStruct, m: Mutex)
    | Tries(t: ThreadStruct, m: Mutex)
    | Unlocks(t: ThreadStruct, m: Mutex)
    | Repairs(m: Mutex)
    | Exits(t: ThreadStruct)
}
