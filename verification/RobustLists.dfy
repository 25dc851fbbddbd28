/** The robust mutexes a thread owns, as the intrusive doubly linked list the
    program keeps them in (pthread_mutex_consistent.c:111-169, implement.h:226-240). */
module RobustLists {
  import opened MutexKinds
  import opened RobustMutex
  import opened Sequences

  class RobustNode {
    var stateInconsistent: Health
    var mx: Mutex?
    var next: RobustNode?
    var prev: RobustNode?

    constructor ()
      ensures stateInconsistent == Consistent
    {
      stateInconsistent, mx, next, prev := Consistent, null, null, null;
    }
  }

  class Mutex {
    const kind: Kind
    const robustNode: RobustNode
    var lock_idx: int
    var recursive_count: int
    var event: bool
    var ownerThread: ThreadStruct?

    constructor (kind: Kind)
      ensures fresh(robustNode) && robustNode.mx == this && robustNode.stateInconsistent == Consistent
      ensures this.kind == kind && lock_idx == 0 && ownerThread == null
    {
      this.kind := kind;
      lock_idx, recursive_count, event, ownerThread := 0, 0, false, null;
      robustNode := new RobustNode();
      new;
      robustNode.mx := this;
    }
  }

  /** The nodes of s are linked both ways, in order, and end with NULL. */
  ghost predicate Linked(s: seq<RobustNode>)
    reads s`prev, s`next
  {
    && (s != [] ==> s[0].prev == null && s[|s| - 1].next == null)
    && (forall i, j :: 0 <= i < j < |s| && j == i + 1 ==> s[i].next == s[j] && s[j].prev == s[i])
  }

  /** list is the head of a doubly linked list of exactly the nodes of s, in order. */
  ghost predicate Chain(list: RobustNode?, s: seq<RobustNode>)
    reads s`prev, s`next
  {
    list == (if s == [] then null else s[0]) && Linked(s) && Distinct(s)
  }

  class ThreadStruct {
    var robustMxList: RobustNode?
    var alive: bool
    ghost var held: seq<RobustNode>

    ghost predicate Listed()
      reads this`robustMxList, this`held, held`prev, held`next
    {
      Chain(robustMxList, held)
    }

    constructor ()
      ensures alive && held == [] && Listed()
    {
      robustMxList, alive, held := null, true, [];
    }

    /** ptw32_robust_mutex_add: a node that is in no list becomes the head. */
    method Add(robust: RobustNode)
      requires Listed() && robust !in held
      modifies this`robustMxList, this`held, robust`prev, robust`next, held`prev
      ensures Listed() && held == [robust] + old(held)
    {
      robust.prev := null;
      robust.next := robustMxList;
      if robustMxList != null {
        robustMxList.prev := robust;
      }
      robustMxList := robust;
      held := [robust] + held;
    }

    /** The neighbours of the node at k, if any, are linked to each other. */
    method Bypass(robust: RobustNode, ghost k: nat)
      requires Listed() && k < |held| && held[k] == robust
      modifies held`prev, held`next
      ensures Linked(Without(held, k))
      ensures k == 0 ==> robust.next == if |held| == 1 then null else held[1]
    {
      assert k + 1 < |held| ==> robust.next == held[k + 1];
      assert k > 0 ==> robust.prev == held[k - 1];
      if robust.next != null {
        robust.next.prev := robust.prev;
      }
      if robust.prev != null {
        robust.prev.next := robust.next;
      }
    }

    /** ptw32_robust_mutex_remove: a node anywhere in the list is taken out. */
    method Remove(robust: RobustNode, ghost k: nat)
      requires Listed() && k < |held| && held[k] == robust
      modifies this`robustMxList, this`held, held`prev, held`next
      ensures Listed() && held == Without(old(held), k)
    {
      Bypass(robust, k);
      if robustMxList == robust {
        robustMxList := robust.next;
      }
      held := Without(held, k);
    }
  }
}
