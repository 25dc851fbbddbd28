/** The pool of thread structs and the handles made from them (ptw32_reuse.c,
    ptw32_new.c). A struct is never freed: a destroyed thread's struct is queued with
    its reuse counter bumped, so that copies of the old handle can be told apart. */
module ReusePool {
  import opened Sequences

  /** ptw32_thread_t. Its own handle is (itself, x); null stands for the sentinel
      PTW32_THREAD_REUSE_EMPTY in prevReuse. */
  class ThreadStruct {
    var x: nat
    var prevReuse: ThreadStruct?
    var seqNumber: nat

    constructor ()
      ensures x == 0
    {
      x, prevReuse, seqNumber := 0, null, 0;
    }
  }

  /** A thread is created, or the one with the k-th handle issued is destroyed. */
  datatype Event = Create(eventCreated: bool) | Destroy(k: nat)

  /** pthread_t. */
  datatype Handle = Nil | Handle(p: ThreadStruct, x: nat)

  ghost predicate Linked(s: seq<ThreadStruct>)
    reads s`prevReuse
  {
    && (s != [] ==> s[|s| - 1].prevReuse == null)
    && (forall i, j :: 0 <= i < j < |s| && j == i + 1 ==> s[i].prevReuse == s[j])
  }

  class Pool {
    var top: ThreadStruct?
    var bottom: ThreadStruct?
    var threadSeqNumber: nat
    ghost var queue: seq<ThreadStruct>     // from top to bottom
    ghost var structs: set<ThreadStruct>   // every struct ever allocated
    var issued: seq<Handle>                // history: every handle issued, in order
    ghost var live: set<Handle>            // those whose thread has not been destroyed
    ghost var pushes: seq<ThreadStruct>    // history
    ghost var pops: seq<ThreadStruct>      // history

    /** The links represent one queue. */
    ghost predicate Queued()
      reads this`top, this`bottom, this`queue, queue`prevReuse
    {
      && Linked(queue) && Distinct(queue)
      && top == (if queue == [] then null else queue[0])
      && bottom == (if queue == [] then null else queue[|queue| - 1])
    }

    /** No handle was issued twice, none has a counter that its struct has not
        reached, and a queued struct has passed the counters of all its handles. */
    ghost predicate HandlesOk()
      reads this`queue, this`structs, this`issued, structs`x
    {
      && (forall i, j :: 0 <= i < j < |issued| ==> issued[i] != issued[j])
      && (forall h :: h in issued ==> h.Handle? && h.p in structs && h.x <= h.p.x)
      && (forall h :: h in issued && h.p in queue ==> h.x < h.p.x)
      && (forall tp :: tp in queue ==> tp in structs)
    }

    /** A thread lives as long as its handle has the counter of its struct, and every
        struct that is not queued has a live thread, but for the one given. */
    ghost predicate LivesOk(but: ThreadStruct?)
      requires HandlesOk()
      reads this`queue, this`structs, this`issued, this`live, structs`x
    {
      && (forall h :: h in live ==> h in issued)
      && (forall h :: h in issued ==> (h in live <==> h.x == h.p.x))
      && (forall tp :: tp in structs && tp !in queue && tp != but ==> Handle(tp, tp.x) in live)
    }

    ghost predicate Consistent(but: ThreadStruct?)
      reads this`top, this`bottom, this`queue, this`structs, this`issued, this`live, this`pushes, this`pops
      reads structs`x, structs`prevReuse
    {
      HandlesOk() && Queued() && LivesOk(but) && pushes == pops + queue
    }

    ghost predicate Valid()
      reads this`top, this`bottom, this`queue, this`structs, this`issued, this`live, this`pushes, this`pops
      reads structs`x, structs`prevReuse
    {
      Consistent(null)
    }

    /** No thread has the current counter of the struct. */
    ghost predicate Unissued(tp: ThreadStruct)
      requires HandlesOk()
      reads this`queue, this`structs, this`issued, structs`x, tp`x
    {
      forall h :: h in issued && h.p == tp ==> h.x < tp.x
    }

    constructor ()
      ensures Valid() && queue == [] && issued == [] && structs == {}
    {
      top, bottom, threadSeqNumber := null, null, 0;
      queue, structs, issued, live, pushes, pops := [], {}, [], {}, [], [];
    }

    /** The links of ptw32_threadReusePop: the struct at the top, if there is one. */
    method Dequeue() returns (tp: ThreadStruct?)
      requires Queued()
      modifies this`top, this`bottom, this`queue, queue`prevReuse
      ensures Queued()
      ensures if old(queue) == [] then tp == null && queue == []
              else tp == old(queue)[0] && queue == old(queue)[1..]
    {
      tp := top;
      if tp != null {
        assert |queue| > 1 ==> queue[0].prevReuse == queue[1];
        top := tp.prevReuse;
        if top == null { bottom := null; }
        tp.prevReuse := null;
        queue := queue[1..];
      }
    }

    /** The links of ptw32_threadReusePush: the struct becomes the bottom. */
    method Enqueue(tp: ThreadStruct)
      requires Queued() && tp !in queue
      modifies this`top, this`bottom, this`queue, tp`prevReuse, queue`prevReuse
      ensures Queued() && queue == old(queue) + [tp]
    {
      tp.prevReuse := null;
      if bottom != null {
        bottom.prevReuse := tp;
      } else {
        top := tp;
      }
      bottom := tp;
      queue := queue + [tp];
    }

    /** ptw32_threadReusePop. */
    method ReusePop() returns (t: Handle)
      requires Valid()
      modifies this`top, this`bottom, this`queue, this`pops, structs`prevReuse
      ensures t == Nil <==> old(queue) == []
      ensures t == Nil ==> Valid() && queue == [] && pops == old(pops)
      ensures t != Nil ==>
                (t.p == old(queue)[0] && t.x == t.p.x && queue == old(queue)[1..] && t.p !in queue
                && t.p in structs && Consistent(t.p) && Unissued(t.p) && pops == old(pops) + [t.p])
    {
      var tp := Dequeue();
      if tp == null {
        t := Nil;
      } else {
        pops := pops + [tp];
        t := Handle(tp, tp.x);
      }
    }

    /** ptw32_threadReusePush of the current handle of a struct. */
    method ReusePush(thread: Handle)
      requires thread.Handle? && thread.p in structs && thread.p !in queue && Consistent(thread.p)
      requires thread.x == thread.p.x
      modifies this`top, this`bottom, this`queue, this`live, this`pushes
      modifies thread.p`x, thread.p`seqNumber, structs`prevReuse
      ensures Valid() && queue == old(queue) + [thread.p] && thread.p.x == thread.x + 1
      ensures live == old(live) - {thread} && pushes == old(pushes) + [thread.p]
    {
      Retire(thread);
      Enqueue(thread.p);
      pushes := pushes + [thread.p];
    }

    /** The counter is bumped: every handle issued for the struct is out of date. */
    method Retire(thread: Handle)
      requires thread.Handle? && thread.p in structs && thread.p !in queue && Consistent(thread.p)
      requires thread.x == thread.p.x
      modifies this`live, thread.p`x, thread.p`seqNumber
      ensures Consistent(thread.p) && Unissued(thread.p) && Handle(thread.p, thread.p.x) !in live
      ensures thread.p.x == thread.x + 1 && live == old(live) - {thread}
    {
      thread.p.seqNumber := 0;
      thread.p.x := thread.p.x + 1;
      live := live - {thread};
    }

    /** The struct of a new thread: one of the pool if there is one, else a fresh one. */
    method Obtain() returns (t: Handle)
      requires Valid()
      modifies this`top, this`bottom, this`queue, this`pops, this`structs, structs`prevReuse
      ensures t.Handle? && t.x == t.p.x && t.p in structs && t.p !in queue && fresh(structs - old(structs))
      ensures Consistent(t.p) && Unissued(t.p) && old(pops) <= pops
      ensures if old(queue) == [] then fresh(t.p) && t.x == 0 && queue == []
              else t.p == old(queue)[0] && queue == old(queue)[1..]
    {
      t := ReusePop();
      if t == Nil {
        var tp := new ThreadStruct();
        structs := structs + {tp};
        t := Handle(tp, 0);
      }
    }

    /** The handle is returned to the creator of the thread. */
    method Issue(t: Handle)
      requires t.Handle? && t.x == t.p.x && t.p in structs && t.p !in queue
      requires Consistent(t.p) && Unissued(t.p)
      modifies this`issued, this`live
      ensures Valid() && t !in old(issued) && issued == old(issued) + [t] && live == old(live) + {t}
    {
      issued := issued + [t];
      live := live + {t};
    }

    /** The next sequence number. */
    method SetDefaults(tp: ThreadStruct)
      modifies this`threadSeqNumber, tp`seqNumber
      ensures threadSeqNumber == old(threadSeqNumber) + 1 && tp.seqNumber == threadSeqNumber
    {
      threadSeqNumber := threadSeqNumber + 1;
      tp.seqNumber := threadSeqNumber;
    }

    method Prepare() returns (t: Handle)
      requires Valid()
      modifies this`top, this`bottom, this`queue, this`pops, this`structs, this`threadSeqNumber
      modifies structs`prevReuse, structs`seqNumber
      ensures t.Handle? && t.x == t.p.x && t.p in structs && t.p !in queue && fresh(structs - old(structs))
      ensures Consistent(t.p) && Unissued(t.p) && old(pops) <= pops
      ensures threadSeqNumber == old(threadSeqNumber) + 1 && t.p.seqNumber == threadSeqNumber
      ensures if old(queue) == [] then fresh(t.p) && t.x == 0 && queue == []
              else t.p == old(queue)[0] && queue == old(queue)[1..]
    {
      t := Obtain();
      SetDefaults(t.p);
    }

    /** ptw32_new. eventCreated is whether CreateEvent succeeds. */
    method New(eventCreated: bool) returns (t: Handle)
      requires Valid()
      modifies this, structs
      ensures Valid() && fresh(structs - old(structs)) && old(pops) <= pops && old(pushes) <= pushes
      ensures threadSeqNumber == old(threadSeqNumber) + 1
      ensures eventCreated ==>
                (t.Handle? && t !in old(issued) && issued == old(issued) + [t] && live == old(live) + {t}
                && t.x == t.p.x && t.p.seqNumber == threadSeqNumber
                && if old(queue) == [] then fresh(t.p) && t.x == 0 && queue == []
                   else t.p == old(queue)[0] && queue == old(queue)[1..])
      ensures !eventCreated ==>
                (t == Nil && issued == old(issued) && live == old(live)
                && if old(queue) == [] then |queue| == 1 && fresh(queue[0])
                   else queue == old(queue)[1..] + [old(queue)[0]])
    {
      t := Prepare();
      if eventCreated {
        Issue(t);
      } else {
        ReusePush(t);
        t := Nil;
      }
    }

    /** The test pthread_kill, pthread_join and others make on a copy of a handle:
        it refers to a destroyed thread exactly if the counters differ. */
    method IsDestroyed(copy: Handle) returns (r: bool)
      requires Valid() && copy in issued
      ensures r <==> copy !in live
    {
      r := copy.x != copy.p.x;
    }

    /** Threads are created and destroyed in any order; a destroyed thread is named by
        the place of its handle among those issued. */
    method Execute(es: seq<Event>)
      requires Valid()
      modifies this, structs
      ensures Valid() && old(issued) <= issued
      ensures forall i, j :: 0 <= i < j < |issued| ==> issued[i] != issued[j]
      ensures old(pops) <= pops && old(pushes) <= pushes && pushes == pops + queue
    {
      for i := 0 to |es|
        invariant Valid() && fresh(structs - old(structs))
        invariant old(issued) <= issued && old(pops) <= pops && old(pushes) <= pushes
      {
        match es[i] {
          case Create(eventCreated) => var t := New(eventCreated);
          case Destroy(k) =>
            if k < |issued| {
              var destroyed := IsDestroyed(issued[k]);
              if !destroyed { ReusePush(issued[k]); }
            }
        }
      }
    }
  }
}
