/** Thread-specific data of one thread. The associations with the keys it has values
    for are a doubly linked chain from thread->keys, and an exiting thread walks it
    with the cursor nextAssoc while the destructors it calls set values and delete
    keys. */
module Tsd {
  import opened Sequences

  type Value = nat

  const NULL: Value := 0

  const PTHREAD_DESTRUCTOR_ITERATIONS := 4

  /** What a destructor does with keys. */
  datatype Action = SetValue(k: nat, v: Value) | DeleteKey(k: nat)

  /** What the n-th destructor call does: any behaviour at all, as the calls of a
      run can be numbered. */
  type Script = nat -> seq<Action>

  class Assoc {
    const key: nat
    var nextKey: Assoc?
    var prevKey: Assoc?

    constructor (key: nat)
      ensures this.key == key && nextKey == null && prevKey == null
    {
      this.key := key;
      nextKey, prevKey := null, null;
    }
  }

  /** The nodes of s are linked both ways, in order, and end with NULL. */
  ghost predicate Linked(s: seq<Assoc>)
    reads s`prevKey, s`nextKey
  {
    && (s != [] ==> s[0].prevKey == null && s[|s| - 1].nextKey == null)
    && (forall i, j :: 0 <= i < j < |s| && j == i + 1 ==> s[i].nextKey == s[j] && s[j].prevKey == s[i])
  }

  /** The node at index i, or NULL at the end. */
  ghost function At(s: seq<Assoc>, i: nat): Assoc?
  {
    if i < |s| then s[i] else null
  }

  /** Where a cursor at c leads once the node at i is gone. */
  lemma WithoutAt(s: seq<Assoc>, i: nat, c: nat)
    requires i < |s| && c <= |s|
    ensures At(Without(s, i), if i < c then c - 1 else c) == At(s, if c == i then i + 1 else c)
  {
  }

  class ThreadData {
    const destructors: seq<bool>  // which keys have a destructor
    var live: seq<bool>           // keys not yet deleted
    var tls: seq<Value>
    var threads: seq<Assoc?>      // key->threads, as far as this thread goes
    var keys: Assoc?
    var nextAssoc: Assoc?
    var log: seq<(nat, Value)>    // history: the destructor calls, key and value
    ghost var chain: seq<Assoc>
    ghost var cursor: nat
    ghost var nodes: set<Assoc>   // associations ever created

    ghost predicate Sized()
      reads this`live, this`threads
    {
      |live| == |threads| == |destructors|
    }

    ghost predicate Shaped()
      reads this`live, this`tls, this`threads
    {
      Sized() && |tls| == |destructors|
    }

    /** The chain has one association for each key in use, and the cursor is at an
        association of it or past the end. */
    ghost predicate Valid()
      reads this, chain`prevKey, chain`nextKey
    {
      Shaped() && Chained() && Indexed() && Covered() && forall a :: a in chain ==> a in nodes
    }

    ghost predicate Chained()
      reads this`chain, this`keys, this`cursor, this`nextAssoc, chain`prevKey, chain`nextKey
    {
      && Linked(chain) && Distinct(chain) && keys == At(chain, 0)
      && cursor <= |chain| && nextAssoc == At(chain, cursor)
    }

    ghost predicate Indexed()
      requires Sized()
      reads this`chain, this`live, this`threads
    {
      && (forall a :: a in chain ==>
           a.key < |threads| && threads[a.key] == a && live[a.key] && destructors[a.key])
      && (forall k :: 0 <= k < |threads| && threads[k] != null ==> threads[k] in chain && threads[k].key == k)
    }

    /** Every value that needs a destructor has an association. */
    ghost predicate Covered()
      requires Shaped()
      reads this`live, this`tls, this`threads
    {
      forall k :: 0 <= k < |tls| && live[k] && destructors[k] && tls[k] != NULL ==> threads[k] != null
    }

    /** The associations the current pass has still to visit. */
    ghost function Todo(): seq<Assoc>
      requires cursor <= |chain|
      reads this`chain, this`cursor
    {
      chain[cursor..]
    }

    constructor (destructors: seq<bool>)
      ensures Valid() && this.destructors == destructors && chain == [] && log == []
      ensures forall k :: 0 <= k < |tls| ==> live[k] && tls[k] == NULL
    {
      this.destructors := destructors;
      live := seq(|destructors|, _ => true);
      tls := seq(|destructors|, _ => NULL);
      threads := seq(|destructors|, _ => null);
      keys, nextAssoc, log, chain, cursor, nodes := null, null, [], [], 0, {};
    }

    method Push(assoc: Assoc)
      requires Chained() && assoc !in chain
      modifies this`keys, this`chain, this`cursor, chain`prevKey, assoc`nextKey, assoc`prevKey
      ensures Chained() && chain == [assoc] + old(chain) && cursor == old(cursor) + 1
    {
      assoc.prevKey := null;
      assoc.nextKey := keys;
      if keys != null {
        keys.prevKey := assoc;
      }
      keys := assoc;
      chain := [assoc] + chain;
      cursor := cursor + 1;
    }

    /** ptw32_tkAssocCreate: the new association becomes the head of the chain, in
        front of the cursor. */
    method AssocCreate(k: nat) returns (assoc: Assoc)
      requires Valid() && k < |tls| && live[k] && destructors[k] && threads[k] == null
      modifies this`threads, this`keys, this`chain, this`cursor, this`nodes, chain`prevKey
      ensures Valid() && Todo() == old(Todo())
      ensures fresh(assoc) && nodes == old(nodes) + {assoc} && chain == [assoc] + old(chain)
      ensures threads == old(threads)[k := assoc]
    {
      assoc := new Assoc(k);
      Push(assoc);
      threads := threads[k := assoc];
      nodes := nodes + {assoc};
    }

    /** The neighbours of the association at i, if any, are linked to each other. */
    method Bypass(assoc: Assoc, ghost i: nat)
      requires Linked(chain) && Distinct(chain) && i < |chain| && chain[i] == assoc
      modifies chain`prevKey, chain`nextKey
      ensures Linked(Without(chain, i)) && assoc.nextKey == At(chain, i + 1)
    {
      assert i + 1 < |chain| ==> assoc.nextKey == chain[i + 1];
      assert i > 0 ==> assoc.prevKey == chain[i - 1];
      if assoc.prevKey != null {
        assoc.prevKey.nextKey := assoc.nextKey;
      }
      if assoc.nextKey != null {
        assoc.nextKey.prevKey := assoc.prevKey;
      }
    }

    /** The head and the cursor move past the association at i. */
    method MoveHeads(assoc: Assoc, ghost i: nat)
      requires Distinct(chain) && i < |chain| && chain[i] == assoc && assoc.nextKey == At(chain, i + 1)
      requires cursor <= |chain| && keys == At(chain, 0) && nextAssoc == At(chain, cursor)
      modifies this`keys, this`chain, this`cursor, this`nextAssoc
      ensures chain == Without(old(chain), i)
      ensures cursor == if i < old(cursor) then old(cursor) - 1 else old(cursor)
      ensures cursor <= |chain| && keys == At(chain, 0) && nextAssoc == At(chain, cursor)
    {
      WithoutAt(chain, i, 0);
      WithoutAt(chain, i, cursor);
      if keys == assoc {
        keys := assoc.nextKey;
      }
      if nextAssoc == assoc {
        nextAssoc := assoc.nextKey;
      }
      chain := Without(chain, i);
      if i < cursor { cursor := cursor - 1; }
    }

    method Unlink(assoc: Assoc, ghost i: nat)
      requires Chained() && i < |chain| && chain[i] == assoc
      modifies this`keys, this`chain, this`cursor, this`nextAssoc, chain`prevKey, chain`nextKey
      ensures Chained() && chain == Without(old(chain), i)
      ensures cursor == if i < old(cursor) then old(cursor) - 1 else old(cursor)
    {
      WithoutDistinct(chain, i);
      Bypass(assoc, i);
      MoveHeads(assoc, i);
    }

    /** ptw32_tkAssocDestroy: the association at i leaves the chain, and the cursor
        moves on if it was there. */
    method AssocDestroy(assoc: Assoc, ghost i: nat)
      requires Shaped() && Chained() && Indexed() && i < |chain| && chain[i] == assoc
      modifies this`threads, this`keys, this`chain, this`cursor, this`nextAssoc, chain`prevKey, chain`nextKey
      ensures Shaped() && Chained() && Indexed() && threads == old(threads)[assoc.key := null]
      ensures chain == Without(old(chain), i)
      ensures cursor == if i < old(cursor) then old(cursor) - 1 else old(cursor)
    {
      WithoutMembers(chain, i);
      Unlink(assoc, i);
      threads := threads[assoc.key := null];
    }

    /** The walk along the chain of the thread finds the association of a key exactly
        if there is one. */
    method Find(k: nat) returns (assoc: Assoc?)
      requires Valid() && k < |tls|
      ensures assoc == threads[k]
    {
      assoc := keys;
      ghost var i := 0;
      while assoc != null && assoc.key != k
        invariant i <= |chain| && assoc == At(chain, i)
        invariant forall j :: 0 <= j < i ==> chain[j].key != k
        decreases |chain| - i
      {
        assert i + 1 < |chain| ==> chain[i + 1] == assoc.nextKey;
        assoc := assoc.nextKey;
        i := i + 1;
      }
    }

    /** pthread_setspecific on a key that has not been deleted. */
    method SetSpecific(k: nat, v: Value)
      requires Valid() && k < |tls| && live[k]
      modifies this`tls, this`threads, this`keys, this`chain, this`cursor, this`nodes, chain`prevKey
      ensures fresh(nodes - old(nodes))
      ensures Valid() && tls == old(tls)[k := v] && Todo() == old(Todo())
      ensures forall j :: 0 <= j < |threads| && j != k ==> threads[j] == old(threads[j])
      ensures if destructors[k] && v != NULL && old(threads[k]) == null
              then threads[k] != null && fresh(threads[k]) && chain == [threads[k]] + old(chain)
              else chain == old(chain) && threads == old(threads)
    {
      if destructors[k] && v != NULL {
        var assoc := Find(k);
        if assoc == null {
          assoc := AssocCreate(k);
        }
      }
      StoreValue(k, v);
    }

    /** TlsSetValue. */
    method StoreValue(k: nat, v: Value)
      requires Valid() && k < |tls| && (live[k] && destructors[k] && v != NULL ==> threads[k] != null)
      modifies this`tls
      ensures Valid() && tls == old(tls)[k := v]
    {
      tls := tls[k := v];
    }

    /** pthread_key_delete, as far as this thread goes. */
    method KeyDelete(k: nat)
      requires Valid() && k < |tls| && live[k]
      modifies this`live, this`threads, this`keys, this`chain, this`cursor, this`nextAssoc, chain`prevKey, chain`nextKey
      ensures Valid() && live == old(live)[k := false] && threads == old(threads)[k := null]
      ensures forall a :: a in chain ==> a in old(chain)
      ensures forall a :: a in Todo() <==> a in old(Todo()) && a.key != k
      ensures |Todo()| <= |old(Todo())|
    {
      assert forall a :: a in Todo() ==> a in chain;
      if threads[k] != null && destructors[k] {
        ghost var i :| 0 <= i < |chain| && chain[i] == threads[k];
        Detach(threads[k], i);
      }
      Retire(k);
    }

    /** A key without association is no longer live. */
    method Retire(k: nat)
      requires Shaped() && Chained() && Indexed() && k < |tls| && threads[k] == null
      requires forall j :: 0 <= j < |tls| && j != k && live[j] && destructors[j] && tls[j] != NULL ==>
                 threads[j] != null
      requires forall a :: a in chain ==> a in nodes
      modifies this`live
      ensures Valid() && live == old(live)[k := false]
    {
      assert forall a :: a in chain ==> a.key != k;
      live := live[k := false];
    }

    method Detach(assoc: Assoc, ghost i: nat)
      requires Shaped() && Chained() && Indexed() && i < |chain| && chain[i] == assoc
      modifies this`threads, this`keys, this`chain, this`cursor, this`nextAssoc, chain`prevKey, chain`nextKey
      ensures Shaped() && Chained() && Indexed() && threads == old(threads)[assoc.key := null]
      ensures forall a :: a in chain ==> a in old(chain)
      ensures forall a :: a in Todo() <==> a in old(Todo()) && a != assoc
      ensures |Todo()| <= |old(Todo())|
      ensures cursor == if i < old(cursor) then old(cursor) - 1 else old(cursor)
    {
      WithoutMembers(chain, i);
      TodoWithout(chain, i, cursor);
      AssocDestroy(assoc, i);
    }

    /** Destructors are called for keys that have one, with values that are not NULL. */
    ghost predicate LogOk()
      reads this`log
    {
      forall i :: 0 <= i < |log| ==> log[i].0 < |destructors| && destructors[log[i].0] && log[i].1 != NULL
    }

    /** One action of a destructor; using a deleted key is an error the code does not
        catch, so that here it does nothing. */
    method DoOne(a: Action)
      requires Valid()
      modifies this`tls, this`live, this`threads, this`keys, this`chain, this`cursor, this`nextAssoc, this`nodes, nodes
      ensures Valid()
      ensures fresh(nodes - old(nodes))
      ensures forall k :: 0 <= k < |tls| && k != a.k ==>
                tls[k] == old(tls[k]) && live[k] == old(live[k]) && threads[k] == old(threads[k])
      ensures |tls| == |old(tls)| && |Todo()| <= |old(Todo())|
      ensures forall c :: c in Todo() ==> c in old(Todo())
      ensures forall c :: c in old(Todo()) && c.key != a.k ==> c in Todo()
    {
      if a.k < |tls| && live[a.k] {
        match a {
          case SetValue(k, v) => SetSpecific(k, v);
          case DeleteKey(k) => KeyDelete(k);
        }
      }
    }

    /** All that one destructor call does. */
    method DoAll(actions: seq<Action>)
      requires Valid()
      modifies this`tls, this`live, this`threads, this`keys, this`chain, this`cursor, this`nextAssoc, this`nodes, nodes
      ensures Valid()
      ensures fresh(nodes - old(nodes))
      ensures forall k :: 0 <= k < |tls| && k !in KeysOf(actions) ==>
                tls[k] == old(tls[k]) && live[k] == old(live[k]) && threads[k] == old(threads[k])
      ensures |tls| == |old(tls)| && |Todo()| <= |old(Todo())|
      ensures forall c :: c in Todo() ==> c in old(Todo())
      ensures forall c :: c in old(Todo()) && c.key !in KeysOf(actions) ==> c in Todo()
    {
      for i := 0 to |actions|
        invariant Valid()
        invariant fresh(nodes - old(nodes))
        invariant |tls| == |old(tls)| && |Todo()| <= |old(Todo())|
        invariant forall k :: 0 <= k < |tls| && k !in KeysOf(actions) ==>
                    tls[k] == old(tls[k]) && live[k] == old(live[k]) && threads[k] == old(threads[k])
        invariant forall c :: c in Todo() ==> c in old(Todo())
        invariant forall c :: c in old(Todo()) && c.key !in KeysOf(actions) ==> c in Todo()
      {
        assert actions[i] in actions;
        DoOne(actions[i]);
      }
    }

    /** The cursor moves to the association after the one it is at. */
    method Advance() returns (assoc: Assoc)
      requires Chained() && nextAssoc != null
      modifies this`nextAssoc, this`cursor
      ensures Chained() && assoc == old(nextAssoc)
      ensures cursor == old(cursor) + 1 && chain[cursor - 1] == assoc
    {
      assoc := nextAssoc;
      assert chain[cursor] == assoc;
      assert cursor + 1 < |chain| ==> chain[cursor + 1] == assoc.nextKey;
      nextAssoc := assoc.nextKey;
      cursor := cursor + 1;
    }

    /** The next association, with the value it stands for, which is cleared. */
    method Take() returns (assoc: Assoc, value: Value)
      requires Valid() && nextAssoc != null
      modifies this`nextAssoc, this`cursor, this`tls
      ensures Valid() && assoc == old(nextAssoc) && assoc.key < |tls| && destructors[assoc.key]
      ensures cursor == old(cursor) + 1 && chain[cursor - 1] == assoc
      ensures value == old(tls)[assoc.key] && tls == old(tls)[assoc.key := NULL]
      ensures |Todo()| == |old(Todo())| - 1
      ensures forall c :: c in Todo() <==> c in old(Todo()) && c.key != assoc.key
    {
      assert nextAssoc in chain;
      TodoTail(chain, cursor);
      TodoListed(chain, cursor);
      assoc := Advance();
      value := tls[assoc.key];
      tls := tls[assoc.key := NULL];
    }

    ghost predicate Kept(j: nat, ts: seq<Value>, ls: seq<bool>, hs: seq<Assoc?>)
      reads this`live, this`tls, this`threads
    {
      && j < |ts| == |ls| == |hs| == |tls| == |live| == |threads|
      && tls[j] == ts[j] && live[j] == ls[j] && threads[j] == hs[j]
    }

    /** One association: its value is cleared, and either handed to the destructor or,
        if it is NULL already or the passes are used up, dropped together with the
        association. */
    method Visit(iterations: nat, script: Script) returns (k: nat, v: Value, called: bool)
      requires Valid() && nextAssoc != null
      modifies this, nodes
      ensures Valid() && fresh(nodes - old(nodes)) && |tls| == |old(tls)|
      ensures k == old(nextAssoc.key) && k < |tls| && destructors[k] && v == old(tls)[k]
      ensures called == (v != NULL && iterations <= PTHREAD_DESTRUCTOR_ITERATIONS)
      ensures if called then log == old(log) + [(k, v)] else log == old(log)
      ensures |Todo()| < |old(Todo())|
      ensures forall c :: c in Todo() ==> c in old(Todo()) && c.key != k
      ensures var acted := if called then KeysOf(script(|old(log)|)) else {};
              && (forall c :: c in old(Todo()) && c.key != k && c.key !in acted ==> c in Todo())
              && (forall j :: 0 <= j < |tls| && j != k && j !in acted ==> Kept(j, old(tls), old(live), old(threads)))
              && (k !in acted ==> live[k] == old(live)[k])
      ensures !called && old(cursor) == 0 ==> cursor == 0
    {
      var assoc;
      assoc, v := Take();
      k := assoc.key;
      called := v != NULL && iterations <= PTHREAD_DESTRUCTOR_ITERATIONS;
      if called {
        HandOver(k, v, script);
      } else {
        Discard(assoc);
      }
    }

    /** The destructor is called with the value. */
    method HandOver(k: nat, v: Value, script: Script)
      requires Valid()
      modifies this, nodes
      ensures Valid() && fresh(nodes - old(nodes)) && log == old(log) + [(k, v)]
      ensures forall c :: c in Todo() ==> c in old(Todo())
      ensures |tls| == |old(tls)| && |Todo()| <= |old(Todo())|
      ensures var acted := KeysOf(script(|old(log)|));
              && (forall c :: c in old(Todo()) && c.key !in acted ==> c in Todo())
              && (forall j :: 0 <= j < |tls| && j !in acted ==> Kept(j, old(tls), old(live), old(threads)))
    {
      log := log + [(k, v)];
      DoAll(script(|log| - 1));
    }

    /** The association just visited is dropped. */
    method Discard(assoc: Assoc)
      requires Valid() && cursor > 0 && chain[cursor - 1] == assoc && tls[assoc.key] == NULL
      modifies this`threads, this`keys, this`chain, this`cursor, this`nextAssoc, nodes
      ensures Valid() && cursor == old(cursor) - 1 && |Todo()| <= |old(Todo())| && log == old(log)
      ensures forall c :: c in Todo() <==> c in old(Todo()) && c != assoc
      ensures threads == old(threads)[assoc.key := null]
    {
      assert chain[cursor - 1] in chain;
      Detach(assoc, cursor - 1);
    }

    /** Key k still has v, and its association is still to be visited. */
    ghost predicate Waiting(k: nat, v: Value)
      reads this`tls, this`threads, this`chain, this`cursor
    {
      cursor <= |chain| && WaitsIn(tls, threads, Todo(), k, v)
    }

    /** No key has had two destructor calls since the log had length n. */
    ghost predicate OncePerKey(n: nat)
      reads this`log
    {
      forall i, j :: n <= i < j < |log| ==> log[i].0 != log[j].0
    }

    /** No key whose association is still to be visited has had a destructor call
        since the log had length n. */
    ghost predicate UnvisitedUncalled(n: nat)
      requires cursor <= |chain|
      reads this`log, this`chain, this`cursor
    {
      forall i, c :: n <= i < |log| && c in Todo() ==> log[i].0 != c.key
    }

    /** One visit keeps that each owed value is served or waits, unless a destructor
        has acted on its key. */
    method VisitOwed(iterations: nat, script: Script, ghost n: nat, ghost owed: map<nat, Value>) returns (called: bool)
      requires Valid() && LogOk() && nextAssoc != null && n <= |log| && OncePerKey(n) && UnvisitedUncalled(n)
      requires iterations <= PTHREAD_DESTRUCTOR_ITERATIONS ==> forall k :: k in owed ==>
                 && owed[k] != NULL
                 && (k in ActedOn(script, n, |log|) || Served(log, n, k, owed[k]) || Waiting(k, owed[k]))
      modifies this, nodes
      ensures Valid() && fresh(nodes - old(nodes)) && |tls| == |old(tls)|
      ensures LogOk() && (called ==> iterations <= PTHREAD_DESTRUCTOR_ITERATIONS)
      ensures |log| == |old(log)| + (if called then 1 else 0) && log[..|old(log)|] == old(log)
      ensures |Todo()| < |old(Todo())| && (!called && old(cursor) == 0 ==> cursor == 0)
      ensures OncePerKey(n) && UnvisitedUncalled(n)
      ensures iterations <= PTHREAD_DESTRUCTOR_ITERATIONS ==> forall k :: k in owed ==>
                k in ActedOn(script, n, |log|) || Served(log, n, k, owed[k]) || Waiting(k, owed[k])
    {
      var k, v;
      k, v, called := Visit(iterations, script);
      forall j | iterations <= PTHREAD_DESTRUCTOR_ITERATIONS && j in owed
        ensures j in ActedOn(script, n, |log|) || Served(log, n, j, owed[j]) || Waiting(j, owed[j])
      {
        if j !in ActedOn(script, n, |log|) && j != k && j < |tls| {
          assert Kept(j, old(tls), old(live), old(threads));
        }
        StillOwed(script, n, old(log), log, (k, v), old(tls), tls, old(threads), threads,
                  old(Todo()), Todo(), j, owed[j]);
      }
    }

    /** The values whose keys have a destructor. */
    ghost function Owed(): map<nat, Value>
      requires Shaped()
      reads this`live, this`tls, this`threads
    {
      map k: nat | k < |tls| && live[k] && destructors[k] && tls[k] != NULL :: tls[k]
    }

    /** One pass over the chain. Associations made meanwhile are in front of the
        cursor and left for the next pass, so that the pass ends, and calls no
        destructor twice. */
    method RunPass(iterations: nat, script: Script) returns (assocsRemaining: nat)
      requires Valid() && LogOk()
      modifies this, nodes
      ensures Valid() && LogOk() && fresh(nodes - old(nodes)) && |tls| == |old(tls)|
      ensures |log| == |old(log)| + assocsRemaining && log[..|old(log)|] == old(log) && OncePerKey(|old(log)|)
      ensures iterations > PTHREAD_DESTRUCTOR_ITERATIONS ==> assocsRemaining == 0
      ensures assocsRemaining == 0 ==> chain == []
      ensures iterations <= PTHREAD_DESTRUCTOR_ITERATIONS ==> forall k :: k in old(Owed()) ==>
                k in ActedOn(script, |old(log)|, |log|) || Served(log, |old(log)|, k, old(Owed())[k])
    {
      ghost var n, owed := |log|, Owed();
      assocsRemaining := 0;
      nextAssoc := keys;
      cursor := 0;
      assert Todo() == chain;
      while nextAssoc != null
        invariant Valid() && LogOk() && fresh(nodes - old(nodes)) && |tls| == |old(tls)|
        invariant |log| == n + assocsRemaining && log[..n] == old(log)
        invariant OncePerKey(n) && UnvisitedUncalled(n)
        invariant iterations > PTHREAD_DESTRUCTOR_ITERATIONS ==> assocsRemaining == 0
        invariant assocsRemaining == 0 ==> cursor == 0
        invariant iterations <= PTHREAD_DESTRUCTOR_ITERATIONS ==> forall k :: k in owed ==>
                    k in ActedOn(script, n, |log|) || Served(log, n, k, owed[k]) || Waiting(k, owed[k])
        decreases |Todo()|
      {
        var called := VisitOwed(iterations, script, n, owed);
        if called { assocsRemaining := assocsRemaining + 1; }
      }
      assert Todo() == [];
    }

    /** ptw32_callUserDestroyRoutines. Whatever the destructors do with keys, at most
        five passes are made, no key's destructor is called more than four times, and
        at the end the chain is empty and no value is left that has a destructor. Each
        value there at the beginning has been handed to the destructor of its key,
        unless a destructor called in the first pass has acted on that key. */
    method CallUserDestroyRoutines(script: Script) returns (iterations: nat, ghost first: nat)
      requires Valid() && LogOk()
      modifies this, nodes
      ensures Valid() && LogOk() && keys == null && chain == [] && Owed() == map[]
      ensures 1 <= iterations <= PTHREAD_DESTRUCTOR_ITERATIONS + 1
      ensures |old(log)| <= first <= |log| && log[..|old(log)|] == old(log)
      ensures forall k :: Calls(log[|old(log)|..], k) <= PTHREAD_DESTRUCTOR_ITERATIONS
      ensures forall k :: k in old(Owed()) ==>
                k in ActedOn(script, |old(log)|, first) || Served(log, |old(log)|, k, old(Owed())[k])
    {
      ghost var n, owed := |log|, Owed();
      iterations := 1;
      var assocsRemaining := RunPass(iterations, script);
      first := |log|;
      PassCalls(old(log), log, n);
      while assocsRemaining != 0
        invariant Valid() && LogOk() && fresh(nodes - old(nodes))
        invariant 1 <= iterations <= PTHREAD_DESTRUCTOR_ITERATIONS + 1 && n <= first <= |log|
        invariant log[..n] == old(log)
        invariant assocsRemaining != 0 ==> iterations <= PTHREAD_DESTRUCTOR_ITERATIONS
        invariant assocsRemaining == 0 ==> chain == []
        invariant forall k :: Calls(log[n..], k) <= Least(iterations, PTHREAD_DESTRUCTOR_ITERATIONS)
        invariant forall k :: k in owed ==> k in ActedOn(script, n, first) || Served(log, n, k, owed[k])
        decreases PTHREAD_DESTRUCTOR_ITERATIONS + 1 - iterations
      {
        iterations := iterations + 1;
        ghost var was := log;
        assocsRemaining := RunPass(iterations, script);
        PassCalls(was, log, n);
        forall k | k in owed && k !in ActedOn(script, n, first) ensures Served(log, n, k, owed[k]) {
          ServedStays(was, log, n, k, owed[k]);
        }
      }
    }
  }

  ghost predicate WaitsIn(tls: seq<Value>, threads: seq<Assoc?>, todo: seq<Assoc>, k: nat, v: Value)
  {
    k < |tls| && k < |threads| && tls[k] == v && threads[k] != null && threads[k] in todo
  }

  /** A value w of key j that was served or waited, or whose key was acted on, is so
      still after a visit of the association and value of call. */
  lemma StillOwed(script: Script, n: nat, log: seq<(nat, Value)>, log': seq<(nat, Value)>, call: (nat, Value),
                  tls: seq<Value>, tls': seq<Value>, threads: seq<Assoc?>, threads': seq<Assoc?>,
                  todo: seq<Assoc>, todo': seq<Assoc>, j: nat, w: Value)
    requires n <= |log| && (log' == log || log' == log + [call])
    requires w != NULL && (j in ActedOn(script, n, |log|) || Served(log, n, j, w) || WaitsIn(tls, threads, todo, j, w))
    requires call.0 == j && j < |tls| && tls[j] == w ==> log' == log + [(j, w)]
    requires j < |threads| && threads[j] != null && threads[j] in todo ==> threads[j].key == j
    requires |tls'| == |tls| && |threads'| == |threads|
    requires j !in ActedOn(script, n, |log'|) && j != call.0 && j < |tls| && j < |threads| ==>
               tls'[j] == tls[j] && threads'[j] == threads[j]
    requires j !in ActedOn(script, n, |log'|) && j != call.0 ==>
               forall c :: c in todo && c.key == j ==> c in todo'
    ensures j in ActedOn(script, n, |log'|) || Served(log', n, j, w) || WaitsIn(tls', threads', todo', j, w)
  {
    if Served(log, n, j, w) {
      ServedStays(log, log', n, j, w);
    } else if j !in ActedOn(script, n, |log'|) && j == call.0 {
      assert j !in ActedOn(script, n, |log|);
      assert log'[|log|] == (j, w);
    }
  }

  function Least(i: nat, j: nat): nat { if i < j then i else j }

  /** How many destructor calls of a log were for key k. */
  function Calls(s: seq<(nat, Value)>, k: nat): nat
  {
    if s == [] then 0 else Calls(s[..|s| - 1], k) + if s[|s| - 1].0 == k then 1 else 0
  }

  lemma {:induction false} CallsAppend(s: seq<(nat, Value)>, t: seq<(nat, Value)>, k: nat)
    ensures Calls(s + t, k) == Calls(s, k) + Calls(t, k)
  {
    if t == [] {
      assert s + t == s;
    } else {
      assert (s + t)[..|s + t| - 1] == s + t[..|t| - 1];
      CallsAppend(s, t[..|t| - 1], k);
    }
  }

  lemma {:induction false} OnceMeansOne(s: seq<(nat, Value)>, k: nat)
    requires forall i, j :: 0 <= i < j < |s| ==> s[i].0 != s[j].0
    ensures Calls(s, k) <= 1
    ensures (forall i :: 0 <= i < |s| ==> s[i].0 != k) ==> Calls(s, k) == 0
  {
    if s == [] {
    } else {
      OnceMeansOne(s[..|s| - 1], k);
    }
  }

  /** The destructor of k has been called with v since the log had length n. */
  ghost predicate Served(log: seq<(nat, Value)>, n: nat, k: nat, v: Value)
  {
    exists i :: n <= i < |log| && log[i] == (k, v)
  }

  lemma ServedStays(was: seq<(nat, Value)>, log: seq<(nat, Value)>, n: nat, k: nat, v: Value)
    requires Served(was, n, k, v) && |was| <= |log| && log[..|was|] == was
    ensures Served(log, n, k, v)
  {
    var i :| n <= i < |was| && was[i] == (k, v);
    assert log[i] == log[..|was|][i];
  }

  /** A pass that takes the log from was to log adds at most one call for each key. */
  lemma PassCalls(was: seq<(nat, Value)>, log: seq<(nat, Value)>, n: nat)
    requires n <= |was| <= |log| && log[..|was|] == was
    requires forall i, j :: |was| <= i < j < |log| ==> log[i].0 != log[j].0
    ensures forall k :: Calls(log[n..], k) <= Calls(was[n..], k) + if |log| == |was| then 0 else 1
  {
    assert log[n..] == was[n..] + log[|was|..];
    forall k ensures Calls(log[n..], k) <= Calls(was[n..], k) + if |log| == |was| then 0 else 1 {
      CallsAppend(was[n..], log[|was|..], k);
      OnceMeansOne(log[|was|..], k);
    }
  }

  lemma TodoTail(s: seq<Assoc>, c: nat)
    requires c < |s| && Distinct(s)
    ensures forall a :: a in s[c + 1..] <==> a in s[c..] && a != s[c]
  {
    assert Without(s[c..], 0) == s[c + 1..];
    WithoutMembers(s[c..], 0);
  }

  lemma TodoListed(s: seq<Assoc>, c: nat)
    requires c <= |s|
    ensures forall a :: a in s[c..] ==> a in s
  {
  }

  /** The keys some actions are about. */
  ghost function KeysOf(actions: seq<Action>): set<nat>
  {
    set a | a in actions :: a.k
  }

  /** The keys acted on by destructor calls number i up to j. */
  ghost function ActedOn(script: Script, i: nat, j: nat): set<nat>
    requires i <= j
  {
    if i == j then {} else ActedOn(script, i, j - 1) + KeysOf(script(j - 1))
  }

  /** What a cursor at c has still to visit once the node at i is gone. */
  lemma TodoWithout(s: seq<Assoc>, i: nat, c: nat)
    requires i < |s| && c <= |s| && Distinct(s)
    ensures var r := Without(s, i)[if i < c then c - 1 else c..];
            |r| <= |s| - c && forall a :: a in r <==> a in s[c..] && a != s[i]
  {
    if i < c {
      assert Without(s, i)[c - 1..] == s[c..];
    } else {
      assert s[c..][i - c] == s[i];
      assert Without(s, i)[c..] == Without(s[c..], i - c);
      WithoutMembers(s[c..], i - c);
    }
  }
}
