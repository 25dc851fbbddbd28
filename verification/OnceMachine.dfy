/** The once control as the program keeps it, on top of the lock it keeps in place. */
module OnceMachine {
  import opened Once
  import McsLock
  import McsMachine

  class Control {
    var done: bool
    const lock: McsMachine.Lock
    var inits: nat       // history
    var pcs: seq<Pc>

    ghost function Abs(): State
      reads this, lock, lock.nodes
    {
      State(done, inits, lock.Abs(), pcs)
    }

    ghost predicate Valid()
      reads this, lock, lock.nodes
    {
      Inv(Abs())
    }

    constructor (threads: nat)
      ensures fresh(lock) && fresh(lock.nodes) && Valid() && Abs() == Start(threads)
    {
      done, inits := false, 0;
      lock := new McsMachine.Lock(threads);
      pcs := Idlers(threads);
      new;
      assert Abs() == Start(threads);
      StartInv(threads);
    }

    /** The next step of thread t; cancel says whether a running init_routine is
        cancelled (pthread_once.c:58-92). */
    method Advance(t: nat, cancel: bool)
      requires Valid()
      modifies this, lock, lock.nodes
      ensures Valid() && Abs() == Step(old(Abs()), t, cancel)
    {
      ghost var before := Abs();
      if t < |pcs| {
        var p := pcs[t];
        if UsesLock(p) {
          lock.Advance(t, CallOf(p));
          p := AfterLock(p, lock.nodes[t].pc);
        } else {
          match p {
            case Out(_) => p := Check;
            case Check => p := if done then Out(true) else Want;
            case Test => p := if done then Leave(false) else Init;
            case Init =>
              if cancel {
                p := Leave(true);
              } else {
                inits := inits + 1;
                p := Mark;
              }
            case Mark =>
              done := true;
              p := Leave(false);
          }
        }
        pcs := pcs[t := p];
      }
      assert Abs() == Step(before, t, cancel);
      StepInv(before, t, cancel);
    }

    /** Threads moving in the order the schedule gives. */
    method Execute(schedule: Schedule)
      requires Valid()
      modifies this, lock, lock.nodes
      ensures Valid() && Abs() == Run(old(Abs()), schedule)
    {
      for i := 0 to |schedule|
        invariant Valid() && Abs() == Run(old(Abs()), schedule[..i])
      {
        Advance(schedule[i].0, schedule[i].1);
        assert schedule[..i + 1][..i] == schedule[..i];
      }
      assert schedule[..|schedule|] == schedule;
    }
  }
}
