/**
  The functions of evactor.c and evpipe.c as they run, and the proof that each is a run of the protocol.
 */
module ActorLoop {
  import opened Common
  import opened Actors

  /** EVACTOR_DONE for a batch. */
  function DoneAll(batch: seq<Actor>): seq<Event> {
    if batch == [] then [] else DoneAll(batch[..|batch| - 1]) + [Finished(batch[|batch| - 1])]
  }

  lemma {:induction false} DoneAllConcat(x: seq<Actor>, y: seq<Actor>)
    ensures DoneAll(x + y) == DoneAll(x) + DoneAll(y)
    decreases |y|
  {
    if y == [] {
      assert x + y == x;
    } else {
      assert (x + y)[..|x + y| - 1] == x + y[..|y| - 1];
      DoneAllConcat(x, y[..|y| - 1]);
    }
  }

  lemma {:induction false} RunSnoc(cap: nat, s: World, steps: seq<Step>, step: Step)
    requires LegalRun(cap, s, steps) && Can(Run(cap, s, steps), step)
    ensures LegalRun(cap, s, steps + [step])
    ensures Run(cap, s, steps + [step]) == Act(cap, Run(cap, s, steps), step)
    decreases |steps|
  {
    hide Act, Can;
    if steps == [] {
      assert steps + [step] == [step];
      assert Run(cap, Act(cap, s, step), [step][1..]) == Act(cap, s, step);
    } else {
      assert (steps + [step])[1..] == steps[1..] + [step];
      RunSnoc(cap, Act(cap, s, steps[0]), steps[1..], step);
    }
  }

  /** One more step of a run that has come to `t`. */
  lemma Extend(cap: nat, s: World, steps: seq<Step>, t: World, step: Step)
    requires LegalRun(cap, s, steps) && Run(cap, s, steps) == t && Can(t, step)
    ensures LegalRun(cap, s, steps + [step]) && Run(cap, s, steps + [step]) == Act(cap, t, step)
  {
    RunSnoc(cap, s, steps, step);
  }

  class Completion {
    const capacity: nat
    var finished: seq<Actor>
    var pipe: nat
    ghost var trace: seq<Event>

    constructor (capacity: nat)
      ensures this.capacity == capacity && finished == [] && pipe == 0 && trace == []
    {
      this.capacity := capacity;
      finished, pipe, trace := [], 0, [];
    }

    /** `s` is a state of the protocol with this list, this pipe and these calls, the main thread at `main`. */
    ghost predicate Shows(s: World, main: Main)
      reads this
    {
      s.finished == finished && s.pipe == pipe && s.trace == trace && s.main == main
    }

    /** evnet_async */
    method Async()
      modifies `pipe
      ensures pipe == Written(old(pipe), capacity)
    {
      if pipe < capacity {
        pipe := pipe + 1;
      }
    }

    /** pipe_read: what is there, `size` bytes at most, or -1. */
    method PipeRead(size: nat) returns (n: int)
      requires size > 0
      modifies `pipe
      ensures if old(pipe) == 0 then n == -1 && pipe == 0 else n == Min(old(pipe), size) && pipe == old(pipe) - n
    {
      if pipe == 0 {
        return -1;
      }
      n := Min(pipe, size);
      pipe := pipe - n;
    }

    /** evpipe_dummy */
    method DrainPipe(ghost s: World) returns (ghost steps: seq<Step>)
      requires Shows(s, Draining(false)) && pipe > 0
      modifies `pipe
      ensures pipe == 0
      ensures LegalRun(capacity, s, steps) && Shows(Run(capacity, s, steps), Checking)
    {
      hide LegalRun, Run;
      steps := [];
      ghost var t := s;
      NoSteps(capacity, s);
      var n := 1;
      while n > 0
        invariant n > 0 || pipe == 0
        invariant LegalRun(capacity, s, steps) && Run(capacity, s, steps) == t
        invariant t.main.Draining? && Shows(t, t.main)
        decreases pipe, n
      {
        n := PipeRead(255);
        if n > 0 {
          Extend(capacity, s, steps, t, Drain(n));
          steps, t := steps + [Drain(n)], Act(capacity, t, Drain(n));
        }
      }
      Extend(capacity, s, steps, t, Drained);
      steps := steps + [Drained];
    }

    /** actor_run, by worker `w` for the actor that it picked. */
    method ActorRun(a: Actor, ghost s: World, ghost w: nat) returns (ghost steps: seq<Step>)
      requires Shows(s, s.main) && w < |s.workers| && s.workers[w] == Picked(a)
      modifies this
      ensures finished == old(finished) + [a] && pipe == Written(old(pipe), capacity)
      ensures trace == old(trace) + [ThreadRun(a)]
      ensures LegalRun(capacity, s, steps) && Shows(Run(capacity, s, steps), s.main)
    {
      hide LegalRun, Run;
      ghost var s1 := Act(capacity, s, Call(w));
      ghost var s2 := Act(capacity, s1, Append(w));
      steps := [];
      NoSteps(capacity, s);
      trace := trace + [ThreadRun(a)];
      Extend(capacity, s, steps, s, Call(w));
      steps := steps + [Call(w)];
      finished := finished + [a];
      Extend(capacity, s, steps, s1, Append(w));
      steps := steps + [Append(w)];
      Async();
      Extend(capacity, s, steps, s2, Signal(w));
      steps := steps + [Signal(w)];
    }

    /** The loop of evactor_loop under the mutex: at most MAX_TCB actors leave the list. */
    method TakeBatch() returns (batch: seq<Actor>)
      modifies `finished
      ensures |batch| == Min(|old(finished)|, MAX_BATCH) && batch + finished == old(finished)
    {
      batch := [];
      while finished != []
        invariant |batch| < MAX_BATCH && batch + finished == old(finished)
      {
        batch, finished := batch + [finished[0]], finished[1..];
        if |batch| >= MAX_BATCH {
          break;
        }
      }
    }

    /** The loop of evactor_loop over the batch taken. */
    method TellAll(batch: seq<Actor>, ghost s: World, ghost before: seq<Step>) returns (ghost steps: seq<Step>)
      requires LegalRun(capacity, s, before) && Shows(Run(capacity, s, before), Dispatching(|batch|, batch))
      modifies `trace
      ensures trace == old(trace) + DoneAll(batch)
      ensures LegalRun(capacity, s, steps) && Shows(Run(capacity, s, steps), Dispatching(|batch|, []))
    {
      hide LegalRun, Run, DoneAll;
      ghost var t := Run(capacity, s, before);
      steps := before;
      assert batch[..0] == [] && batch[0..] == batch && DoneAll([]) == [] by {
        DoneNone();
      }
      for i := 0 to |batch|
        invariant trace == old(trace) + DoneAll(batch[..i])
        invariant LegalRun(capacity, s, steps) && Run(capacity, s, steps) == t
        invariant Shows(t, Dispatching(|batch|, batch[i..]))
      {
        var a := batch[i];
        assert batch[..i + 1] == batch[..i] + [a];
        assert batch[i..] == [a] + batch[i + 1..];
        DoneAllConcat(batch[..i], [a]);
        DoneOne(a);
        Extend(capacity, s, steps, t, Tell);
        steps, t := steps + [Tell], Act(capacity, t, Tell);
        trace := trace + [Finished(a)];
      }
      assert batch[..|batch|] == batch && batch[|batch|..] == [];
    }

    /** evactor_loop */
    method Loop(ghost s: World) returns (ghost steps: seq<Step>)
      requires Shows(s, Checking)
      modifies this
      ensures var n := Min(|old(finished)|, MAX_BATCH);
              && finished == old(finished)[n..] && trace == old(trace) + DoneAll(old(finished)[..n])
              && pipe == if n == MAX_BATCH then Written(old(pipe), capacity) else old(pipe)
      ensures LegalRun(capacity, s, steps) && Shows(Run(capacity, s, steps), Polling)
    {
      hide LegalRun, Run, DoneAll;
      ghost var all := finished;
      steps := [];
      NoSteps(capacity, s);
      DoneNone();
      Extend(capacity, s, steps, s, Check);
      steps := steps + [Check];
      if finished == [] {
        return;
      }
      ghost var t := s.(main := Taking);
      var batch := TakeBatch();
      ghost var n := |batch|;
      assert all[..n] == batch && all[n..] == finished;
      Extend(capacity, s, steps, t, Take);
      steps := steps + [Take];
      steps := TellAll(batch, s, steps);
      Extend(capacity, s, steps, Run(capacity, s, steps), Leave);
      steps := steps + [Leave];
      if |batch| >= MAX_BATCH {
        Async();
      }
    }

    /** The main loop once, when the pipe wakes it and nobody else runs: evpipe_dummy, then evactor_loop. */
    method Round()
      requires pipe > 0
      modifies this
      ensures var n := Min(|old(finished)|, MAX_BATCH);
              && finished == old(finished)[n..] && trace == old(trace) + DoneAll(old(finished)[..n])
              && pipe == if n == MAX_BATCH then Written(0, capacity) else 0
    {
      hide LegalRun, Run, DoneAll;
      ghost var s := World([], [], finished, pipe, Draining(false), 0, [], trace);
      ghost var steps := DrainPipe(s);
      steps := Loop(World([], [], finished, 0, Checking, 0, [], trace));
    }

    /**
      The main loop until the pipe wakes it no more: everything on the list is told, in order, in rounds of
      128 of which the last one is not full.
     */
    method Settle() returns (rounds: nat)
      requires finished != [] ==> pipe > 0
      requires capacity > 0
      modifies this
      ensures finished == [] && pipe == 0 && trace == old(trace) + DoneAll(old(finished))
      ensures rounds == if old(pipe) == 0 then 0 else |old(finished)| / MAX_BATCH + 1
    {
      hide DoneAll;
      rounds := 0;
      ghost var told, all := [], finished;
      assert all == told + finished && DoneAll(told) == [] by {
        DoneNone();
      }
      while pipe > 0
        invariant all == told + finished && trace == old(trace) + DoneAll(told)
        invariant finished != [] ==> pipe > 0
        invariant if rounds == 0 then pipe == old(pipe) && told == [] else old(pipe) > 0
        invariant pipe > 0 ==> |told| == rounds * MAX_BATCH
        invariant rounds > 0 && pipe == 0 ==> (rounds - 1) * MAX_BATCH <= |all| < rounds * MAX_BATCH
        decreases |finished|, pipe
      {
        ghost var n := Min(|finished|, MAX_BATCH);
        ghost var batch := finished[..n];
        assert finished == batch + finished[n..];
        Round();
        DoneAllConcat(told, batch);
        told := told + batch;
        rounds := rounds + 1;
      }
      assert told == all;
    }
  }

  lemma DoneNone()
    ensures DoneAll([]) == []
  {
  }

  lemma DoneOne(a: Actor)
    ensures DoneAll([a]) == [Finished(a)]
  {
    assert [a][..0] == [];
  }

  lemma NoSteps(cap: nat, s: World)
    ensures LegalRun(cap, s, []) && Run(cap, s, []) == s
  {
  }
}
