/**
  The completion protocol of evactor.c: worker threads append finished actors to a list and write a byte
  to a pipe, the main thread drains the pipe and takes the list in batches.  One step is what a thread
  does without another being able to come between; a run is any interleaving.
 */
module Actors {
  import opened Common

  /** MAX_TCB */
  const MAX_BATCH: nat := 128

  type Actor = nat

  datatype Event = ThreadRun(actor: Actor) | Finished(actor: Actor)

  /** A worker: before and after its handler call, and between appending to the list and signalling. */
  datatype Worker = Idle | Picked(actor: Actor) | Ran(actor: Actor) | Unsignalled

  /**
    The main thread: in epoll_wait, in evpipe_dummy (`some`: it has read a byte), before the unlocked
    test for an empty list, before the mutex, or with a batch of which `left` is still to be told.
   */
  datatype Main =
    | Polling
    | Draining(some: bool)
    | Checking
    | Taking
    | Dispatching(taken: nat, left: seq<Actor>)

  /**
    `pool` is the work handed to the thread pool, `next` the number of actors submitted, `order` the
    actors in the order of their list_add_tail, and `trace` the handler calls.
   */
  datatype World = World(
    pool: seq<Actor>, workers: seq<Worker>, finished: seq<Actor>, pipe: nat, main: Main,
    next: nat, order: seq<Actor>, trace: seq<Event>)

  datatype Step =
    | Submit
    | Pick(worker: nat, job: nat) | Call(worker: nat) | Append(worker: nat) | Signal(worker: nat)
    | Wake | Timeout | Drain(bytes: nat) | Drained
    | Check | Take | Tell | Leave

  /** A write to a non-blocking pipe that holds `cap` bytes at most; 0 stands for a loop made without a pipe. */
  function Written(pipe: nat, cap: nat): nat { if pipe < cap then pipe + 1 else pipe }

  predicate Can(s: World, step: Step) {
    match step
    case Submit => true
    case Pick(w, j) => w < |s.workers| && s.workers[w].Idle? && j < |s.pool|
    case Call(w) => w < |s.workers| && s.workers[w].Picked?
    case Append(w) => w < |s.workers| && s.workers[w].Ran?
    case Signal(w) => w < |s.workers| && s.workers[w].Unsignalled?
    case Wake => s.main.Polling? && s.pipe > 0
    case Timeout => s.main.Polling?
    case Drain(k) => s.main.Draining? && 0 < k <= Min(s.pipe, 255)
    case Drained => s.main.Draining? && s.pipe == 0
    case Check => s.main.Checking?
    case Take => s.main.Taking?
    case Tell => s.main.Dispatching? && s.main.left != []
    case Leave => s.main.Dispatching? && s.main.left == []
  }

  function Act(cap: nat, s: World, step: Step): World
    requires Can(s, step)
  {
    match step
    case Submit => s.(pool := s.pool + [s.next], next := s.next + 1)
    case Pick(w, j) => s.(pool := s.pool[..j] + s.pool[j + 1..], workers := s.workers[w := Picked(s.pool[j])])
    case Call(w) =>
      s.(workers := s.workers[w := Ran(s.workers[w].actor)], trace := s.trace + [ThreadRun(s.workers[w].actor)])
    case Append(w) =>
      var a := s.workers[w].actor;
      s.(workers := s.workers[w := Unsignalled], finished := s.finished + [a], order := s.order + [a])
    case Signal(w) => s.(workers := s.workers[w := Idle], pipe := Written(s.pipe, cap))
    case Wake => s.(main := Draining(false))
    case Timeout => s.(main := Checking)
    case Drain(k) => s.(main := Draining(true), pipe := s.pipe - k)
    case Drained => s.(main := Checking)
    case Check => s.(main := if s.finished == [] then Polling else Taking)
    case Take =>
      var n := Min(|s.finished|, MAX_BATCH);
      s.(main := Dispatching(n, s.finished[..n]), finished := s.finished[n..])
    case Tell =>
      s.(main := s.main.(left := s.main.left[1..]), trace := s.trace + [Finished(s.main.left[0])])
    case Leave => s.(main := Polling, pipe := if s.main.taken >= MAX_BATCH then Written(s.pipe, cap) else s.pipe)
  }

  predicate LegalRun(cap: nat, s: World, steps: seq<Step>)
    decreases |steps|
  {
    steps == [] || (Can(s, steps[0]) && LegalRun(cap, Act(cap, s, steps[0]), steps[1..]))
  }

  function Run(cap: nat, s: World, steps: seq<Step>): World
    requires LegalRun(cap, s, steps)
    decreases |steps|
  {
    if steps == [] then s else Run(cap, Act(cap, s, steps[0]), steps[1..])
  }

  /** The start, with `n` threads in the pool. */
  function Start(n: nat): World { World([], seq(n, _ => Idle), [], 0, Polling, 0, [], []) }

  // ---- no lost wake-up --------------------------------------------------------------------

  /** Somebody will look at the list without waiting for a time-out. */
  predicate WillLook(s: World) {
    || s.pipe > 0
    || Unsignalled in s.workers
    || s.main.Draining? || s.main.Checking? || s.main.Taking?
    || (s.main.Dispatching? && s.main.taken >= MAX_BATCH)
  }

  predicate Looks(s: World) { s.finished != [] ==> WillLook(s) }

  predicate Awake(cap: nat, s: World) {
    && (if cap > 0 then Looks(s) else s.pipe == 0)
    && (s.main.Draining? && !s.main.some ==> s.pipe > 0)
  }

  lemma AwakeStep(cap: nat, s: World, step: Step)
    requires Awake(cap, s) && Can(s, step)
    ensures Awake(cap, Act(cap, s, step))
  {
    var t := Act(cap, s, step);
    if step.Append? {
      assert t.workers[step.worker] == Unsignalled;
    } else if step.Pick? || step.Call? {
      if Unsignalled in s.workers {
        var w :| 0 <= w < |s.workers| && s.workers[w] == Unsignalled;
        assert t.workers[w] == Unsignalled;
      }
    }
  }

  // ---- where every actor is ---------------------------------------------------------------

  function Hold(w: Worker, a: Actor): nat { if (w.Picked? || w.Ran?) && w.actor == a then 1 else 0 }

  function Held(ws: seq<Worker>, a: Actor): nat {
    if ws == [] then 0 else Held(ws[..|ws| - 1], a) + Hold(ws[|ws| - 1], a)
  }

  function Times(s: seq<Actor>, a: Actor): nat { multiset(s)[a] }

  /** In how many places an actor is: in the pool, at a worker, or finished. */
  function Places(s: World, a: Actor): nat { Times(s.pool, a) + Held(s.workers, a) + Times(s.order, a) }

  /** The actors whose EVACTOR_DONE is in a trace, in order. */
  function Told(trace: seq<Event>): seq<Actor> {
    if trace == [] then []
    else
      var e := trace[|trace| - 1];
      Told(trace[..|trace| - 1]) + if e.Finished? then [e.actor] else []
  }

  /** The handler calls of one actor. */
  function CallsOf(trace: seq<Event>, a: Actor): seq<Event> {
    if trace == [] then []
    else
      var e := trace[|trace| - 1];
      CallsOf(trace[..|trace| - 1], a) + if e.actor == a then [e] else []
  }

  function Left(m: Main): seq<Actor> { if m.Dispatching? then m.left else [] }

  /** What an actor has been called with so far, from where it is. */
  function Due(s: World, a: Actor): seq<Event> {
    if a in Told(s.trace) then [ThreadRun(a), Finished(a)]
    else if a in s.order || Ran(a) in s.workers then [ThreadRun(a)]
    else []
  }

  /** Every actor submitted is in one place, nobody else anywhere. */
  ghost predicate InPlace(s: World) {
    forall a: Actor :: Places(s, a) == if a < s.next then 1 else 0
  }

  /** The actors appended are those told, those left of the batch and those on the list, in this order. */
  predicate InOrder(s: World) { s.order == Told(s.trace) + Left(s.main) + s.finished }

  /** Every handler call made is one that was due. */
  ghost predicate AsDue(s: World) { forall a: Actor :: CallsOf(s.trace, a) == Due(s, a) }

  ghost predicate Tidy(s: World) { InPlace(s) && InOrder(s) && AsDue(s) }

  lemma {:induction false} HeldUpdate(ws: seq<Worker>, w: nat, x: Worker, a: Actor)
    requires w < |ws|
    ensures Held(ws[w := x], a) + Hold(ws[w], a) == Held(ws, a) + Hold(x, a)
    decreases |ws|
  {
    var n := |ws| - 1;
    if w < n {
      HeldUpdate(ws[..n], w, x, a);
      assert ws[w := x][..n] == ws[..n][w := x];
    } else {
      assert ws[w := x][..n] == ws[..n];
    }
  }

  lemma {:induction false} HeldBy(ws: seq<Worker>, w: nat, a: Actor)
    requires w < |ws|
    ensures Hold(ws[w], a) <= Held(ws, a)
    decreases |ws|
  {
    if w < |ws| - 1 {
      HeldBy(ws[..|ws| - 1], w, a);
    }
  }

  lemma TimesConcat(x: seq<Actor>, y: seq<Actor>, a: Actor)
    ensures Times(x + y, a) == Times(x, a) + Times(y, a)
    ensures a in x <==> Times(x, a) > 0
  {
  }

  lemma TraceGrows(trace: seq<Event>, e: Event)
    ensures Told(trace + [e]) == Told(trace) + if e.Finished? then [e.actor] else []
    ensures forall a :: CallsOf(trace + [e], a) == CallsOf(trace, a) + if e.actor == a then [e] else []
  {
    assert (trace + [e])[..|trace|] == trace;
  }

  lemma MembersUpdate(ws: seq<Worker>, w: nat, x: Worker, y: Worker)
    requires w < |ws| && y != x && y != ws[w]
    ensures y in ws[w := x] <==> y in ws
  {
    if y in ws {
      var i :| 0 <= i < |ws| && ws[i] == y;
      assert ws[w := x][i] == y;
    }
  }

  // ---- every step keeps the actors in place -----------------------------------------------

  lemma InPlaceStep(cap: nat, s: World, step: Step, a: Actor)
    requires Can(s, step) && Places(s, a) == if a < s.next then 1 else 0
    ensures var t := Act(cap, s, step);
            Places(t, a) == if a < t.next then 1 else 0
  {
    hide Held, Times;
    var t := Act(cap, s, step);
    if step.Submit? {
      TimesConcat(s.pool, [s.next], a);
      Single(s.next, a);
    } else if step.Pick? {
      var j := step.job;
      assert s.pool == s.pool[..j] + ([s.pool[j]] + s.pool[j + 1..]);
      TimesConcat(s.pool[..j], [s.pool[j]] + s.pool[j + 1..], a);
      TimesConcat([s.pool[j]], s.pool[j + 1..], a);
      TimesConcat(s.pool[..j], s.pool[j + 1..], a);
      Single(s.pool[j], a);
      HeldUpdate(s.workers, step.worker, Picked(s.pool[j]), a);
    } else if step.Call? {
      HeldUpdate(s.workers, step.worker, Ran(s.workers[step.worker].actor), a);
    } else if step.Append? {
      var b := s.workers[step.worker].actor;
      HeldUpdate(s.workers, step.worker, Unsignalled, a);
      TimesConcat(s.order, [b], a);
      Single(b, a);
    } else if step.Signal? {
      HeldUpdate(s.workers, step.worker, Idle, a);
    }
  }

  lemma Single(b: Actor, a: Actor)
    ensures Times([b], a) == if a == b then 1 else 0
  {
  }

  /** An actor that a worker holds is not finished, and no other worker has it. */
  lemma NowhereElse(s: World, w: nat)
    requires InPlace(s) && w < |s.workers| && (s.workers[w].Picked? || s.workers[w].Ran?)
    ensures var a := s.workers[w].actor;
            a !in s.order && (Ran(a) in s.workers <==> s.workers[w].Ran?)
  {
    hide Held, Times;
    var ws, a := s.workers, s.workers[w].actor;
    assert Places(s, a) <= 1;
    HeldBy(ws, w, a);
    TimesConcat(s.order, [], a);
    if Ran(a) in ws {
      var v :| 0 <= v < |ws| && ws[v] == Ran(a);
      if v != w {
        HeldUpdate(ws, w, Idle, a);
        HeldBy(ws[w := Idle], v, a);
      }
    }
  }

  // ---- every step makes the call that is due ------------------------------------------------

  lemma DueCall(cap: nat, s: World, w: nat, x: Actor)
    requires Tidy(s) && Can(s, Call(w))
    ensures var t := Act(cap, s, Call(w));
            CallsOf(t.trace, x) == Due(t, x) && Told(t.trace) == Told(s.trace)
  {
    hide Held, Told, CallsOf, Times, Places;
    var t, a := Act(cap, s, Call(w)), s.workers[w].actor;
    TraceGrows(s.trace, ThreadRun(a));
    NowhereElse(s, w);
    assert CallsOf(s.trace, x) == Due(s, x);
    assert t.workers[w] == Ran(a);
    if x != a {
      MembersUpdate(s.workers, w, Ran(a), Ran(x));
    }
  }

  lemma DueAppend(cap: nat, s: World, w: nat, x: Actor)
    requires Tidy(s) && Can(s, Append(w))
    ensures Due(Act(cap, s, Append(w)), x) == Due(s, x)
  {
    hide Held, Told, CallsOf, Times, Places;
    var t, a := Act(cap, s, Append(w)), s.workers[w].actor;
    NowhereElse(s, w);
    assert a !in Told(s.trace);
    assert s.workers[w] == Ran(a);
    if x != a {
      MembersUpdate(s.workers, w, Unsignalled, Ran(x));
    }
  }

  lemma DueTell(cap: nat, s: World, x: Actor)
    requires Tidy(s) && Can(s, Tell)
    ensures var t := Act(cap, s, Tell);
            CallsOf(t.trace, x) == Due(t, x) && InOrder(t)
  {
    hide Held, CallsOf, Told, Times;
    var t, a := Act(cap, s, Tell), s.main.left[0];
    TraceGrows(s.trace, Finished(a));
    assert s.main.left == [a] + t.main.left;
    assert s.order == Told(s.trace) + ([a] + (t.main.left + s.finished));
    assert s.order == Told(t.trace) + t.main.left + s.finished;
    assert Places(s, a) <= 1;
    TimesConcat(Told(s.trace), [a] + (t.main.left + s.finished), a);
    TimesConcat([a], t.main.left + s.finished, a);
    Single(a, a);
    assert a !in Told(s.trace) && a in s.order;
    assert CallsOf(s.trace, x) == Due(s, x);
  }

  lemma DueOther(cap: nat, s: World, step: Step, x: Actor)
    requires Can(s, step) && !step.Call? && !step.Append? && !step.Tell?
    ensures Due(Act(cap, s, step), x) == Due(s, x)
  {
    hide Told;
    if step.Pick? {
      MembersUpdate(s.workers, step.worker, Picked(s.pool[step.job]), Ran(x));
    } else if step.Signal? {
      MembersUpdate(s.workers, step.worker, Idle, Ran(x));
    }
  }

  lemma TidyStep(cap: nat, s: World, step: Step)
    requires Tidy(s) && Can(s, step)
    ensures Tidy(Act(cap, s, step))
  {
    hide Held, Told, CallsOf, Times, Places, Due;
    var t := Act(cap, s, step);
    forall a: Actor
      ensures Places(t, a) == if a < t.next then 1 else 0
    {
      InPlaceStep(cap, s, step, a);
    }
    forall a: Actor
      ensures CallsOf(t.trace, a) == Due(t, a)
    {
      if step.Call? {
        DueCall(cap, s, step.worker, a);
      } else if step.Append? {
        DueAppend(cap, s, step.worker, a);
      } else if step.Tell? {
        DueTell(cap, s, a);
      } else {
        DueOther(cap, s, step, a);
      }
    }
    if step.Call? {
      DueCall(cap, s, step.worker, 0);
    } else if step.Tell? {
      DueTell(cap, s, 0);
    }
  }

  // ---- all runs -----------------------------------------------------------------------------

  ghost predicate Inv(cap: nat, s: World) { Tidy(s) && Awake(cap, s) }

  lemma StartInv(cap: nat, n: nat)
    ensures Inv(cap, Start(n))
  {
    var s := Start(n);
    forall a: Actor
      ensures Held(s.workers, a) == 0 && Ran(a) !in s.workers
    {
      IdleHold(n, a);
    }
  }

  lemma {:induction false} IdleHold(n: nat, a: Actor)
    ensures Held(seq(n, _ => Idle), a) == 0
  {
    if n > 0 {
      assert seq(n, _ => Idle)[..n - 1] == seq(n - 1, _ => Idle);
      IdleHold(n - 1, a);
    }
  }

  lemma {:induction false} RunInv(cap: nat, s: World, steps: seq<Step>)
    requires Inv(cap, s) && LegalRun(cap, s, steps)
    ensures Inv(cap, Run(cap, s, steps)) && |Run(cap, s, steps).workers| == |s.workers|
    decreases |steps|
  {
    hide Tidy, Awake, Act, Can;
    if steps != [] {
      AwakeStep(cap, s, steps[0]);
      TidyStep(cap, s, steps[0]);
      SameWorkers(cap, s, steps[0]);
      RunInv(cap, Act(cap, s, steps[0]), steps[1..]);
    }
  }

  lemma SameWorkers(cap: nat, s: World, step: Step)
    requires Can(s, step)
    ensures |Act(cap, s, step).workers| == |s.workers|
  {
  }

  /** In every reachable state of a loop with a pipe: no wake-up is lost. */
  lemma NoLostWakeUp(cap: nat, n: nat, steps: seq<Step>)
    requires LegalRun(cap, Start(n), steps)
    ensures cap > 0 ==> Looks(Run(cap, Start(n), steps))
  {
    hide Start, Act, Looks, Tidy;
    StartInv(cap, n);
    RunInv(cap, Start(n), steps);
  }

  lemma RunStep(cap: nat, s: World, step: Step, rest: seq<Step>)
    requires Can(s, step) && LegalRun(cap, Act(cap, s, step), rest)
    ensures LegalRun(cap, s, [step] + rest) && Run(cap, s, [step] + rest) == Run(cap, Act(cap, s, step), rest)
  {
    hide Can, Act;
    assert ([step] + rest)[1..] == rest;
  }

  /** Without a pipe the first actor to finish waits for a time-out. */
  lemma WithoutPipe(n: nat) returns (steps: seq<Step>)
    requires n > 0
    ensures LegalRun(0, Start(n), steps) && !Looks(Run(0, Start(n), steps))
  {
    var idle := Start(n).workers;
    var s0 := Start(n);
    var s1 := s0.(pool := [0], next := 1);
    var s2 := s1.(pool := [], workers := idle[0 := Picked(0)]);
    var s3 := s2.(workers := idle[0 := Ran(0)], trace := [ThreadRun(0)]);
    var s4 := s3.(workers := idle[0 := Unsignalled], finished := [0], order := [0]);
    var s5 := s4.(workers := idle);
    assert idle[0 := Idle] == idle && forall w :: w in idle ==> w == Idle;
    assert Act(0, s0, Submit) == s1 && Act(0, s1, Pick(0, 0)) == s2 && Act(0, s2, Call(0)) == s3;
    assert Act(0, s3, Append(0)) == s4 && Act(0, s4, Signal(0)) == s5 && !Looks(s5);
    hide Act, Start, Looks;
    steps := [];
    RunStep(0, s4, Signal(0), steps);
    steps := [Signal(0)] + steps;
    RunStep(0, s3, Append(0), steps);
    steps := [Append(0)] + steps;
    RunStep(0, s2, Call(0), steps);
    steps := [Call(0)] + steps;
    RunStep(0, s1, Pick(0, 0), steps);
    steps := [Pick(0, 0)] + steps;
    RunStep(0, s0, Submit, steps);
    steps := [Submit] + steps;
  }

  /** No wake-up is lost in any run if and only if there is a pipe. */
  lemma WakeUpsNeedPipe(cap: nat, n: nat)
    requires n > 0
    ensures (forall steps :: LegalRun(cap, Start(n), steps) ==> Looks(Run(cap, Start(n), steps))) <==> cap > 0
  {
    hide Start, Looks, LegalRun, Run;
    forall steps | cap > 0 && LegalRun(cap, Start(n), steps)
      ensures Looks(Run(cap, Start(n), steps))
    {
      NoLostWakeUp(cap, n, steps);
    }
    if cap == 0 {
      var steps := WithoutPipe(n);
    }
  }

  /**
    In every reachable state: an actor is called with EVACTOR_THREADRUN once at most, with EVACTOR_DONE
    once at most and after it; the actors are told in the order they were appended, and none is at once
    in the taken batch, on the list or told already.
   */
  lemma ExactlyOnce(cap: nat, n: nat, steps: seq<Step>, a: Actor)
    requires LegalRun(cap, Start(n), steps)
    ensures var s := Run(cap, Start(n), steps);
            && CallsOf(s.trace, a) in [[], [ThreadRun(a)], [ThreadRun(a), Finished(a)]]
            && (CallsOf(s.trace, a) != [] ==> a < s.next)
            && Told(s.trace) + Left(s.main) + s.finished == s.order
            && Times(Told(s.trace), a) + Times(Left(s.main), a) + Times(s.finished, a) <= 1
  {
    hide Start, Act, Held, Told, CallsOf, Awake, LegalRun, Run, Times;
    var s := Run(cap, Start(n), steps);
    StartInv(cap, n);
    RunInv(cap, Start(n), steps);
    assert CallsOf(s.trace, a) == Due(s, a);
    assert Places(s, a) == if a < s.next then 1 else 0;
    TimesConcat(Told(s.trace) + Left(s.main), s.finished, a);
    TimesConcat(Told(s.trace), Left(s.main), a);
    TimesConcat(s.order, [], a);
    if Ran(a) in s.workers {
      var w: nat :| w < |s.workers| && s.workers[w] == Ran(a);
      HeldBy(s.workers, w, a);
    }
  }

  // ---- every run that submits no more ends with everybody told ------------------------------

  function Load(w: Worker): nat {
    if w.Picked? then 39 else if w.Ran? then 38 else if w.Unsignalled? then 11 else 0
  }

  function Loads(ws: seq<Worker>): nat {
    if ws == [] then 0 else Loads(ws[..|ws| - 1]) + Load(ws[|ws| - 1])
  }

  function MainLoad(m: Main): nat {
    match m
    case Polling => 8
    case Draining(some) => if some then 16 else 7
    case Checking => 15
    case Taking => 14
    case Dispatching(n, left) => 13 + 19 * |left| + if n >= MAX_BATCH then 10 else 0
  }

  /** An upper bound of the steps to come, if nothing more is submitted and epoll_wait never times out. */
  function Work(s: World): nat {
    40 * |s.pool| + Loads(s.workers) + 20 * |s.finished| + 10 * s.pipe + MainLoad(s.main)
  }

  lemma {:induction false} LoadsUpdate(ws: seq<Worker>, w: nat, x: Worker)
    requires w < |ws|
    ensures Loads(ws[w := x]) + Load(ws[w]) == Loads(ws) + Load(x)
    decreases |ws|
  {
    var n := |ws| - 1;
    if w < n {
      LoadsUpdate(ws[..n], w, x);
      assert ws[w := x][..n] == ws[..n][w := x];
    } else {
      assert ws[w := x][..n] == ws[..n];
    }
  }

  lemma WorkFalls(cap: nat, s: World, step: Step)
    requires Awake(cap, s) && Can(s, step) && !step.Submit? && !step.Timeout?
    ensures Work(Act(cap, s, step)) < Work(s)
  {
    hide Loads, WillLook;
    if step.Pick? {
      LoadsUpdate(s.workers, step.worker, Picked(s.pool[step.job]));
    } else if step.Call? {
      LoadsUpdate(s.workers, step.worker, Ran(s.workers[step.worker].actor));
    } else if step.Append? {
      LoadsUpdate(s.workers, step.worker, Unsignalled);
    } else if step.Signal? {
      LoadsUpdate(s.workers, step.worker, Idle);
    }
  }

  lemma {:induction false} RunShort(cap: nat, s: World, steps: seq<Step>)
    requires Inv(cap, s) && LegalRun(cap, s, steps)
    requires forall i :: 0 <= i < |steps| ==> !steps[i].Submit? && !steps[i].Timeout?
    ensures |steps| + Work(Run(cap, s, steps)) <= Work(s)
    decreases |steps|
  {
    hide Tidy, Awake, Act, Can, Work;
    if steps != [] {
      AwakeStep(cap, s, steps[0]);
      TidyStep(cap, s, steps[0]);
      WorkFalls(cap, s, steps[0]);
      RunShort(cap, Act(cap, s, steps[0]), steps[1..]);
    }
  }

  /** No thread has a step to make but for a time-out. */
  ghost predicate AtRest(s: World) {
    forall step :: Can(s, step) ==> step.Submit? || step.Timeout?
  }

  lemma RestOfWorkers(s: World)
    requires AtRest(s)
    ensures forall w: nat :: w < |s.workers| ==> s.workers[w].Idle?
    ensures s.workers != [] ==> s.pool == []
  {
    forall w: nat | w < |s.workers|
      ensures s.workers[w].Idle?
    {
      assert !Can(s, Call(w)) && !Can(s, Append(w)) && !Can(s, Signal(w));
    }
    assert !Can(s, Pick(0, 0));
  }

  lemma RestOfMain(s: World)
    requires AtRest(s)
    ensures s.main.Polling? && s.pipe == 0
  {
    var step :=
      if s.main.Polling? then Wake
      else if s.main.Draining? then if s.pipe > 0 then Drain(1) else Drained
      else if s.main.Checking? then Check
      else if s.main.Taking? then Take
      else if s.main.left != [] then Tell else Leave;
    assert Can(s, step) || (s.main.Polling? && s.pipe == 0);
  }

  /**
    At rest every actor has been run, and those that are not told wait on the list; there are none if the
    loop has a pipe.
   */
  lemma RestIsDone(cap: nat, s: World, a: Actor)
    requires Inv(cap, s) && AtRest(s) && s.workers != [] && a < s.next
    ensures s.pool == [] && s.order == Told(s.trace) + s.finished && (cap > 0 ==> s.finished == [])
    ensures CallsOf(s.trace, a) == if a in s.finished then [ThreadRun(a)] else [ThreadRun(a), Finished(a)]
  {
    hide Told, CallsOf, Can, AtRest, Times, Held;
    RestOfWorkers(s);
    RestOfMain(s);
    AllIdle(s.workers, a);
    assert Places(s, a) == 1 && CallsOf(s.trace, a) == Due(s, a);
    TimesConcat(s.order, [], a);
    TimesConcat([], [], a);
    TimesConcat(Told(s.trace), s.finished, a);
    TimesConcat(s.finished, [], a);
    TimesConcat(Told(s.trace), [], a);
    assert Told(s.trace) + [] + s.finished == Told(s.trace) + s.finished;
  }

  lemma {:induction false} AllIdle(ws: seq<Worker>, a: Actor)
    requires forall w: nat :: w < |ws| ==> ws[w].Idle?
    ensures Held(ws, a) == 0
    decreases |ws|
  {
    if ws != [] {
      AllIdle(ws[..|ws| - 1], a);
    }
  }

  /**
    Whatever the interleaving: from any reachable state, threads that go on without new submissions and
    without a time-out of epoll_wait come to rest within `Work` steps, and then every actor has been run and,
    if the loop has a pipe, told; without a pipe those on the list are left for the next time-out.
   */
  lemma EverybodyTold(cap: nat, n: nat, before: seq<Step>, after: seq<Step>, a: Actor)
    requires n > 0 && LegalRun(cap, Start(n), before)
    requires var s := Run(cap, Start(n), before);
             && LegalRun(cap, s, after) && a < s.next
             && forall i :: 0 <= i < |after| ==> !after[i].Submit? && !after[i].Timeout?
    ensures var s := Run(cap, Start(n), before);
            var t := Run(cap, s, after);
            && |after| <= Work(s)
            && (AtRest(t) ==>
                  && t.order == Told(t.trace) + t.finished && (cap > 0 ==> t.finished == [])
                  && CallsOf(t.trace, a) == if a in t.finished then [ThreadRun(a)] else [ThreadRun(a), Finished(a)])
  {
    hide Tidy, Awake, Act, Can, Work, Told, CallsOf, AtRest, LegalRun, Run;
    var s := Run(cap, Start(n), before);
    var t := Run(cap, s, after);
    StartInv(cap, n);
    RunInv(cap, Start(n), before);
    RunInv(cap, s, after);
    RunShort(cap, s, after);
    NextGrows(cap, s, after);
    if AtRest(t) {
      RestIsDone(cap, t, a);
    }
  }

  lemma {:induction false} NextGrows(cap: nat, s: World, steps: seq<Step>)
    requires LegalRun(cap, s, steps)
    ensures Run(cap, s, steps).next >= s.next
    decreases |steps|
  {
    if steps != [] {
      NextGrows(cap, Act(cap, s, steps[0]), steps[1..]);
    }
  }
}
