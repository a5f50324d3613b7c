/** `_AsyncCaptioner.run` cannot stall and cannot go on for ever: while the run is not over one of its own steps is
    possible, and each of them makes a measure smaller. */
module CaptionAsyncProgress {
  import opened CaptionModel
  import opened CaptionAsyncBooks
  import opened CaptionAsync
  import opened CaptionAsyncSafety

  // ---- The measure ----

  /** How far the main coroutine is from its end; how many requests are to be dispatched, charged and recorded; how
      many steps the tasks have left; and where the coroutine is within its loop. */
  datatype Measure = Measure(level: nat, left: nat, steps: nat, turn: nat)

  predicate Before(a: Measure, b: Measure) {
    || a.level < b.level
    || (a.level == b.level && a.left < b.left)
    || (a.level == b.level && a.left == b.left && a.steps < b.steps)
    || (a.level == b.level && a.left == b.left && a.steps == b.steps && a.turn < b.turn)
  }

  function Level(main: Main): nat {
    if Active(main) then 2 else if main.Draining? then 1 else 0
  }

  /** Capped below at zero, which no reachable state needs. */
  function Missing(n: nat, got: nat): nat { if got <= n then n - got else 0 }

  function Left(c: Setup, main: Main, b: Books): nat {
    var n := |c.requests|;
    if !Active(main) then 0
    else Missing(n, if main.Dispatching? then main.next else n) + Missing(n, |b.counts|) + Missing(n, |b.results|)
  }

  /** The steps a task has left if every attempt it may still make fails. */
  function StepsLeft(c: Setup, state: TaskState): nat {
    match state
    case Created => 2 * c.MaxAttempts() + 1
    case Waiting(a) => 2 * Missing(c.MaxAttempts(), a) + 2
    case Generating(a) => 2 * Missing(c.MaxAttempts(), a) + 1
    case Done(_) => 0
  }

  function StepsOf(c: Setup, tasks: seq<Task>): (w: seq<nat>)
    ensures |w| == |tasks| && forall t :: 0 <= t < |w| ==> w[t] == StepsLeft(c, tasks[t].state)
  {
    seq(|tasks|, t requires 0 <= t < |tasks| => StepsLeft(c, tasks[t].state))
  }

  function Turn(main: Main): nat {
    match main
    case Dispatching(_) => 3
    case Handling(todo) => if todo == {} then 2 else 0
    case Awaiting => 1
    case _ => 0
  }

  function MeasureOf(c: Setup, s: World): Measure {
    Measure(Level(s.main), Left(c, s.main, s.books), Total(StepsOf(c, s.tasks)), Turn(s.main))
  }

  // ---- Every step of the run makes it smaller ----

  lemma StepsSet(c: Setup, tasks: seq<Task>, t: nat, task: Task)
    requires t < |tasks|
    ensures Total(StepsOf(c, tasks[t := task])) ==
      Total(StepsOf(c, tasks)) - StepsLeft(c, tasks[t].state) + StepsLeft(c, task.state)
  {
    TotalUpdate(StepsOf(c, tasks), t, StepsLeft(c, task.state));
    assert StepsOf(c, tasks[t := task]) == StepsOf(c, tasks)[t := StepsLeft(c, task.state)];
  }

  lemma StateShrinks(c: Setup, s: World, ev: Event)
    requires TasksOk(c, s.tasks, s.nextId, s.attempts) && IsTaskEvent(ev) && Enabled(c, s, ev)
    ensures StepsLeft(c, TaskStep(c, s, ev).tasks[ev.task].state) < StepsLeft(c, s.tasks[ev.task].state)
  {
    assert TaskOk(c, s.nextId, s.attempts, ev.task, s.tasks[ev.task]);
  }

  lemma TaskStepShrinks(c: Setup, s: World, ev: Event)
    requires Inv(c, s) && IsTaskEvent(ev) && Enabled(c, s, ev)
    ensures Before(MeasureOf(c, TaskStep(c, s, ev)), MeasureOf(c, s))
  {
    TaskStepFrame(c, s, ev);
    StateShrinks(c, s, ev);
    OneTaskShrinks(c, s, TaskStep(c, s, ev), ev.task);
  }

  lemma OneTaskShrinks(c: Setup, s: World, s': World, t: TaskId)
    requires s'.main == s.main && s'.books == s.books
    requires t < |s.tasks| == |s'.tasks| && s'.tasks == s.tasks[t := s'.tasks[t]]
    requires StepsLeft(c, s'.tasks[t].state) < StepsLeft(c, s.tasks[t].state)
    ensures Before(MeasureOf(c, s'), MeasureOf(c, s))
  {
    StepsSet(c, s.tasks, t, s'.tasks[t]);
  }

  /** The dictionaries never hold more than one entry per request. */
  lemma BooksBounded(c: Setup, k: nat, b: Books, home: map<nat, TaskId>, nextId: Id)
    requires k <= |c.requests| && Tracked(c, k, b, home, nextId)
    ensures |b.results| <= |c.requests| && |b.counts| <= |c.requests|
  {
    forall i | i in b.results || i in b.counts ensures i in Below(|c.requests|) { assert WindowAt(c, k, b, home, i); }
    assert b.results.Keys <= Below(|c.requests|) && b.counts.Keys <= Below(|c.requests|);
    FullIffCount(b.results.Keys, |c.requests|);
    FullIffCount(b.counts.Keys, |c.requests|);
  }

  /** `got` is `m` with `i` added, or overwritten. */
  predicate With<T(==)>(m: map<nat, T>, i: nat, got: map<nat, T>) {
    i in got && got == m[i := got[i]]
  }

  lemma WithGrows<T>(m: map<nat, T>, i: nat, got: map<nat, T>)
    requires With(m, i, got)
    ensures |got| == if i in m then |m| else |m| + 1
  {
    assert got.Keys == m.Keys + {i};
  }

  /** What handling a task adds to the dictionaries of results and charges. */
  lemma HandledShape(m: Model, b: Books, t: TaskId, outcome: Outcome, u: TaskId, nextId: Id)
    requires t in b.pending && t in b.phase && b.pending[t].id in b.index
    ensures
      var i, h := b.index[b.pending[t].id], HandleCompleted(m, b, t, outcome, u, nextId);
      && (h.books.counts == b.counts || With(b.counts, i, h.books.counts))
      && (h.effect.Settled? ==> With(b.results, i, h.books.results))
      && (h.effect.Respawned? ==>
            With(b.counts, i, h.books.counts) && h.books.results == b.results && b.pending[t].stage2Prompt.Some?)
  {
  }

  lemma NotYet(c: Setup, b: Books, home: map<nat, TaskId>, nextId: Id, t: TaskId)
    requires Tracked(c, |c.requests|, b, home, nextId) && t in b.pending
    ensures b.pending[t].id in b.index
    ensures b.index[b.pending[t].id] !in b.results
    ensures b.pending[t].stage2Prompt.Some? ==> b.index[b.pending[t].id] !in b.counts
  {
    LiveWindow(c, b, home, nextId, t);
  }

  /** Handling a task records its window, or charges it for the first time, or ends the loop. */
  lemma HandledGrows(c: Setup, b: Books, home: map<nat, TaskId>, nextId: Id, t: TaskId, outcome: Outcome, u: TaskId)
    requires Tracked(c, |c.requests|, b, home, nextId) && t in b.pending && t in b.phase && b.pending[t].id in b.index
    ensures
      var h := HandleCompleted(c.model, b, t, outcome, u, nextId);
      && |h.books.counts| >= |b.counts|
      && (h.effect.Settled? ==> |h.books.results| == |b.results| + 1)
      && (h.effect.Respawned? ==> |h.books.counts| == |b.counts| + 1 && h.books.results == b.results)
  {
    var i, h := b.index[b.pending[t].id], HandleCompleted(c.model, b, t, outcome, u, nextId);
    NotYet(c, b, home, nextId, t);
    HandledShape(c.model, b, t, outcome, u, nextId);
    if h.books.counts != b.counts { WithGrows(b.counts, i, h.books.counts); }
    if h.effect.Settled? { WithGrows(b.results, i, h.books.results); }
    if h.effect.Respawned? { WithGrows(b.counts, i, h.books.counts); }
  }

  /** More results or charges, none fewer, and still within bounds: less is left. */
  lemma LeftDrops(c: Setup, main: Main, b: Books, main': Main, b': Books)
    requires (main.Handling? && main'.Handling?) || (main.Dispatching? && main'.Dispatching? && main'.next >= main.next)
    requires |b'.counts| >= |b.counts| && |b'.results| >= |b.results|
    requires |b'.counts| <= |c.requests| && |b'.results| <= |c.requests|
    requires main'.Dispatching? ==> main'.next <= |c.requests|
    requires |b'.counts| > |b.counts| || |b'.results| > |b.results| || (main'.Dispatching? && main'.next > main.next)
    ensures Left(c, main', b') < Left(c, main, b)
  {
  }

  lemma HandleShrinks(c: Setup, s: World, t: TaskId)
    requires c.WellFormed() && Inv(c, s) && Enabled(c, s, Handle(t))
    ensures Before(MeasureOf(c, HandleStep(c, s, t)), MeasureOf(c, s))
  {
    var s' := HandleStep(c, s, t);
    HandledGrows(c, s.books, s.home, s.nextId, t, s.tasks[t].state.outcome, |s.tasks|);
    if s'.main.Handling? {
      HandleStepKeeps(c, s, t);
      HandledShrinks(c, s, s');
    }
  }

  lemma HandledShrinks(c: Setup, s: World, s': World)
    requires s.main.Handling? && s'.main.Handling?
    requires |s'.books.counts| >= |s.books.counts| && |s'.books.results| >= |s.books.results|
    requires |s'.books.counts| > |s.books.counts| || |s'.books.results| > |s.books.results|
    requires MainOk(c, s'.main, s'.books, s'.tasks, s'.home, s'.nextId)
    ensures Before(MeasureOf(c, s'), MeasureOf(c, s))
  {
    BooksBounded(c, |c.requests|, s'.books, s'.home, s'.nextId);
    LeftDrops(c, s.main, s.books, s'.main, s'.books);
  }

  /** Every step of the run itself makes the measure smaller; what other runners do leaves it alone. */
  lemma EveryStepShrinks(c: Setup, s: World, ev: Event)
    requires c.WellFormed() && Inv(c, s) && Enabled(c, s, ev)
    ensures if ev.ForeignAcquire? || ev.ForeignRelease? then MeasureOf(c, Apply(c, s, ev)) == MeasureOf(c, s)
            else Before(MeasureOf(c, Apply(c, s, ev)), MeasureOf(c, s))
  {
    if IsTaskEvent(ev) {
      TaskStepShrinks(c, s, ev);
    } else if ev.Handle? {
      HandleShrinks(c, s, ev.task);
    } else if ev.DispatchNext? {
      DispatchShrinks(c, s);
    } else {
      ControlShrinks(c, s, ev);
    }
  }

  /** The steps that touch neither a task nor the dictionaries of live windows. */
  lemma ControlShrinks(c: Setup, s: World, ev: Event)
    requires c.WellFormed() && Inv(c, s) && Enabled(c, s, ev)
    requires !IsTaskEvent(ev) && !ev.Handle? && !ev.DispatchNext?
    ensures if ev.ForeignAcquire? || ev.ForeignRelease? then MeasureOf(c, Apply(c, s, ev)) == MeasureOf(c, s)
            else Before(MeasureOf(c, Apply(c, s, ev)), MeasureOf(c, s))
  {
  }

  lemma DispatchShrinks(c: Setup, s: World)
    requires c.WellFormed() && Inv(c, s) && Enabled(c, s, DispatchNext)
    ensures Before(MeasureOf(c, DispatchStep(c, s)), MeasureOf(c, s))
  {
    var k, s' := s.main.next, DispatchStep(c, s);
    DispatchGrows(c, s.books, k, |s.tasks|);
    DispatchStepKeeps(c, s);
    DispatchedShrinks(c, s, s', k);
  }

  lemma DispatchedShrinks(c: Setup, s: World, s': World, k: nat)
    requires k < |c.requests| && s.main == Dispatching(k) && s'.main == Dispatching(k + 1)
    requires |s'.books.counts| == |s.books.counts| && |s'.books.results| >= |s.books.results|
    requires MainOk(c, s'.main, s'.books, s'.tasks, s'.home, s'.nextId)
    ensures Before(MeasureOf(c, s'), MeasureOf(c, s))
  {
    BooksBounded(c, k + 1, s'.books, s'.home, s'.nextId);
    LeftDrops(c, s.main, s.books, s'.main, s'.books);
  }

  lemma DispatchGrows(c: Setup, b: Books, k: nat, t: TaskId)
    requires k < |c.requests|
    ensures
      var b' := DispatchOne(c.model, b, k, c.requests[k], t);
      |b'.counts| == |b.counts| && |b'.results| >= |b.results|
  {
    var b' := DispatchOne(c.model, b, k, c.requests[k], t);
    if b'.results != b.results { WithGrows(b.results, k, b'.results); }
  }

  // ---- One of them is always possible ----

  /** A step of the run's own that no interruption or cancellation is needed for. */
  predicate Own(ev: Event) { !ev.ForeignAcquire? && !ev.ForeignRelease? && !ev.Interrupt? && !ev.Cancel? }

  /** Some task can take a step if some task is not done and the permits are not all held by other runners. */
  lemma SomeTaskCan(c: Setup, s: World, t: TaskId) returns (ev: Event)
    requires Inv(c, s) && !Over(s.main) && s.foreign < c.capacity && t < |s.tasks| && !s.tasks[t].state.Done?
    ensures Enabled(c, s, ev) && Own(ev)
  {
    match s.tasks[t].state
    case Created => ev := Begin(t);
    case Generating(_) => ev := Fail(t, EngineDead);
    case Waiting(_) =>
      if s.free > 0 {
        ev := Acquire(t);
      } else {
        var u := SomeoneHolds(s.tasks);
        ev := Fail(u, EngineDead);
      }
  }

  lemma {:induction false} SomeoneHolds(tasks: seq<Task>) returns (t: TaskId)
    requires Total(PermitsHeld(tasks)) > 0
    ensures t < |tasks| && tasks[t].state.Generating?
  {
    var n := |tasks| - 1;
    if tasks[n].state.Generating? {
      t := n;
    } else {
      assert PermitsHeld(tasks)[..n] == PermitsHeld(tasks[..n]);
      t := SomeoneHolds(tasks[..n]);
    }
  }

  /** Until the run is over it can take a step, unless other runners hold every permit. In particular the handler
      finds every key it looks up, and the list is built from results that are all there. */
  lemma NeverStuck(c: Setup, s: World) returns (ev: Event)
    requires c.WellFormed() && Inv(c, s) && !Over(s.main) && s.foreign < c.capacity
    ensures Enabled(c, s, ev) && Own(ev)
  {
    match s.main
    case Dispatching(k) => ev := if k < |c.requests| then DispatchNext else DispatchEnd;
    case Handling(todo) =>
      if todo == {} {
        ev := HandleEnd;
      } else {
        var t :| t in todo;
        ev := HandleReady(c, s, t);
      }
    case Awaiting =>
      if s.books.pending == map[] {
        ev := AllHandled;
      } else {
        var t :| t in s.books.pending;
        if s.tasks[t].state.Done? { ev := Wake({t}); } else { ev := SomeTaskCan(c, s, t); }
      }
    case Draining(exit) =>
      if t :| t in s.books.pending && !s.tasks[t].state.Done? {
        ev := SomeTaskCan(c, s, t);
      } else {
        if exit.Normal? { AllRecorded(c, s); }
        ev := DrainEnd;
      }
  }

  lemma HandleReady(c: Setup, s: World, t: TaskId) returns (ev: Event)
    requires Inv(c, s) && s.main.Handling? && t in s.main.todo
    ensures ev == Handle(t) && Enabled(c, s, ev)
  {
    LiveWindow(c, s.books, s.home, s.nextId, t);
    ev := Handle(t);
  }

  /** So from every reachable state the run can be completed. */
  lemma {:induction false} Completes(c: Setup, s: World) returns (events: seq<Event>, s': World)
    requires c.WellFormed() && Inv(c, s) && s.foreign < c.capacity
    ensures Leads(c, s, events, s') && Over(s'.main)
    decreases MeasureOf(c, s).level, MeasureOf(c, s).left, MeasureOf(c, s).steps, MeasureOf(c, s).turn
  {
    if Over(s.main) {
      events, s' := [], s;
    } else {
      var ev := NeverStuck(c, s);
      EveryStepKeeps(c, s, ev);
      EveryStepShrinks(c, s, ev);
      var next := Apply(c, s, ev);
      OwnKeepsForeign(c, s, ev);
      var rest: seq<Event>;
      rest, s' := Completes(c, next);
      events := [ev] + rest;
      assert ([ev] + rest)[1..] == rest;
    }
  }

  lemma OwnKeepsForeign(c: Setup, s: World, ev: Event)
    requires Enabled(c, s, ev) && Own(ev)
    ensures Apply(c, s, ev).foreign == s.foreign
  {
  }
}
