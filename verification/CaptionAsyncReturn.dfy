/** When nothing fatal can happen to the windows of `_AsyncCaptioner.run`, the run can always be brought to its normal
    return, without failing a single attempt. */
module CaptionAsyncReturn {
  import opened Text
  import opened CaptionModel
  import opened CaptionAsyncBooks
  import opened CaptionAsync
  import opened CaptionAsyncSafety
  import opened CaptionAsyncFatal
  import opened CaptionAsyncProgress

  /** The engine has outputs for these inputs, and decoding them is not fatal. */
  predicate Answered(m: Model, inputs: Inputs) {
    var g := m.Generate(inputs);
    |g.outputs| > 0 && (m.Decode(g).Err? ==> !Fatal(m.Decode(g).error))
  }

  /** Neither stage of any window is fatal. Exceptions that are contained may still occur. */
  ghost predicate Benign(c: Setup) {
    forall i :: 0 <= i < |c.requests| && c.requests[i].inputs != map[] ==> BenignWindow(c, i)
  }

  predicate BenignWindow(c: Setup, i: nat)
    requires i < |c.requests|
  {
    var first, prompt := c.requests[i].inputs, c.requests[i].stage2Prompt;
    && Answered(c.model, first)
    && (prompt.Some? ==>
          match Stage2Inputs(c.model, first, prompt.value)
          case Err(e) => !FatalToBuild(e)
          case Ok(refined) => Answered(c.model, refined))
  }

  /** No task has died, and the run may still return. */
  ghost predicate OnTrack(s: World) {
    MayReturn(s.main) && forall t: nat :: t < |s.tasks| ==> !Died(s.tasks[t])
  }

  /** The engine answers the request of every live task. */
  lemma LiveAnswered(c: Setup, b: Books, home: map<nat, TaskId>, nextId: Id, t: TaskId)
    requires Benign(c) && Tracked(c, |c.requests|, b, home, nextId) && t in b.pending
    ensures Answered(c.model, b.pending[t].inputs)
  {
    LiveWindow(c, b, home, nextId, t);
    var i := b.index[b.pending[t].id];
    assert BenignWindow(c, i);
    if b.phase[t] == Stage2 { assert RefinesWindow(c, i, b.pending[t]); }
  }

  /** A step that fails no attempt. */
  predicate Healthy(ev: Event) { Own(ev) && !ev.Fail? }

  /** Some task can take such a step if some task is not done and the permits are not all held by other runners. */
  lemma SomeTaskCanWell(c: Setup, s: World, t: TaskId) returns (ev: Event)
    requires Inv(c, s) && Benign(c) && s.main.Awaiting? && s.foreign < c.capacity
    requires t < |s.tasks| && !s.tasks[t].state.Done?
    ensures Enabled(c, s, ev) && Healthy(ev)
  {
    match s.tasks[t].state
    case Created => ev := Begin(t);
    case Generating(_) => ev := FinishReady(c, s, t);
    case Waiting(_) => ev := WaitingCanWell(c, s, t);
  }

  lemma WaitingCanWell(c: Setup, s: World, t: TaskId) returns (ev: Event)
    requires Inv(c, s) && Benign(c) && s.main.Awaiting? && s.foreign < c.capacity
    requires t < |s.tasks| && s.tasks[t].state.Waiting?
    ensures Enabled(c, s, ev) && Healthy(ev)
  {
    if s.free > 0 {
      ev := Acquire(t);
    } else {
      ev := HolderCanWell(c, s);
    }
  }

  /** With no permit free, a task of this run holds one. */
  lemma HolderCanWell(c: Setup, s: World) returns (ev: Event)
    requires Inv(c, s) && Benign(c) && s.main.Awaiting? && s.foreign < c.capacity && s.free == 0
    ensures Enabled(c, s, ev) && Healthy(ev)
  {
    var u := SomeoneHolds(s.tasks);
    ev := FinishReady(c, s, u);
  }

  lemma FinishReady(c: Setup, s: World, t: TaskId) returns (ev: Event)
    requires Inv(c, s) && Benign(c) && s.main.Awaiting? && t < |s.tasks| && s.tasks[t].state.Generating?
    ensures ev == Finish(t) && Enabled(c, s, ev)
  {
    LiveAnswered(c, s.books, s.home, s.nextId, t);
    ev := Finish(t);
  }

  lemma NextAwaiting(c: Setup, s: World) returns (ev: Event)
    requires Inv(c, s) && Benign(c) && s.main.Awaiting? && s.foreign < c.capacity
    ensures Enabled(c, s, ev) && Healthy(ev)
  {
    if s.books.pending == map[] {
      ev := AllHandled;
    } else {
      var t :| t in s.books.pending;
      if s.tasks[t].state.Done? { ev := Wake({t}); } else { ev := SomeTaskCanWell(c, s, t); }
    }
  }

  lemma NextHandling(c: Setup, s: World) returns (ev: Event)
    requires Inv(c, s) && s.main.Handling?
    ensures Enabled(c, s, ev) && Healthy(ev) && !ev.Finish?
  {
    if s.main.todo == {} {
      ev := HandleEnd;
    } else {
      var t :| t in s.main.todo;
      ev := HandleReady(c, s, t);
    }
  }

  lemma NextWell(c: Setup, s: World) returns (ev: Event)
    requires c.WellFormed() && Inv(c, s) && Benign(c) && OnTrack(s) && !s.main.Returned? && s.foreign < c.capacity
    ensures Enabled(c, s, ev) && Healthy(ev) && (ev.Finish? ==> s.main.Awaiting?)
  {
    match s.main
    case Dispatching(k) => ev := if k < |c.requests| then DispatchNext else DispatchEnd;
    case Handling(_) => ev := NextHandling(c, s);
    case Awaiting => ev := NextAwaiting(c, s);
    case Draining(exit) =>
      AllRecorded(c, s);
      ev := DrainEnd;
  }

  /** Handling a task that did not die raises nothing when the window is benign. */
  lemma HandleDoesNotRaise(c: Setup, s: World, t: TaskId)
    requires Inv(c, s) && Benign(c) && Enabled(c, s, Handle(t)) && !Died(s.tasks[t])
    ensures !HandleStep(c, s, t).main.Draining?
  {
    var b, outcome := s.books, s.tasks[t].state.outcome;
    LiveWindow(c, b, s.home, s.nextId, t);
    OutcomeOf(c, s, t);
    var i := b.index[b.pending[t].id];
    if outcome.Ok? && b.pending[t].stage2Prompt.Some? {
      FirstStage(c, i, Live(b.pending[t], b.phase[t]), Look(b.counts, i), outcome.value, Look(b.results, i),
                 DonesOf(b.dones, i), ErrorsOf(b.errors, i));
      assert BenignWindow(c, i);
    }
  }

  lemma HandleOnTrack(c: Setup, s: World, t: TaskId)
    requires Inv(c, s) && Benign(c) && OnTrack(s) && Enabled(c, s, Handle(t))
    ensures OnTrack(HandleStep(c, s, t))
  {
    HandleDoesNotRaise(c, s, t);
  }

  lemma FinishOnTrack(c: Setup, s: World, t: TaskId)
    requires Inv(c, s) && Benign(c) && OnTrack(s) && s.main.Awaiting? && Enabled(c, s, Finish(t))
    ensures OnTrack(TaskStep(c, s, Finish(t)))
  {
    LiveAnswered(c, s.books, s.home, s.nextId, t);
  }

  lemma TaskOnTrack(c: Setup, s: World, ev: Event)
    requires Inv(c, s) && OnTrack(s) && Enabled(c, s, ev) && (ev.Begin? || ev.Acquire?)
    ensures OnTrack(TaskStep(c, s, ev))
  {
  }

  lemma StepOnTrack(c: Setup, s: World, ev: Event)
    requires Inv(c, s) && Benign(c) && OnTrack(s) && Enabled(c, s, ev) && Healthy(ev)
    requires ev.Finish? ==> s.main.Awaiting?
    ensures OnTrack(Apply(c, s, ev))
  {
    if ev.Handle? {
      HandleOnTrack(c, s, ev.task);
    } else if ev.Finish? {
      FinishOnTrack(c, s, ev.task);
    } else if IsTaskEvent(ev) {
      TaskOnTrack(c, s, ev);
    }
  }

  lemma WellStep(c: Setup, s: World) returns (ev: Event)
    requires c.WellFormed() && Inv(c, s) && Benign(c) && OnTrack(s) && !s.main.Returned? && s.foreign < c.capacity
    ensures Enabled(c, s, ev) && Healthy(ev) && Before(MeasureOf(c, Apply(c, s, ev)), MeasureOf(c, s))
    ensures Inv(c, Apply(c, s, ev)) && OnTrack(Apply(c, s, ev)) && Apply(c, s, ev).foreign == s.foreign
  {
    ev := NextWell(c, s);
    EveryStepKeeps(c, s, ev);
    EveryStepShrinks(c, s, ev);
    StepOnTrack(c, s, ev);
    OwnKeepsForeign(c, s, ev);
  }

  predicate AllHealthy(events: seq<Event>) { forall k :: 0 <= k < |events| ==> Healthy(events[k]) }

  lemma Prepend(c: Setup, s: World, ev: Event, rest: seq<Event>, s': World)
    requires c.WellFormed() && Inv(c, s) && Enabled(c, s, ev) && Healthy(ev)
    requires Leads(c, Apply(c, s, ev), rest, s') && AllHealthy(rest)
    ensures Leads(c, s, [ev] + rest, s') && AllHealthy([ev] + rest)
  {
    assert ([ev] + rest)[1..] == rest;
  }

  /** From every reachable state in which no task has died, a benign run can be brought to its normal return by steps
      of its own that fail no attempt. */
  lemma {:induction false} CanReturn(c: Setup, s: World) returns (events: seq<Event>, s': World)
    requires c.WellFormed() && Inv(c, s) && Benign(c) && OnTrack(s) && s.foreign < c.capacity
    ensures Leads(c, s, events, s') && s'.main.Returned?
    ensures AllHealthy(events)
    decreases MeasureOf(c, s).level, MeasureOf(c, s).left, MeasureOf(c, s).steps, MeasureOf(c, s).turn
  {
    if s.main.Returned? {
      events, s' := [], s;
    } else {
      var ev := WellStep(c, s);
      var rest: seq<Event>;
      rest, s' := CanReturn(c, Apply(c, s, ev));
      events := [ev] + rest;
      Prepend(c, s, ev, rest, s');
    }
  }
}
