/** Fatal exceptions of `_AsyncCaptioner.run`: none is swallowed, and the one that ends a run is one that was met. */
module CaptionAsyncFatal {
  import opened Text
  import opened CaptionModel
  import opened CaptionAsyncBooks
  import opened CaptionAsync
  import opened CaptionAsyncSafety
  import opened CaptionAsyncTheorems

  /** The task ended with a fatal exception. */
  predicate Died(task: Task) {
    task.state.Done? && task.state.outcome.Err? && Fatal(task.state.outcome.error)
  }

  /** The run may still return. */
  predicate MayReturn(main: Main) {
    Active(main) || main.Returned? || (main.Draining? && main.exit.Normal?)
  }

  /** While the run may still return, a task that died is still to be handled. */
  ghost predicate NoneSwallowed(main: Main, b: Books, tasks: seq<Task>) {
    MayReturn(main) ==> forall t: nat :: t < |tasks| && Died(tasks[t]) ==> t in b.pending
  }

  /** Task `t` worked for window `i`, and `e` is its outcome, or what refining its window raises. */
  ghost predicate Caused(c: Setup, index: map<Id, nat>, tasks: seq<Task>, t: TaskId, i: nat, e: Error) {
    && t < |tasks| && i < |c.requests|
    && tasks[t].request.id in index && index[tasks[t].request.id] == i && tasks[t].state.Done?
    && match tasks[t].state.outcome
       case Err(x) =>
         x == e && Fatal(e) && (tasks[t].request == c.requests[i] || RefinesWindow(c, i, tasks[t].request))
       case Ok(_) =>
         && tasks[t].request == c.requests[i] && c.requests[i].stage2Prompt.Some? && FatalToBuild(e)
         && Stage2Inputs(c.model, c.requests[i].inputs, c.requests[i].stage2Prompt.value) == Err(e)
  }

  /** The exception that ended the run has a cause. */
  ghost predicate ExitCaused(c: Setup, main: Main, index: map<Id, nat>, tasks: seq<Task>) {
    && (main.Draining? && main.exit.Killed? ==>
          exists t :: Caused(c, index, tasks, t, main.exit.window, main.exit.error))
    && (main.Raised? && main.cause.Killed? ==>
          exists t :: Caused(c, index, tasks, t, main.cause.window, main.cause.error))
  }

  ghost predicate FatalOk(c: Setup, s: World) {
    NoneSwallowed(s.main, s.books, s.tasks) && ExitCaused(c, s.main, s.books.index, s.tasks)
  }

  // ---- Every event keeps it ----

  lemma TaskStepFatal(c: Setup, s: World, ev: Event)
    requires Inv(c, s) && FatalOk(c, s) && IsTaskEvent(ev) && Enabled(c, s, ev)
    ensures FatalOk(c, TaskStep(c, s, ev))
  {
    TaskStepFrame(c, s, ev);
    OneTaskFatal(c, s, TaskStep(c, s, ev), ev.task);
  }

  /** The task that takes a step is pending, and not the cause of anything yet. */
  lemma OneTaskFatal(c: Setup, s: World, s': World, t: TaskId)
    requires KeysOk(s.books, s.tasks) && FatalOk(c, s) && s'.main == s.main && s'.books == s.books
    requires t < |s.tasks| == |s'.tasks| && s'.tasks == s.tasks[t := s'.tasks[t]] && !s.tasks[t].state.Done?
    ensures FatalOk(c, s')
  {
    assert t in s.books.pending;
    CauseStays(c, s.main, s.books.index, s.tasks, s'.tasks);
  }

  /** A cause is a task that is done, and those stay. */
  lemma CauseStays(c: Setup, main: Main, index: map<Id, nat>, tasks: seq<Task>, tasks': seq<Task>)
    requires ExitCaused(c, main, index, tasks)
    requires forall t :: 0 <= t < |tasks| && tasks[t].state.Done? ==> t < |tasks'| && tasks'[t] == tasks[t]
    ensures ExitCaused(c, main, index, tasks')
  {
    if main.Draining? && main.exit.Killed? {
      var t :| Caused(c, index, tasks, t, main.exit.window, main.exit.error);
      assert Caused(c, index, tasks', t, main.exit.window, main.exit.error);
    }
    if main.Raised? && main.cause.Killed? {
      var t :| Caused(c, index, tasks, t, main.cause.window, main.cause.error);
      assert Caused(c, index, tasks', t, main.cause.window, main.cause.error);
    }
  }

  /** A handled exception that does not end the run is not fatal. */
  lemma ContainedIsNotFatal(m: Model, b: Books, t: TaskId, outcome: Outcome, u: TaskId, nextId: Id)
    requires t in b.pending && t in b.phase && b.pending[t].id in b.index
    requires !HandleCompleted(m, b, t, outcome, u, nextId).effect.Raises?
    ensures outcome.Err? ==> !Fatal(outcome.error)
    ensures forall v :: v in b.pending && v != t ==> v in HandleCompleted(m, b, t, outcome, u, nextId).books.pending
  {
  }

  /** The exception that handling a task raises is caused by that task. */
  lemma RaisedIsCaused(c: Setup, s: World, t: TaskId)
    requires Inv(c, s) && Enabled(c, s, Handle(t)) && HandleStep(c, s, t).main.Draining?
    ensures
      var s' := HandleStep(c, s, t);
      s'.main.exit.Killed? && Caused(c, s'.books.index, s'.tasks, t, s'.main.exit.window, s'.main.exit.error)
  {
    var b, outcome := s.books, s.tasks[t].state.outcome;
    LiveWindow(c, b, s.home, s.nextId, t);
    OutcomeOf(c, s, t);
    var i := b.index[b.pending[t].id];
    if outcome.Ok? {
      FirstStage(c, i, Live(b.pending[t], b.phase[t]), Look(b.counts, i), outcome.value, Look(b.results, i),
                 DonesOf(b.dones, i), ErrorsOf(b.errors, i));
    }
  }

  lemma HandleFatal(c: Setup, s: World, t: TaskId)
    requires Inv(c, s) && FatalOk(c, s) && Enabled(c, s, Handle(t))
    ensures FatalOk(c, HandleStep(c, s, t))
  {
    var s' := HandleStep(c, s, t);
    if s'.main.Draining? {
      RaisedIsCaused(c, s, t);
      KilledIsOk(c, s', t);
    } else {
      HandleContained(c, s, t);
      HandlingIsOk(c, s');
    }
  }

  lemma KilledIsOk(c: Setup, s: World, t: TaskId)
    requires s.main.Draining? && s.main.exit.Killed?
    requires Caused(c, s.books.index, s.tasks, t, s.main.exit.window, s.main.exit.error)
    ensures FatalOk(c, s)
  {
  }

  lemma HandlingIsOk(c: Setup, s: World)
    requires s.main.Handling? && NoneSwallowed(s.main, s.books, s.tasks)
    ensures FatalOk(c, s)
  {
  }

  lemma HandleContained(c: Setup, s: World, t: TaskId)
    requires NoneSwallowed(s.main, s.books, s.tasks) && Enabled(c, s, Handle(t)) && !HandleStep(c, s, t).main.Draining?
    ensures
      var s' := HandleStep(c, s, t);
      NoneSwallowed(s'.main, s'.books, s'.tasks) && s'.main.Handling?
  {
    var s' := HandleStep(c, s, t);
    ContainedIsNotFatal(c.model, s.books, t, s.tasks[t].state.outcome, |s.tasks|, s.nextId);
    HandledFatal(s.books, s.tasks, t, s'.main, s'.books, s'.tasks);
  }

  /** The handled task did not die, the others that did are still pending, and a new one has not started. */
  lemma HandledFatal(b: Books, tasks: seq<Task>, t: TaskId, main': Main, b': Books, tasks': seq<Task>)
    requires NoneSwallowed(Awaiting, b, tasks) && t < |tasks| && !Died(tasks[t])
    requires forall v :: v in b.pending && v != t ==> v in b'.pending
    requires tasks <= tasks' && forall v :: |tasks| <= v < |tasks'| ==> tasks'[v].state.Created?
    ensures NoneSwallowed(main', b', tasks')
  {
    forall v: nat | v < |tasks'| && Died(tasks'[v]) ensures v in b'.pending {
      assert v < |tasks| && tasks'[v] == tasks[v];
    }
  }

  lemma DispatchFatal(c: Setup, s: World)
    requires Inv(c, s) && FatalOk(c, s) && Enabled(c, s, DispatchNext)
    ensures FatalOk(c, DispatchStep(c, s))
  {
  }

  lemma EveryStepFatal(c: Setup, s: World, ev: Event)
    requires Inv(c, s) && FatalOk(c, s) && Enabled(c, s, ev)
    ensures FatalOk(c, Apply(c, s, ev))
  {
    if IsTaskEvent(ev) {
      TaskStepFatal(c, s, ev);
    } else if ev.Handle? {
      HandleFatal(c, s, ev.task);
    } else if ev.DispatchNext? {
      DispatchFatal(c, s);
    } else {
      CauseStays(c, s.main, s.books.index, s.tasks, s.tasks);
    }
  }

  lemma {:induction false} EveryRunFatal(c: Setup, s: World, events: seq<Event>, s': World)
    requires c.WellFormed() && Inv(c, s) && FatalOk(c, s) && Leads(c, s, events, s')
    ensures FatalOk(c, s')
    decreases |events|
  {
    if events != [] {
      EveryStepKeeps(c, s, events[0]);
      EveryStepFatal(c, s, events[0]);
      EveryRunFatal(c, Apply(c, s, events[0]), events[1..], s');
    }
  }

  // ---- What it means for whole runs ----

  /** No fatal exception is swallowed: if any task of a run ended by engine death, fatal decoding or cancellation, the
      run ends by raising, never by returning a list. */
  lemma FatalIsRaised(c: Setup, s0: World, events: seq<Event>, s: World, t: TaskId)
    requires c.WellFormed() && Initial(c, s0) && Leads(c, s0, events, s) && Over(s.main)
    requires t < |s.tasks|
    requires s.tasks[t].state in {Done(Err(EngineDead)), Done(Err(FatalDecode)), Done(Err(Cancelled))}
    ensures s.main.Raised?
  {
    assert Died(s.tasks[t]);
    StartsOk(c, s0);
    EveryRun(c, s0, events, s);
    EveryRunFatal(c, s0, events, s);
  }

  /** Task `t` worked for window `i` and raised `e` (engine death, fatal decoding or cancellation), or it finished
      stage 1 and refining its caption raises `e` (fatal decoding or cancellation; there engine death is contained). */
  ghost predicate CausedBy(c: Setup, index: map<Id, nat>, tasks: seq<Task>, t: TaskId, i: nat, e: Error) {
    && t < |tasks| && i < |c.requests| && tasks[t].request.id in index && index[tasks[t].request.id] == i
    && var first, prompt := c.requests[i].inputs, c.requests[i].stage2Prompt;
    var caption := c.model.decoder(c.model.generator(first));
    || (&& tasks[t].state == Done(Err(e)) && e in {EngineDead, FatalDecode, Cancelled}
        && (|| tasks[t].request == c.requests[i]
            || (prompt.Some? && caption.Ok?
                && c.model.refiner(first, caption.value, prompt.value) == Ok(tasks[t].request.inputs))))
    || (&& tasks[t].state.Done? && tasks[t].state.outcome.Ok? && tasks[t].request == c.requests[i]
        && e in {FatalDecode, Cancelled}
        && prompt.Some? && caption.Ok? && c.model.refiner(first, caption.value, prompt.value) == Err(e))
  }

  lemma CauseSays(c: Setup, s: World, t: TaskId, i: nat, e: Error)
    requires Inv(c, s) && Caused(c, s.books.index, s.tasks, t, i, e)
    ensures CausedBy(c, s.books.index, s.tasks, t, i, e)
  {
    assert TaskOk(c, s.nextId, s.attempts, t, s.tasks[t]);
  }

  /** The fatal exception that ends a run is the outcome of a task of its window, or what refining that window
      raises; and nothing is recorded or reported for the window. */
  lemma FatalExit(c: Setup, s0: World, events: seq<Event>, s: World)
    requires c.WellFormed() && Initial(c, s0) && Leads(c, s0, events, s) && s.main.Raised? && s.main.cause.Killed?
    ensures exists t :: CausedBy(c, s.books.index, s.tasks, t, s.main.cause.window, s.main.cause.error)
    ensures s.main.cause.error in {EngineDead, FatalDecode, Cancelled} && s.main.cause.window < |c.requests|
    ensures s.main.cause.window !in s.books.results
    ensures DonesOf(s.books.dones, s.main.cause.window) == [] && ErrorsOf(s.books.errors, s.main.cause.window) == []
  {
    StartsOk(c, s0);
    EveryRun(c, s0, events, s);
    EveryRunFatal(c, s0, events, s);
    assert KeptAt(c, s.books, s.main.cause.window);
    var t :| Caused(c, s.books.index, s.tasks, t, s.main.cause.window, s.main.cause.error);
    CauseSays(c, s, t, s.main.cause.window, s.main.cause.error);
  }

  /** No fatal exception is ever reported as one that was contained. */
  lemma NoFatalReported(c: Setup, s0: World, events: seq<Event>, s: World, call: ErrorCall)
    requires c.WellFormed() && Initial(c, s0) && Leads(c, s0, events, s) && call in s.books.errors
    ensures call.error != FatalDecode && call.error != Cancelled
    ensures call.phase != Stage2Build ==> call.error != EngineDead
  {
    StartsOk(c, s0);
    EveryRun(c, s0, events, s);
    InvIsKept(c, s, call.window);
    ErrorsOfWindow(s.books.errors, call.window);
    assert call in ErrorsOf(s.books.errors, call.window) && KeptAt(c, s.books, call.window);
  }
}
