/** Calls of `on_window_error` and interruptions of `_AsyncCaptioner.run`: each reported exception was met, and each
    interruption is the exception that the run raises. */
module CaptionAsyncCalls {
  import opened Text
  import opened CaptionModel
  import opened CaptionAsyncBooks
  import opened CaptionAsync
  import opened CaptionAsyncSafety
  import opened CaptionAsyncTheorems

  // ---- Every reported exception was met ----

  /** Task `t` ended with the reported exception, on the stage-1 request of the window or on its refined one. */
  ghost predicate MetBy(c: Setup, tasks: seq<Task>, call: ErrorCall, t: TaskId) {
    && t < |tasks| && call.window < |c.requests| && tasks[t].state == Done(Err(call.error))
    && match call.phase
       case Stage1 => tasks[t].request == c.requests[call.window]
       case Stage2 => RefinesWindow(c, call.window, tasks[t].request)
       case Stage2Build => false
  }

  ghost predicate Met(c: Setup, tasks: seq<Task>, call: ErrorCall) {
    call.phase != Stage2Build ==> exists t :: MetBy(c, tasks, call, t)
  }

  ghost predicate AllMet(c: Setup, s: World) {
    forall call :: call in s.books.errors ==> Met(c, s.tasks, call)
  }

  /** A task that is done stays as it is, so what it met stays met. */
  lemma MetStays(c: Setup, tasks: seq<Task>, tasks': seq<Task>, errors: seq<ErrorCall>)
    requires forall call :: call in errors ==> Met(c, tasks, call)
    requires forall t :: 0 <= t < |tasks| && tasks[t].state.Done? ==> t < |tasks'| && tasks'[t] == tasks[t]
    ensures forall call :: call in errors ==> Met(c, tasks', call)
  {
    forall call | call in errors && call.phase != Stage2Build ensures exists t :: MetBy(c, tasks', call, t) {
      assert Met(c, tasks, call);
      var t :| MetBy(c, tasks, call, t);
      assert MetBy(c, tasks', call, t);
    }
  }

  /** What `_handle_completed` reports. */
  lemma HandledErrors(m: Model, b: Books, t: TaskId, outcome: Outcome, u: TaskId, nextId: Id)
    requires t in b.pending && t in b.phase && b.pending[t].id in b.index
    ensures
      var i, errors' := b.index[b.pending[t].id], HandleCompleted(m, b, t, outcome, u, nextId).books.errors;
      || errors' == b.errors
      || (outcome.Err? && errors' == b.errors + [ErrorCall(i, b.phase[t], outcome.error)])
      || (exists e :: errors' == b.errors + [ErrorCall(i, Stage2Build, e)])
  {
    var i := b.index[b.pending[t].id];
    if outcome.Ok? && b.pending[t].stage2Prompt.Some? {
      var refined := m.Refine(b.pending[t].inputs, outcome.value.caption, b.pending[t].stage2Prompt.value);
      if refined.Err? && !FatalToBuild(refined.error) {
        assert HandleCompleted(m, b, t, outcome, u, nextId).books.errors
            == b.errors + [ErrorCall(i, Stage2Build, refined.error)];
      }
    }
  }

  /** The task that is handled met what is reported. */
  lemma HandledMet(c: Setup, s: World, t: TaskId)
    requires Inv(c, s) && Enabled(c, s, Handle(t)) && s.tasks[t].state.outcome.Err?
    ensures MetBy(c, s.tasks, ErrorCall(s.books.index[s.books.pending[t].id], s.books.phase[t],
                                        s.tasks[t].state.outcome.error), t)
  {
    LiveWindow(c, s.books, s.home, s.nextId, t);
  }

  lemma AppendMet(c: Setup, tasks: seq<Task>, errors: seq<ErrorCall>, call: ErrorCall)
    requires (forall x :: x in errors ==> Met(c, tasks, x)) && Met(c, tasks, call)
    ensures forall x :: x in errors + [call] ==> Met(c, tasks, x)
  {
  }

  lemma HandleMeets(c: Setup, s: World, t: TaskId)
    requires Inv(c, s) && AllMet(c, s) && Enabled(c, s, Handle(t))
    ensures forall call :: call in HandleStep(c, s, t).books.errors ==> Met(c, s.tasks, call)
  {
    var b, outcome := s.books, s.tasks[t].state.outcome;
    HandledErrors(c.model, b, t, outcome, |s.tasks|, s.nextId);
    var i, h := b.index[b.pending[t].id], HandleCompleted(c.model, b, t, outcome, |s.tasks|, s.nextId);
    assert HandleStep(c, s, t).books.errors == h.books.errors;
    if outcome.Err? && h.books.errors == b.errors + [ErrorCall(i, b.phase[t], outcome.error)] {
      HandledMet(c, s, t);
      AppendMet(c, s.tasks, b.errors, ErrorCall(i, b.phase[t], outcome.error));
    } else if h.books.errors != b.errors {
      var e :| h.books.errors == b.errors + [ErrorCall(i, Stage2Build, e)];
      AppendMet(c, s.tasks, b.errors, ErrorCall(i, Stage2Build, e));
    }
  }

  /** Nothing else reports. */
  lemma OthersReportNothing(c: Setup, s: World, ev: Event)
    requires Enabled(c, s, ev) && !ev.Handle?
    ensures Apply(c, s, ev).books.errors == s.books.errors
  {
  }

  lemma StepMeets(c: Setup, s: World, ev: Event)
    requires Inv(c, s) && AllMet(c, s) && Enabled(c, s, ev)
    ensures AllMet(c, Apply(c, s, ev))
  {
    var s' := Apply(c, s, ev);
    forall t: nat | t < |s.tasks| && s.tasks[t].state.Done? ensures t < |s'.tasks| && s'.tasks[t] == s.tasks[t] {
      DoneStays(c, s, ev, t);
    }
    if ev.Handle? { HandleMeets(c, s, ev.task); } else { OthersReportNothing(c, s, ev); }
    MetStays(c, s.tasks, s'.tasks, s'.books.errors);
  }

  lemma {:induction false} RunMeets(c: Setup, s: World, events: seq<Event>, s': World)
    requires c.WellFormed() && Inv(c, s) && AllMet(c, s) && Leads(c, s, events, s')
    ensures AllMet(c, s')
    decreases |events|
  {
    if events != [] {
      EveryStepKeeps(c, s, events[0]);
      StepMeets(c, s, events[0]);
      RunMeets(c, Apply(c, s, events[0]), events[1..], s');
    }
  }

  /** A task ended with `e` on this request. */
  ghost predicate EndedWith(tasks: seq<Task>, t: TaskId, inputs: Inputs, e: Error) {
    t < |tasks| && tasks[t].state == Done(Err(e)) && tasks[t].request.inputs == inputs
  }

  /** The exception of a call: for stage 1 or stage 2 of a window the outcome of a task that ran that stage, and for
      building the refinement what the refinement raises. */
  ghost predicate Explains(c: Setup, tasks: seq<Task>, call: ErrorCall) {
    && call.window < |c.requests|
    && var first, prompt := c.requests[call.window].inputs, c.requests[call.window].stage2Prompt;
    var caption := c.model.decoder(c.model.generator(first));
    match call.phase
    case Stage1 => exists t :: EndedWith(tasks, t, first, call.error)
    case Stage2 =>
      && prompt.Some? && caption.Ok? && c.model.refiner(first, caption.value, prompt.value).Ok?
      && exists t :: EndedWith(tasks, t, c.model.refiner(first, caption.value, prompt.value).value, call.error)
    case Stage2Build =>
      prompt.Some? && caption.Ok? && c.model.refiner(first, caption.value, prompt.value) == Err(call.error)
  }

  lemma MetExplains(c: Setup, tasks: seq<Task>, call: ErrorCall, t: TaskId)
    requires MetBy(c, tasks, call, t)
    ensures Explains(c, tasks, call)
  {
    assert EndedWith(tasks, t, tasks[t].request.inputs, call.error);
  }

  lemma ReportedWasMet(c: Setup, s0: World, events: seq<Event>, s: World, call: ErrorCall)
    requires c.WellFormed() && Initial(c, s0) && Leads(c, s0, events, s) && call in s.books.errors
    ensures Explains(c, s.tasks, call)
  {
    StartsOk(c, s0);
    EveryRun(c, s0, events, s);
    RunMeets(c, s0, events, s);
    assert Met(c, s.tasks, call);
    if call.phase == Stage2Build {
      BuildExplains(c, s, call);
    } else {
      var t :| MetBy(c, s.tasks, call, t);
      MetExplains(c, s.tasks, call, t);
    }
  }

  lemma BuildExplains(c: Setup, s: World, call: ErrorCall)
    requires Inv(c, s) && call in s.books.errors && call.phase == Stage2Build
    ensures Explains(c, s.tasks, call)
  {
    InvIsKept(c, s, call.window);
    ErrorsOfWindow(s.books.errors, call.window);
    assert call in ErrorsOf(s.books.errors, call.window) && KeptAt(c, s.books, call.window);
  }

  // ---- Interruptions ----

  /** How the run will end once it has left its loops. */
  function ExitOf(main: Main): Option<Exit> {
    match main
    case Draining(exit) => Some(exit)
    case Raised(cause) => Some(cause)
    case Returned(_) => Some(Normal)
    case _ => None
  }

  lemma ExitStays(c: Setup, s: World, ev: Event)
    requires Enabled(c, s, ev) && ExitOf(s.main).Some?
    ensures ExitOf(Apply(c, s, ev).main) == ExitOf(s.main) && !ev.Interrupt?
  {
  }

  /** A run that is over was interrupted by `e`, say by a request iterable that raises or by cancellation, exactly when
      it raises `e` for that reason. */
  lemma {:induction false} InterruptIsRaised(c: Setup, s: World, events: seq<Event>, s': World, e: Error)
    requires Leads(c, s, events, s') && Over(s'.main)
    ensures s'.main == Raised(Interrupted(e)) <==>
              ExitOf(s.main) == Some(Interrupted(e)) || exists k :: 0 <= k < |events| && events[k] == Interrupt(e)
    ensures ExitOf(s.main).Some? ==> ExitOf(s'.main) == ExitOf(s.main)
    decreases |events|
  {
    if events != [] {
      var ev, rest, next := events[0], events[1..], Apply(c, s, events[0]);
      InterruptIsRaised(c, next, rest, s', e);
      assert forall k :: 0 < k < |events| ==> events[k] == rest[k - 1];
      assert forall k :: 0 <= k < |rest| ==> rest[k] == events[k + 1];
      if ExitOf(s.main).Some? {
        ExitStays(c, s, ev);
        NoLaterInterrupt(c, next, rest, s', e);
      } else if ev == Interrupt(e) {
        assert ExitOf(next.main) == Some(Interrupted(e));
      } else if ev.Interrupt? {
        NoLaterInterrupt(c, next, rest, s', e);
      }
    }
  }

  lemma {:induction false} NoLaterInterrupt(c: Setup, s: World, events: seq<Event>, s': World, e: Error)
    requires Leads(c, s, events, s') && ExitOf(s.main).Some?
    ensures forall k :: 0 <= k < |events| ==> events[k] != Interrupt(e)
    decreases |events|
  {
    if events != [] {
      ExitStays(c, s, events[0]);
      NoLaterInterrupt(c, Apply(c, s, events[0]), events[1..], s', e);
      assert forall k :: 0 < k < |events| ==> events[k] == events[1..][k - 1];
    }
  }
}
