/** What the invariant of CaptionAsyncSafety means for whole runs of `_AsyncCaptioner.run`. */
module CaptionAsyncTheorems {
  import opened Text
  import opened CaptionModel
  import opened CaptionAsyncBooks
  import opened CaptionAsync
  import opened CaptionAsyncSafety

  // ---- Results and callbacks ----

  /** How window `i` ended: without inputs, with its result, or with the sentinel for one contained exception, charged
      with the tokens of stage 1 if that was over. */
  ghost predicate EndsAs(c: Setup, i: nat, w: WindowResult, errors: seq<ErrorCall>)
    requires i < |c.requests|
  {
    var first, prompt := c.requests[i].inputs, c.requests[i].stage2Prompt;
    if first == map[] then errors == [] && w == WindowResult(c.model.unknown, None, TokenCounts(0, 0))
    else if errors == [] then ResultIs(c.model, first, prompt, w)
    else
      var g, e := c.model.generator(first), errors[0].error;
      && |errors| == 1 && errors[0].window == i && w.text == c.model.unknown && w.finishReason == None
      && e !in {FatalDecode, Cancelled}
      && w.tokenCounts.promptTokens
         == (if errors[0].phase == Stage1 then 0 else match g.promptTokenIds case None => 0 case Some(ids) => |ids|)
      && w.tokenCounts.outputTokens
         == (if errors[0].phase == Stage1 || |g.outputs| == 0 then 0 else |g.outputs[0].tokenIds|)
      && match errors[0].phase
         case Stage1 => e != EngineDead
         case Stage2 =>
           && e != EngineDead && prompt.Some? && c.model.decoder(g).Ok?
           && c.model.refiner(first, c.model.decoder(g).value, prompt.value).Ok?
         case Stage2Build =>
           && prompt.Some? && c.model.decoder(g).Ok?
           && c.model.refiner(first, c.model.decoder(g).value, prompt.value) == Err(e)
  }

  lemma {:induction false} ErrorsOfWindow(log: seq<ErrorCall>, i: nat)
    ensures forall call :: call in ErrorsOf(log, i) <==> call in log && call.window == i
  {
    if log != [] {
      ErrorsOfWindow(log[..|log| - 1], i);
      assert log == log[..|log| - 1] + [log[|log| - 1]];
    }
  }

  lemma EndedSays(c: Setup, i: nat, w: WindowResult, log: seq<ErrorCall>)
    requires i < |c.requests| && Ended(c, i, w, ErrorsOf(log, i))
    ensures EndsAs(c, i, w, ErrorsOf(log, i))
  {
    SpecSays(c.model, c.requests[i].inputs, c.requests[i].stage2Prompt);
    ErrorsOfWindow(log, i);
    if ErrorsOf(log, i) != [] { assert ErrorsOf(log, i)[0] in ErrorsOf(log, i); }
  }

  /** A run that returns gives one result per request, in input order; `on_window_done` was called exactly once for
      each, with that result, and `on_window_error` exactly for those whose sentinel stands for an exception. */
  lemma ReturnedRun(c: Setup, s0: World, events: seq<Event>, s: World)
    requires c.WellFormed() && Initial(c, s0) && Leads(c, s0, events, s) && s.main.Returned?
    ensures |s.main.list| == |c.requests|
    ensures forall i :: 0 <= i < |c.requests| ==>
              && DonesOf(s.books.dones, i) == [s.main.list[i]]
              && Ended(c, i, s.main.list[i], ErrorsOf(s.books.errors, i))
              && EndsAs(c, i, s.main.list[i], ErrorsOf(s.books.errors, i))
    ensures forall i: nat :: i >= |c.requests| ==> DonesOf(s.books.dones, i) == [] && ErrorsOf(s.books.errors, i) == []
  {
    StartsOk(c, s0);
    EveryRun(c, s0, events, s);
    forall i: nat ensures KeptAt(c, s.books, i) { }
    forall i: nat | i >= |c.requests| ensures DonesOf(s.books.dones, i) == [] && ErrorsOf(s.books.errors, i) == [] {
      assert KeptAt(c, s.books, i);
    }
    forall i | 0 <= i < |c.requests|
      ensures DonesOf(s.books.dones, i) == [s.main.list[i]] && Ended(c, i, s.main.list[i], ErrorsOf(s.books.errors, i))
      ensures EndsAs(c, i, s.main.list[i], ErrorsOf(s.books.errors, i))
    {
      assert KeptAt(c, s.books, i);
      EndedSays(c, i, s.main.list[i], s.books.errors);
    }
  }

  /** With no empty request and no contained exception the list is the one the synchronous schedulers give. */
  lemma CleanRunYields(c: Setup, s0: World, events: seq<Event>, s: World)
    requires c.WellFormed() && Initial(c, s0) && Leads(c, s0, events, s) && s.main.Returned?
    requires s.books.errors == [] && forall i :: 0 <= i < |c.requests| ==> c.requests[i].inputs != map[]
    ensures c.AsJob().Yields(s.main.list) && c.AsJob().ResultsAre(s.main.list)
  {
    ReturnedRun(c, s0, events, s);
    var job := c.AsJob();
    forall i | 0 <= i < |job.inputs| ensures job.Spec(i) == Ok(s.main.list[i]) {
      assert Ended(c, i, s.main.list[i], ErrorsOf(s.books.errors, i));
    }
    YieldsSays(job, s.main.list);
  }

  /** A window that fails after its first stage keeps the tokens of that stage; one that fails earlier has none. */
  lemma SentinelTokens(c: Setup, s0: World, events: seq<Event>, s: World, i: nat)
    requires c.WellFormed() && Initial(c, s0) && Leads(c, s0, events, s) && i in s.books.results
    requires ErrorsOf(s.books.errors, i) != []
    ensures i < |c.requests|
    ensures EndsAs(c, i, s.books.results[i], ErrorsOf(s.books.errors, i))
    ensures
      var phase, g := ErrorsOf(s.books.errors, i)[0].phase, c.model.generator(c.requests[i].inputs);
      && s.books.results[i].text == c.model.unknown && s.books.results[i].finishReason.None?
      && s.books.results[i].tokenCounts.promptTokens
         == (if phase == Stage1 then 0 else match g.promptTokenIds case None => 0 case Some(ids) => |ids|)
      && s.books.results[i].tokenCounts.outputTokens
         == (if phase == Stage1 || |g.outputs| == 0 then 0 else |g.outputs[0].tokenIds|)
  {
    StartsOk(c, s0);
    EveryRun(c, s0, events, s);
    InvIsKept(c, s, i);
    EndedSays(c, i, s.books.results[i], s.books.errors);
  }

  lemma InvIsKept(c: Setup, s: World, i: nat)
    requires Inv(c, s)
    ensures KeptAt(c, s.books, i)
  {
    if Active(s.main) || (s.main.Draining? && s.main.exit.Normal?) {
      TrackedIsKept(c, if s.main.Dispatching? then s.main.next else |c.requests|, s.books, s.home, s.nextId);
    }
  }

  // ---- Permits and dictionaries ----

  lemma {:induction false} NoneHeld(weights: seq<nat>)
    requires forall t :: 0 <= t < |weights| ==> weights[t] == 0
    ensures Total(weights) == 0
  {
    if weights != [] { NoneHeld(weights[..|weights| - 1]); }
  }

  /** However the run ends, both task dictionaries are empty, every task is done and every permit is given back. */
  lemma EndOfRun(c: Setup, s0: World, events: seq<Event>, s: World)
    requires c.WellFormed() && Initial(c, s0) && Leads(c, s0, events, s) && Over(s.main)
    ensures s.books.pending == map[] && s.books.phase == map[]
    ensures forall t :: 0 <= t < |s.tasks| ==> s.tasks[t].state.Done?
    ensures s.free + s.foreign == c.capacity
  {
    StartsOk(c, s0);
    EveryRun(c, s0, events, s);
    assert s.books.phase.Keys == {};
    NoneHeld(PermitsHeld(s.tasks));
  }

  /** The tasks that hold a permit. */
  ghost function Holders(tasks: seq<Task>): set<nat> {
    set t: nat | t < |tasks| && tasks[t].state.Generating?
  }

  lemma {:induction false} HoldersCount(tasks: seq<Task>)
    ensures Total(PermitsHeld(tasks)) == |Holders(tasks)|
  {
    if tasks != [] {
      var n := |tasks| - 1;
      HoldersCount(tasks[..n]);
      assert PermitsHeld(tasks)[..n] == PermitsHeld(tasks[..n]);
      assert Holders(tasks) == Holders(tasks[..n]) + if tasks[n].state.Generating? then {n} else {};
    } else {
      assert Holders(tasks) == {};
    }
  }

  /** At every moment free permits, generating tasks and the permits of other runners make up the capacity, and the
      two task dictionaries have the same keys. */
  lemma DuringRun(c: Setup, s0: World, events: seq<Event>, s: World)
    requires c.WellFormed() && Initial(c, s0) && Leads(c, s0, events, s)
    ensures s.free + |set t: nat | t < |s.tasks| && s.tasks[t].state.Generating?| + s.foreign == c.capacity
    ensures s.books.pending.Keys == s.books.phase.Keys
  {
    StartsOk(c, s0);
    EveryRun(c, s0, events, s);
    HoldersCount(s.tasks);
    assert Holders(s.tasks) == set t: nat | t < |s.tasks| && s.tasks[t].state.Generating?;
  }

  // ---- Attempts ----

  predicate HasAttempt(s: World, t: TaskId, j: nat) { t < |s.tasks| && j < |s.tasks[t].attemptIds| }

  function AttemptId(s: World, t: TaskId, j: nat): Id
    requires HasAttempt(s, t, j)
  {
    s.tasks[t].attemptIds[j]
  }

  /** A request makes at most max(1, max_retries) attempts, and no two attempts of a run share an id. */
  lemma AttemptsBounded(c: Setup, s0: World, events: seq<Event>, s: World)
    requires c.WellFormed() && Initial(c, s0) && Leads(c, s0, events, s)
    ensures forall t :: 0 <= t < |s.tasks| ==> |s.tasks[t].attemptIds| <= (if c.maxRetries > 1 then c.maxRetries else 1)
    ensures forall t: TaskId, u: TaskId, j: nat, k: nat ::
      HasAttempt(s, t, j) && HasAttempt(s, u, k) && AttemptId(s, t, j) == AttemptId(s, u, k) ==>
        t == u && j == k
  {
    StartsOk(c, s0);
    EveryRun(c, s0, events, s);
    forall t: TaskId, u: TaskId, j: nat, k: nat |
      HasAttempt(s, t, j) && HasAttempt(s, u, k) && AttemptId(s, t, j) == AttemptId(s, u, k)
      ensures t == u && j == k
    {
      assert TaskOk(c, s.nextId, s.attempts, t, s.tasks[t]) && TaskOk(c, s.nextId, s.attempts, u, s.tasks[u]);
    }
  }

  /** A task only gives up on engine death, on its last allowed attempt, on a decoding error, or when cancelled. */
  lemma FailureIsExplained(c: Setup, s0: World, events: seq<Event>, s: World, t: TaskId)
    requires c.WellFormed() && Initial(c, s0) && Leads(c, s0, events, s)
    requires t < |s.tasks| && s.tasks[t].state.Done? && s.tasks[t].state.outcome.Err?
    ensures
      var task := s.tasks[t];
      || task.state.outcome.error.EngineDead? || task.state.outcome.error.Cancelled?
      || c.model.Decode(c.model.Generate(task.request.inputs)) == Err(task.state.outcome.error)
      || |task.attemptIds| == (if c.maxRetries > 1 then c.maxRetries else 1)
  {
    StartsOk(c, s0);
    EveryRun(c, s0, events, s);
    assert TaskOk(c, s.nextId, s.attempts, t, s.tasks[t]);
  }

  lemma DoneStays(c: Setup, s: World, ev: Event, t: TaskId)
    requires Enabled(c, s, ev) && t < |s.tasks| && s.tasks[t].state.Done?
    ensures t < |Apply(c, s, ev).tasks| && Apply(c, s, ev).tasks[t] == s.tasks[t]
  {
    if IsTaskEvent(ev) { assert ev.task != t; }
  }

  lemma {:induction false} DoneForever(c: Setup, s: World, events: seq<Event>, s': World, t: TaskId)
    requires Leads(c, s, events, s') && t < |s.tasks| && s.tasks[t].state.Done?
    ensures t < |s'.tasks| && s'.tasks[t] == s.tasks[t]
    decreases |events|
  {
    if events != [] {
      DoneStays(c, s, events[0], t);
      DoneForever(c, Apply(c, s, events[0]), events[1..], s', t);
    }
  }

  /** Engine death ends the attempts of a request at once and for good. */
  lemma EngineDeathIsFinal(c: Setup, s: World, t: TaskId, events: seq<Event>, s': World)
    requires Enabled(c, s, Fail(t, EngineDead)) && Leads(c, Apply(c, s, Fail(t, EngineDead)), events, s')
    ensures t < |s'.tasks| && s'.tasks[t].attemptIds == s.tasks[t].attemptIds
    ensures s'.tasks[t].state == Done(Err(EngineDead))
  {
    DoneForever(c, Apply(c, s, Fail(t, EngineDead)), events, s', t);
  }
}
