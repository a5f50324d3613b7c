/** The invariant of `_AsyncCaptioner.run`: permits are conserved, every window is recorded once or has one live
    task, and every attempt is accounted for. It holds at the start and every event keeps it. */
module CaptionAsyncSafety {
  import opened Text
  import opened CaptionModel
  import opened CaptionAsyncBooks
  import opened CaptionAsync

  // ---- Sums over the tasks ----

  function Total(weights: seq<nat>): nat {
    if weights == [] then 0 else Total(weights[..|weights| - 1]) + weights[|weights| - 1]
  }

  lemma TotalAppend(weights: seq<nat>, w: nat)
    ensures Total(weights + [w]) == Total(weights) + w
  {
    assert (weights + [w])[..|weights|] == weights;
  }

  lemma {:induction false} TotalUpdate(weights: seq<nat>, i: nat, w: nat)
    requires i < |weights|
    ensures Total(weights[i := w]) == Total(weights) - weights[i] + w
  {
    var n := |weights| - 1;
    if i == n {
      assert weights[i := w][..n] == weights[..n];
    } else {
      assert weights[i := w][..n] == weights[..n][i := w];
      TotalUpdate(weights[..n], i, w);
    }
  }

  /** The permits each task holds. */
  function PermitsHeld(tasks: seq<Task>): (w: seq<nat>)
    ensures |w| == |tasks| && forall t :: 0 <= t < |w| ==> w[t] == if tasks[t].state.Generating? then 1 else 0
  {
    seq(|tasks|, t requires 0 <= t < |tasks| => if tasks[t].state.Generating? then 1 else 0)
  }

  /** Free permits, generating tasks and permits of other runners make up the capacity. */
  ghost predicate PermitsBalance(c: Setup, free: nat, tasks: seq<Task>, foreign: nat) {
    free + Total(PermitsHeld(tasks)) + foreign == c.capacity
  }

  lemma PermitsSet(tasks: seq<Task>, t: nat, task: Task)
    requires t < |tasks|
    ensures Total(PermitsHeld(tasks[t := task])) + (if tasks[t].state.Generating? then 1 else 0)
         == Total(PermitsHeld(tasks)) + (if task.state.Generating? then 1 else 0)
  {
    var w := if task.state.Generating? then 1 else 0;
    TotalUpdate(PermitsHeld(tasks), t, w);
    assert PermitsHeld(tasks[t := task]) == PermitsHeld(tasks)[t := w];
  }

  lemma PermitsAdd(tasks: seq<Task>, task: Task)
    requires task.state.Created?
    ensures Total(PermitsHeld(tasks + [task])) == Total(PermitsHeld(tasks))
  {
    TotalAppend(PermitsHeld(tasks), 0);
    assert PermitsHeld(tasks + [task]) == PermitsHeld(tasks) + [0];
  }

  // ---- Tasks and their attempts ----

  /** What holds of one task: at most the allowed attempts, each under an id of its own, and an outcome that the
      attempts explain. */
  ghost predicate TaskOk(c: Setup, nextId: Id, attempts: map<Id, TaskId>, t: TaskId, task: Task) {
    && |task.attemptIds| <= c.MaxAttempts()
    && (forall j :: 0 <= j < |task.attemptIds| ==>
          var id := task.attemptIds[j];
          id < nextId && id in attempts && attempts[id] == t)
    && (forall j, k :: 0 <= j < k < |task.attemptIds| ==> task.attemptIds[j] < task.attemptIds[k])
    && match task.state
       case Created => task.attemptIds == []
       case Waiting(a) => 1 <= a == |task.attemptIds|
       case Generating(a) => 1 <= a == |task.attemptIds|
       case Done(outcome) => Explained(c, task, outcome)
  }

  /** A task fails only by engine death, by cancellation, by a decoding error, or on its last allowed attempt. */
  ghost predicate Explained(c: Setup, task: Task, outcome: Outcome) {
    var g := c.model.Generate(task.request.inputs);
    match outcome
    case Ok(o) => |task.attemptIds| >= 1 && Decoded(c.model, g) == outcome
    case Err(e) =>
      e.EngineDead? || e.Cancelled? || Decoded(c.model, g) == outcome || |task.attemptIds| == c.MaxAttempts()
  }

  ghost predicate TasksOk(c: Setup, tasks: seq<Task>, nextId: Id, attempts: map<Id, TaskId>) {
    && (forall t :: 0 <= t < |tasks| ==> TaskOk(c, nextId, attempts, t, tasks[t]))
    && (forall id :: id in attempts ==> id < nextId)
  }

  /** The two task dictionaries have the same keys, they hold the requests of their tasks, and a task in neither is
      done. */
  ghost predicate KeysOk(b: Books, tasks: seq<Task>) {
    && b.pending.Keys == b.phase.Keys
    && (forall t :: t in b.pending ==> t < |tasks| && tasks[t].request == b.pending[t])
    && (forall t: nat :: t < |tasks| && t !in b.pending ==> tasks[t].state.Done?)
  }

  // ---- Windows ----

  function DonesOf(log: seq<DoneCall>, i: nat): seq<WindowResult> {
    if log == [] then []
    else
      var rest, call := DonesOf(log[..|log| - 1], i), log[|log| - 1];
      if call.window == i then rest + [call.result] else rest
  }

  function ErrorsOf(log: seq<ErrorCall>, i: nat): seq<ErrorCall> {
    if log == [] then []
    else
      var rest, call := ErrorsOf(log[..|log| - 1], i), log[|log| - 1];
      if call.window == i then rest + [call] else rest
  }

  lemma DonesSnoc(log: seq<DoneCall>, call: DoneCall, i: nat)
    ensures DonesOf(log + [call], i) == if call.window == i then DonesOf(log, i) + [call.result] else DonesOf(log, i)
  {
    assert (log + [call])[..|log|] == log;
  }

  lemma ErrorsSnoc(log: seq<ErrorCall>, call: ErrorCall, i: nat)
    ensures ErrorsOf(log + [call], i) == if call.window == i then ErrorsOf(log, i) + [call] else ErrorsOf(log, i)
  {
    assert (log + [call])[..|log|] == log;
  }

  /** The sentinel of window `i` for an exception `e` met in `phase`; it keeps the tokens of a finished stage 1. */
  ghost predicate Sentinel(c: Setup, i: nat, w: WindowResult, phase: Phase, e: Error)
    requires i < |c.requests|
  {
    var first, prompt := c.requests[i].inputs, c.requests[i].stage2Prompt;
    match phase
    case Stage1 => w == Unknown(c.model, None) && !Fatal(e)
    case Stage2 =>
      && prompt.Some? && Stage2Inputs(c.model, first, prompt.value).Ok?
      && w == Unknown(c.model, Some(Tokens(c.model.Generate(first)))) && !Fatal(e)
    case Stage2Build =>
      && prompt.Some? && c.model.Decode(c.model.Generate(first)).Ok?
      && Stage2Inputs(c.model, first, prompt.value) == Err(e)
      && w == Unknown(c.model, Some(Tokens(c.model.Generate(first)))) && !FatalToBuild(e)
  }

  /** Window `i` ended with result `w` and these calls of `on_window_error`: the specified result or the empty-input
      sentinel and no call, or one call and the sentinel for its exception. */
  ghost predicate Ended(c: Setup, i: nat, w: WindowResult, errors: seq<ErrorCall>)
    requires i < |c.requests|
  {
    var first := c.requests[i];
    if first.inputs == map[] then errors == [] && w == Unknown(c.model, None)
    else if errors == [] then WindowSpec(c.model, first.inputs, first.stage2Prompt) == Ok(w)
    else |errors| == 1 && Sentinel(c, i, w, errors[0].phase, errors[0].error)
  }

  /** The request of a live task. */
  datatype Live = Live(request: Request, phase: Phase)

  function LiveAt(b: Books, home: map<nat, TaskId>, i: nat): Option<Live> {
    if i in home && home[i] in b.pending && home[i] in b.phase
    then Some(Live(b.pending[home[i]], b.phase[home[i]])) else None
  }

  /** `request` refines window `i`. */
  ghost predicate RefinesWindow(c: Setup, i: nat, request: Request)
    requires i < |c.requests|
  {
    var first, prompt := c.requests[i].inputs, c.requests[i].stage2Prompt;
    && prompt.Some? && Stage2Inputs(c.model, first, prompt.value) == Ok(request.inputs) && request.stage2Prompt.None?
  }

  /** What holds of window `i` when the first `k` windows are dispatched. */
  ghost predicate WindowOk(c: Setup, k: nat, i: nat, result: Option<WindowResult>, count: Option<TokenCounts>,
                           dones: seq<WindowResult>, errors: seq<ErrorCall>, live: Option<Live>)
    requires k <= |c.requests|
  {
    if i >= k then result.None? && count.None? && dones == [] && errors == [] && live.None?
    else match live
      case None => result.Some? && dones == [result.value] && Ended(c, i, result.value, errors)
      case Some(Live(request, phase)) =>
        && result.None? && dones == [] && errors == [] && c.requests[i].inputs != map[]
        && match phase
           case Stage1 => count.None? && request == c.requests[i]
           case Stage2 => count == Some(Tokens(c.model.Generate(c.requests[i].inputs))) && RefinesWindow(c, i, request)
           case Stage2Build => false
  }

  ghost predicate WindowAt(c: Setup, k: nat, b: Books, home: map<nat, TaskId>, i: nat)
    requires k <= |c.requests|
  {
    WindowOk(c, k, i, Look(b.results, i), Look(b.counts, i), DonesOf(b.dones, i), ErrorsOf(b.errors, i),
      LiveAt(b, home, i))
  }

  /** `home` and the task dictionaries agree. */
  ghost predicate HomesOk(b: Books, home: map<nat, TaskId>) {
    && (forall t :: t in b.pending ==>
          b.pending[t].id in b.index && b.index[b.pending[t].id] in home && home[b.index[b.pending[t].id]] == t)
    && (forall i :: i in home ==> home[i] in b.pending && home[i] in b.phase && b.index[b.pending[home[i]].id] == i)
  }

  ghost predicate IdsOk(c: Setup, b: Books, nextId: Id) {
    && (forall id :: id in b.index ==> id < nextId)
    && (forall i :: 0 <= i < |c.requests| ==> c.requests[i].id < nextId)
  }

  ghost predicate Tracked(c: Setup, k: nat, b: Books, home: map<nat, TaskId>, nextId: Id)
    requires k <= |c.requests|
  {
    (forall i: nat :: WindowAt(c, k, b, home, i)) && HomesOk(b, home) && IdsOk(c, b, nextId)
  }

  /** While dispatching, the only ids known are those of the dispatched requests. */
  ghost predicate FirstIds(c: Setup, k: nat, b: Books) {
    forall id :: id in b.index ==> b.index[id] < k <= |c.requests| && c.requests[b.index[id]].id == id
  }

  /** What stays true of a window once the runner has given up: nothing recorded, or recorded once and rightly. */
  ghost predicate KeptAt(c: Setup, b: Books, i: nat) {
    if i in b.results
    then i < |c.requests| && DonesOf(b.dones, i) == [b.results[i]] && Ended(c, i, b.results[i], ErrorsOf(b.errors, i))
    else DonesOf(b.dones, i) == [] && ErrorsOf(b.errors, i) == []
  }

  ghost predicate Kept(c: Setup, b: Books) {
    forall i: nat :: KeptAt(c, b, i)
  }

  /** A fatal exception records nothing for its window. */
  ghost predicate ExitOk(c: Setup, b: Books, exit: Exit) {
    match exit
    case Normal => false
    case Interrupted(e) => true
    case Killed(i, e) => Fatal(e) && i < |c.requests| && i !in b.results
  }

  ghost predicate MainOk(c: Setup, main: Main, b: Books, tasks: seq<Task>, home: map<nat, TaskId>, nextId: Id) {
    match main
    case Dispatching(k) =>
      k <= |c.requests| && Tracked(c, k, b, home, nextId) && FirstIds(c, k, b)
    case Awaiting => Tracked(c, |c.requests|, b, home, nextId)
    case Handling(todo) =>
      && Tracked(c, |c.requests|, b, home, nextId) && todo <= b.pending.Keys
      && forall t :: t in todo ==> t < |tasks| && tasks[t].state.Done?
    case Draining(exit) =>
      if exit.Normal? then b.pending == map[] && Tracked(c, |c.requests|, b, home, nextId)
      else Kept(c, b) && ExitOk(c, b, exit)
    case Returned(list) =>
      && b.pending == map[] && Kept(c, b) && |list| == |c.requests|
      && forall i :: 0 <= i < |list| ==> i in b.results && b.results[i] == list[i]
    case Raised(exit) => b.pending == map[] && Kept(c, b) && ExitOk(c, b, exit)
  }

  ghost predicate Inv(c: Setup, s: World) {
    PermitsBalance(c, s.free, s.tasks, s.foreign) && TasksOk(c, s.tasks, s.nextId, s.attempts)
      && KeysOk(s.books, s.tasks) && MainOk(c, s.main, s.books, s.tasks, s.home, s.nextId)
  }

  lemma StartsOk(c: Setup, s: World)
    requires c.WellFormed() && Initial(c, s)
    ensures Inv(c, s)
  {
    assert PermitsHeld(s.tasks) == [];
    forall i: nat ensures WindowAt(c, 0, s.books, s.home, i) { }
    assert MainOk(c, s.main, s.books, s.tasks, s.home, s.nextId);
  }

  // ---- The steps of the tasks ----

  /** Ids only grow, so what is known of the other tasks and of the windows stays. */
  lemma TasksStay(c: Setup, s: World, s': World, t: TaskId)
    requires TasksOk(c, s.tasks, s.nextId, s.attempts) && t < |s.tasks| == |s'.tasks|
    requires s'.tasks == s.tasks[t := s'.tasks[t]]
    requires s'.nextId >= s.nextId
    requires forall id :: id in s.attempts ==> id in s'.attempts && s'.attempts[id] == s.attempts[id]
    requires forall id :: id in s'.attempts ==> id < s'.nextId
    requires TaskOk(c, s'.nextId, s'.attempts, t, s'.tasks[t])
    ensures TasksOk(c, s'.tasks, s'.nextId, s'.attempts)
  {
    forall u | 0 <= u < |s'.tasks| ensures TaskOk(c, s'.nextId, s'.attempts, u, s'.tasks[u]) {
      if u != t { assert TaskOk(c, s.nextId, s.attempts, u, s.tasks[u]); }
    }
  }

  lemma StartAttemptOk(c: Setup, s: World, t: TaskId, attempt: nat)
    requires TasksOk(c, s.tasks, s.nextId, s.attempts) && t < |s.tasks|
    requires attempt == |s.tasks[t].attemptIds| + 1 <= c.MaxAttempts()
    ensures var s' := StartAttempt(s, t, attempt); TasksOk(c, s'.tasks, s'.nextId, s'.attempts)
  {
    var s' := StartAttempt(s, t, attempt);
    assert TaskOk(c, s.nextId, s.attempts, t, s.tasks[t]);
    assert TaskOk(c, s'.nextId, s'.attempts, t, s'.tasks[t]);
    TasksStay(c, s, s', t);
  }

  lemma SetStateOk(c: Setup, s: World, t: TaskId, state: TaskState)
    requires TasksOk(c, s.tasks, s.nextId, s.attempts) && t < |s.tasks|
    requires TaskOk(c, s.nextId, s.attempts, t, s.tasks[t].(state := state))
    ensures var s' := SetState(s, t, state); TasksOk(c, s'.tasks, s'.nextId, s'.attempts)
  {
    TasksStay(c, s, SetState(s, t, state), t);
  }

  predicate IsTaskEvent(ev: Event) { ev.Begin? || ev.Acquire? || ev.Finish? || ev.Fail? || ev.Cancel? }

  lemma TaskStepTasks(c: Setup, s: World, ev: Event)
    requires TasksOk(c, s.tasks, s.nextId, s.attempts) && IsTaskEvent(ev) && Enabled(c, s, ev)
    ensures var s' := TaskStep(c, s, ev); TasksOk(c, s'.tasks, s'.nextId, s'.attempts)
  {
    var t := ev.task;
    assert TaskOk(c, s.nextId, s.attempts, t, s.tasks[t]);
    match ev
    case Begin(t) => StartAttemptOk(c, s, t, 1);
    case Acquire(t) => SetStateOk(c, s, t, Generating(s.tasks[t].state.attempt));
    case Finish(t) => SetStateOk(c, s, t, Done(Decoded(c.model, c.model.Generate(s.tasks[t].request.inputs))));
    case Cancel(t) => SetStateOk(c, s, t, Done(Err(Cancelled)));
    case Fail(t, e) => FailTasks(c, s, t, e);
  }

  lemma FailTasks(c: Setup, s: World, t: TaskId, e: Error)
    requires TasksOk(c, s.tasks, s.nextId, s.attempts) && Enabled(c, s, Fail(t, e))
    ensures var s' := TaskStep(c, s, Fail(t, e)); TasksOk(c, s'.tasks, s'.nextId, s'.attempts)
  {
    assert TaskOk(c, s.nextId, s.attempts, t, s.tasks[t]);
    var attempt := s.tasks[t].state.attempt;
    var s' := s.(free := s.free + 1);
    if e.EngineDead? || attempt >= c.MaxAttempts() {
      SetStateOk(c, s', t, Done(Err(e)));
    } else {
      StartAttemptOk(c, s', t, attempt + 1);
    }
  }

  /** A task step changes one task and at most one permit, and neither the main coroutine nor its dictionaries. */
  lemma TaskStepFrame(c: Setup, s: World, ev: Event)
    requires PermitsBalance(c, s.free, s.tasks, s.foreign) && IsTaskEvent(ev) && Enabled(c, s, ev)
    ensures
      var s' := TaskStep(c, s, ev);
      && PermitsBalance(c, s'.free, s'.tasks, s'.foreign) && s'.main == s.main && s'.books == s.books
      && s'.home == s.home && s'.nextId >= s.nextId
      && |s'.tasks| == |s.tasks| && s'.tasks == s.tasks[ev.task := s'.tasks[ev.task]]
      && !s.tasks[ev.task].state.Done? && s'.tasks[ev.task].request == s.tasks[ev.task].request
  {
    var s' := TaskStep(c, s, ev);
    PermitsSet(s.tasks, ev.task, s'.tasks[ev.task]);
  }

  lemma TaskStepKeeps(c: Setup, s: World, ev: Event)
    requires Inv(c, s) && IsTaskEvent(ev) && Enabled(c, s, ev)
    ensures Inv(c, TaskStep(c, s, ev))
  {
    TaskStepTasks(c, s, ev);
    TaskStepFrame(c, s, ev);
    OneTaskKeeps(c, s, TaskStep(c, s, ev), ev.task);
  }

  lemma OneTaskKeeps(c: Setup, s: World, s': World, t: TaskId)
    requires Inv(c, s) && PermitsBalance(c, s'.free, s'.tasks, s'.foreign)
    requires TasksOk(c, s'.tasks, s'.nextId, s'.attempts)
    requires s'.main == s.main && s'.books == s.books && s'.home == s.home && s'.nextId >= s.nextId
    requires t < |s.tasks| == |s'.tasks| && s'.tasks == s.tasks[t := s'.tasks[t]]
    requires !s.tasks[t].state.Done? && s'.tasks[t].request == s.tasks[t].request
    ensures Inv(c, s')
  {
    KeysStay(s.books, s.tasks, t, s'.tasks[t]);
    MainStays(c, s, s');
  }

  lemma KeysStay(b: Books, tasks: seq<Task>, t: TaskId, task: Task)
    requires KeysOk(b, tasks) && t < |tasks| && task.request == tasks[t].request && !tasks[t].state.Done?
    ensures KeysOk(b, tasks[t := task])
  {
  }

  /** The main coroutine's part of the invariant is about its dictionaries and the tasks that are done. */
  lemma MainStays(c: Setup, s: World, s': World)
    requires MainOk(c, s.main, s.books, s.tasks, s.home, s.nextId) && s'.main == s.main && s'.books == s.books
    requires s'.home == s.home && s'.nextId >= s.nextId
    requires forall t :: 0 <= t < |s.tasks| && s.tasks[t].state.Done? ==> t < |s'.tasks| && s'.tasks[t].state.Done?
    ensures MainOk(c, s'.main, s'.books, s'.tasks, s'.home, s'.nextId)
  {
    if Active(s.main) || (s.main.Draining? && s.main.exit.Normal?) {
      var k := if s.main.Dispatching? then s.main.next else |c.requests|;
      assert Tracked(c, k, s.books, s.home, s.nextId);
      assert Tracked(c, k, s'.books, s'.home, s'.nextId);
    }
  }

  // ---- The steps of the main coroutine ----

  /** Everything else about the windows is unchanged. */
  ghost predicate SameBut(b: Books, home: map<nat, TaskId>, b': Books, home': map<nat, TaskId>, i: nat) {
    forall j: nat :: j != i ==>
      && Look(b'.results, j) == Look(b.results, j) && Look(b'.counts, j) == Look(b.counts, j)
      && DonesOf(b'.dones, j) == DonesOf(b.dones, j) && ErrorsOf(b'.errors, j) == ErrorsOf(b.errors, j)
      && LiveAt(b', home', j) == LiveAt(b, home, j)
  }

  /** A step about window `i` alone. */
  lemma OneWindow(c: Setup, k: nat, b: Books, home: map<nat, TaskId>, k': nat, b': Books, home': map<nat, TaskId>,
                  i: nat)
    requires k <= k' <= |c.requests| && (k' == k || (k' == k + 1 && i == k))
    requires forall j: nat :: WindowAt(c, k, b, home, j)
    requires SameBut(b, home, b', home', i) && WindowAt(c, k', b', home', i)
    ensures forall j: nat :: WindowAt(c, k', b', home', j)
  {
    forall j: nat ensures WindowAt(c, k', b', home', j) {
      if j != i { assert WindowAt(c, k, b, home, j); }
    }
  }

  /** Recording a result, and reporting an exception, touch the logs of one window. */
  lemma RecordLogs(b: Books, i: nat, w: WindowResult)
    ensures forall j: nat ::
      DonesOf(Record(b, i, w).dones, j) == if j == i then DonesOf(b.dones, i) + [w] else DonesOf(b.dones, j)
  {
    forall j: nat ensures
      DonesOf(Record(b, i, w).dones, j) == if j == i then DonesOf(b.dones, i) + [w] else DonesOf(b.dones, j)
    {
      DonesSnoc(b.dones, DoneCall(i, w), j);
    }
  }

  lemma ReportLogs(b: Books, i: nat, phase: Phase, e: Error)
    ensures forall j: nat ::
      ErrorsOf(Report(b, i, phase, e).errors, j)
      == if j == i then ErrorsOf(b.errors, i) + [ErrorCall(i, phase, e)] else ErrorsOf(b.errors, j)
  {
    forall j: nat ensures ErrorsOf(Report(b, i, phase, e).errors, j)
                          == if j == i then ErrorsOf(b.errors, i) + [ErrorCall(i, phase, e)]
                            else ErrorsOf(b.errors, j) {
      ErrorsSnoc(b.errors, ErrorCall(i, phase, e), j);
    }
  }

  /** Dispatching an empty request records its window at once. */
  lemma DispatchEmpty(c: Setup, k: nat, b: Books, home: map<nat, TaskId>, nextId: Id, t: TaskId)
    requires c.WellFormed() && k < |c.requests| && c.requests[k].inputs == map[]
    requires Tracked(c, k, b, home, nextId) && FirstIds(c, k, b)
    ensures
      var b' := DispatchOne(c.model, b, k, c.requests[k], t);
      Tracked(c, k + 1, b', home, nextId) && FirstIds(c, k + 1, b')
  {
    var b' := DispatchOne(c.model, b, k, c.requests[k], t);
    assert WindowAt(c, k, b, home, k);
    RecordLogs(b.(index := b.index[c.requests[k].id := k]), k, Unknown(c.model, Look(b.counts, k)));
    assert SameBut(b, home, b', home, k);
    NewId(c, k, b);
    assert HomesOk(b', home);
    assert WindowAt(c, k + 1, b', home, k);
    OneWindow(c, k, b, home, k + 1, b', home, k);
  }

  lemma NewId(c: Setup, k: nat, b: Books)
    requires c.WellFormed() && k < |c.requests| && FirstIds(c, k, b)
    ensures c.requests[k].id !in b.index
  {
  }

  /** A spawned task becomes the live one of its window. */
  lemma SpawnFrame(b: Books, home: map<nat, TaskId>, i: nat, t: TaskId, request: Request, phase: Phase)
    requires HomesOk(b, home) && i !in home && t !in b.pending && request.id !in b.index
    ensures
      var b' := Spawn(b.(index := b.index[request.id := i]), t, request, phase);
      && SameBut(b, home, b', home[i := t], i) && HomesOk(b', home[i := t])
      && LiveAt(b', home[i := t], i) == Some(Live(request, phase))
  {
    assert forall j :: j in home ==> home[j] != t;
  }

  /** Dispatching any other request gives its window a live task. */
  lemma DispatchLive(c: Setup, k: nat, b: Books, home: map<nat, TaskId>, nextId: Id, t: TaskId)
    requires c.WellFormed() && k < |c.requests| && c.requests[k].inputs != map[]
    requires Tracked(c, k, b, home, nextId) && FirstIds(c, k, b) && t !in b.pending
    ensures
      var b' := DispatchOne(c.model, b, k, c.requests[k], t);
      Tracked(c, k + 1, b', home[k := t], nextId) && FirstIds(c, k + 1, b')
  {
    var b', home' := DispatchOne(c.model, b, k, c.requests[k], t), home[k := t];
    assert WindowAt(c, k, b, home, k);
    NewId(c, k, b);
    assert k !in home by { assert k in home ==> LiveAt(b, home, k).Some?; }
    SpawnFrame(b, home, k, t, c.requests[k], Stage1);
    assert WindowAt(c, k + 1, b', home', k);
    OneWindow(c, k, b, home, k + 1, b', home', k);
  }

  /** Taking a task out of the dictionaries touches its own window only. */
  lemma PopFrame(b: Books, home: map<nat, TaskId>, t: TaskId)
    requires HomesOk(b, home) && t in b.pending
    ensures
      var i := b.index[b.pending[t].id];
      && SameBut(b, home, Pop(b, t), home - {i}, i) && HomesOk(Pop(b, t), home - {i})
      && LiveAt(Pop(b, t), home - {i}, i).None? && LiveAt(b, home, i) == Some(Live(b.pending[t], b.phase[t]))
  {
    var i := b.index[b.pending[t].id];
    assert forall j :: j in home && j != i ==> home[j] != t;
  }

  /** The dictionaries after task `t` is popped, its window charged, and a result, and perhaps an exception,
      recorded. */
  function Close(b: Books, t: TaskId, i: nat, counts: map<nat, TokenCounts>, w: WindowResult,
                 report: Option<(Phase, Error)>): Books {
    var recorded := Record(Pop(b, t).(counts := counts), i, w);
    match report
    case None => recorded
    case Some((phase, e)) => Report(recorded, i, phase, e)
  }

  lemma CloseFrame(b: Books, home: map<nat, TaskId>, t: TaskId, counts: map<nat, TokenCounts>, w: WindowResult,
                   report: Option<(Phase, Error)>)
    requires HomesOk(b, home) && t in b.pending
    requires forall j: nat :: j != b.index[b.pending[t].id] ==> Look(counts, j) == Look(b.counts, j)
    ensures
      var i := b.index[b.pending[t].id];
      var b', home' := Close(b, t, i, counts, w, report), home - {i};
      && SameBut(b, home, b', home', i) && HomesOk(b', home') && LiveAt(b', home', i).None?
      && Look(b'.results, i) == Some(w) && DonesOf(b'.dones, i) == DonesOf(b.dones, i) + [w]
      && ErrorsOf(b'.errors, i) == ErrorsOf(b.errors, i) + match report
           case None => []
           case Some((phase, e)) => [ErrorCall(i, phase, e)]
  {
    var i := b.index[b.pending[t].id];
    var charged := Pop(b, t).(counts := counts);
    PopFrame(b, home, t);
    RecordLogs(charged, i, w);
    if report.Some? { ReportLogs(Record(charged, i, w), i, report.value.0, report.value.1); }
    assert SameBut(b, home, Close(b, t, i, counts, w, report), home - {i}, i);
  }

  /** A live window may be closed with a result that ends it rightly. */
  lemma CloseWindow(c: Setup, b: Books, home: map<nat, TaskId>, nextId: Id, t: TaskId, counts: map<nat, TokenCounts>,
                    w: WindowResult, report: Option<(Phase, Error)>)
    requires Tracked(c, |c.requests|, b, home, nextId) && t in b.pending
    requires forall j: nat :: j != b.index[b.pending[t].id] ==> Look(counts, j) == Look(b.counts, j)
    requires
      var i := b.index[b.pending[t].id];
      i < |c.requests| && Ended(c, i, w, match report case None => [] case Some((phase, e)) => [ErrorCall(i, phase, e)])
    ensures
      var i := b.index[b.pending[t].id];
      Tracked(c, |c.requests|, Close(b, t, i, counts, w, report), home - {i}, nextId)
  {
    var i := b.index[b.pending[t].id];
    var b', home' := Close(b, t, i, counts, w, report), home - {i};
    PopFrame(b, home, t);
    CloseFrame(b, home, t, counts, w, report);
    assert WindowAt(c, |c.requests|, b, home, i);
    assert WindowAt(c, |c.requests|, b', home', i);
    OneWindow(c, |c.requests|, b, home, |c.requests|, b', home', i);
  }

  /** A live window is one that is dispatched, and its task is at one of the two stages. */
  lemma LiveWindow(c: Setup, b: Books, home: map<nat, TaskId>, nextId: Id, t: TaskId)
    requires Tracked(c, |c.requests|, b, home, nextId) && t in b.pending
    ensures
      t in b.phase && b.pending[t].id in b.index && b.index[b.pending[t].id] < |c.requests|
    ensures
      var i := b.index[b.pending[t].id];
      WindowOk(c, |c.requests|, i, Look(b.results, i), Look(b.counts, i), DonesOf(b.dones, i), ErrorsOf(b.errors, i),
               Some(Live(b.pending[t], b.phase[t])))
  {
    PopFrame(b, home, t);
    assert WindowAt(c, |c.requests|, b, home, b.index[b.pending[t].id]);
  }

  /** The task of a window failed with an exception that is contained. */
  lemma HandleFailure(c: Setup, b: Books, home: map<nat, TaskId>, nextId: Id, t: TaskId, e: Error)
    requires Tracked(c, |c.requests|, b, home, nextId) && t in b.pending && !Fatal(e)
    ensures t in b.phase && b.pending[t].id in b.index
    ensures
      var i := b.index[b.pending[t].id];
      var b' := Report(EmitUnknown(c.model, Pop(b, t), i), i, b.phase[t], e);
      Tracked(c, |c.requests|, b', home - {i}, nextId)
  {
    LiveWindow(c, b, home, nextId, t);
    var i := b.index[b.pending[t].id];
    var w := Unknown(c.model, Look(b.counts, i));
    assert Report(EmitUnknown(c.model, Pop(b, t), i), i, b.phase[t], e) ==
      Close(b, t, i, b.counts, w, Some((b.phase[t], e)));
    assert Ended(c, i, w, [ErrorCall(i, b.phase[t], e)]);
    CloseWindow(c, b, home, nextId, t, b.counts, w, Some((b.phase[t], e)));
  }

  /** Charging touches the charge of one window, which is then the sum of what it was and the new tokens. */
  lemma ChargeFrame(m: Model, counts: map<nat, TokenCounts>, i: nat, tokens: TokenCounts)
    ensures forall j: nat :: j != i ==> Look(Charge(counts, i, tokens), j) == Look(counts, j)
    ensures Look(Charge(counts, i, tokens), i) == Some(Sum(Look(counts, i), tokens))
  {
  }

  /** The generation of a live window without a (further) stage-2 prompt gives its specified result. */
  lemma LastStage(c: Setup, i: nat, live: Live, count: Option<TokenCounts>, o: Output, result: Option<WindowResult>,
                  dones: seq<WindowResult>, errors: seq<ErrorCall>)
    requires i < |c.requests| && WindowOk(c, |c.requests|, i, result, count, dones, errors, Some(live))
    requires live.request.stage2Prompt.None? && Decoded(c.model, c.model.Generate(live.request.inputs)) == Ok(o)
    ensures
      var w := WindowResult(CaptionText(c.model, Some(o.caption)), o.finishReason, Sum(count, o.tokens));
      Ended(c, i, w, [])
  {
    if live.phase == Stage1 {
      assert c.requests[i] == live.request;
    } else {
      assert RefinesWindow(c, i, live.request);
    }
  }

  /** The final generation of a window completes it. */
  lemma HandleFinal(c: Setup, b: Books, home: map<nat, TaskId>, nextId: Id, t: TaskId, o: Output)
    requires Tracked(c, |c.requests|, b, home, nextId) && t in b.pending && b.pending[t].stage2Prompt.None?
    requires Decoded(c.model, c.model.Generate(b.pending[t].inputs)) == Ok(o)
    ensures b.pending[t].id in b.index
    ensures
      var i := b.index[b.pending[t].id];
      var charged := Pop(b, t).(counts := Charge(b.counts, i, o.tokens));
      Tracked(c, |c.requests|, EmitFinal(c.model, charged, i, o), home - {i}, nextId)
  {
    LiveWindow(c, b, home, nextId, t);
    var i := b.index[b.pending[t].id];
    var counts := Charge(b.counts, i, o.tokens);
    ChargeFrame(c.model, b.counts, i, o.tokens);
    var w := WindowResult(CaptionText(c.model, Some(o.caption)), o.finishReason, counts[i]);
    LastStage(c, i, Live(b.pending[t], b.phase[t]), Look(b.counts, i), o, Look(b.results, i), DonesOf(b.dones, i),
      ErrorsOf(b.errors, i));
    assert EmitFinal(c.model, Pop(b, t).(counts := counts), i, o) == Close(b, t, i, counts, w, None);
    CloseWindow(c, b, home, nextId, t, counts, w, None);
  }

  /** A live request with a stage-2 prompt is the first request of its window, uncharged so far. */
  lemma FirstStage(c: Setup, i: nat, live: Live, count: Option<TokenCounts>, o: Output, result: Option<WindowResult>,
                   dones: seq<WindowResult>, errors: seq<ErrorCall>)
    requires i < |c.requests| && WindowOk(c, |c.requests|, i, result, count, dones, errors, Some(live))
    requires live.request.stage2Prompt.Some? && Decoded(c.model, c.model.Generate(live.request.inputs)) == Ok(o)
    ensures live.request == c.requests[i] && live.request.inputs != map[]
    ensures Sum(count, o.tokens) == Tokens(c.model.Generate(c.requests[i].inputs))
    ensures Stage2Inputs(c.model, c.requests[i].inputs, c.requests[i].stage2Prompt.value)
         == c.model.Refine(live.request.inputs, o.caption, live.request.stage2Prompt.value)
    ensures c.model.Decode(c.model.Generate(c.requests[i].inputs)).Ok?
  {
  }

  /** A refinement that cannot be built closes the window; the tokens of stage 1 stay charged. */
  lemma HandleBuildFailure(c: Setup, b: Books, home: map<nat, TaskId>, nextId: Id, t: TaskId, o: Output, e: Error)
    requires Tracked(c, |c.requests|, b, home, nextId) && t in b.pending && b.pending[t].stage2Prompt.Some?
    requires Decoded(c.model, c.model.Generate(b.pending[t].inputs)) == Ok(o) && !FatalToBuild(e)
    requires c.model.Refine(b.pending[t].inputs, o.caption, b.pending[t].stage2Prompt.value) == Err(e)
    ensures b.pending[t].id in b.index
    ensures
      var i := b.index[b.pending[t].id];
      var charged := Pop(b, t).(counts := Charge(b.counts, i, o.tokens));
      Tracked(c, |c.requests|, Report(EmitUnknown(c.model, charged, i), i, Stage2Build, e), home - {i}, nextId)
  {
    LiveWindow(c, b, home, nextId, t);
    var i := b.index[b.pending[t].id];
    var counts := Charge(b.counts, i, o.tokens);
    ChargeFrame(c.model, b.counts, i, o.tokens);
    var w := Unknown(c.model, Look(counts, i));
    FirstStage(c, i, Live(b.pending[t], b.phase[t]), Look(b.counts, i), o, Look(b.results, i), DonesOf(b.dones, i),
      ErrorsOf(b.errors, i));
    var charged := Pop(b, t).(counts := counts);
    assert Report(EmitUnknown(c.model, charged, i), i, Stage2Build, e) ==
      Close(b, t, i, counts, w, Some((Stage2Build, e)));
    assert Sentinel(c, i, w, Stage2Build, e);
    CloseWindow(c, b, home, nextId, t, counts, w, Some((Stage2Build, e)));
  }

  /** The dictionaries after a refined request takes the place of the live one. */
  function Respawn(b: Books, t: TaskId, i: nat, counts: map<nat, TokenCounts>, u: TaskId, refined: Request): Books {
    var charged := Pop(b, t).(counts := counts);
    Spawn(charged.(index := charged.index[refined.id := i]), u, refined, Stage2)
  }

  lemma RespawnFrame(b: Books, home: map<nat, TaskId>, t: TaskId, counts: map<nat, TokenCounts>, u: TaskId,
                     refined: Request)
    requires HomesOk(b, home) && t in b.pending && u !in b.pending && refined.id !in b.index
    requires forall j: nat :: j != b.index[b.pending[t].id] ==> Look(counts, j) == Look(b.counts, j)
    ensures
      var i := b.index[b.pending[t].id];
      var b' := Respawn(b, t, i, counts, u, refined);
      && SameBut(b, home, b', home[i := u], i) && HomesOk(b', home[i := u])
      && LiveAt(b', home[i := u], i) == Some(Live(refined, Stage2))
  {
    var i := b.index[b.pending[t].id];
    PopFrame(b, home, t);
    SpawnFrame(Pop(b, t).(counts := counts), home - {i}, i, u, refined, Stage2);
    assert (home - {i})[i := u] == home[i := u];
    assert SameBut(b, home, Respawn(b, t, i, counts, u, refined), home[i := u], i);
  }

  lemma HandleRespawn(c: Setup, b: Books, home: map<nat, TaskId>, nextId: Id, t: TaskId, o: Output, u: TaskId,
                      inputs: Inputs)
    requires Tracked(c, |c.requests|, b, home, nextId) && t in b.pending && b.pending[t].stage2Prompt.Some?
    requires Decoded(c.model, c.model.Generate(b.pending[t].inputs)) == Ok(o) && u !in b.pending
    requires c.model.Refine(b.pending[t].inputs, o.caption, b.pending[t].stage2Prompt.value) == Ok(inputs)
    ensures b.pending[t].id in b.index
    ensures
      var i := b.index[b.pending[t].id];
      Tracked(c, |c.requests|, Respawn(b, t, i, Charge(b.counts, i, o.tokens), u, Request(nextId, inputs, None)),
              home[i := u], nextId + 1)
  {
    LiveWindow(c, b, home, nextId, t);
    var i, refined := b.index[b.pending[t].id], Request(nextId, inputs, None);
    var counts := Charge(b.counts, i, o.tokens);
    var b' := Respawn(b, t, i, counts, u, refined);
    ChargeFrame(c.model, b.counts, i, o.tokens);
    FirstStage(c, i, Live(b.pending[t], b.phase[t]), Look(b.counts, i), o, Look(b.results, i), DonesOf(b.dones, i),
      ErrorsOf(b.errors, i));
    RespawnFrame(b, home, t, counts, u, refined);
    assert RefinesWindow(c, i, refined);
    assert WindowAt(c, |c.requests|, b', home[i := u], i);
    OneWindow(c, |c.requests|, b, home, |c.requests|, b', home[i := u], i);
  }

  /** Once the runner gives up, what it has recorded stays. */
  lemma TrackedIsKept(c: Setup, k: nat, b: Books, home: map<nat, TaskId>, nextId: Id)
    requires k <= |c.requests| && Tracked(c, k, b, home, nextId)
    ensures Kept(c, b)
  {
    forall i: nat ensures KeptAt(c, b, i) { assert WindowAt(c, k, b, home, i); }
  }

  lemma KeptStays(c: Setup, b: Books, b': Books)
    requires Kept(c, b) && b'.results == b.results && b'.dones == b.dones && b'.errors == b.errors
    ensures Kept(c, b')
  {
    forall i: nat ensures KeptAt(c, b', i) { assert KeptAt(c, b, i); }
  }

  lemma KeysPop(b: Books, tasks: seq<Task>, t: TaskId, b': Books)
    requires KeysOk(b, tasks) && t < |tasks| && tasks[t].state.Done?
    requires b'.pending == b.pending - {t} && b'.phase == b.phase - {t}
    ensures KeysOk(b', tasks)
  {
  }

  lemma KeysSpawn(b: Books, tasks: seq<Task>, request: Request, phase: Phase, b': Books)
    requires KeysOk(b, tasks)
    requires b'.pending == b.pending[|tasks| := request] && b'.phase == b.phase[|tasks| := phase]
    ensures KeysOk(b', tasks + [Task(request, Created, [])])
  {
    assert b'.pending.Keys == b.pending.Keys + {|tasks|} && b'.phase.Keys == b.phase.Keys + {|tasks|};
  }

  lemma KeysRespawn(b: Books, tasks: seq<Task>, t: TaskId, refined: Request, b': Books)
    requires KeysOk(b, tasks) && t < |tasks| && tasks[t].state.Done?
    requires b'.pending == (b.pending - {t})[|tasks| := refined] && b'.phase == (b.phase - {t})[|tasks| := Stage2]
    ensures KeysOk(b', tasks + [Task(refined, Created, [])]) && b.pending.Keys - {t} <= b'.pending.Keys
  {
    KeysPop(b, tasks, t, Pop(b, t));
    KeysSpawn(Pop(b, t), tasks, refined, Stage2, b');
  }

  /** A new task, and a higher id counter, disturb no other task. */
  lemma TasksAdd(c: Setup, tasks: seq<Task>, nextId: Id, attempts: map<Id, TaskId>, request: Request, nextId': Id)
    requires TasksOk(c, tasks, nextId, attempts) && nextId' >= nextId
    ensures TasksOk(c, tasks + [Task(request, Created, [])], nextId', attempts)
  {
    var tasks' := tasks + [Task(request, Created, [])];
    forall t | 0 <= t < |tasks'| ensures TaskOk(c, nextId', attempts, t, tasks'[t]) {
      if t < |tasks| { assert TaskOk(c, nextId, attempts, t, tasks[t]); }
    }
  }

  lemma DispatchStepKeeps(c: Setup, s: World)
    requires c.WellFormed() && Inv(c, s) && Enabled(c, s, DispatchNext)
    ensures Inv(c, DispatchStep(c, s))
  {
    if c.requests[s.main.next].inputs == map[] { DispatchEmptyKeeps(c, s); } else { DispatchLiveKeeps(c, s); }
  }

  lemma DispatchEmptyKeeps(c: Setup, s: World)
    requires c.WellFormed() && Inv(c, s) && Enabled(c, s, DispatchNext) && c.requests[s.main.next].inputs == map[]
    ensures Inv(c, DispatchStep(c, s))
  {
    DispatchEmpty(c, s.main.next, s.books, s.home, s.nextId, |s.tasks|);
  }

  lemma DispatchLiveKeeps(c: Setup, s: World)
    requires c.WellFormed() && Inv(c, s) && Enabled(c, s, DispatchNext) && c.requests[s.main.next].inputs != map[]
    ensures Inv(c, DispatchStep(c, s))
  {
    var k, s' := s.main.next, DispatchStep(c, s);
    DispatchLive(c, k, s.books, s.home, s.nextId, |s.tasks|);
    assert s'.main == Dispatching(k + 1) && s'.home == s.home[k := |s.tasks|];
    assert MainOk(c, s'.main, s'.books, s'.tasks, s'.home, s'.nextId);
    TaskJoins(c, s, s', c.requests[k], Stage1);
  }

  /** A new task enters both dictionaries. */
  lemma TaskJoins(c: Setup, s: World, s': World, request: Request, phase: Phase)
    requires PermitsBalance(c, s.free, s.tasks, s.foreign) && TasksOk(c, s.tasks, s.nextId, s.attempts)
    requires KeysOk(s.books, s.tasks) && MainOk(c, s'.main, s'.books, s'.tasks, s'.home, s'.nextId)
    requires s'.tasks == s.tasks + [Task(request, Created, [])] && s'.free == s.free && s'.foreign == s.foreign
    requires s'.nextId == s.nextId && s'.attempts == s.attempts
    requires s'.books.pending == s.books.pending[|s.tasks| := request]
    requires s'.books.phase == s.books.phase[|s.tasks| := phase]
    ensures Inv(c, s')
  {
    KeysSpawn(s.books, s.tasks, request, phase, s'.books);
    TasksAdd(c, s.tasks, s.nextId, s.attempts, request, s.nextId);
    PermitsAdd(s.tasks, Task(request, Created, []));
  }

  /** What the handled task left behind: the decoded generation of its request, or an exception. */
  lemma OutcomeOf(c: Setup, s: World, t: TaskId)
    requires TasksOk(c, s.tasks, s.nextId, s.attempts) && KeysOk(s.books, s.tasks) && t in s.books.pending
    requires t < |s.tasks| && s.tasks[t].state.Done?
    ensures s.tasks[t].state.outcome.Ok? ==>
              Decoded(c.model, c.model.Generate(s.books.pending[t].inputs)) == s.tasks[t].state.outcome
  {
    assert TaskOk(c, s.nextId, s.attempts, t, s.tasks[t]);
  }

  /** `_handle_completed` when it settles the window. */
  lemma SettledBooks(c: Setup, b: Books, home: map<nat, TaskId>, nextId: Id, t: TaskId, outcome: Outcome, u: TaskId)
    requires Tracked(c, |c.requests|, b, home, nextId) && t in b.pending && t in b.phase && b.pending[t].id in b.index
    requires outcome.Ok? ==> Decoded(c.model, c.model.Generate(b.pending[t].inputs)) == outcome
    requires HandleCompleted(c.model, b, t, outcome, u, nextId).effect.Settled?
    ensures
      var b' := HandleCompleted(c.model, b, t, outcome, u, nextId).books;
      && Tracked(c, |c.requests|, b', home - {b.index[b.pending[t].id]}, nextId)
      && b'.pending == b.pending - {t} && b'.phase == b.phase - {t}
  {
    match outcome
    case Err(e) => HandleFailure(c, b, home, nextId, t, e);
    case Ok(o) =>
      if b.pending[t].stage2Prompt.None? {
        HandleFinal(c, b, home, nextId, t, o);
      } else {
        var refined := c.model.Refine(b.pending[t].inputs, o.caption, b.pending[t].stage2Prompt.value);
        HandleBuildFailure(c, b, home, nextId, t, o, refined.error);
      }
  }

  /** ... when it spawns the refined request ... */
  lemma RespawnedBooks(c: Setup, b: Books, home: map<nat, TaskId>, nextId: Id, t: TaskId, outcome: Outcome, u: TaskId)
    requires Tracked(c, |c.requests|, b, home, nextId) && t in b.pending && t in b.phase && b.pending[t].id in b.index
    requires outcome.Ok? ==> Decoded(c.model, c.model.Generate(b.pending[t].inputs)) == outcome
    requires u !in b.pending && HandleCompleted(c.model, b, t, outcome, u, nextId).effect.Respawned?
    ensures
      var b' := HandleCompleted(c.model, b, t, outcome, u, nextId).books;
      && Tracked(c, |c.requests|, b', home[b.index[b.pending[t].id] := u], nextId + 1) && u in b'.pending
      && b'.pending == (b.pending - {t})[u := b'.pending[u]] && b'.phase == (b.phase - {t})[u := Stage2]
  {
    var o := outcome.value;
    var refined := c.model.Refine(b.pending[t].inputs, o.caption, b.pending[t].stage2Prompt.value);
    HandleRespawn(c, b, home, nextId, t, o, u, refined.value);
  }

  /** ... and when it raises: then nothing is recorded. */
  lemma RaisedBooks(c: Setup, b: Books, home: map<nat, TaskId>, nextId: Id, t: TaskId, outcome: Outcome, u: TaskId)
    requires Tracked(c, |c.requests|, b, home, nextId) && t in b.pending && t in b.phase && b.pending[t].id in b.index
    requires HandleCompleted(c.model, b, t, outcome, u, nextId).effect.Raises?
    ensures
      var h := HandleCompleted(c.model, b, t, outcome, u, nextId);
      && Kept(c, h.books) && ExitOk(c, h.books, Killed(b.index[b.pending[t].id], h.effect.error))
      && h.books.pending == b.pending - {t} && h.books.phase == b.phase - {t}
  {
    LiveWindow(c, b, home, nextId, t);
    TrackedIsKept(c, |c.requests|, b, home, nextId);
    KeptStays(c, b, HandleCompleted(c.model, b, t, outcome, u, nextId).books);
  }

  /** The tasks still to be handled stay pending and done. */
  lemma TodoStays(b: Books, tasks: seq<Task>, todo: set<TaskId>, t: TaskId, b': Books, tasks': seq<Task>)
    requires todo <= b.pending.Keys && forall u :: u in todo ==> u < |tasks| && tasks[u].state.Done?
    requires b.pending.Keys - {t} <= b'.pending.Keys && tasks <= tasks'
    ensures todo - {t} <= b'.pending.Keys && forall u :: u in todo - {t} ==> u < |tasks'| && tasks'[u].state.Done?
  {
  }

  lemma HandleSettled(c: Setup, s: World, t: TaskId)
    requires Inv(c, s) && Enabled(c, s, Handle(t))
    requires HandleCompleted(c.model, s.books, t, s.tasks[t].state.outcome, |s.tasks|, s.nextId).effect.Settled?
    ensures Inv(c, HandleStep(c, s, t))
  {
    var s' := HandleStep(c, s, t);
    OutcomeOf(c, s, t);
    SettledBooks(c, s.books, s.home, s.nextId, t, s.tasks[t].state.outcome, |s.tasks|);
    KeysPop(s.books, s.tasks, t, s'.books);
  }

  lemma HandleRespawned(c: Setup, s: World, t: TaskId)
    requires Inv(c, s) && Enabled(c, s, Handle(t))
    requires HandleCompleted(c.model, s.books, t, s.tasks[t].state.outcome, |s.tasks|, s.nextId).effect.Respawned?
    ensures Inv(c, HandleStep(c, s, t))
  {
    OutcomeOf(c, s, t);
    RespawnedBooks(c, s.books, s.home, s.nextId, t, s.tasks[t].state.outcome, |s.tasks|);
    var b' := HandleCompleted(c.model, s.books, t, s.tasks[t].state.outcome, |s.tasks|, s.nextId).books;
    RespawnKeeps(c, s, HandleStep(c, s, t), t, b'.pending[|s.tasks|]);
  }

  lemma RespawnKeeps(c: Setup, s: World, s': World, t: TaskId, refined: Request)
    requires Inv(c, s) && s.main.Handling? && t in s.main.todo
    requires s'.main == Handling(s.main.todo - {t}) && s'.tasks == s.tasks + [Task(refined, Created, [])]
    requires s'.nextId == s.nextId + 1 && s'.free == s.free && s'.foreign == s.foreign && s'.attempts == s.attempts
    requires Tracked(c, |c.requests|, s'.books, s'.home, s'.nextId)
    requires s'.books.pending == (s.books.pending - {t})[|s.tasks| := refined]
    requires s'.books.phase == (s.books.phase - {t})[|s.tasks| := Stage2]
    ensures Inv(c, s')
  {
    KeysRespawn(s.books, s.tasks, t, refined, s'.books);
    TasksAdd(c, s.tasks, s.nextId, s.attempts, refined, s'.nextId);
    PermitsAdd(s.tasks, Task(refined, Created, []));
    TodoStays(s.books, s.tasks, s.main.todo, t, s'.books, s'.tasks);
  }

  lemma HandleRaises(c: Setup, s: World, t: TaskId)
    requires Inv(c, s) && Enabled(c, s, Handle(t))
    requires HandleCompleted(c.model, s.books, t, s.tasks[t].state.outcome, |s.tasks|, s.nextId).effect.Raises?
    ensures Inv(c, HandleStep(c, s, t))
  {
    var s' := HandleStep(c, s, t);
    RaisedBooks(c, s.books, s.home, s.nextId, t, s.tasks[t].state.outcome, |s.tasks|);
    KeysPop(s.books, s.tasks, t, s'.books);
  }

  lemma HandleStepKeeps(c: Setup, s: World, t: TaskId)
    requires Inv(c, s) && Enabled(c, s, Handle(t))
    ensures Inv(c, HandleStep(c, s, t))
  {
    match HandleCompleted(c.model, s.books, t, s.tasks[t].state.outcome, |s.tasks|, s.nextId).effect
    case Settled => HandleSettled(c, s, t);
    case Respawned => HandleRespawned(c, s, t);
    case Raises(_) => HandleRaises(c, s, t);
  }

  /** A normal drain finds every window recorded, so building the list raises nothing. */
  lemma AllRecorded(c: Setup, s: World)
    requires Inv(c, s) && s.main.Draining? && s.main.exit.Normal?
    ensures forall i: nat :: i < |c.requests| ==> i in s.books.results
  {
    forall i: nat | i < |c.requests| ensures i in s.books.results {
      assert WindowAt(c, |c.requests|, s.books, s.home, i);
    }
  }

  lemma DrainStepKeeps(c: Setup, s: World)
    requires Inv(c, s) && Enabled(c, s, DrainEnd)
    ensures Inv(c, DrainStep(c, s))
  {
    var s' := DrainStep(c, s);
    if s.main.exit.Normal? { TrackedIsKept(c, |c.requests|, s.books, s.home, s.nextId); }
    KeptStays(c, s.books, s'.books);
  }

  lemma InterruptKeeps(c: Setup, s: World, e: Error)
    requires Inv(c, s) && Enabled(c, s, Interrupt(e))
    ensures Inv(c, Apply(c, s, Interrupt(e)))
  {
    TrackedIsKept(c, if s.main.Dispatching? then s.main.next else |c.requests|, s.books, s.home, s.nextId);
  }

  /** The other steps of the main coroutine and of the other runners change no dictionary. */
  lemma SimpleStepKeeps(c: Setup, s: World, ev: Event)
    requires Inv(c, s) && Enabled(c, s, ev)
    requires ev.DispatchEnd? || ev.Wake? || ev.HandleEnd? || ev.AllHandled? || ev.ForeignAcquire? || ev.ForeignRelease?
    ensures Inv(c, Apply(c, s, ev))
  {
    var s' := Apply(c, s, ev);
    assert MainOk(c, s'.main, s'.books, s'.tasks, s'.home, s'.nextId);
  }

  lemma OtherStepKeeps(c: Setup, s: World, ev: Event)
    requires c.WellFormed() && Inv(c, s) && Enabled(c, s, ev) && !IsTaskEvent(ev)
    ensures Inv(c, Apply(c, s, ev))
  {
    match ev
    case DispatchNext => DispatchStepKeeps(c, s);
    case Interrupt(e) => InterruptKeeps(c, s, e);
    case DrainEnd => DrainStepKeeps(c, s);
    case Handle(t) => HandleStepKeeps(c, s, t);
    case _ => SimpleStepKeeps(c, s, ev);
  }

  /** Every event keeps the invariant. */
  lemma EveryStepKeeps(c: Setup, s: World, ev: Event)
    requires c.WellFormed() && Inv(c, s) && Enabled(c, s, ev)
    ensures Inv(c, Apply(c, s, ev))
  {
    if IsTaskEvent(ev) { TaskStepKeeps(c, s, ev); } else { OtherStepKeeps(c, s, ev); }
  }

  /** So it holds in every state of every run. */
  lemma {:induction false} EveryRun(c: Setup, s: World, events: seq<Event>, s': World)
    requires c.WellFormed() && Inv(c, s) && Leads(c, s, events, s')
    ensures Inv(c, s')
    decreases |events|
  {
    if events != [] {
      EveryStepKeeps(c, s, events[0]);
      EveryRun(c, Apply(c, s, events[0]), events[1..], s');
    }
  }
}
