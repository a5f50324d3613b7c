/** `_AsyncCaptioner.run` as a state machine: the main coroutine, one task per request, and the semaphore they share
    with other runners. Every interleaving of their steps is a list of events. */
module CaptionAsync {
  import opened Text
  import opened CaptionModel
  import opened CaptionAsyncBooks

  /** What a run is given. `maxRetries` is the bound given to `stop_after_attempt`. */
  datatype Setup = Setup(model: Model, requests: seq<Request>, maxRetries: int, capacity: nat)
  {
    ghost predicate WellFormed() {
      forall i, j :: 0 <= i < j < |requests| ==> requests[i].id != requests[j].id
    }

    /** The bound is only looked at after an attempt, so there is always one. */
    function MaxAttempts(): (n: nat)
      ensures n >= 1
    {
      if maxRetries > 1 then maxRetries else 1
    }

    /** The job these requests make up. */
    function AsJob(): (job: Job)
      ensures job.WellFormed() && |job.inputs| == |requests|
      ensures forall i :: 0 <= i < |requests| ==>
                job.inputs[i] == requests[i].inputs && job.prompts[i] == requests[i].stage2Prompt
    {
      Job(model, seq(|requests|, i requires 0 <= i < |requests| => requests[i].inputs),
          seq(|requests|, i requires 0 <= i < |requests| => requests[i].stage2Prompt))
    }
  }

  /** A `_drive_request` task: not started, waiting for a permit, holding one, or done. */
  datatype TaskState =
    | Created
    | Waiting(attempt: nat)
    | Generating(attempt: nat)
    | Done(outcome: Outcome)

  datatype Task = Task(request: Request, state: TaskState, attemptIds: seq<Id>)

  /** Why the run left its loops. */
  datatype Exit = Normal | Interrupted(error: Error) | Killed(window: nat, error: Error)

  /** Where the main coroutine is: dispatching request `next`, waiting, handling the tasks that were done, draining,
      or finished. */
  datatype Main =
    | Dispatching(next: nat)
    | Awaiting
    | Handling(todo: set<TaskId>)
    | Draining(exit: Exit)
    | Returned(list: seq<WindowResult>)
    | Raised(cause: Exit)

  /** `home` and `attempts` are bookkeeping: the live task of each window, and the task of each attempt id. */
  datatype World = World(
    main: Main,
    books: Books,
    tasks: seq<Task>,
    free: nat,
    foreign: nat,
    nextId: Id,
    home: map<nat, TaskId>,
    attempts: map<Id, TaskId>)

  datatype Event =
    | DispatchNext
    | DispatchEnd
    | Interrupt(error: Error)
    | Wake(done: set<TaskId>)
    | Handle(task: TaskId)
    | HandleEnd
    | AllHandled
    | DrainEnd
    | Begin(task: TaskId)
    | Acquire(task: TaskId)
    | Finish(task: TaskId)
    | Fail(task: TaskId, error: Error)
    | Cancel(task: TaskId)
    | ForeignAcquire
    | ForeignRelease

  predicate Active(main: Main) { main.Dispatching? || main.Awaiting? || main.Handling? }

  predicate Over(main: Main) { main.Returned? || main.Raised? }

  predicate Enabled(c: Setup, s: World, ev: Event) {
    match ev
    case DispatchNext => s.main.Dispatching? && s.main.next < |c.requests|
    case DispatchEnd => s.main.Dispatching? && s.main.next == |c.requests|
    case Interrupt(e) => s.main.Dispatching? || s.main.Awaiting?
    case Wake(done) =>
      && s.main.Awaiting? && done != {} && done <= s.books.pending.Keys
      && forall t :: t in done ==> t < |s.tasks| && s.tasks[t].state.Done?
    case Handle(t) =>
      && s.main.Handling? && t in s.main.todo && t < |s.tasks| && s.tasks[t].state.Done?
      && t in s.books.pending && t in s.books.phase && s.books.pending[t].id in s.books.index
    case HandleEnd => s.main.Handling? && s.main.todo == {}
    case AllHandled => s.main.Awaiting? && s.books.pending == map[]
    case DrainEnd =>
      && s.main.Draining? && (forall t :: t in s.books.pending ==> t < |s.tasks| && s.tasks[t].state.Done?)
      && (s.main.exit.Normal? ==> forall i: nat :: i < |c.requests| ==> i in s.books.results)
    case Begin(t) => !Over(s.main) && t < |s.tasks| && s.tasks[t].state.Created?
    case Acquire(t) => !Over(s.main) && t < |s.tasks| && s.tasks[t].state.Waiting? && s.free > 0
    case Finish(t) =>
      && !Over(s.main) && t < |s.tasks| && s.tasks[t].state.Generating?
      && |c.model.Generate(s.tasks[t].request.inputs).outputs| > 0
    case Fail(t, e) => !Over(s.main) && t < |s.tasks| && s.tasks[t].state.Generating? && !e.Cancelled?
    case Cancel(t) => s.main.Draining? && t < |s.tasks| && !s.tasks[t].state.Done?
    case ForeignAcquire => s.free > 0
    case ForeignRelease => s.foreign > 0
  }

  /** The outcome of a generation that succeeded: decoding may still fail, and is not retried. */
  function Decoded(m: Model, g: Generation): Outcome {
    match m.Decode(g)
    case Err(e) => Err(e)
    case Ok(caption) => Ok(Output(caption, Tokens(g), FinishReason(g)))
  }

  function SetTask(s: World, t: TaskId, task: Task): World
    requires t < |s.tasks|
  {
    s.(tasks := s.tasks[t := task])
  }

  /** Task `t` starts attempt number `attempt` under a new id. */
  function StartAttempt(s: World, t: TaskId, attempt: nat): World
    requires t < |s.tasks|
  {
    var task := s.tasks[t];
    SetTask(s, t, Task(task.request, Waiting(attempt), task.attemptIds + [s.nextId]))
    .(nextId := s.nextId + 1, attempts := s.attempts[s.nextId := t])
  }

  function SetState(s: World, t: TaskId, state: TaskState): World
    requires t < |s.tasks|
  {
    SetTask(s, t, s.tasks[t].(state := state))
  }

  /** The steps of task `t`. */
  function TaskStep(c: Setup, s: World, ev: Event): World
    requires Enabled(c, s, ev) && (ev.Begin? || ev.Acquire? || ev.Finish? || ev.Fail? || ev.Cancel?)
  {
    match ev
    case Begin(t) => StartAttempt(s, t, 1)
    case Acquire(t) => SetState(s, t, Generating(s.tasks[t].state.attempt)).(free := s.free - 1)
    case Finish(t) =>
      SetState(s, t, Done(Decoded(c.model, c.model.Generate(s.tasks[t].request.inputs)))).(free := s.free + 1)
    case Fail(t, e) =>
      var attempt := s.tasks[t].state.attempt;
      var s' := s.(free := s.free + 1);
      if e.EngineDead? || attempt >= c.MaxAttempts() then SetState(s', t, Done(Err(e)))
        else StartAttempt(s', t, attempt + 1)
    case Cancel(t) =>
      SetState(s, t, Done(Err(Cancelled))).(free := if s.tasks[t].state.Generating? then s.free + 1 else s.free)
  }

  /** The dispatch loop takes request `next`. */
  function DispatchStep(c: Setup, s: World): World
    requires Enabled(c, s, DispatchNext)
  {
    var k := s.main.next;
    var request, t := c.requests[k], |s.tasks|;
    var s' := s.(main := Dispatching(k + 1), books := DispatchOne(c.model, s.books, k, request, t));
    if request.inputs == map[] then s'
    else s'.(tasks := s.tasks + [Task(request, Created, [])], home := s.home[k := t])
  }

  /** The main coroutine handles the completed task `t`. */
  function HandleStep(c: Setup, s: World, t: TaskId): World
    requires Enabled(c, s, Handle(t))
  {
    var i := s.books.index[s.books.pending[t].id];
    var h := HandleCompleted(c.model, s.books, t, s.tasks[t].state.outcome, |s.tasks|, s.nextId);
    match h.effect
    case Settled => s.(main := Handling(s.main.todo - {t}), books := h.books, home := s.home - {i})
    case Raises(e) => s.(main := Draining(Killed(i, e)), books := h.books, home := s.home - {i})
    case Respawned =>
      var refined := h.books.pending[|s.tasks|];
      s.(main := Handling(s.main.todo - {t}), books := h.books, home := s.home[i := |s.tasks|],
         tasks := s.tasks + [Task(refined, Created, [])], nextId := s.nextId + 1)
  }

  /** The end of the drain: forget the tasks, and return or re-raise. */
  function DrainStep(c: Setup, s: World): World
    requires Enabled(c, s, DrainEnd)
  {
    var s' := s.(books := s.books.(pending := map[], phase := map[]), home := map[]);
    if s.main.exit.Normal?
    then
      var list := seq(|c.requests|, i requires 0 <= i < |c.requests| && i in s.books.results => s.books.results[i]);
      s'.(main := Returned(list))
    else s'.(main := Raised(s.main.exit))
  }

  function Apply(c: Setup, s: World, ev: Event): World
    requires Enabled(c, s, ev)
  {
    match ev
    case DispatchNext => DispatchStep(c, s)
    case DispatchEnd => s.(main := Awaiting)
    case Interrupt(e) => s.(main := Draining(Interrupted(e)))
    case Wake(done) => s.(main := Handling(done))
    case Handle(t) => HandleStep(c, s, t)
    case HandleEnd => s.(main := Awaiting)
    case AllHandled => s.(main := Draining(Normal))
    case DrainEnd => DrainStep(c, s)
    case ForeignAcquire => s.(free := s.free - 1, foreign := s.foreign + 1)
    case ForeignRelease => s.(free := s.free + 1, foreign := s.foreign - 1)
    case _ => TaskStep(c, s, ev)
  }

  /** The start of a run, with `foreign` permits held by other runners. */
  ghost predicate Initial(c: Setup, s: World) {
    && s.main == Dispatching(0) && s.books == Books(map[], map[], map[], map[], map[], [], [])
    && s.tasks == [] && s.home == map[] && s.attempts == map[]
    && s.free + s.foreign == c.capacity
    && forall i :: 0 <= i < |c.requests| ==> c.requests[i].id < s.nextId
  }

  /** The events lead from `s` to `t`. */
  ghost predicate Leads(c: Setup, s: World, events: seq<Event>, t: World)
    decreases |events|
  {
    if events == [] then s == t
    else Enabled(c, s, events[0]) && Leads(c, Apply(c, s, events[0]), events[1..], t)
  }
}
