/** The dictionaries of `_AsyncCaptioner` and its synchronous methods: each method of the class is proved equal to a
    function on the dictionaries, and the concurrent run in CaptionAsync is built from those functions. */
module CaptionAsyncBooks {
  import opened Text
  import opened CaptionModel

  type TaskId = nat

  datatype Request = Request(id: Id, inputs: Inputs, stage2Prompt: Option<string>)

  datatype Phase = Stage1 | Stage2 | Stage2Build

  /** The output fields `_drive_request` fills in. */
  datatype Output = Output(caption: string, tokens: TokenCounts, finishReason: Option<string>)

  type Outcome = Result<Output, Error>

  /** Calls of the two callbacks. */
  datatype DoneCall = DoneCall(window: nat, result: WindowResult)
  datatype ErrorCall = ErrorCall(window: nat, phase: Phase, error: Error)

  datatype Books = Books(
    index: map<Id, nat>,
    results: map<nat, WindowResult>,
    counts: map<nat, TokenCounts>,
    pending: map<TaskId, Request>,
    phase: map<TaskId, Phase>,
    dones: seq<DoneCall>,
    errors: seq<ErrorCall>)

  /** The sentinel result of a window that failed. */
  function Unknown(m: Model, count: Option<TokenCounts>): WindowResult {
    WindowResult(m.unknown, None, if count.Some? then count.value else TokenCounts(0, 0))
  }

  function Spawn(b: Books, task: TaskId, request: Request, phase: Phase): Books {
    b.(pending := b.pending[task := request], phase := b.phase[task := phase])
  }

  function Pop(b: Books, task: TaskId): Books {
    b.(pending := b.pending - {task}, phase := b.phase - {task})
  }

  function Record(b: Books, i: nat, w: WindowResult): Books {
    b.(results := b.results[i := w], dones := b.dones + [DoneCall(i, w)])
  }

  function EmitFinal(m: Model, b: Books, i: nat, o: Output): Books
    requires i in b.counts
  {
    Record(b, i, WindowResult(CaptionText(m, Some(o.caption)), o.finishReason, b.counts[i]))
  }

  function EmitUnknown(m: Model, b: Books, i: nat): Books {
    Record(b, i, Unknown(m, Look(b.counts, i)))
  }

  function Report(b: Books, i: nat, phase: Phase, e: Error): Books {
    b.(errors := b.errors + [ErrorCall(i, phase, e)])
  }

  /** The exceptions of a task that `_handle_completed` lets through; cancellation is not an `Exception`. */
  predicate Fatal(e: Error) { e.EngineDead? || e.FatalDecode? || e.Cancelled? }

  /** ... and those of the refinement call: there engine death is contained. */
  predicate FatalToBuild(e: Error) { e.FatalDecode? || e.Cancelled? }

  /** How `_handle_completed` ends: the window is settled, its refined request is spawned, or it raises. */
  datatype Effect = Settled | Respawned | Raises(error: Error)

  datatype Handled = Handled(books: Books, effect: Effect)

  /** `_handle_completed`; `newTask` and `newId` name the task and the request of a refinement, should there be one. */
  function HandleCompleted(m: Model, b: Books, task: TaskId, outcome: Outcome, newTask: TaskId, newId: Id): (h: Handled)
    requires task in b.pending && task in b.phase && b.pending[task].id in b.index
    ensures h.effect.Respawned? ==> newTask in h.books.pending
  {
    var request, phase, i := b.pending[task], b.phase[task], b.index[b.pending[task].id];
    var popped := Pop(b, task);
    match outcome
    case Err(e) =>
      if Fatal(e) then Handled(popped, Raises(e))
      else Handled(Report(EmitUnknown(m, popped, i), i, phase, e), Settled)
    case Ok(o) =>
      var charged := popped.(counts := Charge(popped.counts, i, o.tokens));
      if request.stage2Prompt.None? then Handled(EmitFinal(m, charged, i, o), Settled)
      else match m.Refine(request.inputs, o.caption, request.stage2Prompt.value)
        case Err(e) =>
          if FatalToBuild(e) then Handled(charged, Raises(e))
          else Handled(Report(EmitUnknown(m, charged, i), i, Stage2Build, e), Settled)
        case Ok(refined) =>
          Handled(Spawn(charged.(index := charged.index[newId := i]), newTask, Request(newId, refined, None), Stage2),
            Respawned)
  }

  /** The runner's own fields, and the calls it has made to its callbacks. */
  class AsyncCaptioner {
    const model: Model
    var requestIdToIndex: map<Id, nat>
    var results: map<nat, WindowResult>
    var tokenCounts: map<nat, TokenCounts>
    var pending: map<TaskId, Request>
    var phase: map<TaskId, Phase>
    var onWindowDone: seq<DoneCall>
    var onWindowError: seq<ErrorCall>

    ghost function View(): Books
      reads this
    {
      Books(requestIdToIndex, results, tokenCounts, pending, phase, onWindowDone, onWindowError)
    }

    constructor (model: Model)
      ensures this.model == model && View() == Books(map[], map[], map[], map[], map[], [], [])
    {
      this.model := model;
      requestIdToIndex, results, tokenCounts, pending, phase := map[], map[], map[], map[], map[];
      onWindowDone, onWindowError := [], [];
    }

    /** `_spawn`: `task` is what `create_task` returned. */
    method SpawnTask(task: TaskId, request: Request, phaseTag: Phase)
      modifies this
      ensures View() == Spawn(old(View()), task, request, phaseTag)
    {
      pending := pending[task := request];
      phase := phase[task := phaseTag];
    }

    method EmitFinalResult(idx: nat, o: Output)
      requires idx in tokenCounts
      modifies this
      ensures View() == EmitFinal(model, old(View()), idx, o)
      ensures results[idx].text == if |o.caption| > 0 then o.caption else model.unknown
      ensures results[idx].finishReason == o.finishReason && results[idx].tokenCounts == tokenCounts[idx]
    {
      var result := WindowResult(CaptionText(model, Some(o.caption)), o.finishReason, tokenCounts[idx]);
      results := results[idx := result];
      onWindowDone := onWindowDone + [DoneCall(idx, result)];
    }

    method EmitUnknownResult(idx: nat)
      modifies this
      ensures View() == EmitUnknown(model, old(View()), idx)
      ensures results[idx] == WindowResult(model.unknown, None,
                                           if idx in tokenCounts then tokenCounts[idx] else TokenCounts(0, 0))
    {
      var count := if idx in tokenCounts then tokenCounts[idx] else TokenCounts(0, 0);
      var result := WindowResult(model.unknown, None, count);
      results := results[idx := result];
      onWindowDone := onWindowDone + [DoneCall(idx, result)];
    }

    /** The body of the dispatch loop for one request. */
    method Dispatch(idx: nat, request: Request, newTask: TaskId)
      modifies this
      ensures View() == DispatchOne(model, old(View()), idx, request, newTask)
    {
      requestIdToIndex := requestIdToIndex[request.id := idx];
      if request.inputs == map[] {
        EmitUnknownResult(idx);
      } else {
        SpawnTask(newTask, request, Stage1);
      }
    }

    /** `_handle_completed`: the exception it raises, if any. */
    method HandleCompletedTask(task: TaskId, outcome: Outcome, newTask: TaskId, newId: Id)
        returns (raised: Option<Error>)
      requires task in pending && task in phase && pending[task].id in requestIdToIndex
      modifies this
      ensures
        var h := HandleCompleted(model, old(View()), task, outcome, newTask, newId);
        View() == h.books && raised == if h.effect.Raises? then Some(h.effect.error) else None
      ensures outcome.Err? ==>
                if outcome.error in {EngineDead, FatalDecode, Cancelled}
                then raised == Some(outcome.error) && results == old(results) && onWindowError == old(onWindowError)
                else
                  && raised == None
                  && onWindowError == old(onWindowError)
                     + [ErrorCall(old(requestIdToIndex[pending[task].id]), old(phase[task]), outcome.error)]
      ensures outcome.Ok? && old(pending[task]).stage2Prompt.None? ==>
        raised == None && onWindowError == old(onWindowError)
      ensures outcome.Ok? && old(pending[task]).stage2Prompt.Some? ==>
                match model.refiner(old(pending[task]).inputs, outcome.value.caption,
                                    old(pending[task]).stage2Prompt.value)
                case Ok(_) => raised == None && results == old(results) && onWindowError == old(onWindowError)
                case Err(e) =>
                  if e == FatalDecode || e == Cancelled
                  then raised == Some(e) && results == old(results) && onWindowError == old(onWindowError)
                  else
                    && raised == None
                    && onWindowError == old(onWindowError)
                       + [ErrorCall(old(requestIdToIndex[pending[task].id]), Stage2Build, e)]
    {
      var request, phaseTag := pending[task], phase[task];
      pending, phase := pending - {task}, phase - {task};
      raised := None;
      var idx := requestIdToIndex[request.id];
      if outcome.Err? {
        if Fatal(outcome.error) { return Some(outcome.error); }
        EmitUnknownResult(idx);
        onWindowError := onWindowError + [ErrorCall(idx, phaseTag, outcome.error)];
        return;
      }
      var o := outcome.value;
      var previous := if idx in tokenCounts then tokenCounts[idx] else TokenCounts(0, 0);
      tokenCounts := tokenCounts[idx := TokenCounts(previous.promptTokens + o.tokens.promptTokens,
                                                    previous.outputTokens + o.tokens.outputTokens)];
      if request.stage2Prompt.None? {
        EmitFinalResult(idx, o);
        return;
      }
      var refined := model.Refine(request.inputs, o.caption, request.stage2Prompt.value);
      if refined.Err? {
        if FatalToBuild(refined.error) { return Some(refined.error); }
        EmitUnknownResult(idx);
        onWindowError := onWindowError + [ErrorCall(idx, Stage2Build, refined.error)];
        return;
      }
      requestIdToIndex := requestIdToIndex[newId := idx];
      SpawnTask(newTask, Request(newId, refined.value, None), Stage2);
    }

    /** The end of `_cancel_pending`. */
    method ClearPending()
      modifies this
      ensures View() == old(View()).(pending := map[], phase := map[])
    {
      pending, phase := map[], map[];
    }
  }

  /** One pass of the dispatch loop. */
  function DispatchOne(m: Model, b: Books, idx: nat, request: Request, newTask: TaskId): Books {
    var known := b.(index := b.index[request.id := idx]);
    if request.inputs == map[] then EmitUnknown(m, known, idx) else Spawn(known, newTask, request, Stage1)
  }
}
