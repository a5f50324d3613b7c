/** `_caption_inflight_batching`: a work queue in front of the engine, with an in-flight cap and refined requests
    that re-enter the queue. Whatever the engine does, the result is `Job.Spec` in input order. */
module CaptionInflight {
  import opened Text
  import opened CaptionModel
  import opened CaptionSync

  type Request = VllmCaptionRequest

  /** The scheduler's containers. */
  datatype Desk = Desk(
    queue: seq<Request>,
    inFlight: map<Id, Request>,
    index: map<Id, nat>,
    results: map<nat, WindowResult>,
    counts: map<nat, TokenCounts>)

  /** Where the live request of a window is: in the queue, held by the engine, among the finished requests still
      to be accounted for, or accounted for and still to be refined. */
  datatype Place = Queued | Flying | Done | ToRefine

  /** The one live request of an unfinished window. */
  datatype Home = Home(request: Request, place: Place)

  type Homes = map<nat, Home>

  lemma LookUpdate<T>(m: map<nat, T>, i: nat, v: T, j: nat)
    ensures Look(m[i := v], j) == if j == i then Some(v) else Look(m, j)
  {
  }

  /** What holds of window `i`, given its recorded result, its token charge and its live request. */
  ghost predicate WindowOk(job: Job, i: nat, result: Option<WindowResult>, count: Option<TokenCounts>,
                           home: Option<Home>)
    requires job.WellFormed() && i < |job.inputs|
  {
    var first, charge := job.inputs[i], Tokens(job.model.Generate(job.inputs[i]));
    match home
    case None => result.Some? && job.Spec(i) == Ok(result.value) && count.Some?
    case Some(Home(r, place)) =>
      && result == None
      && if place == ToRefine then
           && r.inputs == first && r.stage2Prompt == job.prompts[i] && job.prompts[i].Some?
           && job.model.Decode(job.model.Generate(first)).Ok? && count == Some(charge)
         else if r.stage2Prompt == None && job.prompts[i].Some? then
           Stage2Inputs(job.model, first, job.prompts[i].value) == Ok(r.inputs) && count == Some(charge)
         else
           r.inputs == first && r.stage2Prompt == job.prompts[i] && count == None
  }

  ghost predicate WindowAt(job: Job, i: nat, d: Desk, home: Homes)
    requires job.WellFormed() && i < |job.inputs|
  {
    WindowOk(job, i, Look(d.results, i), Look(d.counts, i), Look(home, i))
  }

  /** Every window is finished with the specified result, or has one live request at the right stage. */
  ghost predicate Books(job: Job, d: Desk, home: Homes)
    requires job.WellFormed()
  {
    && (forall i: nat :: i < |job.inputs| ==> WindowAt(job, i, d, home))
    && (forall i: nat :: i in d.results || i in d.counts || i in home ==> i < |job.inputs|)
  }

  ghost predicate At(r: Request, d: Desk, home: Homes, place: Place) {
    r.requestId in d.index && d.index[r.requestId] in home && home[d.index[r.requestId]] == Home(r, place)
  }

  ghost predicate AllAt(rs: seq<Request>, d: Desk, home: Homes, place: Place) {
    NoDup(rs) && forall r :: r in rs ==> At(r, d, home, place)
  }

  /** The containers hold exactly the live requests, each in the container its place names. */
  ghost predicate Placed(d: Desk, home: Homes, done: seq<Request>, toRefine: seq<Request>) {
    && AllAt(d.queue, d, home, Queued) && AllAt(done, d, home, Done) && AllAt(toRefine, d, home, ToRefine)
    && (forall id :: id in d.inFlight ==> d.inFlight[id].requestId == id && At(d.inFlight[id], d, home, Flying))
    && (forall i :: i in home ==>
          var r := home[i].request;
          && r.requestId in d.index && d.index[r.requestId] == i
          && match home[i].place
             case Queued => r in d.queue
             case Flying => r.requestId in d.inFlight
             case Done => r in done
             case ToRefine => r in toRefine)
  }

  /** Changing the live request of one window needs a look at that window only. */
  lemma Rehome(job: Job, i: nat, d: Desk, home: Homes, h: Home)
    requires job.WellFormed() && Books(job, d, home) && i in home
    requires i < |job.inputs| && WindowOk(job, i, Look(d.results, i), Look(d.counts, i), Some(h))
    ensures forall e: Desk :: e.results == d.results && e.counts == d.counts ==> Books(job, e, home[i := h])
  {
    var home' := home[i := h];
    forall e: Desk | e.results == d.results && e.counts == d.counts ensures Books(job, e, home') {
      forall j: nat | j < |job.inputs| ensures WindowAt(job, j, e, home') {
        LookUpdate(home, i, h, j);
        assert WindowAt(job, j, d, home);
      }
      assert forall j: nat :: j in home' ==> j in home;
      assert Books(job, e, home');
    }
  }

  // ---- Accounting for finished requests ----

  /** Generations made for the charged and the finished windows: one per charged window, one more per finished
      window that has a stage-2 prompt. */
  ghost function Charged(finished: set<nat>, charged: set<nat>, refined: set<nat>): nat {
    |charged| + |finished * refined|
  }

  ghost function Generations(job: Job, d: Desk): nat
    requires job.WellFormed()
  {
    Charged(d.results.Keys, d.counts.Keys, job.Refined())
  }

  lemma ChargeFinished(finished: set<nat>, charged: set<nat>, refined: set<nat>, i: nat)
    requires i !in finished && (i in refined <==> i in charged)
    ensures Charged(finished + {i}, charged + {i}, refined) == Charged(finished, charged, refined) + 1
  {
    if i in refined {
      assert charged + {i} == charged && (finished + {i}) * refined == finished * refined + {i};
    } else {
      assert (finished + {i}) * refined == finished * refined;
    }
  }

  /** `k` more generations have been accounted for; nothing recorded is lost. */
  ghost predicate Grown(job: Job, d0: Desk, d: Desk, k: nat)
    requires job.WellFormed()
  {
    && Generations(job, d) == Generations(job, d0) + k
    && d0.results.Keys <= d.results.Keys && d0.counts.Keys <= d.counts.Keys
    && (k > 0 ==> d0.results.Keys < d.results.Keys || d0.counts.Keys < d.counts.Keys)
  }

  lemma GrownMore(job: Job, d0: Desk, d1: Desk, d2: Desk, k: nat)
    requires job.WellFormed() && Grown(job, d0, d1, k) && Grown(job, d1, d2, 1)
    ensures Grown(job, d0, d2, k + 1)
  {
  }

  /** The desk after the tokens of a finished request of window `i` are charged. */
  function WithCharge(d: Desk, i: nat, tokens: TokenCounts): Desk {
    d.(counts := CaptionModel.Charge(d.counts, i, tokens))
  }

  /** ... and after the result of window `i` is recorded as well. */
  function Record(d: Desk, i: nat, text: string, finishReason: Option<string>, tokens: TokenCounts): Desk {
    var charged := WithCharge(d, i, tokens);
    charged.(results := charged.results[i := WindowResult(text, finishReason, charged.counts[i])])
  }

  lemma GrowRecorded(job: Job, d: Desk, i: nat, text: string, finishReason: Option<string>, tokens: TokenCounts)
    requires job.WellFormed() && i !in d.results && (i in job.Refined() <==> i in d.counts)
    ensures Grown(job, d, Record(d, i, text, finishReason, tokens), 1)
  {
    var d' := Record(d, i, text, finishReason, tokens);
    assert d'.results.Keys == d.results.Keys + {i} && d'.counts.Keys == d.counts.Keys + {i};
    ChargeFinished(d.results.Keys, d.counts.Keys, job.Refined(), i);
  }

  lemma GrowCharged(job: Job, d: Desk, i: nat, tokens: TokenCounts)
    requires job.WellFormed() && i !in d.counts
    ensures Grown(job, d, WithCharge(d, i, tokens), 1)
  {
    assert WithCharge(d, i, tokens).counts.Keys == d.counts.Keys + {i};
  }

  lemma FinishedResult(job: Job, r: Request, i: nat, result: Option<WindowResult>, count: Option<TokenCounts>)
    requires job.WellFormed() && i < |job.inputs| && WindowOk(job, i, result, count, Some(Home(r, Done)))
    requires r.stage2Prompt == None && job.model.Decode(job.model.Generate(r.inputs)).Ok?
    ensures result == None && (job.prompts[i].Some? <==> count.Some?)
    ensures
      var g := job.model.Generate(r.inputs);
      var text := CaptionText(job.model, Some(job.model.Decode(g).value));
      job.Spec(i) == Ok(WindowResult(text, FinishReason(g), Sum(count, Tokens(g))))
  {
  }

  lemma Recorded(d: Desk, i: nat, text: string, finishReason: Option<string>, tokens: TokenCounts)
    ensures
      var d', sum := Record(d, i, text, finishReason, tokens), Sum(Look(d.counts, i), tokens);
      && d'.results == d.results[i := WindowResult(text, finishReason, sum)] && d'.counts == d.counts[i := sum]
  {
  }

  /** A window whose specified result is recorded needs no live request any more. */
  lemma CloseWindow(job: Job, i: nat, d: Desk, home: Homes, d': Desk)
    requires job.WellFormed() && Books(job, d, home) && i < |job.inputs|
    requires i in d'.results && i in d'.counts && job.Spec(i) == Ok(d'.results[i])
    requires d'.results == d.results[i := d'.results[i]] && d'.counts == d.counts[i := d'.counts[i]]
    ensures Books(job, d', home - {i})
  {
    forall j: nat | j < |job.inputs| ensures WindowAt(job, j, d', home - {i}) {
      assert WindowAt(job, j, d, home);
    }
  }

  /** A finished request without a stage-2 prompt completes its window with the specified result. */
  lemma FinishWindow(job: Job, r: Request, i: nat, d: Desk, home: Homes)
    requires job.WellFormed() && Books(job, d, home)
    requires i in home && home[i] == Home(r, Done) && r.stage2Prompt == None
    requires job.model.Decode(job.model.Generate(r.inputs)).Ok?
    ensures
      var g := job.model.Generate(r.inputs);
      Books(job, Record(d, i, CaptionText(job.model, Some(job.model.Decode(g).value)), FinishReason(g), Tokens(g)),
        home - {i})
    ensures i !in d.results && (i in job.Refined() <==> i in d.counts)
  {
    assert WindowAt(job, i, d, home);
    var g := job.model.Generate(r.inputs);
    var text := CaptionText(job.model, Some(job.model.Decode(g).value));
    assert i < |job.inputs|;
    FinishedResult(job, r, i, Look(d.results, i), Look(d.counts, i));
    Recorded(d, i, text, FinishReason(g), Tokens(g));
    CloseWindow(job, i, d, home, Record(d, i, text, FinishReason(g), Tokens(g)));
  }

  lemma FirstStageDone(job: Job, r: Request, i: nat, result: Option<WindowResult>, count: Option<TokenCounts>)
    requires job.WellFormed() && i < |job.inputs| && WindowOk(job, i, result, count, Some(Home(r, Done)))
    requires r.stage2Prompt.Some? && job.model.Decode(job.model.Generate(r.inputs)).Ok?
    ensures count == None
    ensures WindowOk(job, i, result, Some(Tokens(job.model.Generate(r.inputs))), Some(Home(r, ToRefine)))
  {
  }

  /** A finished request with a stage-2 prompt is charged and left to be refined. */
  lemma FinishFirstStage(job: Job, r: Request, i: nat, d: Desk, home: Homes)
    requires job.WellFormed() && Books(job, d, home)
    requires i in home && home[i] == Home(r, Done) && r.stage2Prompt.Some?
    requires job.model.Decode(job.model.Generate(r.inputs)).Ok?
    ensures i !in d.counts
    ensures Books(job, WithCharge(d, i, Tokens(job.model.Generate(r.inputs))), home[i := Home(r, ToRefine)])
  {
    assert WindowAt(job, i, d, home);
    FirstStageDone(job, r, i, Look(d.results, i), Look(d.counts, i));
    var d', home' := WithCharge(d, i, Tokens(job.model.Generate(r.inputs))), home[i := Home(r, ToRefine)];
    forall j: nat | j < |job.inputs| ensures WindowAt(job, j, d', home') {
      assert WindowAt(job, j, d, home);
      LookUpdate(d.counts, i, d'.counts[i], j);
      LookUpdate(home, i, Home(r, ToRefine), j);
    }
    assert forall j: nat :: j in home' ==> j in home;
    assert forall j: nat :: j in d'.counts ==> j in d.counts || j == i;
    assert Books(job, d', home');
  }

  lemma Elsewhere(r: Request, rs: seq<Request>, d: Desk, home: Homes, here: Place, there: Place)
    requires At(r, d, home, here) && AllAt(rs, d, home, there) && here != there
    ensures r !in rs
  {
  }

  lemma NotThere(q: Request, rs: seq<Request>, d: Desk, home: Homes, place: Place)
    requires AllAt(rs, d, home, place) && q.requestId !in d.index
    ensures q !in rs
  {
  }

  /** Accounting for the first finished request takes it out of `done`, and puts it in `toRefine` if its window
      needs a second stage. */
  lemma MoveDone(d: Desk, home: Homes, done: seq<Request>, toRefine: seq<Request>, d': Desk)
    requires Placed(d, home, done, toRefine) && done != []
    requires d'.queue == d.queue && d'.inFlight == d.inFlight && d'.index == d.index
    ensures At(done[0], d, home, Done)
    ensures Placed(d', home - {d.index[done[0].requestId]}, done[1..], toRefine)
    ensures Placed(d', home[d.index[done[0].requestId] := Home(done[0], ToRefine)], done[1..], toRefine + [done[0]])
  {
    var r, rest := done[0], done[1..];
    assert r in done && At(r, d, home, Done);
    var i := d.index[r.requestId];
    assert forall s :: s in done <==> s == r || s in rest by { assert done == [r] + rest; }
    assert r !in rest && NoDup(rest);
    var without := home - {i};
    assert forall s, p :: s != r && At(s, d, home, p) ==> At(s, d', without, p);
    assert Placed(d', without, rest, toRefine);
    var moved := home[i := Home(r, ToRefine)];
    assert forall s, p :: s != r && At(s, d, home, p) ==> At(s, d', moved, p);
    Elsewhere(r, toRefine, d, home, Done, ToRefine);
    assert AllAt(toRefine + [r], d', moved, ToRefine);
    assert Placed(d', moved, rest, toRefine + [r]);
  }

  /** The body of the second loop over `finished`: charge the tokens, and record the window if it needs no
      refinement. */
  method AccountOne(job: Job, d0: Desk, ghost home0: Homes, done: seq<Request>, ghost toRefine: seq<Request>)
    returns (d: Desk, ghost home: Homes)
    requires job.WellFormed() && Books(job, d0, home0) && Placed(d0, home0, done, toRefine)
    requires done != [] && done[0].Filled(job.model, job.model.Generate(done[0].inputs))
    ensures Books(job, d, home)
    ensures Placed(d, home, done[1..], if done[0].stage2Prompt.Some? then toRefine + [done[0]] else toRefine)
    ensures d.queue == d0.queue && d.inFlight == d0.inFlight && d.index == d0.index
    ensures forall i :: i in home ==> i in home0 && home[i].request == home0[i].request
    ensures Grown(job, d0, d, 1)
  {
    var r := done[0];
    assert r in done && At(r, d0, home0, Done);
    var i := d0.index[r.requestId];
    var tokens := TokenCounts(r.promptTokens, r.outputTokens);
    assert tokens == Tokens(job.model.Generate(r.inputs));
    if r.stage2Prompt == None {
      FinishWindow(job, r, i, d0, home0);
      GrowRecorded(job, d0, i, CaptionText(job.model, r.caption), r.finishReason, tokens);
      d, home := Record(d0, i, CaptionText(job.model, r.caption), r.finishReason, tokens), home0 - {i};
    } else {
      FinishFirstStage(job, r, i, d0, home0);
      GrowCharged(job, d0, i, tokens);
      d, home := WithCharge(d0, i, tokens), home0[i := Home(r, ToRefine)];
    }
    MoveDone(d0, home0, done, toRefine, d);
  }

  /** `[r for r in finished if r.stage2_prompt is not None]`. */
  function NeedsStage2(finished: seq<Request>): seq<Request> {
    if finished == [] then []
    else
      var n := |finished| - 1;
      if finished[n].stage2Prompt.Some? then NeedsStage2(finished[..n]) + [finished[n]] else NeedsStage2(finished[..n])
  }

  lemma {:induction false} NeedsStage2Members(finished: seq<Request>)
    ensures forall r :: r in NeedsStage2(finished) ==> r in finished && r.stage2Prompt.Some?
  {
    if finished != [] { NeedsStage2Members(finished[..|finished| - 1]); }
  }

  lemma NeedsStage2Next(finished: seq<Request>, k: nat)
    requires k < |finished|
    ensures finished[k..] != [] && finished[k..][0] == finished[k] && finished[k..][1..] == finished[k + 1..]
    ensures NeedsStage2(finished[..k + 1])
         == if finished[k].stage2Prompt.Some? then NeedsStage2(finished[..k]) + [finished[k]]
           else NeedsStage2(finished[..k])
  {
    assert finished[..k + 1][..k] == finished[..k];
  }

  /** No window has a request it did not have. */
  ghost predicate SameRequests(home0: Homes, home: Homes) {
    forall i :: i in home ==> i in home0 && home[i].request == home0[i].request
  }

  lemma SameRequestsStill(a: Homes, b: Homes, c: Homes)
    requires SameRequests(a, b) && SameRequests(b, c)
    ensures SameRequests(a, c)
  {
  }

  /** The second loop over `finished`. */
  method Account(job: Job, finished: seq<Request>, d0: Desk, ghost home0: Homes) returns (d: Desk, ghost home: Homes)
    requires job.WellFormed() && Books(job, d0, home0) && Placed(d0, home0, finished, [])
    requires forall r :: r in finished ==> r.Filled(job.model, job.model.Generate(r.inputs))
    ensures Books(job, d, home) && Placed(d, home, [], NeedsStage2(finished))
    ensures d.queue == d0.queue && d.inFlight == d0.inFlight && d.index == d0.index
    ensures forall i :: i in home ==> i in home0 && home[i].request == home0[i].request
    ensures Grown(job, d0, d, |finished|) && (finished == [] ==> d == d0)
  {
    d, home := d0, home0;
    assert finished[0..] == finished;
    for k := 0 to |finished|
      invariant Books(job, d, home) && Placed(d, home, finished[k..], NeedsStage2(finished[..k]))
      invariant d.queue == d0.queue && d.inFlight == d0.inFlight && d.index == d0.index
      invariant SameRequests(home0, home)
      invariant Grown(job, d0, d, k) && (k == 0 ==> d == d0)
    {
      NeedsStage2Next(finished, k);
      ghost var before, was := d, home;
      d, home := AccountOne(job, d, home, finished[k..], NeedsStage2(finished[..k]));
      GrownMore(job, d0, before, d, k);
      SameRequestsStill(home0, was, home);
    }
    assert finished[..|finished|] == finished;
    assert finished[|finished|..] == [];
  }

  // ---- Queueing refined requests ----

  /** A window whose first stage is accounted for fails as specified if its refinement does ... */
  lemma RefinementFails(job: Job, r: Request, i: nat, d: Desk, home: Homes, e: Error)
    requires job.WellFormed() && Books(job, d, home) && i in home && home[i] == Home(r, ToRefine)
    requires job.model.Decode(job.model.Generate(r.inputs)).Ok? && r.stage2Prompt.Some?
    requires job.model.Refine(r.inputs, job.model.Decode(job.model.Generate(r.inputs)).value, r.stage2Prompt.value) ==
      Err(e)
    ensures job.FailsWith(e)
  {
    assert WindowAt(job, i, d, home);
    assert job.Spec(i) == Err(e);
  }

  /** ... and else has its refined request as its live one. */
  lemma RefinementQueued(job: Job, r: Request, i: nat, d: Desk, home: Homes, q: Request)
    requires job.WellFormed() && Books(job, d, home) && i in home && home[i] == Home(r, ToRefine)
    requires job.model.Decode(job.model.Generate(r.inputs)).Ok? && r.stage2Prompt.Some? && q.stage2Prompt == None
    requires job.model.Refine(r.inputs, job.model.Decode(job.model.Generate(r.inputs)).value, r.stage2Prompt.value) ==
      Ok(q.inputs)
    ensures Books(job, Enqueue(d, q, i), home[i := Home(q, Queued)])
  {
    assert WindowAt(job, i, d, home);
    assert Stage2Inputs(job.model, job.inputs[i], job.prompts[i].value) == Ok(q.inputs);
    Rehome(job, i, d, home, Home(q, Queued));
  }

  /** The desk after request `q` joins the queue on behalf of window `i`. */
  function Enqueue(d: Desk, q: Request, i: nat): Desk {
    d.(queue := d.queue + [q], index := d.index[q.requestId := i])
  }

  lemma MoveToQueue(d: Desk, home: Homes, toRefine: seq<Request>, q: Request)
    requires Placed(d, home, [], toRefine) && toRefine != [] && q.requestId !in d.index
    ensures At(toRefine[0], d, home, ToRefine)
    ensures
      var i := d.index[toRefine[0].requestId];
      Placed(Enqueue(d, q, i), home[i := Home(q, Queued)], [], toRefine[1..])
  {
    var r, rest := toRefine[0], toRefine[1..];
    assert r in toRefine && At(r, d, home, ToRefine);
    var i := d.index[r.requestId];
    assert forall s :: s in toRefine <==> s == r || s in rest by { assert toRefine == [r] + rest; }
    assert r !in rest && NoDup(rest);
    var d', home' := Enqueue(d, q, i), home[i := Home(q, Queued)];
    assert forall s, p :: s != r && At(s, d, home, p) ==> At(s, d', home', p);
    NotThere(q, d.queue, d, home, Queued);
    assert AllAt(d.queue + [q], d', home', Queued);
    assert Placed(d', home', [], rest);
  }

  /** Every id the desk knows was made by this call. */
  ghost predicate OwnIds(d: Desk, first: Id, next: Id) {
    first <= next && forall id :: id in d.index ==> first <= id < next
  }

  /** The third loop: every request that needs a second stage re-enters the queue as its refined request, under a
      new id that maps to the same window. */
  method QueueRefined(job: Job, toRefine: seq<Request>, ids: IdSource, d0: Desk, ghost home0: Homes, ghost first: Id)
    returns (error: Option<Error>, d: Desk, ghost home: Homes)
    requires job.WellFormed() && Books(job, d0, home0) && Placed(d0, home0, [], toRefine) && OwnIds(d0, first, ids.next)
    requires forall r :: r in toRefine ==> r.stage2Prompt.Some? && r.Filled(job.model, job.model.Generate(r.inputs))
    modifies ids
    ensures error.Some? ==> job.FailsWith(error.value)
    ensures error.None? ==> Books(job, d, home) && Placed(d, home, [], [])
    ensures toRefine == [] ==> error == None && d == d0
    ensures error.None? ==> d0.queue <= d.queue && |d.queue| == |d0.queue| + |toRefine|
    ensures d.inFlight == d0.inFlight && d.results == d0.results && d.counts == d0.counts
    ensures ids.next >= old(ids.next) && OwnIds(d, first, ids.next)
    ensures forall i :: i in home ==> i in home0 && (home[i].request == home0[i].request || fresh(home[i].request))
  {
    error, d, home := None, d0, home0;
    assert toRefine[0..] == toRefine;
    for k := 0 to |toRefine|
      invariant error == None && Books(job, d, home) && Placed(d, home, [], toRefine[k..])
      invariant toRefine == [] ==> d == d0
      invariant d0.queue <= d.queue && |d.queue| == |d0.queue| + k
      invariant d.inFlight == d0.inFlight && d.results == d0.results && d.counts == d0.counts
      invariant ids.next >= old(ids.next) && OwnIds(d, first, ids.next)
      invariant forall i :: i in home ==> i in home0 && (home[i].request == home0[i].request || fresh(home[i].request))
    {
      var request := toRefine[k];
      assert request in toRefine && toRefine[k..][1..] == toRefine[k + 1..];
      assert request in toRefine[k..] && At(request, d, home, ToRefine);
      var i := d.index[request.requestId];
      var refined := job.model.Refine(request.inputs, request.caption.value, request.stage2Prompt.value);
      if refined.Err? {
        RefinementFails(job, request, i, d, home, refined.error);
        error := Some(refined.error);
        return;
      }
      var id := ids.TokenHex();
      var q := new VllmCaptionRequest(id, refined.value, None);
      MoveToQueue(d, home, toRefine[k..], q);
      RefinementQueued(job, request, i, d, home, q);
      d, home := Enqueue(d, q, i), home[i := Home(q, Queued)];
    }
    assert toRefine[|toRefine|..] == [];
  }

  // ---- One round of the loop ----

  /** Between two rounds: the books balance, the containers hold the live requests, all ids are ones this call
      made, and the engine holds exactly the requests in flight besides what it held before (`stale`). */
  ghost predicate Flight(job: Job, held: map<Id, Inputs>, stale: map<Id, Inputs>, first: Id, next: Id, d: Desk,
                         home: Homes)
    requires job.WellFormed()
  {
    && Books(job, d, home) && Placed(d, home, [], []) && OwnIds(d, first, next)
    && (forall id :: id in stale ==> id < first && id in held && held[id] == stale[id])
    && (forall id :: id in d.inFlight ==> id in held && held[id] == d.inFlight[id].inputs)
    && (forall id :: id in held ==> id in stale || id in d.inFlight)
  }

  lemma HeldBelow(job: Job, held: map<Id, Inputs>, stale: map<Id, Inputs>, first: Id, next: Id, d: Desk, home: Homes)
    requires job.WellFormed() && Flight(job, held, stale, first, next, d, home)
    ensures forall id :: id in held ==> id < next
    ensures forall r :: r in d.inFlight.Values ==> exists i :: i in home && home[i].request == r
  {
    forall id | id in d.inFlight ensures id < next { assert At(d.inFlight[id], d, home, Flying); }
    forall r | r in d.inFlight.Values ensures exists i :: i in home && home[i].request == r {
      var id :| id in d.inFlight && d.inFlight[id] == r;
      assert At(r, d, home, Flying);
    }
  }

  /** The desk after the first queued request is handed to the engine. */
  function Launched(d: Desk): Desk
    requires d.queue != []
  {
    d.(queue := d.queue[1..], inFlight := d.inFlight[d.queue[0].requestId := d.queue[0]])
  }

  /** The live requests after that: it flies. */
  ghost function TakenOff(d: Desk, home: Homes): Homes
    requires d.queue != [] && d.queue[0].requestId in d.index
  {
    home[d.index[d.queue[0].requestId] := Home(d.queue[0], Flying)]
  }

  lemma LaunchPlaced(d: Desk, home: Homes)
    requires Placed(d, home, [], []) && d.queue != []
    ensures At(d.queue[0], d, home, Queued) && d.queue[0].requestId !in d.inFlight
    ensures Placed(Launched(d), home[d.index[d.queue[0].requestId] := Home(d.queue[0], Flying)], [], [])
  {
    var r, rest := d.queue[0], d.queue[1..];
    assert r in d.queue && At(r, d, home, Queued);
    assert forall s :: s in d.queue <==> s == r || s in rest by { assert d.queue == [r] + rest; }
    assert r !in rest && NoDup(rest);
    assert forall id :: id in d.inFlight ==> d.inFlight[id].requestId == id && At(d.inFlight[id], d, home, Flying);
    var d', home' := Launched(d), home[d.index[r.requestId] := Home(r, Flying)];
    assert forall s, p :: s != r && At(s, d, home, p) ==> At(s, d', home', p);
    assert Placed(d', home', [], []);
  }

  lemma NotHeldYet(job: Job, held: map<Id, Inputs>, stale: map<Id, Inputs>, first: Id, next: Id, d: Desk, home: Homes)
    requires job.WellFormed() && d.queue != [] && Flight(job, held, stale, first, next, d, home)
    ensures d.queue[0].requestId !in held && d.queue[0].requestId !in d.inFlight && At(d.queue[0], d, home, Queued)
  {
    LaunchPlaced(d, home);
  }

  lemma Launch(job: Job, held: map<Id, Inputs>, held': map<Id, Inputs>, stale: map<Id, Inputs>, first: Id, next: Id,
               d: Desk, home: Homes)
    requires job.WellFormed() && d.queue != [] && Flight(job, held, stale, first, next, d, home)
    requires held' == held[d.queue[0].requestId := d.queue[0].inputs] && At(d.queue[0], d, home, Queued)
    ensures Flight(job, held', stale, first, next, Launched(d), TakenOff(d, home))
  {
    LaunchPlaced(d, home);
    var r := d.queue[0];
    var i := d.index[r.requestId];
    assert WindowAt(job, i, d, home);
    Rehome(job, i, d, home, Home(r, Flying));
  }

  /** The engine holds the stale requests and those in flight, which are no more than the windows. */
  lemma HeldCount(job: Job, held: map<Id, Inputs>, stale: map<Id, Inputs>, first: Id, next: Id, d: Desk, home: Homes)
    requires job.WellFormed() && Flight(job, held, stale, first, next, d, home)
    ensures |held| == |stale| + |d.inFlight| && |d.inFlight| <= |job.inputs|
  {
    forall id | id in d.inFlight ensures id !in stale && d.index[id] < |job.inputs| {
      assert At(d.inFlight[id], d, home, Flying);
    }
    assert held.Keys == stale.Keys + d.inFlight.Keys;
    assert forall id :: id in d.inFlight ==> At(d.inFlight[id], d, home, Flying);
    Injection(d.inFlight.Keys, d.index, |job.inputs|);
  }

  /** Ids of different windows are no more than the windows. */
  lemma {:induction false} Injection(ids: set<Id>, index: map<Id, nat>, n: nat)
    requires forall id :: id in ids ==> id in index && index[id] < n
    requires forall a, b :: a in ids && b in ids && index[a] == index[b] ==> a == b
    ensures |ids| <= n
  {
    if id :| id in ids && index[id] == n - 1 {
      Injection(ids - {id}, index, n - 1);
    } else if n > 0 {
      Injection(ids, index, n - 1);
    } else {
      assert ids == {};
    }
  }

  /** The cap on the requests in flight, and so on those the engine was seen to hold besides the stale ones. */
  ghost predicate Capped(inFlight: set<Id>, peak: nat, stale: map<Id, Inputs>, maxInflight: nat) {
    maxInflight > 0 ==> |inFlight| <= maxInflight && peak <= maxInflight + |stale|
  }

  /** One more request respects the cap. */
  lemma LaunchCapped(job: Job, held: map<Id, Inputs>, stale: map<Id, Inputs>, first: Id, next: Id, d: Desk,
                     home: Homes, peak: nat, maxInflight: nat)
    requires job.WellFormed() && d.queue != [] && Flight(job, held, stale, first, next, d, home)
    requires Capped(d.inFlight.Keys, peak, stale, maxInflight) && (maxInflight == 0 || |d.inFlight| < maxInflight)
    requires d.queue[0].requestId !in d.inFlight
    ensures Capped(Launched(d).inFlight.Keys, if |held| + 1 > peak then |held| + 1 else peak, stale, maxInflight)
  {
    HeldCount(job, held, stale, first, next, d, home);
    LaunchCount(d);
  }

  lemma LaunchCount(d: Desk)
    requires d.queue != [] && d.queue[0].requestId !in d.inFlight
    ensures |Launched(d).inFlight.Keys| == |d.inFlight.Keys| + 1
  {
    assert Launched(d).inFlight.Keys == d.inFlight.Keys + {d.queue[0].requestId};
  }

  lemma StaysCapped(fewer: set<Id>, more: set<Id>, peak: nat, stale: map<Id, Inputs>, maxInflight: nat)
    requires fewer <= more && Capped(more, peak, stale, maxInflight)
    ensures Capped(fewer, peak, stale, maxInflight)
  {
    assert fewer + (more - fewer) == more;
    assert |more| == |fewer| + |more - fewer|;
  }

  lemma DeskBounded(job: Job, d: Desk, home: Homes)
    requires job.WellFormed() && Books(job, d, home)
    ensures d.results.Keys <= Below(|job.inputs|) && d.counts.Keys <= Below(|job.inputs|)
    ensures |d.results.Keys| <= |job.inputs| && |d.counts.Keys| <= |job.inputs|
  {
    assert d.results.Keys <= Below(|job.inputs|) && d.counts.Keys <= Below(|job.inputs|);
    FullIffCount(d.results.Keys, |job.inputs|);
    FullIffCount(d.counts.Keys, |job.inputs|);
  }

  /** While a window is unfinished its request is queued or in flight; so the engine is never stepped with nothing
      in flight. */
  lemma SomethingInFlight(job: Job, d: Desk, home: Homes)
    requires job.WellFormed() && Books(job, d, home) && Placed(d, home, [], []) && |d.results| < |job.inputs|
    ensures d.queue != [] || d.inFlight != map[]
  {
    DeskBounded(job, d, home);
    FullIffCount(d.results.Keys, |job.inputs|);
    assert d.results.Keys != Below(|job.inputs|);
    var i: nat :| i < |job.inputs| && i !in d.results;
    assert WindowAt(job, i, d, home);
  }

  /** Hand the engine the first queued request. */
  method HandOver(ghost job: Job, engine: LlmEngine, ghost maxInflight: nat, d0: Desk, ghost home0: Homes,
                  ghost stale: map<Id, Inputs>, ghost first: Id, ghost next: Id)
    returns (d: Desk, ghost home: Homes)
    requires job.WellFormed() && d0.queue != [] && (maxInflight == 0 || |d0.inFlight| < maxInflight)
    requires Flight(job, engine.held, stale, first, next, d0, home0)
    requires Capped(d0.inFlight.Keys, engine.peak, stale, maxInflight)
    modifies engine
    ensures Flight(job, engine.held, stale, first, next, d, home) && d == Launched(d0)
    ensures Capped(d.inFlight.Keys, engine.peak, stale, maxInflight)
    ensures engine.completed == old(engine.completed)
    ensures engine.held == old(engine.held)[d0.queue[0].requestId := d0.queue[0].inputs]
    ensures forall i :: i in home ==> i in home0 && home[i].request == home0[i].request
  {
    var request := d0.queue[0];
    ghost var held, peak := engine.held, engine.peak;
    NotHeldYet(job, held, stale, first, next, d0, home0);
    engine.AddRequest(request.requestId, request.inputs);
    d, home := Launched(d0), TakenOff(d0, home0);
    Launch(job, held, engine.held, stale, first, next, d0, home0);
    LaunchCapped(job, held, stale, first, next, d0, home0, peak, maxInflight);
  }

  /** The opening of a round: hand the engine the next queued request if the cap allows it. */
  method Submit(ghost job: Job, engine: LlmEngine, maxInflight: nat, d0: Desk, ghost home0: Homes,
                ghost stale: map<Id, Inputs>, ghost first: Id, ghost next: Id)
    returns (d: Desk, ghost home: Homes)
    requires job.WellFormed() && |d0.results| < |job.inputs|
    requires Flight(job, engine.held, stale, first, next, d0, home0)
    requires Capped(d0.inFlight.Keys, engine.peak, stale, maxInflight)
    modifies engine
    ensures Flight(job, engine.held, stale, first, next, d, home) && d.inFlight != map[]
    ensures Capped(d.inFlight.Keys, engine.peak, stale, maxInflight)
    ensures engine.completed == old(engine.completed)
    ensures
      if d0.queue != [] && (maxInflight == 0 || |d0.inFlight| < maxInflight)
      then d == Launched(d0) && engine.held == old(engine.held)[d0.queue[0].requestId := d0.queue[0].inputs]
      else d == d0 && engine.held == old(engine.held)
    ensures |d.queue| < |d0.queue| || (d.queue == d0.queue && engine.stall == old(engine.stall))
    ensures forall i :: i in home ==> i in home0 && home[i].request == home0[i].request
  {
    SomethingInFlight(job, d0, home0);
    d, home := d0, home0;
    if d.queue != [] && (maxInflight == 0 || |d.inFlight| < maxInflight) {
      d, home := HandOver(job, engine, maxInflight, d, home, stale, first, next);
    }
  }

  ghost function Land(home: Homes, landed: seq<Id>): Homes {
    map i | i in home :: if home[i].place == Flying && home[i].request.requestId in landed
                         then Home(home[i].request, Done) else home[i]
  }

  /** The first loop over `finished` takes the finished requests out of the in-flight dict. */
  lemma TakeFinished(job: Job, d: Desk, home: Homes, landed: seq<Id>, finished: seq<Request>, d': Desk)
    requires job.WellFormed() && Books(job, d, home) && Placed(d, home, [], [])
    requires NoDup(landed) && |finished| == |landed|
    requires forall k :: 0 <= k < |landed| ==> landed[k] in d.inFlight && finished[k] == d.inFlight[landed[k]]
    requires d' == d.(inFlight := d.inFlight - SetOf(landed))
    ensures Books(job, d', Land(home, landed)) && Placed(d', Land(home, landed), finished, [])
  {
    var home' := Land(home, landed);
    forall j: nat | j < |job.inputs| ensures WindowAt(job, j, d', home') {
      assert WindowAt(job, j, d, home);
    }
    assert Books(job, d', home');
    forall r | r in finished ensures At(r, d', home', Done) && r.requestId in landed {
      var k :| 0 <= k < |finished| && finished[k] == r;
      assert landed[k] == r.requestId && At(r, d, home, Flying);
    }
    assert forall k :: 0 <= k < |landed| ==> finished[k].requestId == landed[k];
    assert NoDup(finished);
    assert forall r, p :: At(r, d, home, p) && (p != Flying || r.requestId !in landed) ==> At(r, d', home', p);
    forall i | i in home' && home'[i].place == Done ensures home'[i].request in finished {
      var id := home[i].request.requestId;
      var k :| 0 <= k < |landed| && landed[k] == id;
      assert finished[k] == d.inFlight[id] && At(d.inFlight[id], d, home, Flying);
    }
    assert Placed(d', home', finished, []);
  }

  /** Finished ids are in flight, and every request that finished holds the generation of its inputs. */
  lemma FinishedAreMine(job: Job, held: map<Id, Inputs>, inFlight: map<Id, Request>, outs: seq<EngineOutput>)
    requires Keyed(inFlight) && MayReport(job.model, held, outs)
    requires forall id :: id in inFlight ==> id in held && held[id] == inFlight[id].inputs
    requires FirstError(job.model, inFlight.Keys, outs) == None
    ensures forall id :: id in FinishedIds(outs) ==>
              id in inFlight && LastGeneration(outs, id) == Some(job.model.Generate(inFlight[id].inputs))
  {
    SomeOutputErred(job.model, inFlight.Keys, outs);
    forall id | id in FinishedIds(outs)
      ensures id in inFlight && LastGeneration(outs, id) == Some(job.model.Generate(inFlight[id].inputs))
    {
      if id in held {
        LastGenerationOf(outs, id, job.model.Generate(held[id]));
      } else {
        FinishedAreHeld(job.model, held, outs, id);
      }
    }
  }

  lemma {:induction false} FinishedAreHeld(m: Model, held: map<Id, Inputs>, outs: seq<EngineOutput>, id: Id)
    requires forall o :: o in outs ==> o.Output? && o.requestId in held
    requires id in FinishedIds(outs)
    ensures id in held
  {
    var n := |outs| - 1;
    if !(Finished(outs[n]) && outs[n].requestId == id) { FinishedAreHeld(m, held, outs[..n], id); }
  }

  /** An exception while processing outputs is either the failure of a window or an output of a request that this
      call never made. */
  lemma ProcessingError(job: Job, held: map<Id, Inputs>, stale: map<Id, Inputs>, first: Id, next: Id, d: Desk,
                        home: Homes, outs: seq<EngineOutput>, e: Error)
    requires job.WellFormed() && Flight(job, held, stale, first, next, d, home)
    requires MayReport(job.model, held, outs) && FirstError(job.model, d.inFlight.Keys, outs) == Some(e)
    ensures job.FailsWith(e) || (stale != map[] && e == KeyMissing)
  {
    SomeOutputErred(job.model, d.inFlight.Keys, outs);
    var o :| o in outs && OutputError(job.model, d.inFlight.Keys, o) == Some(e);
    if o.requestId in d.inFlight {
      var r := d.inFlight[o.requestId];
      assert At(r, d, home, Flying);
      var i := d.index[r.requestId];
      assert WindowAt(job, i, d, home);
      assert job.Spec(i) == Err(e);
    }
  }

  /** Only a finished output raises. */
  lemma {:induction false} ErrorMeansFinished(m: Model, held: map<Id, Inputs>, known: set<Id>, outs: seq<EngineOutput>)
    requires forall o :: o in outs ==> o.Output? && o.requestId in held
    requires FirstError(m, known, outs).Some?
    ensures FinishedIds(outs) != []
  {
    var n := |outs| - 1;
    assert outs[n] in outs;
    if FirstError(m, known, outs[..n]).Some? {
      ErrorMeansFinished(m, held, known, outs[..n]);
    } else {
      assert OutputError(m, known, outs[n]).Some? && Finished(outs[n]);
    }
  }

  /** The first loop over `finished`. */
  method DeleteFinished(d0: Desk, finished: seq<Request>, ghost landed: seq<Id>) returns (d: Desk)
    requires |finished| == |landed| && forall k :: 0 <= k < |landed| ==> finished[k].requestId == landed[k]
    ensures d == d0.(inFlight := d0.inFlight - SetOf(landed))
  {
    d := d0;
    for k := 0 to |finished|
      invariant d == d0.(inFlight := d0.inFlight - SetOf(landed[..k]))
    {
      assert landed[..k + 1] == landed[..k] + [landed[k]];
      d := d.(inFlight := d.inFlight - {finished[k].requestId});
    }
    assert landed[..|finished|] == landed;
  }

  /** Process the outputs of one engine step and take the finished requests out of flight. */
  method Receive(job: Job, outs: seq<EngineOutput>, d0: Desk, ghost home0: Homes, ghost held: map<Id, Inputs>,
                 ghost stale: map<Id, Inputs>, ghost first: Id, ghost next: Id)
    returns (error: Option<Error>, finished: seq<Request>, d: Desk, ghost home: Homes)
    requires job.WellFormed() && Flight(job, held, stale, first, next, d0, home0) && MayReport(job.model, held, outs)
    modifies d0.inFlight.Values
    ensures error == FirstError(job.model, d0.inFlight.Keys, outs)
    ensures error.Some? ==> d == d0 && FinishedIds(outs) != []
    ensures error.Some? ==> (job.FailsWith(error.value) || (stale != map[] && error.value == KeyMissing))
    ensures error.None? ==> Books(job, d, home) && Placed(d, home, finished, [])
    ensures error.None? ==> |finished| == |FinishedIds(outs)|
    ensures error.None? ==> d == d0.(inFlight := d0.inFlight - SetOf(FinishedIds(outs)))
    ensures error.None? ==> forall id :: id in FinishedIds(outs) ==> id in d0.inFlight
    ensures error.None? ==> forall r :: r in finished ==> r.Filled(job.model, job.model.Generate(r.inputs))
    ensures forall i :: i in home ==> i in home0 && home[i].request == home0[i].request
  {
    error, finished, d, home := None, [], d0, home0;
    var processed := ProcessVllmOutput(outs, d0.inFlight, job.model);
    if processed.Err? {
      ProcessingError(job, held, stale, first, next, d0, home0, outs, processed.error);
      ErrorMeansFinished(job.model, held, d0.inFlight.Keys, outs);
      error := Some(processed.error);
      return;
    }
    finished := processed.value;
    ghost var landed := FinishedIds(outs);
    FinishedAreMine(job, held, d0.inFlight, outs);
    forall r | r in finished ensures r.Filled(job.model, job.model.Generate(r.inputs)) {
      var k :| 0 <= k < |finished| && finished[k] == r;
      assert landed[k] in landed;
    }
    d := DeleteFinished(d0, finished, landed);
    TakeFinished(job, d0, home0, landed, finished, d);
    home := Land(home0, landed);
  }

  lemma FlightAfter(job: Job, held: map<Id, Inputs>, stale: map<Id, Inputs>, first: Id, next0: Id, d0: Desk,
                    home0: Homes, landed: seq<Id>, next: Id, d: Desk, home: Homes)
    requires job.WellFormed() && Flight(job, held, stale, first, next0, d0, home0)
    requires Books(job, d, home) && Placed(d, home, [], []) && OwnIds(d, first, next)
    requires d.inFlight == d0.inFlight - SetOf(landed) && forall id :: id in landed ==> id in d0.inFlight
    ensures Flight(job, held - SetOf(landed), stale, first, next, d, home)
  {
    forall id | id in landed ensures id !in stale { assert At(d0.inFlight[id], d0, home0, Flying); }
  }

  lemma NothingFinished(d: Desk)
    ensures NeedsStage2([]) == [] && d.(inFlight := d.inFlight - SetOf([])) == d
  {
    assert d.inFlight - SetOf([]) == d.inFlight;
  }

  /** What follows one engine step: take the finished requests out of flight, account for them, and queue the
      refined requests. */
  method Absorb(job: Job, outs: seq<EngineOutput>, ids: IdSource, d0: Desk, ghost home0: Homes,
                ghost held: map<Id, Inputs>, ghost stale: map<Id, Inputs>, ghost first: Id)
    returns (error: Option<Error>, d: Desk, ghost home: Homes)
    requires job.WellFormed() && Flight(job, held, stale, first, ids.next, d0, home0)
    requires MayReport(job.model, held, outs)
    modifies ids, d0.inFlight.Values
    ensures ids.next >= old(ids.next)
    ensures error.Some? ==> job.FailsWith(error.value) || (stale != map[] && error.value == KeyMissing)
    ensures error.None? ==> Flight(job, held - SetOf(FinishedIds(outs)), stale, first, ids.next, d, home)
    ensures error.None? ==> Grown(job, d0, d, |FinishedIds(outs)|)
    ensures FirstError(job.model, d0.inFlight.Keys, outs).Some? ==>
              error == FirstError(job.model, d0.inFlight.Keys, outs)
    ensures error.Some? ==> FinishedIds(outs) != []
    ensures error.None? ==> d.inFlight == d0.inFlight - SetOf(FinishedIds(outs))
    ensures error.None? && FinishedIds(outs) == [] ==> d == d0
    ensures d.inFlight.Keys <= d0.inFlight.Keys
    ensures forall i :: i in home ==> i in home0 && (home[i].request == home0[i].request || fresh(home[i].request))
  {
    var finished: seq<Request>;
    error, finished, d, home := Receive(job, outs, d0, home0, held, stale, first, ids.next);
    if error.Some? { return; }
    d, home := Account(job, finished, d, home);
    NeedsStage2Members(finished);
    if finished == [] { NothingFinished(d0); }
    error, d, home := QueueRefined(job, NeedsStage2(finished), ids, d, home, first);
    if error.None? {
      FlightAfter(job, held, stale, first, old(ids.next), d0, home0, FinishedIds(outs), ids.next, d, home);
    }
  }

  /** What finished is no longer held. */
  lemma FinishedLeave(m: Model, held: map<Id, Inputs>, outs: seq<EngineOutput>)
    requires MayReport(m, held, outs) && FinishedIds(outs) != []
    ensures |held - SetOf(FinishedIds(outs))| < |held|
  {
    var id, rest := FinishedIds(outs)[0], held - SetOf(FinishedIds(outs));
    FinishedAreHeld(m, held, outs, id);
    assert rest.Keys < held.Keys;
    assert held.Keys == rest.Keys + (held.Keys - rest.Keys) && id in held.Keys - rest.Keys;
  }

  /** The rest of a round: one engine step, never taken with nothing in flight, and what follows from it; `k` is
      the number of requests the engine finished. */
  method Turn(job: Job, engine: LlmEngine, ids: IdSource, d0: Desk, ghost home0: Homes, ghost stale: map<Id, Inputs>,
              ghost first: Id)
    returns (error: Option<Error>, d: Desk, ghost home: Homes, ghost k: nat)
    requires job.WellFormed() && engine.model == job.model && d0.inFlight != map[]
    requires Flight(job, engine.held, stale, first, ids.next, d0, home0)
    modifies engine, ids, d0.inFlight.Values
    ensures ids.next >= old(ids.next) && engine.peak == old(engine.peak)
    ensures forall id :: id in engine.held ==> id < ids.next
    ensures error.Some? ==> job.FailsWith(error.value) || (stale != map[] && error.value == KeyMissing)
    ensures error.None? ==> Flight(job, engine.held, stale, first, ids.next, d, home)
    ensures error.Some? ==> |engine.held| < |old(engine.held)|
    ensures d.inFlight.Keys <= d0.inFlight.Keys
    ensures engine.completed == old(engine.completed) + k
    ensures error.None? ==> Grown(job, d0, d, k)
    ensures error.None? && k == 0 ==> d == d0 && engine.stall < old(engine.stall)
    ensures forall i :: i in home ==> i in home0 && (home[i].request == home0[i].request || fresh(home[i].request))
  {
    HeldBelow(job, engine.held, stale, first, ids.next, d0, home0);
    ghost var held := engine.held;
    assert engine.held != map[] by { var id :| id in d0.inFlight; assert id in held; }
    var outs := engine.Step();
    k := |FinishedIds(outs)|;
    ghost var left := held - SetOf(FinishedIds(outs));
    error, d, home := Absorb(job, outs, ids, d0, home0, held, stale, first);
    assert engine.held == left;
    if error.Some? { FinishedLeave(job.model, held, outs); }
  }

  /** How many requests a call that raised may leave with the engine: at least one of its own has finished. */
  ghost predicate FewLeft(job: Job, held: map<Id, Inputs>, stale: map<Id, Inputs>, maxInflight: nat) {
    && |held| < |stale| + |job.inputs|
    && (maxInflight > 0 ==> |held| < |stale| + maxInflight)
  }

  ghost function Requests(home: Homes): set<Request> {
    set i | i in home :: home[i].request
  }

  /** One pass of the scheduler's loop body. */
  method Round(job: Job, engine: LlmEngine, ids: IdSource, maxInflight: nat, d0: Desk, ghost home0: Homes,
               ghost stale: map<Id, Inputs>, ghost first: Id)
    returns (error: Option<Error>, d: Desk, ghost home: Homes, ghost k: nat)
    requires job.WellFormed() && engine.model == job.model && |d0.results| < |job.inputs|
    requires Flight(job, engine.held, stale, first, ids.next, d0, home0)
    requires Capped(d0.inFlight.Keys, engine.peak, stale, maxInflight)
    modifies engine, ids, Requests(home0)
    ensures ids.next >= old(ids.next) && forall id :: id in engine.held ==> id < ids.next
    ensures error.Some? ==> job.FailsWith(error.value) || (stale != map[] && error.value == KeyMissing)
    ensures error.None? ==> Flight(job, engine.held, stale, first, ids.next, d, home)
    ensures error.Some? ==> FewLeft(job, engine.held, stale, maxInflight)
    ensures Capped(d.inFlight.Keys, engine.peak, stale, maxInflight)
    ensures engine.completed == old(engine.completed) + k
    ensures error.None? ==> Grown(job, d0, d, k)
    ensures error.None? && k == 0 ==>
      |d.queue| < |d0.queue| || (d.queue == d0.queue && engine.stall < old(engine.stall))
    ensures forall i :: i in home ==> i in home0 && (home[i].request == home0[i].request || fresh(home[i].request))
  {
    d, home := Submit(job, engine, maxInflight, d0, home0, stale, first, ids.next);
    HeldBelow(job, engine.held, stale, first, ids.next, d, home);
    HeldCount(job, engine.held, stale, first, ids.next, d, home);
    ghost var flying := d.inFlight.Keys;
    error, d, home, k := Turn(job, engine, ids, d, home, stale, first);
    StaysCapped(d.inFlight.Keys, flying, engine.peak, stale, maxInflight);
  }

  // ---- The scheduler ----

  lemma AllRecorded(job: Job, d: Desk, home: Homes)
    requires job.WellFormed() && |d.results| >= |job.inputs| && Books(job, d, home)
    ensures forall i: nat :: i < |job.inputs| ==> i in d.results && job.Spec(i) == Ok(d.results[i])
    ensures d.results.Keys == Below(|job.inputs|) && d.counts.Keys == Below(|job.inputs|) && home == map[]
  {
    DeskBounded(job, d, home);
    FullIffCount(d.results.Keys, |job.inputs|);
    assert d.results.Keys == Below(|job.inputs|);
    forall i: nat | i < |job.inputs|
      ensures i in d.results && i in d.counts && i !in home && job.Spec(i) == Ok(d.results[i])
    {
      assert WindowAt(job, i, d, home);
    }
  }

  lemma AllCharged(n: nat, refined: set<nat>)
    requires refined <= Below(n)
    ensures Charged(Below(n), Below(n), refined) == n + |refined|
  {
    BelowSize(n);
    assert Below(n) * refined == refined;
  }

  /** With every window finished nothing is left in flight: the engine holds what it held before. */
  lemma AllLanded(job: Job, held: map<Id, Inputs>, stale: map<Id, Inputs>, first: Id, next: Id, d: Desk)
    requires job.WellFormed() && Flight(job, held, stale, first, next, d, map[])
    ensures held == stale
  {
    assert forall id :: id in d.inFlight ==> At(d.inFlight[id], d, map[], Flying);
    assert d.inFlight.Keys == {};
  }

  /** When the loop ends every window has its specified result, every generation is accounted for, and the engine is
      left as it was. */
  lemma AllDone(job: Job, held: map<Id, Inputs>, stale: map<Id, Inputs>, first: Id, next: Id, d: Desk, home: Homes)
    requires job.WellFormed() && |d.results| >= |job.inputs| && Flight(job, held, stale, first, next, d, home)
    ensures forall i: nat :: i < |job.inputs| ==> i in d.results && job.Spec(i) == Ok(d.results[i])
    ensures Generations(job, d) == |job.inputs| + |job.Refined()|
    ensures held == stale
  {
    AllRecorded(job, d, home);
    AllCharged(|job.inputs|, job.Refined());
    AllLanded(job, held, stale, first, next, d);
  }

  lemma SubsetCount(a: set<nat>, b: set<nat>)
    requires a <= b
    ensures |a| <= |b| && (a < b ==> |a| < |b|)
  {
    assert a + (b - a) == b;
    assert |b| == |a| + |b - a|;
  }

  /** Something was accounted for, so fewer windows or fewer charges are missing. */
  lemma Progress(job: Job, d0: Desk, d: Desk, k: nat)
    requires job.WellFormed() && Grown(job, d0, d, k)
    ensures |d0.results.Keys| <= |d.results.Keys| && |d0.counts.Keys| <= |d.counts.Keys|
    ensures k > 0 ==> |d0.results.Keys| < |d.results.Keys| || |d0.counts.Keys| < |d.counts.Keys|
  {
    SubsetCount(d0.results.Keys, d.results.Keys);
    SubsetCount(d0.counts.Keys, d.counts.Keys);
  }

  /** The opening loop: one queued request per window. */
  method EnqueueAll(job: Job, ids: IdSource) returns (d: Desk, ghost home: Homes)
    requires job.WellFormed()
    modifies ids
    ensures Books(job, d, home) && Placed(d, home, [], []) && OwnIds(d, old(ids.next), ids.next)
    ensures d.inFlight == map[] && d.results == map[] && d.counts == map[]
    ensures |d.queue| == |job.inputs|
    ensures forall k :: 0 <= k < |d.queue| ==>
              d.queue[k].requestId == old(ids.next) + k && d.queue[k].inputs == job.inputs[k]
    ensures forall i :: i in home ==> fresh(home[i].request)
  {
    var queue: seq<Request>, index: map<Id, nat> := [], map[];
    for i := 0 to |job.inputs|
      invariant |queue| == i && ids.next == old(ids.next) + i
      invariant forall k :: 0 <= k < i ==> fresh(queue[k]) && queue[k].requestId == old(ids.next) + k
      invariant forall k :: 0 <= k < i ==> queue[k].inputs == job.inputs[k] && queue[k].stage2Prompt == job.prompts[k]
      invariant forall id :: id in index <==> old(ids.next) <= id < ids.next
      invariant forall id :: id in index ==> index[id] == id - old(ids.next)
    {
      var id := ids.TokenHex();
      var request := new VllmCaptionRequest(id, job.inputs[i], job.prompts[i]);
      queue, index := queue + [request], index[id := i];
    }
    d := Desk(queue, map[], index, map[], map[]);
    home := FirstHomes(queue);
    FirstBooks(job, d, home, old(ids.next));
  }

  ghost function FirstHomes(queue: seq<Request>): (home: Homes)
    ensures forall i: nat :: i in home <==> i < |queue|
    ensures forall i: nat :: i in home ==> home[i] == Home(queue[i], Queued)
  {
    if queue == [] then map[] else FirstHomes(queue[..|queue| - 1])[|queue| - 1 := Home(queue[|queue| - 1], Queued)]
  }

  lemma FirstBooks(job: Job, d: Desk, home: Homes, first: Id)
    requires job.WellFormed() && |d.queue| == |job.inputs| && d.inFlight == map[] && d.results == map[]
    requires d.counts == map[]
    requires forall k :: 0 <= k < |d.queue| ==> d.queue[k].requestId == first + k
    requires forall k :: 0 <= k < |d.queue| ==>
      d.queue[k].inputs == job.inputs[k] && d.queue[k].stage2Prompt == job.prompts[k]
    requires forall id :: id in d.index <==> first <= id < first + |d.queue|
    requires forall id :: id in d.index ==> d.index[id] == id - first
    requires home == FirstHomes(d.queue)
    ensures Books(job, d, home) && Placed(d, home, [], [])
  {
    forall i: nat | i < |job.inputs| ensures WindowAt(job, i, d, home) { }
    FirstPlaced(d, home, first);
  }

  lemma FirstPlaced(d: Desk, home: Homes, first: Id)
    requires forall k :: 0 <= k < |d.queue| ==> d.queue[k].requestId == first + k
    requires forall id :: id in d.index <==> first <= id < first + |d.queue|
    requires forall id :: id in d.index ==> d.index[id] == id - first
    requires home == FirstHomes(d.queue) && d.inFlight == map[]
    ensures Placed(d, home, [], [])
  {
    forall r | r in d.queue ensures At(r, d, home, Queued) {
      var k :| 0 <= k < |d.queue| && d.queue[k] == r;
      assert first + k in d.index;
    }
    assert forall i :: i in home ==> d.queue[i].requestId in d.index && d.queue[i] in d.queue;
  }

  /** The scheduler's loop. It ends because every round either finishes a generation, or makes the queue shorter, or
      uses up some of the engine's patience. */
  method Schedule(job: Job, engine: LlmEngine, ids: IdSource, maxInflight: nat, d0: Desk, ghost home0: Homes,
                  ghost stale: map<Id, Inputs>, ghost first: Id)
    returns (error: Option<Error>, d: Desk, ghost home: Homes)
    requires job.WellFormed() && engine.model == job.model
    requires Flight(job, engine.held, stale, first, ids.next, d0, home0)
    requires d0.inFlight == map[] && d0.results == map[] && d0.counts == map[] && engine.peak <= |stale|
    modifies engine, ids, Requests(home0)
    ensures ids.next >= old(ids.next) && forall id :: id in engine.held ==> id < ids.next
    ensures error.Some? ==> job.FailsWith(error.value) || (stale != map[] && error.value == KeyMissing)
    ensures error.None? ==> |d.results| >= |job.inputs| && Flight(job, engine.held, stale, first, ids.next, d, home)
    ensures error.None? ==> engine.completed == old(engine.completed) + Generations(job, d)
    ensures error.Some? ==> FewLeft(job, engine.held, stale, maxInflight)
    ensures maxInflight > 0 ==> engine.peak <= maxInflight + |stale|
  {
    error, d, home := None, d0, home0;
    HeldBelow(job, engine.held, stale, first, ids.next, d, home);
    while |d.results| < |job.inputs|
      invariant error == None
      invariant ids.next >= old(ids.next) && forall id :: id in engine.held ==> id < ids.next
      invariant Flight(job, engine.held, stale, first, ids.next, d, home)
      invariant forall i :: i in home ==> home[i].request in Requests(home0) || fresh(home[i].request)
      invariant engine.completed == old(engine.completed) + Generations(job, d)
      invariant Capped(d.inFlight.Keys, engine.peak, stale, maxInflight)
      decreases |job.inputs| - |d.results.Keys|, |job.inputs| - |d.counts.Keys|, |d.queue|, engine.stall
    {
      ghost var d1, k := d, 0;
      DeskBounded(job, d, home);
      error, d, home, k := Round(job, engine, ids, maxInflight, d, home, stale, first);
      if error.Some? { return; }
      DeskBounded(job, d, home);
      Progress(job, d1, d, k);
    }
  }

  /** `[results[i] for i in range(n)]`. */
  function Collect(results: map<nat, WindowResult>, n: nat): (out: seq<WindowResult>)
    requires forall i: nat :: i < n ==> i in results
    ensures |out| == n && forall i :: 0 <= i < n ==> out[i] == results[i]
  {
    seq(n, i requires 0 <= i < n => results[i])
  }

  /** Caption every window through an engine that may finish requests in any order. */
  method CaptionInflightBatching(job: Job, engine: LlmEngine, ids: IdSource, maxInflight: nat)
    returns (r: Result<seq<WindowResult>, Error>)
    requires job.WellFormed() && engine.model == job.model
    requires forall id :: id in engine.held ==> id < ids.next
    modifies engine, ids
    ensures r.Ok? ==> job.Yields(r.value) && job.ResultsAre(r.value)
    ensures r.Err? ==>
              || (job.FailsWith(r.error) && job.SomeErrorIs(r.error))
              || (old(engine.held) != map[] && r.error == KeyMissing)
    ensures r.Ok? ==> engine.completed == old(engine.completed) + |job.inputs| + |job.Refined()|
    ensures r.Ok? ==> engine.held == old(engine.held)
    ensures maxInflight > 0 ==> engine.peak <= maxInflight + |old(engine.held)|
    ensures r.Err? ==> FewLeft(job, engine.held, old(engine.held), maxInflight)
    ensures old(engine.held) == map[] && (maxInflight == 1 || |job.inputs| <= 1) ==> engine.held == map[]
    ensures forall id :: id in engine.held ==> id < ids.next
  {
    ghost var first, stale := ids.next, engine.held;
    engine.peak := |engine.held|;
    var d: Desk;
    var error: Option<Error>;
    ghost var home: Homes;
    d, home := EnqueueAll(job, ids);
    error, d, home := Schedule(job, engine, ids, maxInflight, d, home, stale, first);
    if error.Some? {
      FailsWithSays(job, error.value);
      return Err(error.value);
    }
    AllDone(job, engine.held, stale, first, ids.next, d, home);
    r := Ok(Collect(d.results, |job.inputs|));
    YieldsSays(job, r.value);
  }
}
