/** Requests that an in-flight call leaves behind: what a call that raises may leave with the engine, up to the bound
    that the contract of the scheduler gives, and that a later call may raise for that reason alone. */
module CaptionStale {
  import opened Text
  import opened CaptionModel
  import opened CaptionSync
  import opened CaptionInflight

  /** The engine reports one held request, finished. */
  function Report(m: Model, held: map<Id, Inputs>, id: Id): seq<EngineOutput>
    requires id in held
  {
    [Output(id, true, m.Generate(held[id]))]
  }

  lemma ReportIsAllowed(m: Model, held: map<Id, Inputs>, id: Id)
    requires id in held
    ensures MayReport(m, held, Report(m, held, id)) && FinishedIds(Report(m, held, id)) == [id]
    ensures forall known :: FirstError(m, known, Report(m, held, id)) == OutputError(m, known, Report(m, held, id)[0])
  {
    var outs := Report(m, held, id);
    FinishedIdsSnoc([], outs[0]);
    assert [] + [outs[0]] == outs;
    assert outs[..0] == [];
  }

  /** Whatever a call has in flight, the engine may report a request of an earlier call, and the lookup fails. */
  lemma StaleRequestRaises(job: Job, held: map<Id, Inputs>, stale: map<Id, Inputs>, first: Id, next: Id, d: Desk,
                           home: Homes, id: Id)
    requires job.WellFormed() && Flight(job, held, stale, first, next, d, home) && id in stale
    ensures id in held && MayReport(job.model, held, Report(job.model, held, id))
    ensures FirstError(job.model, d.inFlight.Keys, Report(job.model, held, id)) == Some(KeyMissing)
  {
    ReportIsAllowed(job.model, held, id);
    assert forall k :: k in d.inFlight ==> d.inFlight[k].requestId == k && At(d.inFlight[k], d, home, Flying);
    assert id !in d.inFlight;
  }

  /** The first `m` windows are in flight, the others are queued, in order and under the ids they got in order. */
  ghost predicate Opened(job: Job, d: Desk, first: Id, m: nat)
    requires job.WellFormed()
  {
    && m <= |job.inputs| && |d.queue| == |job.inputs| - m && d.results == map[]
    && (forall k :: 0 <= k < |d.queue| ==>
          d.queue[k].requestId == first + m + k && d.queue[k].inputs == job.inputs[m + k])
    && (forall id :: id in d.inFlight <==> first <= id < first + m)
    && (forall id :: id in d.inFlight ==> d.inFlight[id].inputs == job.inputs[id - first])
    && |d.inFlight| == m
  }

  lemma OpenedNext(job: Job, d: Desk, first: Id, m: nat)
    requires job.WellFormed() && m < |job.inputs| && Opened(job, d, first, m)
    ensures Opened(job, Launched(d), first, m + 1)
  {
    LaunchCount(d);
  }

  /** The desk between two rounds of a call that began with an engine that held nothing. */
  ghost predicate Opening(job: Job, engine: LlmEngine, d: Desk, home: Homes, first: Id, next: Id, maxInflight: nat,
                          m: nat)
    requires job.WellFormed()
    reads engine
  {
    && Flight(job, engine.held, map[], first, next, d, home) && Opened(job, d, first, m)
    && Capped(d.inFlight.Keys, engine.peak, map[], maxInflight)
  }

  /** One more window is handed to the engine. */
  method OpenOne(ghost job: Job, engine: LlmEngine, maxInflight: nat, d0: Desk, ghost home0: Homes, ghost first: Id,
                 ghost next: Id, ghost m: nat)
    returns (d: Desk, ghost home: Homes)
    requires job.WellFormed() && m < |job.inputs| && (maxInflight > 0 ==> m < maxInflight)
    requires Opening(job, engine, d0, home0, first, next, maxInflight, m)
    modifies engine
    ensures Opening(job, engine, d, home, first, next, maxInflight, m + 1)
    ensures forall i :: i in home ==> i in home0 && home[i].request == home0[i].request
  {
    OpenedNext(job, d0, first, m);
    d, home := Submit(job, engine, maxInflight, d0, home0, map[], first, next);
  }

  lemma SilenceIsAllowed(m: Model, held: map<Id, Inputs>, known: set<Id>, outs: seq<EngineOutput>)
    requires outs == []
    ensures MayReport(m, held, outs) && FirstError(m, known, outs) == None
    ensures FinishedIds(outs) == [] && held - SetOf(FinishedIds(outs)) == held
  {
    assert FinishedIds(outs) == [];
    assert held - SetOf(FinishedIds(outs)) == held;
  }

  /** A round in which the engine finishes nothing only hands it one more window. */
  method SilentRound(job: Job, engine: LlmEngine, ids: IdSource, maxInflight: nat, d0: Desk, ghost home0: Homes,
                     ghost first: Id, ghost m: nat)
    returns (d: Desk, ghost home: Homes)
    requires job.WellFormed() && m < |job.inputs| && (maxInflight > 0 ==> m < maxInflight)
    requires Opening(job, engine, d0, home0, first, ids.next, maxInflight, m)
    modifies engine, ids, Requests(home0)
    ensures Opening(job, engine, d, home, first, ids.next, maxInflight, m + 1)
    ensures forall i :: i in home ==> i in home0 && (home[i].request == home0[i].request || fresh(home[i].request))
  {
    d, home := OpenOne(job, engine, maxInflight, d0, home0, first, ids.next, m);
    HeldBelow(job, engine.held, map[], first, ids.next, d, home);
    var outs: seq<EngineOutput>, error := [], None;
    SilenceIsAllowed(job.model, engine.held, d.inFlight.Keys, outs);
    error, d, home := Absorb(job, outs, ids, d, home, engine.held, map[], first);
  }

  /** The opening rounds of a call when the engine finishes nothing in `k` of them. */
  method SilentRounds(job: Job, engine: LlmEngine, ids: IdSource, maxInflight: nat, k: nat)
    returns (d: Desk, ghost home: Homes)
    requires job.WellFormed() && engine.held == map[]
    requires k <= |job.inputs| && (maxInflight > 0 ==> k <= maxInflight)
    modifies engine, ids
    ensures Opening(job, engine, d, home, old(ids.next), ids.next, maxInflight, k)
    ensures forall i :: i in home ==> fresh(home[i].request)
  {
    ghost var first := ids.next;
    engine.peak := 0;
    d, home := EnqueueAll(job, ids);
    assert d.inFlight.Keys == {};
    for m := 0 to k
      invariant Opening(job, engine, d, home, first, ids.next, maxInflight, m)
      invariant forall i :: i in home ==> fresh(home[i].request)
    {
      d, home := SilentRound(job, engine, ids, maxInflight, d, home, first, m);
    }
  }

  /** The engine may report `outs`, which raises `e` and leaves it with `k` requests. */
  ghost predicate LeavesBehind(m: Model, held: map<Id, Inputs>, known: set<Id>, outs: seq<EngineOutput>, e: Error,
                               k: nat) {
    MayReport(m, held, outs) && FirstError(m, known, outs) == Some(e) && |held - SetOf(FinishedIds(outs))| == k
  }

  lemma OneLeaves(m: Model, held: map<Id, Inputs>, known: set<Id>, id: Id, inputs: Inputs,
                  outs: seq<EngineOutput>, e: Error, k: nat)
    requires id in held && id in known && held[id] == inputs && m.Decode(m.Generate(inputs)) == Err(e)
    requires outs == Report(m, held, id) && |held| == k + 1
    ensures LeavesBehind(m, held, known, outs, e, k)
  {
    ReportIsAllowed(m, held, id);
    assert (held - SetOf([id])).Keys == held.Keys - {id};
  }

  lemma WindowFlying(job: Job, d: Desk, first: Id, m: nat, w: nat) returns (id: Id)
    requires job.WellFormed() && Opened(job, d, first, m) && w < m
    ensures id in d.inFlight && d.inFlight[id].inputs == job.inputs[w] && |d.inFlight| == m
  {
    id := first + w;
    assert id - first == w;
  }

  lemma WindowHeld(job: Job, held: map<Id, Inputs>, d: Desk, home: Homes, first: Id, next: Id, m: nat, w: nat)
    returns (id: Id)
    requires job.WellFormed() && Flight(job, held, map[], first, next, d, home) && Opened(job, d, first, m)
    requires w < m
    ensures id in held && id in d.inFlight.Keys && held[id] == job.inputs[w] && |held| == m
  {
    id := WindowFlying(job, d, first, m, w);
    HeldCount(job, held, map[], first, next, d, home);
  }

  /** A call that raises may leave any number `k` of requests with the engine that is below the number of windows and
      below the cap: after `k` rounds in which nothing finishes, one more window is in flight, and window `w` is the
      first to finish and fails to decode. */
  method FailureMayLeave(job: Job, engine: LlmEngine, ids: IdSource, maxInflight: nat, k: nat, w: nat, ghost e: Error)
    returns (d: Desk, ghost outs: seq<EngineOutput>)
    requires job.WellFormed() && engine.held == map[]
    requires w <= k < |job.inputs| && (maxInflight > 0 ==> k < maxInflight)
    requires job.model.Decode(job.model.Generate(job.inputs[w])) == Err(e)
    modifies engine, ids
    ensures LeavesBehind(job.model, engine.held, d.inFlight.Keys, outs, e, k)
  {
    ghost var first := ids.next;
    ghost var home;
    d, home := SilentRounds(job, engine, ids, maxInflight, k);
    d, home := OpenOne(job, engine, maxInflight, d, home, first, ids.next, k);
    ghost var id := WindowHeld(job, engine.held, d, home, first, ids.next, k + 1, w);
    outs := Report(job.model, engine.held, id);
    OneLeaves(job.model, engine.held, d.inFlight.Keys, id, job.inputs[w], outs, e, k);
  }
}
