/** What the two synchronous schedulers of vllm_interface.py share: requests, an engine that finishes what it likes in
    any order, and the processing of its outputs. */
module CaptionSync {
  import opened Text
  import opened CaptionModel

  /** Stands in for `secrets.token_hex`: every id is new. */
  class IdSource {
    var next: Id

    method TokenHex() returns (id: Id)
      modifies this
      ensures id == old(next) && next == id + 1
    {
      id := next;
      next := next + 1;
    }
  }

  /** A captioning request. The schedulers here never rebind its id, inputs or stage-2 prompt. */
  class VllmCaptionRequest {
    const requestId: Id
    const inputs: Inputs
    const stage2Prompt: Option<string>
    var caption: Option<string>
    var promptTokens: nat
    var outputTokens: nat
    var finishReason: Option<string>

    constructor (requestId: Id, inputs: Inputs, stage2Prompt: Option<string>)
      ensures this.requestId == requestId && this.inputs == inputs && this.stage2Prompt == stage2Prompt
      ensures caption == None && promptTokens == outputTokens == 0 && finishReason == None
    {
      this.requestId, this.inputs, this.stage2Prompt := requestId, inputs, stage2Prompt;
      caption, promptTokens, outputTokens, finishReason := None, 0, 0, None;
    }

    /** The output fields hold generation `g`. */
    ghost predicate Filled(m: Model, g: Generation)
      reads this
    {
      && m.Decode(g).Ok? && caption == Some(m.Decode(g).value)
      && TokenCounts(promptTokens, outputTokens) == Tokens(g)
      && finishReason == FinishReason(g)
    }
  }

  datatype EngineOutput =
    | Pooling
    | Output(requestId: Id, finished: bool, generation: Generation)

  predicate NoDup<T(==)>(s: seq<T>) {
    forall i, j :: 0 <= i < j < |s| ==> s[i] != s[j]
  }

  function SetOf(ids: seq<Id>): set<Id> {
    set id | id in ids
  }

  predicate Finished(o: EngineOutput) { o.Output? && o.finished }

  /** Ids of the finished outputs, in order. */
  function FinishedIds(outs: seq<EngineOutput>): seq<Id> {
    if outs == [] then []
    else
      var n := |outs| - 1;
      if Finished(outs[n]) then FinishedIds(outs[..n]) + [outs[n].requestId] else FinishedIds(outs[..n])
  }

  lemma FinishedIdsSnoc(outs: seq<EngineOutput>, o: EngineOutput)
    ensures FinishedIds(outs + [o]) == if Finished(o) then FinishedIds(outs) + [o.requestId] else FinishedIds(outs)
  {
    assert (outs + [o])[..|outs|] == outs;
  }

  /** What one engine step may report: outputs of held requests only, the finished ones each once and carrying the
      generation of their inputs. */
  predicate MayReport(m: Model, held: map<Id, Inputs>, outs: seq<EngineOutput>) {
    && (forall o :: o in outs ==> o.Output? && o.requestId in held)
    && (forall o :: o in outs && o.Output? && o.requestId in held && o.finished ==>
          o.generation == m.Generate(held[o.requestId]))
    && NoDup(FinishedIds(outs))
  }

  /** An adversarial engine: each step finishes any of the requests it holds, in any order, and may report any
      unfinished ones. `stall` bounds the consecutive steps that finish nothing; it is chosen anew whenever a
      request is added or finished, so the only promise is that the engine eventually finishes something. */
  class LlmEngine {
    const model: Model
    var held: map<Id, Inputs>
    var stall: nat
    /** Generations made since the engine was built, and the most requests held at once since `peak` was last set. */
    ghost var completed: nat
    ghost var peak: nat

    constructor (model: Model)
      ensures this.model == model && held == map[] && completed == 0 && peak == 0
    {
      this.model, held, stall, completed, peak := model, map[], 0, 0, 0;
    }

    method AddRequest(id: Id, inputs: Inputs)
      requires id !in held
      modifies this
      ensures held == old(held)[id := inputs]
      ensures completed == old(completed)
      ensures peak == if |old(held)| + 1 > old(peak) then |old(held)| + 1 else old(peak)
    {
      assert |held[id := inputs]| == |held| + 1 by { assert held[id := inputs].Keys == held.Keys + {id}; }
      held := held[id := inputs];
      if |held| > peak { peak := |held|; }
      var patience: int :| patience >= 0;
      stall := patience;
    }

    method Step() returns (outs: seq<EngineOutput>)
      requires held != map[]
      modifies this
      ensures MayReport(model, old(held), outs)
      ensures held == old(held) - SetOf(FinishedIds(outs))
      ensures FinishedIds(outs) == [] ==> stall < old(stall)
      ensures completed == old(completed) + |FinishedIds(outs)| && peak == old(peak)
    {
      var id :| id in held;
      var alone := Output(id, true, model.Generate(held[id]));
      FinishedIdsSnoc([], alone);
      assert [] + [alone] == [alone];
      assert MayReport(model, held, [alone]);
      outs :| MayReport(model, held, outs) && (stall == 0 ==> FinishedIds(outs) != []);
      var patience: int :| patience >= 0;
      stall := if FinishedIds(outs) == [] then stall - 1 else patience;
      held := held - SetOf(FinishedIds(outs));
      completed := completed + |FinishedIds(outs)|;
    }
  }

  /** The exception an output raises in `process_vllm_output`, if any. */
  function OutputError(m: Model, known: set<Id>, o: EngineOutput): Option<Error> {
    match o
    case Pooling => Some(UnsupportedPooling)
    case Output(id, finished, g) =>
      if !finished then None
      else if id !in known then Some(KeyMissing)
      else if m.Decode(g).Err? then Some(m.Decode(g).error)
      else None
  }

  /** The first exception met in a list of outputs. */
  function FirstError(m: Model, known: set<Id>, outs: seq<EngineOutput>): Option<Error> {
    if outs == [] then None
    else
      var before := FirstError(m, known, outs[..|outs| - 1]);
      if before.Some? then before else OutputError(m, known, outs[|outs| - 1])
  }

  /** An output that raises nothing ... */
  ghost predicate Passes(m: Model, known: set<Id>, o: EngineOutput) {
    o.Output? && (o.finished ==> o.requestId in known && m.decoder(o.generation).Ok?)
  }

  /** ... and one that raises `e`. */
  ghost predicate Stops(m: Model, known: set<Id>, o: EngineOutput, e: Error) {
    match o
    case Pooling => e == UnsupportedPooling
    case Output(id, finished, g) => finished && if id in known then m.decoder(g) == Err(e) else e == KeyMissing
  }

  lemma {:induction false} FirstErrorSays(m: Model, known: set<Id>, outs: seq<EngineOutput>)
    ensures
      match FirstError(m, known, outs)
      case None => forall k :: 0 <= k < |outs| ==> Passes(m, known, outs[k])
      case Some(e) =>
        exists k :: 0 <= k < |outs| && Stops(m, known, outs[k], e)
                    && forall j :: 0 <= j < k ==> Passes(m, known, outs[j])
  {
    if outs != [] {
      var n := |outs| - 1;
      FirstErrorSays(m, known, outs[..n]);
      assert forall j :: 0 <= j < n ==> outs[..n][j] == outs[j];
      if FirstError(m, known, outs[..n]).Some? {
        var e := FirstError(m, known, outs[..n]).value;
        var k :| 0 <= k < n && Stops(m, known, outs[..n][k], e)
                 && forall j :: 0 <= j < k ==> Passes(m, known, outs[..n][j]);
        assert Stops(m, known, outs[k], e);
      } else if OutputError(m, known, outs[n]).Some? {
        assert Stops(m, known, outs[n], OutputError(m, known, outs[n]).value);
      }
    }
  }

  /** The generation of the last finished output with this id. */
  function LastGeneration(outs: seq<EngineOutput>, id: Id): Option<Generation> {
    if outs == [] then None
    else
      var o := outs[|outs| - 1];
      if Finished(o) && o.requestId == id then Some(o.generation) else LastGeneration(outs[..|outs| - 1], id)
  }

  /** The in-flight dict is keyed by request id. */
  ghost predicate Keyed(inFlight: map<Id, VllmCaptionRequest>) {
    forall id :: id in inFlight ==> inFlight[id].requestId == id
  }

  method ProcessVllmOutput(outs: seq<EngineOutput>, inFlight: map<Id, VllmCaptionRequest>, m: Model)
    returns (r: Result<seq<VllmCaptionRequest>, Error>)
    requires Keyed(inFlight)
    modifies inFlight.Values
    ensures r.Err? <==> FirstError(m, inFlight.Keys, outs).Some?
    ensures r.Err? ==> FirstError(m, inFlight.Keys, outs) == Some(r.error)
    ensures r.Err? ==> exists k :: 0 <= k < |outs| && Stops(m, inFlight.Keys, outs[k], r.error)
                                   && forall j :: 0 <= j < k ==> Passes(m, inFlight.Keys, outs[j])
    ensures r.Ok? ==> forall k :: 0 <= k < |outs| ==> Passes(m, inFlight.Keys, outs[k])
    ensures r.Ok? ==> |r.value| == |FinishedIds(outs)|
    ensures r.Ok? ==> forall k :: 0 <= k < |r.value| ==>
              FinishedIds(outs)[k] in inFlight && r.value[k] == inFlight[FinishedIds(outs)[k]]
    ensures r.Ok? ==> forall id :: id in inFlight ==>
              match LastGeneration(outs, id)
              case Some(g) => inFlight[id].Filled(m, g)
              case None => unchanged(inFlight[id])
  {
    FirstErrorSays(m, inFlight.Keys, outs);
    var finished: seq<VllmCaptionRequest> := [];
    for i := 0 to |outs|
      invariant FirstError(m, inFlight.Keys, outs[..i]) == None
      invariant |finished| == |FinishedIds(outs[..i])|
      invariant forall k :: 0 <= k < |finished| ==>
                  FinishedIds(outs[..i])[k] in inFlight && finished[k] == inFlight[FinishedIds(outs[..i])[k]]
      invariant forall id :: id in inFlight ==>
                  match LastGeneration(outs[..i], id)
                  case Some(g) => inFlight[id].Filled(m, g)
                  case None => unchanged(inFlight[id])
    {
      var o := outs[i];
      assert outs[..i + 1][..i] == outs[..i];
      var error := OutputError(m, inFlight.Keys, o);
      if error.Some? {
        FirstErrorStays(m, inFlight.Keys, outs, i + 1);
        return Err(error.value);
      }
      if o.finished {
        var request, g := inFlight[o.requestId], o.generation;
        request.caption := Some(m.Decode(g).value);
        request.promptTokens := if g.promptTokenIds.Some? then |g.promptTokenIds.value| else 0;
        request.outputTokens := if g.outputs != [] then |g.outputs[0].tokenIds| else 0;
        request.finishReason := FinishReason(g);
        finished := finished + [request];
      }
    }
    assert outs[..|outs|] == outs;
    r := Ok(finished);
  }

  lemma {:induction false} FirstErrorStays(m: Model, known: set<Id>, outs: seq<EngineOutput>, i: nat)
    requires i <= |outs| && FirstError(m, known, outs[..i]).Some?
    ensures FirstError(m, known, outs) == FirstError(m, known, outs[..i])
  {
    if i < |outs| {
      var n := |outs| - 1;
      assert outs[..n][..i] == outs[..i];
      FirstErrorStays(m, known, outs[..n], i);
    } else {
      assert outs[..i] == outs;
    }
  }

  lemma {:induction false} SomeOutputErred(m: Model, known: set<Id>, outs: seq<EngineOutput>)
    ensures FirstError(m, known, outs).Some? ==>
      exists o :: o in outs && OutputError(m, known, o) == FirstError(m, known, outs)
    ensures FirstError(m, known, outs).None? ==> forall o :: o in outs ==> OutputError(m, known, o) == None
  {
    if outs != [] {
      var n := |outs| - 1;
      SomeOutputErred(m, known, outs[..n]);
      assert outs == outs[..n] + [outs[n]];
    }
  }

  /** All finished outputs of a request carry the same generation, so the last one does too. */
  lemma {:induction false} LastGenerationOf(outs: seq<EngineOutput>, id: Id, g: Generation)
    requires forall o :: o in outs && Finished(o) && o.requestId == id ==> o.generation == g
    requires id in FinishedIds(outs)
    ensures LastGeneration(outs, id) == Some(g)
    ensures exists o :: o in outs && Finished(o) && o.requestId == id
  {
    var n := |outs| - 1;
    if Finished(outs[n]) && outs[n].requestId == id {
      assert outs[n] in outs;
    } else {
      LastGenerationOf(outs[..n], id, g);
      var o :| o in outs[..n] && Finished(o) && o.requestId == id;
      assert o in outs;
    }
  }
}
