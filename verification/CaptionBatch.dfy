/** `_caption_no_inflight_batching` with the batch helpers it calls, and the public entry point `vllm_caption`. */
module CaptionBatch {
  import opened Text
  import opened CaptionModel
  import opened CaptionSync
  import CaptionInflight

  type Request = VllmCaptionRequest

  function Flatten<T>(chunks: seq<seq<T>>): seq<T> {
    if chunks == [] then [] else Flatten(chunks[..|chunks| - 1]) + chunks[|chunks| - 1]
  }

  lemma FlattenSnoc<T>(chunks: seq<seq<T>>, chunk: seq<T>)
    ensures Flatten(chunks + [chunk]) == Flatten(chunks) + chunk
  {
    assert (chunks + [chunk])[..|chunks|] == chunks;
  }

  function ChunkLength(chunkSize: int): (n: nat)
    ensures n >= 1
  {
    if chunkSize > 1 then chunkSize else 1
  }

  /** `grouping.split_by_chunk_size` with the default element size: an in-order partition into chunks that are all
      full except perhaps the last. A size below one acts as one. */
  method SplitByChunkSize<T>(values: seq<T>, chunkSize: int) returns (chunks: seq<seq<T>>)
    ensures Flatten(chunks) == values
    ensures forall k :: 0 <= k < |chunks| ==> 1 <= |chunks[k]| <= (if chunkSize > 1 then chunkSize else 1)
    ensures forall k :: 0 <= k < |chunks| - 1 ==> |chunks[k]| == (if chunkSize > 1 then chunkSize else 1)
  {
    chunks := [];
    var out: seq<T> := [];
    for i := 0 to |values|
      invariant Flatten(chunks) + out == values[..i]
      invariant |out| < ChunkLength(chunkSize)
      invariant forall k :: 0 <= k < |chunks| ==> |chunks[k]| == ChunkLength(chunkSize)
    {
      out := out + [values[i]];
      assert values[..i + 1] == values[..i] + [values[i]];
      if |out| >= chunkSize {
        FlattenSnoc(chunks, out);
        chunks, out := chunks + [out], [];
      }
    }
    assert values[..|values|] == values;
    if out != [] {
      FlattenSnoc(chunks, out);
      chunks := chunks + [out];
    }
  }

  /** `llm.generate`: one finished output per prompt, in order. */
  method LlmGenerate(m: Model, batch: seq<Inputs>) returns (outputs: seq<Generation>)
    ensures |outputs| == |batch| && forall i :: 0 <= i < |batch| ==> outputs[i] == m.Generate(batch[i])
  {
    outputs := seq(|batch|, i requires 0 <= i < |batch| => m.Generate(batch[i]));
  }

  function Outputs(m: Model, requests: seq<Request>): (outs: seq<EngineOutput>)
    ensures |outs| == |requests|
    ensures forall i :: 0 <= i < |outs| ==>
      outs[i] == Output(requests[i].requestId, true, m.Generate(requests[i].inputs))
  {
    seq(|requests|, i requires 0 <= i < |requests| =>
      Output(requests[i].requestId, true, m.Generate(requests[i].inputs)))
  }

  /** The outputs of all batches, each relabelled with the id of its request: batching cannot be seen. */
  method VllmGenerate(m: Model, requests: seq<Request>, batchSize: int) returns (outs: seq<EngineOutput>)
    ensures outs == Outputs(m, requests)
  {
    var inputs := seq(|requests|, i requires 0 <= i < |requests| => requests[i].inputs);
    var chunks := SplitByChunkSize(inputs, batchSize);
    var all: seq<Generation> := [];
    for k := 0 to |chunks|
      invariant |all| == |Flatten(chunks[..k])|
      invariant forall i :: 0 <= i < |all| ==> all[i] == m.Generate(Flatten(chunks[..k])[i])
    {
      assert chunks[..k + 1][..k] == chunks[..k];
      var outputs := LlmGenerate(m, chunks[k]);
      all := all + outputs;
    }
    assert chunks[..|chunks|] == chunks;
    outs := seq(|all|, i requires 0 <= i < |all| && |all| == |requests| => Output(requests[i].requestId, true, all[i]));
  }

  ghost predicate DistinctIds(requests: seq<Request>) {
    forall i, j :: 0 <= i < j < |requests| ==> requests[i].requestId != requests[j].requestId
  }

  lemma {:induction false} OutputIds(m: Model, requests: seq<Request>)
    ensures |FinishedIds(Outputs(m, requests))| == |requests|
    ensures forall i :: 0 <= i < |requests| ==> FinishedIds(Outputs(m, requests))[i] == requests[i].requestId
  {
    if requests != [] {
      var n := |requests| - 1;
      OutputIds(m, requests[..n]);
      assert Outputs(m, requests) == Outputs(m, requests[..n]) + [Outputs(m, requests)[n]];
      FinishedIdsSnoc(Outputs(m, requests[..n]), Outputs(m, requests)[n]);
    }
  }

  /** The requests by id. */
  method KeyById(requests: seq<Request>) returns (inFlight: map<Id, Request>)
    requires DistinctIds(requests)
    ensures forall id :: id in inFlight ==> inFlight[id].requestId == id && inFlight[id] in requests
    ensures forall r :: r in requests ==> r.requestId in inFlight && inFlight[r.requestId] == r
    ensures inFlight.Values <= set q | q in requests
  {
    inFlight := map[];
    for k := 0 to |requests|
      invariant forall id :: id in inFlight ==> inFlight[id].requestId == id && inFlight[id] in requests
      invariant forall j :: 0 <= j < k ==>
        requests[j].requestId in inFlight && inFlight[requests[j].requestId] == requests[j]
    {
      inFlight := inFlight[requests[k].requestId := requests[k]];
    }
  }

  /** The first decoding error among the generations of a list of inputs. */
  function FirstDecodeError(m: Model, inputs: seq<Inputs>): Option<Error>
  {
    if inputs == [] then None
    else
      var n := |inputs| - 1;
      var before := FirstDecodeError(m, inputs[..n]);
      if before.Some? then before
      else match m.Decode(m.Generate(inputs[n]))
        case Ok(_) => None
        case Err(e) => Some(e)
  }

  lemma {:induction false} SomeDecodeFails(m: Model, inputs: seq<Inputs>)
    ensures
      match FirstDecodeError(m, inputs)
      case None => forall i :: 0 <= i < |inputs| ==> m.Decode(m.Generate(inputs[i])).Ok?
      case Some(e) => exists i :: 0 <= i < |inputs| && m.Decode(m.Generate(inputs[i])) == Err(e)
  {
    if inputs != [] {
      var n := |inputs| - 1;
      SomeDecodeFails(m, inputs[..n]);
      assert forall i :: 0 <= i < n ==> inputs[..n][i] == inputs[i];
    }
  }

  function InputsOf(requests: seq<Request>): (inputs: seq<Inputs>)
    ensures |inputs| == |requests| && forall i :: 0 <= i < |inputs| ==> inputs[i] == requests[i].inputs
  {
    seq(|requests|, i requires 0 <= i < |requests| => requests[i].inputs)
  }

  /** The exception met while processing the outputs is the first decoding error. */
  lemma {:induction false} DecodeError(m: Model, requests: seq<Request>, known: set<Id>)
    requires forall i :: 0 <= i < |requests| ==> requests[i].requestId in known
    ensures FirstError(m, known, Outputs(m, requests)) == FirstDecodeError(m, InputsOf(requests))
  {
    if requests != [] {
      var n := |requests| - 1;
      DecodeError(m, requests[..n], known);
      assert Outputs(m, requests)[..n] == Outputs(m, requests[..n]);
      assert InputsOf(requests)[..n] == InputsOf(requests[..n]);
    }
  }

  lemma LastOutput(m: Model, requests: seq<Request>, k: nat)
    requires DistinctIds(requests) && k < |requests|
    ensures LastGeneration(Outputs(m, requests), requests[k].requestId) == Some(m.Generate(requests[k].inputs))
  {
    OutputIds(m, requests);
    var outs, id := Outputs(m, requests), requests[k].requestId;
    assert id == FinishedIds(outs)[k] && id in FinishedIds(outs);
    LastGenerationOf(outs, id, m.Generate(requests[k].inputs));
  }

  /** `_process_requests`: generate for all requests and fill them in place. */
  method ProcessRequests(m: Model, requests: seq<Request>, batchSize: int) returns (r: Result<seq<Request>, Error>)
    requires DistinctIds(requests)
    modifies requests
    ensures r.Ok? ==> r.value == requests && forall q :: q in requests ==> q.Filled(m, m.Generate(q.inputs))
    ensures r.Err? ==> FirstDecodeError(m, InputsOf(requests)) == Some(r.error)
    ensures r.Ok? ==> FirstDecodeError(m, InputsOf(requests)) == None
  {
    var inFlight := KeyById(requests);
    var outs := VllmGenerate(m, requests, batchSize);
    var processed := ProcessVllmOutput(outs, inFlight, m);
    DecodeError(m, requests, inFlight.Keys);
    if processed.Err? {
      return Err(processed.error);
    }
    var finished := processed.value;
    OutputIds(m, requests);
    if |finished| != |requests| {
      return Err(CountMismatch);
    }
    forall k | 0 <= k < |requests| ensures requests[k].Filled(m, m.Generate(requests[k].inputs)) {
      LastOutput(m, requests, k);
      assert requests[k] in requests;
    }
    assert finished == requests;
    r := Ok(finished);
  }

  // ---- The two passes ----

  /** The requests of the first pass, one per window. */
  ghost predicate FirstPass(job: Job, requests: seq<Request>)
    requires job.WellFormed()
  {
    && |requests| == |job.inputs|
    && forall i :: 0 <= i < |requests| ==>
      requests[i].inputs == job.inputs[i] && requests[i].stage2Prompt == job.prompts[i]
  }

  /** The windows below `n` that have a stage-2 prompt, in order. */
  ghost function Which(job: Job, n: nat): (which: seq<nat>)
    requires job.WellFormed() && n <= |job.inputs|
    ensures forall j :: 0 <= j < |which| ==> which[j] < n && job.prompts[which[j]].Some?
  {
    if n == 0 then []
    else if job.prompts[n - 1].Some? then Which(job, n - 1) + [n - 1] else Which(job, n - 1)
  }

  lemma {:induction false} WhichDistinct(job: Job, n: nat, k: nat)
    requires job.WellFormed() && n <= |job.inputs| && k < |Which(job, n)|
    ensures Which(job, n)[k] !in Which(job, n)[..k]
  {
    var before := Which(job, n - 1);
    if k < |before| {
      WhichDistinct(job, n - 1, k);
      assert Which(job, n)[..k] == before[..k];
    } else {
      assert Which(job, n)[..k] == before;
    }
  }

  lemma {:induction false} WhichComplete(job: Job, n: nat, i: nat) returns (j: nat)
    requires job.WellFormed() && i < n <= |job.inputs| && job.prompts[i].Some?
    ensures j < |Which(job, n)| && Which(job, n)[j] == i
  {
    if i == n - 1 { j := |Which(job, n - 1)|; } else { j := WhichComplete(job, n - 1, i); }
  }

  /** Window `i` has the result it is specified to have. */
  ghost predicate Settled(job: Job, results: map<nat, WindowResult>, i: nat)
    requires job.WellFormed() && i < |job.inputs|
  {
    i in results && job.Spec(i) == Ok(results[i])
  }

  /** The inputs of the refined requests of these windows, or the first error met on the way. */
  ghost function RefinedInputs(job: Job, which: seq<nat>): Result<seq<Inputs>, Error>
    requires job.WellFormed() && AllRefined(job, which)
  {
    if which == [] then Ok([])
    else
      var n := |which| - 1;
      match RefinedInputs(job, which[..n])
      case Err(e) => Err(e)
      case Ok(before) =>
        match Refinement(job, which[n])
        case Err(e) => Err(e)
        case Ok(inputs) => Ok(before + [inputs])
  }

  ghost predicate AllRefined(job: Job, which: seq<nat>)
    requires job.WellFormed()
  {
    forall j :: 0 <= j < |which| ==> which[j] < |job.inputs| && job.prompts[which[j]].Some?
  }

  ghost function Refinement(job: Job, i: nat): Result<Inputs, Error>
    requires job.WellFormed() && i < |job.inputs| && job.prompts[i].Some?
  {
    Stage2Inputs(job.model, job.inputs[i], job.prompts[i].value)
  }

  lemma {:induction false} SomeRefinementFails(job: Job, which: seq<nat>)
    requires job.WellFormed() && AllRefined(job, which)
    ensures
      match RefinedInputs(job, which)
      case Ok(inputs) => |inputs| == |which| && forall j :: 0 <= j < |which| ==> Refines(job, inputs[j], which[j])
      case Err(e) => exists j :: 0 <= j < |which| && Refinement(job, which[j]) == Err(e)
  {
    if which != [] {
      var n := |which| - 1;
      SomeRefinementFails(job, which[..n]);
      assert forall j :: 0 <= j < n ==> which[..n][j] == which[j];
    }
  }

  /** The exception of the two passes: the first decoding error of the first pass, or else the first refinement
      error, or else the first decoding error of the second pass. */
  ghost function BatchError(job: Job): Option<Error>
    requires job.WellFormed()
  {
    var first := FirstDecodeError(job.model, job.inputs);
    if first.Some? then first
    else match RefinedInputs(job, Which(job, |job.inputs|))
      case Err(e) => Some(e)
      case Ok(refined) => FirstDecodeError(job.model, refined)
  }

  /** Stage 1, the refinement and stage 2 of window `i`, as far as it gets. */
  ghost function FirstCaption(job: Job, i: nat): Result<string, Error>
    requires i < |job.inputs|
  {
    job.model.decoder(job.model.generator(job.inputs[i]))
  }

  ghost predicate IsRefined(job: Job, i: nat)
    requires job.WellFormed() && i < |job.inputs|
  {
    job.prompts[i].Some? && FirstCaption(job, i).Ok?
  }

  ghost function RefinedRequest(job: Job, i: nat): Result<Inputs, Error>
    requires job.WellFormed() && i < |job.inputs| && IsRefined(job, i)
  {
    job.model.refiner(job.inputs[i], FirstCaption(job, i).value, job.prompts[i].value)
  }

  ghost predicate HasSecond(job: Job, i: nat)
    requires job.WellFormed() && i < |job.inputs|
  {
    IsRefined(job, i) && RefinedRequest(job, i).Ok?
  }

  ghost function SecondCaption(job: Job, i: nat): Result<string, Error>
    requires job.WellFormed() && i < |job.inputs| && HasSecond(job, i)
  {
    job.model.decoder(job.model.generator(RefinedRequest(job, i).value))
  }

  ghost predicate Stage1Fails(job: Job, i: nat, e: Error)
    requires i < |job.inputs|
  {
    FirstCaption(job, i) == Err(e) && forall j :: 0 <= j < i ==> FirstCaption(job, j).Ok?
  }

  ghost predicate RefiningFails(job: Job, i: nat, e: Error)
    requires job.WellFormed() && i < |job.inputs|
  {
    && IsRefined(job, i) && RefinedRequest(job, i) == Err(e)
    && (forall j :: 0 <= j < |job.inputs| ==> FirstCaption(job, j).Ok?)
    && forall j :: 0 <= j < i && IsRefined(job, j) ==> RefinedRequest(job, j).Ok?
  }

  ghost predicate Stage2Fails(job: Job, i: nat, e: Error)
    requires job.WellFormed() && i < |job.inputs|
  {
    && HasSecond(job, i) && SecondCaption(job, i) == Err(e)
    && (forall j :: 0 <= j < |job.inputs| ==> FirstCaption(job, j).Ok?)
    && (forall j :: 0 <= j < |job.inputs| && IsRefined(job, j) ==> RefinedRequest(job, j).Ok?)
    && forall j :: 0 <= j < i && HasSecond(job, j) ==> SecondCaption(job, j).Ok?
  }

  /** `e` is the first error in the first of these three that has one. */
  ghost predicate IsFirstError(job: Job, e: Error)
    requires job.WellFormed()
  {
    exists i :: 0 <= i < |job.inputs| && (Stage1Fails(job, i, e) || RefiningFails(job, i, e) || Stage2Fails(job, i, e))
  }

  lemma {:induction false} FirstDecodeErrorIsFirst(m: Model, inputs: seq<Inputs>) returns (i: nat)
    requires FirstDecodeError(m, inputs).Some?
    ensures i < |inputs| && m.Decode(m.Generate(inputs[i])) == Err(FirstDecodeError(m, inputs).value)
    ensures forall j :: 0 <= j < i ==> m.Decode(m.Generate(inputs[j])).Ok?
  {
    var n := |inputs| - 1;
    if FirstDecodeError(m, inputs[..n]).Some? {
      i := FirstDecodeErrorIsFirst(m, inputs[..n]);
    } else {
      i := n;
      SomeDecodeFails(m, inputs[..n]);
      assert forall j :: 0 <= j < n ==> inputs[..n][j] == inputs[j];
    }
  }

  lemma {:induction false} RefinementErrorIsFirst(job: Job, which: seq<nat>) returns (j: nat)
    requires job.WellFormed() && AllRefined(job, which) && RefinedInputs(job, which).Err?
    ensures j < |which| && Refinement(job, which[j]) == Err(RefinedInputs(job, which).error)
    ensures forall k :: 0 <= k < j ==> Refinement(job, which[k]).Ok?
  {
    var n := |which| - 1;
    if RefinedInputs(job, which[..n]).Err? {
      j := RefinementErrorIsFirst(job, which[..n]);
    } else {
      j := n;
      SomeRefinementFails(job, which[..n]);
      forall k | 0 <= k < n ensures Refinement(job, which[k]).Ok? {
        assert Refines(job, RefinedInputs(job, which[..n]).value[k], which[..n][k]);
      }
    }
  }

  /** The windows to refine are in order. */
  lemma {:induction false} WhichOrdered(job: Job, n: nat, j: nat, k: nat)
    requires job.WellFormed() && n <= |job.inputs| && j < k < |Which(job, n)|
    ensures Which(job, n)[j] < Which(job, n)[k]
  {
    if k < |Which(job, n - 1)| { WhichOrdered(job, n - 1, j, k); }
  }

  lemma {:induction false} WhichBefore(job: Job, n: nat, k: nat, i: nat) returns (j: nat)
    requires job.WellFormed() && n <= |job.inputs| && k < |Which(job, n)| && i < Which(job, n)[k]
    requires job.prompts[i].Some?
    ensures j < k && Which(job, n)[j] == i
  {
    j := WhichComplete(job, n, i);
    if j > k { WhichOrdered(job, n, k, j); }
  }

  lemma BatchErrorIsFirst(job: Job)
    requires job.WellFormed()
    ensures BatchError(job).Some? ==> IsFirstError(job, BatchError(job).value)
  {
    if BatchError(job).Some? {
      var e, which := BatchError(job).value, Which(job, |job.inputs|);
      if FirstDecodeError(job.model, job.inputs).Some? {
        var i := FirstDecodeErrorIsFirst(job.model, job.inputs);
        assert Stage1Fails(job, i, e);
      } else {
        SomeDecodeFails(job.model, job.inputs);
        assert forall j :: 0 <= j < |job.inputs| ==> FirstCaption(job, j).Ok?;
        if RefinedInputs(job, which).Err? {
          RefiningFailsFirst(job);
        } else {
          SecondFailsFirst(job);
        }
      }
    }
  }

  lemma RefiningFailsFirst(job: Job)
    requires job.WellFormed() && RefinedInputs(job, Which(job, |job.inputs|)).Err?
    requires forall j :: 0 <= j < |job.inputs| ==> FirstCaption(job, j).Ok?
    ensures IsFirstError(job, RefinedInputs(job, Which(job, |job.inputs|)).error)
  {
    var which := Which(job, |job.inputs|);
    var k := RefinementErrorIsFirst(job, which);
    var i := which[k];
    assert Refinement(job, i) == RefinedRequest(job, i);
    forall j | 0 <= j < i && IsRefined(job, j) ensures RefinedRequest(job, j).Ok? {
      var at := WhichBefore(job, |job.inputs|, k, j);
      assert Refinement(job, which[at]) == RefinedRequest(job, j);
    }
    assert RefiningFails(job, i, RefinedInputs(job, which).error);
  }

  lemma SecondFailsFirst(job: Job)
    requires job.WellFormed() && RefinedInputs(job, Which(job, |job.inputs|)).Ok?
    requires FirstDecodeError(job.model, RefinedInputs(job, Which(job, |job.inputs|)).value).Some?
    requires forall j :: 0 <= j < |job.inputs| ==> FirstCaption(job, j).Ok?
    ensures IsFirstError(job, FirstDecodeError(job.model, RefinedInputs(job, Which(job, |job.inputs|)).value).value)
  {
    var which := Which(job, |job.inputs|);
    var refined := RefinedInputs(job, which).value;
    SomeRefinementFails(job, which);
    forall j | 0 <= j < |job.inputs| && IsRefined(job, j) ensures RefinedRequest(job, j).Ok? {
      var at := WhichComplete(job, |job.inputs|, j);
      assert Refines(job, refined[at], which[at]);
    }
    var k := FirstDecodeErrorIsFirst(job.model, refined);
    var i := which[k];
    assert Refines(job, refined[k], i) && HasSecond(job, i);
    forall j | 0 <= j < i && HasSecond(job, j) ensures SecondCaption(job, j).Ok? {
      var at := WhichBefore(job, |job.inputs|, k, j);
      assert Refines(job, refined[at], j) && job.model.Decode(job.model.Generate(refined[at])).Ok?;
    }
    assert Stage2Fails(job, i, FirstDecodeError(job.model, refined).value);
  }

  /** It is an exception that some window is specified to raise ... */
  lemma BatchErrorIsSpecified(job: Job)
    requires job.WellFormed() && BatchError(job).Some?
    ensures job.FailsWith(BatchError(job).value)
  {
    var e, which := BatchError(job).value, Which(job, |job.inputs|);
    SomeDecodeFails(job.model, job.inputs);
    SomeRefinementFails(job, which);
    if FirstDecodeError(job.model, job.inputs).Some? {
      var i :| 0 <= i < |job.inputs| && job.model.Decode(job.model.Generate(job.inputs[i])) == Err(e);
      assert job.Spec(i) == Err(e);
    } else if RefinedInputs(job, which).Err? {
      var j :| 0 <= j < |which| && Refinement(job, which[j]) == Err(e);
      assert job.Spec(which[j]) == Err(e);
    } else {
      var refined := RefinedInputs(job, which).value;
      SomeDecodeFails(job.model, refined);
      var j :| 0 <= j < |refined| && job.model.Decode(job.model.Generate(refined[j])) == Err(e);
      assert Refines(job, refined[j], which[j]) && job.Spec(which[j]) == Err(e);
    }
  }

  /** ... and there is none exactly when no window is. */
  lemma BatchErrorIff(job: Job)
    requires job.WellFormed()
    ensures BatchError(job).None? <==> job.AllOk()
  {
    if BatchError(job).Some? {
      BatchErrorIsSpecified(job);
    } else {
      var refined := RefinedInputs(job, Which(job, |job.inputs|)).value;
      SomeDecodeFails(job.model, job.inputs);
      SomeDecodeFails(job.model, refined);
      SomeRefinementFails(job, Which(job, |job.inputs|));
      forall i | 0 <= i < |job.inputs| ensures job.Spec(i).Ok? {
        if job.prompts[i].Some? {
          var j := WhichComplete(job, |job.inputs|, i);
          assert Refines(job, refined[j], i);
        }
      }
    }
  }

  /** The result of a window without a stage-2 prompt ... */
  lemma OneStageResult(job: Job, i: nat, g: Generation)
    requires job.WellFormed() && i < |job.inputs| && job.prompts[i].None?
    requires g == job.model.Generate(job.inputs[i]) && job.model.Decode(g).Ok?
    ensures
      var text := CaptionText(job.model, Some(job.model.Decode(g).value));
      job.Spec(i) == Ok(WindowResult(text, FinishReason(g), Tokens(g)))
  {
  }

  /** ... and of one that has been refined. */
  lemma TwoStageResult(job: Job, i: nat, refined: Inputs, g: Generation)
    requires job.WellFormed() && Refines(job, refined, i)
    requires g == job.model.Generate(refined) && job.model.Decode(g).Ok?
    ensures job.Spec(i) == Ok(WindowResult(CaptionText(job.model, Some(job.model.Decode(g).value)), FinishReason(g),
                                           Sum(Some(Tokens(job.model.Generate(job.inputs[i]))), Tokens(g))))
  {
  }

  /** `inputs` are the inputs of the refined request of window `i`. */
  ghost predicate Refines(job: Job, inputs: Inputs, i: nat)
    requires job.WellFormed()
  {
    && i < |job.inputs| && job.prompts[i].Some?
    && Stage2Inputs(job.model, job.inputs[i], job.prompts[i].value) == Ok(inputs)
  }

  lemma AllSettled(job: Job, results: map<nat, WindowResult>)
    requires job.WellFormed() && forall i :: 0 <= i < |job.inputs| ==> Settled(job, results, i)
    ensures forall i: nat :: i < |job.inputs| ==> i in results && job.Spec(i) == Ok(results[i])
  {
    forall i: nat | i < |job.inputs| ensures i in results && job.Spec(i) == Ok(results[i]) {
      assert Settled(job, results, i);
    }
  }

  method MakeRequests(job: Job, ids: IdSource) returns (requests: seq<Request>, index: map<Id, nat>)
    requires job.WellFormed()
    modifies ids
    ensures FirstPass(job, requests) && DistinctIds(requests) && ids.next >= old(ids.next)
    ensures forall i :: 0 <= i < |requests| ==> fresh(requests[i])
    ensures forall i :: 0 <= i < |requests| ==> requests[i].requestId in index && index[requests[i].requestId] == i
    ensures forall id :: id in index ==> id < ids.next
  {
    requests, index := [], map[];
    for k := 0 to |job.inputs|
      invariant |requests| == k && DistinctIds(requests) && old(ids.next) <= ids.next
      invariant forall id :: id in index ==> id < ids.next
      invariant forall i :: 0 <= i < k ==> fresh(requests[i])
      invariant forall i :: 0 <= i < k ==> requests[i].requestId in index && index[requests[i].requestId] == i
      invariant forall i :: 0 <= i < k ==>
        requests[i].inputs == job.inputs[i] && requests[i].stage2Prompt == job.prompts[i]
    {
      var id := ids.TokenHex();
      var q := new VllmCaptionRequest(id, job.inputs[k], job.prompts[k]);
      requests, index := requests + [q], index[id := k];
    }
  }

  /** Recording a window settles it and leaves the others alone. */
  lemma SettleOne(job: Job, results: map<nat, WindowResult>, i: nat, w: WindowResult)
    requires job.WellFormed() && i < |job.inputs| && job.Spec(i) == Ok(w)
    ensures Settled(job, results[i := w], i)
    ensures forall k: nat :: k < |job.inputs| && Settled(job, results, k) ==> Settled(job, results[i := w], k)
  {
  }

  /** `needs` holds, in order, the requests below `n` that have a stage-2 prompt. */
  ghost predicate Needs(job: Job, requests: seq<Request>, needs: seq<Request>, n: nat)
    requires job.WellFormed() && FirstPass(job, requests) && n <= |requests|
  {
    && |needs| == |Which(job, n)|
    && forall j :: 0 <= j < |needs| ==> needs[j] == requests[Which(job, n)[j]]
  }

  lemma {:induction false} NeedsUpTo(job: Job, requests: seq<Request>, k: nat)
    requires job.WellFormed() && FirstPass(job, requests) && k <= |requests|
    ensures Needs(job, requests, CaptionInflight.NeedsStage2(requests[..k]), k)
  {
    if k > 0 {
      NeedsUpTo(job, requests, k - 1);
      assert requests[..k][..k - 1] == requests[..k - 1];
    }
  }

  /** Window `i` is charged with its first generation alone. */
  ghost predicate ChargedOnce(job: Job, counts: map<nat, TokenCounts>, i: nat)
    requires job.WellFormed() && i < |job.inputs|
  {
    i in counts && counts[i] == Tokens(job.model.Generate(job.inputs[i]))
  }

  lemma ChargeOne(job: Job, counts: map<nat, TokenCounts>, i: nat, tokens: TokenCounts)
    requires job.WellFormed() && i < |job.inputs| && tokens == Tokens(job.model.Generate(job.inputs[i]))
    ensures ChargedOnce(job, counts[i := tokens], i)
    ensures forall k: nat :: k < |job.inputs| && ChargedOnce(job, counts, k) ==>
      ChargedOnce(job, counts[i := tokens], k)
  {
  }

  /** The loop over the finished first pass. */
  method SettleFirstPass(job: Job, requests: seq<Request>, index: map<Id, nat>)
    returns (results: map<nat, WindowResult>, counts: map<nat, TokenCounts>, needs: seq<Request>)
    requires job.WellFormed() && FirstPass(job, requests)
    requires forall q :: q in requests ==> q.Filled(job.model, job.model.Generate(q.inputs))
    requires forall i :: 0 <= i < |requests| ==> requests[i].requestId in index && index[requests[i].requestId] == i
    ensures forall i :: 0 <= i < |requests| ==> ChargedOnce(job, counts, i)
    ensures forall i :: 0 <= i < |requests| && job.prompts[i].None? ==> Settled(job, results, i)
    ensures Needs(job, requests, needs, |requests|)
  {
    results, counts, needs := map[], map[], [];
    for k := 0 to |requests|
      invariant forall i: nat :: i < k ==> ChargedOnce(job, counts, i)
      invariant forall i: nat :: i < k && job.prompts[i].None? ==> Settled(job, results, i)
      invariant needs == CaptionInflight.NeedsStage2(requests[..k])
    {
      var q := requests[k];
      assert q in requests;
      assert requests[..k + 1][..k] == requests[..k];
      var i := index[q.requestId];
      ghost var before := counts;
      ChargeOne(job, counts, i, TokenCounts(q.promptTokens, q.outputTokens));
      counts := counts[i := TokenCounts(q.promptTokens, q.outputTokens)];
      assert i == k && ChargedOnce(job, counts, k);
      forall j: nat | j < k + 1 ensures ChargedOnce(job, counts, j) {
        if j < k { assert ChargedOnce(job, before, j); }
      }
      if q.stage2Prompt.None? {
        OneStageResult(job, i, job.model.Generate(q.inputs));
        var w := WindowResult(CaptionText(job.model, q.caption), q.finishReason, counts[i]);
        SettleOne(job, results, i, w);
        results := results[i := w];
      } else {
        needs := needs + [q];
      }
    }
    NeedsUpTo(job, requests, |requests|);
    assert requests[..|requests|] == requests;
  }

  /** `refined` are the refined requests of the first windows that need one, each mapped to its window. */
  ghost predicate SecondPass(job: Job, refined: seq<Request>, index: map<Id, nat>)
    requires job.WellFormed()
  {
    var which := Which(job, |job.inputs|);
    && |refined| <= |which|
    && forall j :: 0 <= j < |refined| ==>
         && refined[j].requestId in index && index[refined[j].requestId] == which[j]
         && refined[j].stage2Prompt == None && Refines(job, refined[j].inputs, which[j])
  }

  lemma SecondPassNext(job: Job, refined: seq<Request>, index: map<Id, nat>, r: Request)
    requires job.WellFormed() && SecondPass(job, refined, index) && |refined| < |Which(job, |job.inputs|)|
    requires r.requestId !in index && r.stage2Prompt == None
    requires Refines(job, r.inputs, Which(job, |job.inputs|)[|refined|])
    ensures SecondPass(job, refined + [r], index[r.requestId := Which(job, |job.inputs|)[|refined|]])
  {
  }

  lemma {:induction false} RefinementStays(job: Job, which: seq<nat>, k: nat)
    requires job.WellFormed() && AllRefined(job, which) && k <= |which| && RefinedInputs(job, which[..k]).Err?
    ensures RefinedInputs(job, which) == RefinedInputs(job, which[..k])
  {
    if k < |which| {
      var n := |which| - 1;
      assert which[..n][..k] == which[..k];
      RefinementStays(job, which[..n], k);
    } else {
      assert which[..k] == which;
    }
  }

  lemma RefineNext(job: Job, which: seq<nat>, k: nat, before: seq<Inputs>)
    requires job.WellFormed() && AllRefined(job, which) && k < |which|
    requires RefinedInputs(job, which[..k]) == Ok(before)
    ensures
      match Refinement(job, which[k])
      case Err(e) => RefinedInputs(job, which) == Err(e)
      case Ok(inputs) => RefinedInputs(job, which[..k + 1]) == Ok(before + [inputs])
  {
    assert which[..k + 1][..k] == which[..k];
    if Refinement(job, which[k]).Err? { RefinementStays(job, which, k + 1); }
  }

  lemma {:induction false} RefinedSoFar(job: Job, refined: seq<Request>, index: map<Id, nat>)
    requires job.WellFormed() && SecondPass(job, refined, index)
    ensures RefinedInputs(job, Which(job, |job.inputs|)[..|refined|]) == Ok(InputsOf(refined))
  {
    if refined != [] {
      var n := |refined| - 1;
      RefinedSoFar(job, refined[..n], index);
      assert Refines(job, refined[n].inputs, Which(job, |job.inputs|)[n]);
      RefineNext(job, Which(job, |job.inputs|), n, InputsOf(refined[..n]));
      assert InputsOf(refined) == InputsOf(refined[..n]) + [refined[n].inputs];
    }
  }

  ghost predicate IdsBelow(index: map<Id, nat>, next: Id) { forall id :: id in index ==> id < next }

  /** The index maps every request of the first pass to its window. */
  ghost predicate Indexed(requests: seq<Request>, index: map<Id, nat>) {
    forall i :: 0 <= i < |requests| ==> requests[i].requestId in index && index[requests[i].requestId] == i
  }

  /** A new id leaves the index right and the ids distinct. */
  lemma IndexedNext(requests: seq<Request>, refined: seq<Request>, index: map<Id, nat>, r: Request, i: nat)
    requires Indexed(requests, index) && r.requestId !in index && DistinctIds(refined)
    requires forall j :: 0 <= j < |refined| ==> refined[j].requestId in index
    ensures Indexed(requests, index[r.requestId := i]) && DistinctIds(refined + [r])
  {
  }

  /** The refined requests, each mapped to the window of the request it refines. */
  method RefineAll(job: Job, ids: IdSource, requests: seq<Request>, needs: seq<Request>, index0: map<Id, nat>)
    returns (error: Option<Error>, refined: seq<Request>, index: map<Id, nat>)
    requires job.WellFormed() && FirstPass(job, requests) && Needs(job, requests, needs, |requests|)
    requires forall q :: q in requests ==> q.Filled(job.model, job.model.Generate(q.inputs))
    requires forall i :: 0 <= i < |requests| ==> requests[i].requestId in index0 && index0[requests[i].requestId] == i
    requires forall id :: id in index0 ==> id < ids.next
    modifies ids
    ensures ids.next >= old(ids.next)
    ensures error.Some? ==> RefinedInputs(job, Which(job, |job.inputs|)) == Err(error.value)
    ensures error.None? ==> RefinedInputs(job, Which(job, |job.inputs|)) == Ok(InputsOf(refined))
    ensures error.None? ==> DistinctIds(refined) && forall j :: 0 <= j < |refined| ==> fresh(refined[j])
    ensures error.None? ==> |refined| == |Which(job, |job.inputs|)| && SecondPass(job, refined, index)
  {
    error, refined, index := None, [], index0;
    ghost var which := Which(job, |job.inputs|);
    for k := 0 to |needs|
      invariant |refined| == k && DistinctIds(refined) && old(ids.next) <= ids.next
      invariant IdsBelow(index, ids.next) && Indexed(requests, index)
      invariant SecondPass(job, refined, index) && forall j :: 0 <= j < k ==> fresh(refined[j])
    {
      var q := needs[k];
      assert q == requests[which[k]] && q in requests;
      var inputs := job.model.Refine(q.inputs, q.caption.value, q.stage2Prompt.value);
      if inputs.Err? {
        RefinedSoFar(job, refined, index);
        RefineNext(job, which, k, InputsOf(refined));
        error := Some(inputs.error);
        return;
      }
      var id := ids.TokenHex();
      var r := new VllmCaptionRequest(id, inputs.value, None);
      assert id !in index && index[q.requestId] == which[k];
      SecondPassNext(job, refined, index, r);
      IndexedNext(requests, refined, index, r, which[k]);
      refined, index := refined + [r], index[id := index[q.requestId]];
    }
    RefinedSoFar(job, refined, index);
    assert which[..|needs|] == which;
  }

  ghost predicate AllSettledIn(job: Job, results: map<nat, WindowResult>, which: seq<nat>)
    requires job.WellFormed() && AllRefined(job, which)
  {
    forall j :: 0 <= j < |which| ==> Settled(job, results, which[j])
  }

  ghost predicate ChargedExcept(job: Job, counts: map<nat, TokenCounts>, done: seq<nat>)
    requires job.WellFormed()
  {
    forall i :: 0 <= i < |job.inputs| && i !in done ==> ChargedOnce(job, counts, i)
  }

  /** One more window of the second pass is settled ... */
  lemma SettleNext(job: Job, results: map<nat, WindowResult>, before: seq<nat>, i: nat, w: WindowResult)
    requires job.WellFormed() && AllRefined(job, before) && AllRefined(job, before + [i]) && i < |job.inputs|
    requires AllSettledIn(job, results, before) && job.Spec(i) == Ok(w)
    ensures AllSettledIn(job, results[i := w], before + [i])
  {
    SettleOne(job, results, i, w);
    var after := before + [i];
    forall j | 0 <= j < |after| ensures Settled(job, results[i := w], after[j]) {
      if j < |before| { assert after[j] == before[j] && Settled(job, results, before[j]); }
    }
  }

  /** ... and charged again. */
  lemma ChargeNext(job: Job, counts: map<nat, TokenCounts>, before: seq<nat>, i: nat, c: TokenCounts)
    requires job.WellFormed() && ChargedExcept(job, counts, before)
    ensures ChargedExcept(job, counts[i := c], before + [i])
  {
    assert i in before + [i] && forall n :: n in before ==> n in before + [i];
  }

  /** The result of a refined window, its tokens added to those of its first generation. */
  function SecondResult(job: Job, counts: map<nat, TokenCounts>, i: nat, inputs: Inputs): (w: WindowResult)
    requires i in counts && job.model.Decode(job.model.Generate(inputs)).Ok?
  {
    var g := job.model.Generate(inputs);
    var text := CaptionText(job.model, Some(job.model.Decode(g).value));
    WindowResult(text, FinishReason(g), Charge(counts, i, Tokens(g))[i])
  }

  lemma SettleRefined(job: Job, results: map<nat, WindowResult>, counts: map<nat, TokenCounts>, before: seq<nat>,
                      i: nat, inputs: Inputs)
    requires job.WellFormed() && AllRefined(job, before) && AllRefined(job, before + [i]) && Refines(job, inputs, i)
    requires AllSettledIn(job, results, before) && ChargedExcept(job, counts, before) && i !in before
    requires job.model.Decode(job.model.Generate(inputs)).Ok?
    ensures i in counts
    ensures
      var results' := results[i := SecondResult(job, counts, i, inputs)];
      && AllSettledIn(job, results', before + [i])
      && forall n: nat :: n < |job.inputs| && Settled(job, results, n) ==> Settled(job, results', n)
    ensures ChargedExcept(job, Charge(counts, i, Tokens(job.model.Generate(inputs))), before + [i])
  {
    var g := job.model.Generate(inputs);
    assert ChargedOnce(job, counts, i);
    var w := SecondResult(job, counts, i, inputs);
    TwoStageResult(job, i, inputs, g);
    SettleOne(job, results, i, w);
    SettleNext(job, results, before, i, w);
    ChargeNext(job, counts, before, i, Charge(counts, i, Tokens(g))[i]);
  }

  /** The loop over the finished second pass. */
  method SettleSecondPass(job: Job, refined: seq<Request>, index: map<Id, nat>, results0: map<nat, WindowResult>,
                          counts0: map<nat, TokenCounts>)
    returns (results: map<nat, WindowResult>)
    requires job.WellFormed() && |refined| == |Which(job, |job.inputs|)| && SecondPass(job, refined, index)
    requires forall q :: q in refined ==> q.Filled(job.model, job.model.Generate(q.inputs))
    requires forall i :: 0 <= i < |job.inputs| ==> ChargedOnce(job, counts0, i)
    requires forall i :: 0 <= i < |job.inputs| && job.prompts[i].None? ==> Settled(job, results0, i)
    ensures forall i :: 0 <= i < |job.inputs| ==> Settled(job, results, i)
  {
    results := results0;
    var counts := counts0;
    ghost var which := Which(job, |job.inputs|);
    for k := 0 to |refined|
      invariant forall i :: 0 <= i < |job.inputs| && job.prompts[i].None? ==> Settled(job, results, i)
      invariant AllSettledIn(job, results, which[..k]) && ChargedExcept(job, counts, which[..k])
    {
      var q := refined[k];
      assert q in refined;
      var i := index[q.requestId];
      WhichDistinct(job, |job.inputs|, k);
      assert which[..k + 1] == which[..k] + [i];
      SettleRefined(job, results, counts, which[..k], i, q.inputs);
      counts := Charge(counts, i, TokenCounts(q.promptTokens, q.outputTokens));
      results := results[i := WindowResult(CaptionText(job.model, q.caption), q.finishReason, counts[i])];
    }
    assert which[..|refined|] == which;
    forall i | 0 <= i < |job.inputs| ensures Settled(job, results, i) {
      if job.prompts[i].Some? {
        var j := WhichComplete(job, |job.inputs|, i);
      }
    }
  }

  /** Caption every window in two passes, each pass in batches of `batchSize`; neither the results nor the exception
      depend on it. */
  method CaptionNoInflightBatching(job: Job, ids: IdSource, batchSize: int)
      returns (r: Result<seq<WindowResult>, Error>)
    requires job.WellFormed()
    modifies ids
    ensures r.Ok? ==> job.Yields(r.value) && job.ResultsAre(r.value)
    ensures r.Err? <==> BatchError(job).Some?
    ensures r.Err? ==> BatchError(job) == Some(r.error) && job.FailsWith(r.error) && IsFirstError(job, r.error)
    ensures ids.next >= old(ids.next)
  {
    BatchErrorIsFirst(job);
    if BatchError(job).Some? { BatchErrorIsSpecified(job); }
    var requests, index := MakeRequests(job, ids);
    var first := ProcessRequests(job.model, requests, batchSize);
    assert InputsOf(requests) == job.inputs;
    if first.Err? { return Err(first.error); }
    var results, counts, needs := SettleFirstPass(job, first.value, index);

    var error, refined;
    error, refined, index := RefineAll(job, ids, requests, needs, index);
    if error.Some? { return Err(error.value); }
    var second := ProcessRequests(job.model, refined, batchSize);
    if second.Err? { return Err(second.error); }
    results := SettleSecondPass(job, second.value, index, results, counts);
    AllSettled(job, results);
    r := Ok(CaptionInflight.Collect(results, |job.inputs|));
    YieldsSays(job, r.value);
  }

  /** `_resolve_stage2_prompts`. */
  function ResolveStage2Prompts(prompts: Option<seq<Option<string>>>, n: nat): (r: Result<seq<Option<string>>, Error>)
    ensures r.Ok? <==> prompts.None? || |prompts.value| == n
    ensures r.Ok? ==> |r.value| == n
    ensures r.Ok? ==> forall i :: 0 <= i < n ==>
              r.value[i] == if prompts.Some? then prompts.value[i] else None
  {
    match prompts
    case None => Ok(seq(n, i => None))
    case Some(ps) => if |ps| != n then Err(InvalidArgument) else Ok(ps)
  }

  /** `vllm_caption`: both schedulers answer the same, so the result depends on the inputs and prompts alone. Only
      an engine that still holds requests of an earlier, failed call can make it raise on its own account. */
  method VllmCaption(inputs: seq<Inputs>, prompts: Option<seq<Option<string>>>, m: Model, engine: LlmEngine,
                     ids: IdSource, batchSize: int, maxInflight: int, inflightBatching: bool)
    returns (r: Result<seq<WindowResult>, Error>)
    requires engine.model == m && forall id :: id in engine.held ==> id < ids.next
    modifies engine, ids
    ensures maxInflight < 0 || (prompts.Some? && |prompts.value| != |inputs|) ==> r.Err? && r.error.InvalidArgument?
    ensures maxInflight >= 0 && ResolveStage2Prompts(prompts, |inputs|).Ok? ==>
              var job := Job(m, inputs, ResolveStage2Prompts(prompts, |inputs|).value);
              && (r.Ok? ==> job.AllOk() && job.Yields(r.value) && job.ResultsAre(r.value)
                            && engine.held == old(engine.held))
              && (r.Err? && !inflightBatching ==> IsFirstError(job, r.error))
              && (r.Err? ==>
                    || job.SomeErrorIs(r.error)
                    || (inflightBatching && old(engine.held) != map[] && r.error == KeyMissing))
  {
    if maxInflight < 0 {
      return Err(InvalidArgument);
    }
    var resolved := ResolveStage2Prompts(prompts, |inputs|);
    if resolved.Err? {
      return Err(resolved.error);
    }
    var job := Job(m, inputs, resolved.value);
    if inflightBatching {
      r := CaptionInflight.CaptionInflightBatching(job, engine, ids, maxInflight);
    } else {
      r := CaptionNoInflightBatching(job, ids, batchSize);
      if r.Err? { FailsWithSays(job, r.error); }
    }
  }
}
