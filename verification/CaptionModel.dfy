/** Data of the vLLM captioning interface (vllm_interface.py, data_model.py) and the one specification that its
    schedulers share: what the result of a single window is. */
module CaptionModel {
  import opened Text

  /** A prompt payload: the keyed dict handed to the engine. */
  type Inputs = map<string, string>

  type Id = nat

  datatype TokenCounts = TokenCounts(promptTokens: nat, outputTokens: nat)

  function Look<T>(m: map<nat, T>, i: nat): Option<T> {
    if i in m then Some(m[i]) else None
  }

  /** The token charges after `tokens` more are charged to window `i`. */
  function Charge(counts: map<nat, TokenCounts>, i: nat, tokens: TokenCounts): map<nat, TokenCounts> {
    counts[i := if i in counts
                then TokenCounts(counts[i].promptTokens + tokens.promptTokens,
                                 counts[i].outputTokens + tokens.outputTokens)
                else tokens]
  }

  datatype Error =
    | EngineDead
    | FatalDecode
    | Cancelled
    | KeyMissing
    | UnsupportedPooling
    | InvalidArgument
    | CountMismatch
    | NoOutputs
    | Other(code: int)

  datatype CompletionOutput = CompletionOutput(text: string, tokenIds: seq<int>, finishReason: Option<string>)

  datatype Generation = Generation(promptTokenIds: Option<seq<int>>, outputs: seq<CompletionOutput>)

  function Tokens(g: Generation): TokenCounts {
    TokenCounts(if g.promptTokenIds.Some? then |g.promptTokenIds.value| else 0,
                if g.outputs != [] then |g.outputs[0].tokenIds| else 0)
  }

  function FinishReason(g: Generation): Option<string> {
    if g.outputs != [] then g.outputs[0].finishReason else None
  }

  datatype WindowResult = WindowResult(text: string, finishReason: Option<string>, tokenCounts: TokenCounts)

  /** The engine as a function of one input, and the two plugin calls the schedulers make. Decoding and
      refining may raise; `Refine` takes the inputs, the stage-1 caption and the stage-2 prompt, and the request
      it builds carries no stage-2 prompt of its own. `unknown` is the text that stands for a missing caption. */
  datatype Model = Model(
    unknown: string,
    generator: Inputs -> Generation,
    decoder: Generation -> Result<string, Error>,
    refiner: (Inputs, string, string) -> Result<Inputs, Error>)
  {
    function Generate(inputs: Inputs): Generation { generator(inputs) }

    function Decode(g: Generation): Result<string, Error> { decoder(g) }

    function Refine(inputs: Inputs, caption: string, prompt: string): Result<Inputs, Error> {
      refiner(inputs, caption, prompt)
    }
  }

  /** The tokens of all generations made for a window. */
  function Sum(before: Option<TokenCounts>, tokens: TokenCounts): TokenCounts {
    match before
    case None => tokens
    case Some(b) => TokenCounts(b.promptTokens + tokens.promptTokens, b.outputTokens + tokens.outputTokens)
  }

  /** `request.caption or VLLM_UNKNOWN_CAPTION`. */
  function CaptionText(m: Model, caption: Option<string>): string {
    if caption.Some? && |caption.value| > 0 then caption.value else m.unknown
  }

  /** The inputs of the refined request of a window, or the error met on the way there. */
  function Stage2Inputs(m: Model, inputs: Inputs, prompt: string): Result<Inputs, Error> {
    match m.Decode(m.Generate(inputs))
    case Err(e) => Err(e)
    case Ok(caption) => m.Refine(inputs, caption, prompt)
  }

  /** One generation whose tokens are added to `before`. */
  function OneStage(m: Model, inputs: Inputs, before: Option<TokenCounts>): Result<WindowResult, Error> {
    var g := m.Generate(inputs);
    match m.Decode(g)
    case Err(e) => Err(e)
    case Ok(caption) => Ok(WindowResult(CaptionText(m, Some(caption)), FinishReason(g), Sum(before, Tokens(g))))
  }

  /** The specification: caption the window, refine the caption once if there is a stage-2 prompt, and charge the
      window with the tokens of every generation made for it. */
  function WindowSpec(m: Model, inputs: Inputs, prompt: Option<string>): Result<WindowResult, Error> {
    match prompt
    case None => OneStage(m, inputs, None)
    case Some(p) => match Stage2Inputs(m, inputs, p)
      case Err(e) => Err(e)
      case Ok(refined) => OneStage(m, refined, Some(Tokens(m.Generate(inputs))))
  }

  // ---- What the specification says of the engine's own output ----

  /** `w` is the result of a window: the text is what was decoded, the text of a refined window what was decoded from
      its second generation, and the counts are those of every generation made for it. */
  ghost predicate ResultIs(m: Model, inputs: Inputs, prompt: Option<string>, w: WindowResult) {
    var g := m.generator(inputs);
    && m.decoder(g).Ok?
    && match prompt
       case None =>
         && w.text == (if |m.decoder(g).value| == 0 then m.unknown else m.decoder(g).value)
         && w.finishReason == (if |g.outputs| == 0 then None else g.outputs[0].finishReason)
         && w.tokenCounts.promptTokens == (match g.promptTokenIds case None => 0 case Some(ids) => |ids|)
         && w.tokenCounts.outputTokens == (if |g.outputs| == 0 then 0 else |g.outputs[0].tokenIds|)
       case Some(p) =>
         && m.refiner(inputs, m.decoder(g).value, p).Ok?
         && var h := m.generator(m.refiner(inputs, m.decoder(g).value, p).value);
         && m.decoder(h).Ok?
         && w.text == (if |m.decoder(h).value| == 0 then m.unknown else m.decoder(h).value)
         && w.finishReason == (if |h.outputs| == 0 then None else h.outputs[0].finishReason)
         && w.tokenCounts.promptTokens
            == (match g.promptTokenIds case None => 0 case Some(ids) => |ids|)
               + (match h.promptTokenIds case None => 0 case Some(ids) => |ids|)
         && w.tokenCounts.outputTokens
            == (if |g.outputs| == 0 then 0 else |g.outputs[0].tokenIds|)
               + (if |h.outputs| == 0 then 0 else |h.outputs[0].tokenIds|)
  }

  /** `e` is what decoding or refining raises for a window. */
  ghost predicate ErrorIs(m: Model, inputs: Inputs, prompt: Option<string>, e: Error) {
    var caption := m.decoder(m.generator(inputs));
    || caption == Err(e)
    || (&& caption.Ok? && prompt.Some?
        && var refined := m.refiner(inputs, caption.value, prompt.value);
        refined == Err(e) || (refined.Ok? && m.decoder(m.generator(refined.value)) == Err(e)))
  }

  /** The specification says just that. */
  lemma SpecSays(m: Model, inputs: Inputs, prompt: Option<string>)
    ensures forall w :: WindowSpec(m, inputs, prompt) == Ok(w) <==> ResultIs(m, inputs, prompt, w)
    ensures forall e :: WindowSpec(m, inputs, prompt) == Err(e) <==> ErrorIs(m, inputs, prompt, e)
  {
  }

  /** A captioning job: one input and one optional stage-2 prompt per window. */
  datatype Job = Job(model: Model, inputs: seq<Inputs>, prompts: seq<Option<string>>) {
    predicate WellFormed() { |inputs| == |prompts| }

    function Spec(i: nat): Result<WindowResult, Error>
      requires WellFormed() && i < |inputs|
    {
      WindowSpec(model, inputs[i], prompts[i])
    }

    ghost predicate AllOk()
      requires WellFormed()
    {
      forall i :: 0 <= i < |inputs| ==> Spec(i).Ok?
    }

    ghost predicate Yields(results: seq<WindowResult>)
      requires WellFormed()
    {
      |results| == |inputs| && forall i :: 0 <= i < |inputs| ==> Spec(i) == Ok(results[i])
    }

    /** Some window fails with this very error. */
    ghost predicate FailsWith(e: Error)
      requires WellFormed()
    {
      exists i :: 0 <= i < |inputs| && Spec(i) == Err(e)
    }

    /** One result per window, each what `ResultIs` says. */
    ghost predicate ResultsAre(results: seq<WindowResult>)
      requires WellFormed()
    {
      |results| == |inputs| && forall i :: 0 <= i < |inputs| ==> ResultIs(model, inputs[i], prompts[i], results[i])
    }

    /** Some window raises this very error. */
    ghost predicate SomeErrorIs(e: Error)
      requires WellFormed()
    {
      exists i :: 0 <= i < |inputs| && ErrorIs(model, inputs[i], prompts[i], e)
    }

    /** The windows that have a stage-2 prompt. */
    function Refined(): (s: set<nat>)
      requires WellFormed()
    {
      set i: nat | 0 <= i < |inputs| && prompts[i].Some?
    }
  }

  lemma YieldsSays(job: Job, results: seq<WindowResult>)
    requires job.WellFormed()
    ensures job.Yields(results) <==> job.ResultsAre(results)
  {
    forall i | 0 <= i < |job.inputs| { SpecSays(job.model, job.inputs[i], job.prompts[i]); }
    if job.Yields(results) {
      assert forall i :: 0 <= i < |job.inputs| ==> job.Spec(i) == Ok(results[i]);
    }
    if job.ResultsAre(results) {
      forall i | 0 <= i < |job.inputs| ensures job.Spec(i) == Ok(results[i]) {
        assert ResultIs(job.model, job.inputs[i], job.prompts[i], results[i]);
      }
    }
  }

  lemma FailsWithSays(job: Job, e: Error)
    requires job.WellFormed()
    ensures job.FailsWith(e) <==> job.SomeErrorIs(e)
  {
    forall i | 0 <= i < |job.inputs| { SpecSays(job.model, job.inputs[i], job.prompts[i]); }
    if job.FailsWith(e) {
      var i :| 0 <= i < |job.inputs| && job.Spec(i) == Err(e);
      assert ErrorIs(job.model, job.inputs[i], job.prompts[i], e);
    }
    if job.SomeErrorIs(e) {
      var i :| 0 <= i < |job.inputs| && ErrorIs(job.model, job.inputs[i], job.prompts[i], e);
      assert job.Spec(i) == Err(e);
    }
  }

  /** Schedulers that both yield the specified results return the same list. */
  lemma OneAnswer(job: Job, a: seq<WindowResult>, b: seq<WindowResult>)
    requires job.WellFormed() && job.Yields(a) && job.Yields(b)
    ensures a == b && job.AllOk()
  {
    forall i | 0 <= i < |a| ensures a[i] == b[i] { assert job.Spec(i) == Ok(a[i]); }
  }

  /** Everything below `n`. */
  function Below(n: nat): (s: set<nat>)
    ensures forall i: nat :: i in s <==> i < n
  {
    if n == 0 then {} else Below(n - 1) + {n - 1}
  }

  lemma {:induction false} BelowSize(n: nat)
    ensures |Below(n)| == n
  {
    if n > 0 { BelowSize(n - 1); }
  }

  /** A set of indices below `n` is complete exactly when it has `n` elements. */
  lemma FullIffCount(s: set<nat>, n: nat)
    requires s <= Below(n)
    ensures |s| <= n
    ensures |s| == n <==> s == Below(n)
  {
    BelowSize(n);
    var missing := Below(n) - s;
    assert s + missing == Below(n);
    assert |s| + |missing| == n;
  }
}
