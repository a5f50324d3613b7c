/** The index arithmetic of transnetv2.py: overlapping clamped windows, and the two lookups into a similarity matrix
    and a packed histogram. Scores, similarities and frames are uninterpreted. */
module TransNet {
  import opened Text

  const WINDOW: nat := 100
  const STRIDE: nat := 50
  const CONTEXT: nat := 25

  datatype Error = NoFrames | BadBatchSize

  // ---- Windowed prediction ----

  function Clip(i: int, n: nat): (c: nat)
    requires n > 0
    ensures c < n && (0 <= i < n ==> c == i)
  {
    if i < 0 then 0 else if i >= n then n - 1 else i
  }

  /** The frames from `start` on, the first and the last frame repeated beyond the ends. */
  function Clamped<F>(frames: seq<F>, start: int, length: nat): (w: seq<F>)
    requires frames != []
    ensures |w| == length && forall j :: 0 <= j < length ==> w[j] == frames[Clip(start + j, |frames|)]
  {
    seq(length, j requires 0 <= j < length => frames[Clip(start + j, |frames|)])
  }

  /** The number of windows: one per started stride. */
  function WindowCount(n: nat): nat { (n + STRIDE - 1) / STRIDE }

  /** Window number `k`. */
  function Window<F>(frames: seq<F>, k: nat): (w: seq<F>)
    requires frames != []
    ensures |w| == WINDOW
  {
    Clamped(frames, STRIDE * k - CONTEXT, WINDOW)
  }

  /** `w` holds `length` frames from number `start` on: the first frame before the video, the last one after it. */
  ghost predicate Holds<F>(w: seq<F>, frames: seq<F>, start: int, length: nat)
    requires frames != []
  {
    && |w| == length
    && forall j :: 0 <= j < length ==>
         w[j] == if start + j < 0 then frames[0]
                 else if start + j >= |frames| then frames[|frames| - 1] else frames[start + j]
  }

  /** The window of 100 frames that answers for frame `i`: it starts 25 frames before its stride of 50. */
  ghost predicate WindowOf<F>(w: seq<F>, frames: seq<F>, i: nat)
    requires frames != []
  {
    Holds(w, frames, i - i % 50 - 25, 100)
  }

  /** The 51 frames around frame `i`. */
  ghost predicate Around<F>(w: seq<F>, frames: seq<F>, i: nat)
    requires frames != []
  {
    Holds(w, frames, i - 25, 51)
  }

  lemma ClampedHolds<F>(frames: seq<F>, start: int, length: nat)
    requires frames != []
    ensures Holds(Clamped(frames, start, length), frames, start, length)
  {
  }

  method FrameWindows<F>(frames: seq<F>) returns (r: Result<seq<seq<F>>, Error>)
    ensures r.Err? <==> frames == []
    ensures r.Err? ==> r.error == NoFrames
    ensures r.Ok? ==> |r.value| == WindowCount(|frames|)
    ensures r.Ok? ==> forall k :: 0 <= k < |r.value| ==> r.value[k] == Window(frames, k)
    ensures r.Ok? ==> 50 * |r.value| - 50 < |frames| <= 50 * |r.value|
    ensures r.Ok? ==> forall k :: 0 <= k < |r.value| ==> Holds(r.value[k], frames, 50 * k - 25, 100)
  {
    if frames == [] { return Err(NoFrames); }
    var windows: seq<seq<F>>, offset := [], 0;
    while offset < |frames|
      invariant offset == STRIDE * |windows| && offset < |frames| + STRIDE
      invariant forall k :: 0 <= k < |windows| ==> windows[k] == Window(frames, k)
    {
      windows := windows + [Clamped(frames, offset - CONTEXT, WINDOW)];
      offset := offset + STRIDE;
    }
    r := Ok(windows);
    forall k | 0 <= k < |windows| ensures Holds(windows[k], frames, 50 * k - 25, 100) {
      ClampedHolds(frames, 50 * k - 25, 100);
    }
  }

  /** The network applied to one window: a score per frame of it. */
  type Network<!F> = seq<F> -> seq<real>

  function Scores<F>(net: Network<F>, w: seq<F>): seq<real> { net(w) }

  ghost predicate ScoresAll<F(!new)>(net: Network<F>) {
    forall w: seq<F> :: |w| == WINDOW ==> |Scores(net, w)| == WINDOW
  }

  predicate AllScored<F>(net: Network<F>, windows: seq<seq<F>>) {
    forall k :: 0 <= k < |windows| ==> |Scores(net, windows[k])| == WINDOW
  }

  /** The central scores of the first windows, joined. */
  function Stitched<F>(net: Network<F>, windows: seq<seq<F>>): seq<real>
    requires AllScored(net, windows)
  {
    if windows == [] then []
    else Stitched(net, windows[..|windows| - 1]) + Scores(net, windows[|windows| - 1])[CONTEXT..CONTEXT + STRIDE]
  }

  lemma {:induction false} StitchedAt<F>(net: Network<F>, windows: seq<seq<F>>, i: nat)
    requires AllScored(net, windows)
    requires i < STRIDE * |windows|
    ensures |Stitched(net, windows)| == STRIDE * |windows|
    ensures Stitched(net, windows)[i] == Scores(net, windows[i / STRIDE])[CONTEXT + i % STRIDE]
  {
    var n := |windows| - 1;
    StitchedLength(net, windows[..n]);
    if i < STRIDE * n { StitchedAt(net, windows[..n], i); }
  }

  lemma {:induction false} StitchedLength<F>(net: Network<F>, windows: seq<seq<F>>)
    requires AllScored(net, windows)
    ensures |Stitched(net, windows)| == STRIDE * |windows|
  {
    if windows != [] { StitchedLength(net, windows[..|windows| - 1]); }
  }

  lemma JoinedInTurn(a: seq<real>, b: seq<real>, c: seq<real>)
    ensures a + (b + c) == a + b + c
  {
  }

  lemma {:induction false} StitchedAppend<F>(net: Network<F>, a: seq<seq<F>>, b: seq<seq<F>>)
    requires AllScored(net, a) && AllScored(net, b)
    ensures AllScored(net, a + b)
    ensures Stitched(net, a + b) == Stitched(net, a) + Stitched(net, b)
  {
    if b == [] {
      assert a + b == a;
    } else {
      var n := |b| - 1;
      assert (a + b)[..|a| + n] == a + b[..n] && (a + b)[|a| + n] == b[n];
      StitchedAppend(net, a, b[..n]);
      JoinedInTurn(Stitched(net, a), Stitched(net, b[..n]), Scores(net, b[n])[CONTEXT..CONTEXT + STRIDE]);
    }
  }

  /** The network applied to a batch of windows: each window on its own. */
  method ApplyBatch<F>(net: Network<F>, group: seq<seq<F>>) returns (centers: seq<real>)
    requires AllScored(net, group)
    ensures centers == Stitched(net, group)
  {
    centers := [];
    for k := 0 to |group|
      invariant centers == Stitched(net, group[..k])
    {
      assert group[..k + 1][..k] == group[..k];
      centers := centers + Scores(net, group[k])[CONTEXT..CONTEXT + STRIDE];
    }
    assert group[..|group|] == group;
  }

  /** The score the windows give frame `i`: that of its own window. */
  function WindowedScore<F>(net: Network<F>, frames: seq<F>, i: nat): real
    requires i < |frames| && |Scores(net, Window(frames, i / STRIDE))| == WINDOW
  {
    Scores(net, Window(frames, i / STRIDE))[CONTEXT + i % STRIDE]
  }

  /** One answer per frame, whatever the batch size; and for a network whose central scores look at 25 frames on either
      side, the answer of a single pass over the clamped video. */
  method PredictTransitions<F(!new)>(net: Network<F>, frames: seq<F>, threshold: real, windowBatchSize: int)
    returns (r: Result<seq<bool>, Error>)
    requires ScoresAll(net)
    ensures r.Err? <==> windowBatchSize < 1 || frames == []
    ensures r.Err? ==> r.error == if windowBatchSize < 1 then BadBatchSize else NoFrames
    ensures r.Ok? ==> |r.value| == |frames|
    ensures r.Ok? ==> forall i :: 0 <= i < |frames| ==> (r.value[i] <==> WindowedScore(net, frames, i) > threshold)
    ensures r.Ok? ==> AnswersWindows(net, frames, threshold, r.value)
    ensures r.Ok? ==> AnswersSinglePass(net, frames, threshold, r.value)
  {
    if windowBatchSize < 1 { return Err(BadBatchSize); }
    var cut := FrameWindows(frames);
    if cut.Err? { return Err(cut.error); }
    var windows := cut.value;
    var predictions: seq<real>, done := [], 0;
    while done < |windows|
      invariant 0 <= done <= |windows|
      invariant predictions == Stitched(net, windows[..done])
    {
      var size := if done + windowBatchSize <= |windows| then windowBatchSize else |windows| - done;
      var group := windows[done..done + size];
      var centers := ApplyBatch(net, group);
      assert windows[..done] + group == windows[..done + size];
      StitchedAppend(net, windows[..done], group);
      predictions := predictions + centers;
      done := done + size;
    }
    assert windows[..|windows|] == windows;
    StitchedLength(net, windows);
    assert |predictions| == STRIDE * WindowCount(|frames|) >= |frames|;
    forall i | 0 <= i < |frames| ensures predictions[i] == WindowedScore(net, frames, i) {
      StitchedAt(net, windows, i);
    }
    r := Ok(seq(|frames|, i requires 0 <= i < |frames| && |predictions| >= |frames| => predictions[i] > threshold));
    AnswersSay(net, frames, threshold, r.value);
  }

  /** Each answer is that of the window of 100 frames that starts 25 frames before its stride of 50. */
  ghost predicate AnswersWindows<F(!new)>(net: Network<F>, frames: seq<F>, threshold: real, answers: seq<bool>) {
    && |answers| == |frames|
    && forall i: nat, w: seq<F> :: i < |frames| && WindowOf(w, frames, i) ==>
         |Scores(net, w)| == 100 && (answers[i] <==> Scores(net, w)[25 + i % 50] > threshold)
  }

  /** If the network looks at 25 frames on either side, each answer is that of the 51 frames around it. */
  ghost predicate AnswersSinglePass<F(!new)>(net: Network<F>, frames: seq<F>, threshold: real, answers: seq<bool>) {
    && |answers| == |frames|
    && forall local: seq<F> -> real, i: nat, w: seq<F> ::
         LooksNear(net, local) && i < |frames| && Around(w, frames, i) ==>
           (answers[i] <==> LocalScore(local, w) > threshold)
  }

  lemma AnswersSay<F(!new)>(net: Network<F>, frames: seq<F>, threshold: real, answers: seq<bool>)
    requires ScoresAll(net) && frames != [] && |answers| == |frames|
    requires forall i :: 0 <= i < |frames| ==> (answers[i] <==> WindowedScore(net, frames, i) > threshold)
    ensures AnswersWindows(net, frames, threshold, answers) && AnswersSinglePass(net, frames, threshold, answers)
  {
    forall i: nat, w: seq<F> | i < |frames| && WindowOf(w, frames, i)
      ensures |Scores(net, w)| == 100 && (answers[i] <==> Scores(net, w)[25 + i % 50] > threshold)
    {
      OneWindow(frames, i, w);
      assert |Scores(net, w)| == WINDOW;
    }
    forall local: seq<F> -> real, i: nat, w: seq<F> |
      LooksNear(net, local) && i < |frames| && Around(w, frames, i)
      ensures answers[i] <==> LocalScore(local, w) > threshold
    {
      WindowsAreSinglePass(net, local, frames, i);
    }
  }

  lemma OneWindow<F>(frames: seq<F>, i: nat, w: seq<F>)
    requires i < |frames| && WindowOf(w, frames, i)
    ensures w == Window(frames, i / STRIDE)
  {
    ClampedHolds(frames, i - i % 50 - 25, 100);
    assert w == Clamped(frames, i - i % 50 - 25, 100);
  }

  /** A network whose score at a central position is `local` of the 25 frames on either side. */
  ghost predicate LooksNear<F(!new)>(net: Network<F>, local: seq<F> -> real) {
    && ScoresAll(net)
    && forall w: seq<F>, p: nat :: |w| == 100 && 25 <= p < 75 ==>
         Scores(net, w)[p] == LocalScore(local, w[p - 25..p + 26])
  }

  function LocalScore<F>(local: seq<F> -> real, near: seq<F>): real { local(near) }

  /** The score of frame `i` in a single pass over the clamped video. */
  function SinglePass<F>(local: seq<F> -> real, frames: seq<F>, i: nat): real
    requires i < |frames|
  {
    LocalScore(local, Clamped(frames, i - CONTEXT, 2 * CONTEXT + 1))
  }

  /** The windows agree with the single pass: the stride, the context and the clamping fit together. */
  lemma WindowsAreSinglePass<F(!new)>(net: Network<F>, local: seq<F> -> real, frames: seq<F>, i: nat)
    requires LooksNear(net, local) && i < |frames|
    ensures |Scores(net, Window(frames, i / STRIDE))| == WINDOW
    ensures WindowedScore(net, frames, i) == SinglePass(local, frames, i)
    ensures forall w: seq<F> :: Around(w, frames, i) ==> WindowedScore(net, frames, i) == LocalScore(local, w)
  {
    var k, p := i / STRIDE, CONTEXT + i % STRIDE;
    var w := Window(frames, k);
    assert STRIDE * k + i % STRIDE == i;
    assert w[p - CONTEXT..p + CONTEXT + 1] == Clamped(frames, i - CONTEXT, 2 * CONTEXT + 1);
    forall near: seq<F> | Around(near, frames, i)
      ensures LocalScore(local, near) == SinglePass(local, frames, i)
    {
      ClampedHolds(frames, i - 25, 51);
      assert near == Clamped(frames, i - 25, 51);
    }
  }

  // ---- Band gather ----

  type Matrix = seq<seq<real>>

  predicate Square(s: Matrix) { forall t :: 0 <= t < |s| ==> |s[t]| == |s| }

  function Zeros(n: nat): (z: seq<real>)
    ensures |z| == n && forall k :: 0 <= k < n ==> z[k] == 0.0
  {
    seq(n, k => 0.0)
  }

  /** Rows padded with `(lookupWindow - 1) // 2` zeros at both ends. */
  function Padded(s: Matrix, lookupWindow: nat): (p: Matrix)
    requires lookupWindow % 2 == 1
    ensures |p| == |s|
    ensures forall t :: 0 <= t < |p| ==>
              p[t] == Zeros((lookupWindow - 1) / 2) + s[t] + Zeros((lookupWindow - 1) / 2)
  {
    var h := (lookupWindow - 1) / 2;
    seq(|s|, t requires 0 <= t < |s| => Zeros(h) + s[t] + Zeros(h))
  }

  /** `lookup_indices`: entry (t, l) is l + t. */
  function LookupIndices(timeWindow: nat, lookupWindow: nat): (ix: seq<seq<nat>>)
    ensures |ix| == timeWindow && forall t :: 0 <= t < timeWindow ==> |ix[t]| == lookupWindow
    ensures forall t, l :: 0 <= t < timeWindow && 0 <= l < lookupWindow ==> ix[t][l] == l + t
  {
    seq(timeWindow, t requires 0 <= t < timeWindow => seq(lookupWindow, l requires 0 <= l < lookupWindow => l + t))
  }

  /** Every index stays within the padded row. */
  lemma IndicesInBounds(s: Matrix, lookupWindow: nat, t: nat, l: nat)
    requires Square(s) && lookupWindow % 2 == 1 && t < |s| && l < lookupWindow
    ensures LookupIndices(|s|, lookupWindow)[t][l] < |Padded(s, lookupWindow)[t]|
  {
  }

  /** `similarities_padded[batch, time, lookup]`. */
  function Gathered(batch: seq<Matrix>, lookupWindow: nat, b: nat, t: nat, l: nat): real
    requires b < |batch| && Square(batch[b]) && lookupWindow % 2 == 1 && t < |batch[b]| && l < lookupWindow
  {
    IndicesInBounds(batch[b], lookupWindow, t, l);
    Padded(batch[b], lookupWindow)[t][LookupIndices(|batch[b]|, lookupWindow)[t][l]]
  }

  /** Entry (t, l) is the similarity of frame t and the frame l - h after it, if there is one, and zero if not. */
  lemma GatherIsBand(batch: seq<Matrix>, lookupWindow: nat, b: nat, t: nat, l: nat)
    requires b < |batch| && Square(batch[b]) && lookupWindow % 2 == 1 && t < |batch[b]| && l < lookupWindow
    ensures
      var h, s := (lookupWindow - 1) / 2, batch[b];
      var u := t + l - h;
      Gathered(batch, lookupWindow, b, t, l) == if 0 <= u < |s| then s[t][u] else 0.0
  {
    var h, s := (lookupWindow - 1) / 2, batch[b];
    var row := Zeros(h) + s[t] + Zeros(h);
    assert Padded(s, lookupWindow)[t] == row;
    if h <= t + l < h + |s| { assert row[t + l] == s[t][t + l - h]; }
  }

  function Dot(x: seq<real>, y: seq<real>): real
    requires |x| == |y|
  {
    if x == [] then 0.0 else x[0] * y[0] + Dot(x[1..], y[1..])
  }

  /** The last components add their product. */
  lemma {:induction false} DotSnoc(x: seq<real>, y: seq<real>, a: real, b: real)
    requires |x| == |y|
    ensures Dot([], []) == 0.0 && Dot(x + [a], y + [b]) == Dot(x, y) + a * b
  {
    if x == [] {
      assert [a][1..] == [] && x + [a] == [a] && y + [b] == [b];
    } else {
      assert (x + [a])[1..] == x[1..] + [a] && (y + [b])[1..] == y[1..] + [b];
      DotSnoc(x[1..], y[1..], a, b);
    }
  }

  lemma {:induction false} DotCommutes(x: seq<real>, y: seq<real>)
    requires |x| == |y|
    ensures Dot(x, y) == Dot(y, x)
  {
    if x != [] { DotCommutes(x[1..], y[1..]); }
  }

  /** `bmm(x, x^T)`. */
  function Similarities(x: seq<seq<real>>, dim: nat): (s: Matrix)
    requires forall t :: 0 <= t < |x| ==> |x[t]| == dim
    ensures Square(s) && |s| == |x|
    ensures forall t, u :: 0 <= t < |x| && 0 <= u < |x| ==> s[t][u] == Dot(x[t], x[u])
  {
    seq(|x|, t requires 0 <= t < |x| => seq(|x|, u requires 0 <= u < |x| => Dot(x[t], x[u])))
  }

  predicate Symmetric(s: Matrix)
    requires Square(s)
  {
    forall t, u :: 0 <= t < |s| && 0 <= u < |s| ==> s[t][u] == s[u][t]
  }

  lemma SimilaritiesAreSymmetric(x: seq<seq<real>>, dim: nat)
    requires forall t :: 0 <= t < |x| ==> |x[t]| == dim
    ensures Symmetric(Similarities(x, dim))
  {
    var s := Similarities(x, dim);
    forall t, u | 0 <= t < |s| && 0 <= u < |s| ensures s[t][u] == s[u][t] { DotCommutes(x[t], x[u]); }
  }

  /** Entry (t, l) is entry (t + l - h, 2h - l) whenever both frames exist, similarities being symmetric. */
  lemma BandIsSymmetric(batch: seq<Matrix>, lookupWindow: nat, b: nat, t: nat, l: nat)
    requires b < |batch| && Square(batch[b]) && Symmetric(batch[b])
    requires lookupWindow % 2 == 1 && t < |batch[b]| && l < lookupWindow
    requires 0 <= t + l - (lookupWindow - 1) / 2 < |batch[b]|
    ensures
      var h := (lookupWindow - 1) / 2;
      Gathered(batch, lookupWindow, b, t, l) == Gathered(batch, lookupWindow, b, t + l - h, 2 * h - l)
  {
    var h := (lookupWindow - 1) / 2;
    GatherIsBand(batch, lookupWindow, b, t, l);
    GatherIsBand(batch, lookupWindow, b, t + l - h, 2 * h - l);
  }

  // ---- Packed histogram ----

  datatype Pixel = Pixel(r: int, g: int, b: int)

  predicate IsByte(p: Pixel) { 0 <= p.r < 256 && 0 <= p.g < 256 && 0 <= p.b < 256 }

  const BINS: nat := 512

  /** `((R >> 5) << 6) + ((G >> 5) << 3) + (B >> 5)`; shifting an int right floors, as dividing does here. */
  function Bin(p: Pixel): int { p.r / 32 * 64 + p.g / 32 * 8 + p.b / 32 }

  /** The top three bits of the channels, read from a bin number. */
  predicate Encodes(bin: int, p: Pixel) {
    p.r / 32 == bin / 64 && p.g / 32 == bin / 8 % 8 && p.b / 32 == bin % 8
  }

  /** A number below 512 is given by its three octal digits. */
  lemma Digits(r: int, g: int, b: int, bin: int)
    requires 0 <= r < 8 && 0 <= g < 8 && 0 <= b < 8 && 0 <= bin < BINS
    ensures r * 64 + g * 8 + b == bin <==> r == bin / 64 && g == bin / 8 % 8 && b == bin % 8
  {
    var q := bin / 8;
    assert bin == q * 8 + bin % 8;
    assert q == q / 8 * 8 + q % 8;
    assert q / 8 == bin / 64;
  }

  lemma TopBits(c: int)
    requires 0 <= c < 256
    ensures 0 <= c / 32 < 8
  {
  }

  lemma BinEncodes(p: Pixel, bin: int)
    requires IsByte(p) && 0 <= bin < BINS
    ensures 0 <= Bin(p) < BINS
    ensures Bin(p) == bin <==> Encodes(bin, p)
  {
    TopBits(p.r);
    TopBits(p.g);
    TopBits(p.b);
    Digits(p.r / 32, p.g / 32, p.b / 32, bin);
  }

  /** The binned values of all frames in row-major order, each with the prefix of its frame. */
  function Binned(frames: seq<seq<Pixel>>): seq<int> {
    if frames == [] then []
    else Binned(frames[..|frames| - 1]) + BinnedFrame(frames[|frames| - 1], |frames| - 1)
  }

  function BinnedFrame(frame: seq<Pixel>, f: nat): (v: seq<int>)
    ensures |v| == |frame| && forall k :: 0 <= k < |v| ==> v[k] == Bin(frame[k]) + BINS * f
  {
    seq(|frame|, k requires 0 <= k < |frame| => Bin(frame[k]) + BINS * f)
  }

  function Occurrences(values: seq<int>, cell: int): nat {
    if values == [] then 0
    else Occurrences(values[..|values| - 1], cell) + if values[|values| - 1] == cell then 1 else 0
  }

  /** `scatter_add_` of ones into a zeroed buffer. */
  method ScatterOnes(values: seq<int>, size: nat) returns (histogram: array<int>)
    requires forall k :: 0 <= k < |values| ==> 0 <= values[k] < size
    ensures fresh(histogram) && histogram.Length == size
    ensures forall cell :: 0 <= cell < size ==> histogram[cell] == Occurrences(values, cell)
  {
    histogram := new int[size](_ => 0);
    for k := 0 to |values|
      invariant forall cell :: 0 <= cell < size ==> histogram[cell] == Occurrences(values[..k], cell)
    {
      assert values[..k + 1][..k] == values[..k];
      histogram[values[k]] := histogram[values[k]] + 1;
    }
    assert values[..|values|] == values;
  }

  ghost predicate FrameBytes(frame: seq<Pixel>) {
    forall k :: 0 <= k < |frame| ==> IsByte(frame[k])
  }

  ghost predicate AllBytes(frames: seq<seq<Pixel>>) {
    forall f :: 0 <= f < |frames| ==> FrameBytes(frames[f])
  }

  lemma {:induction false} BinnedInBounds(frames: seq<seq<Pixel>>)
    requires AllBytes(frames)
    ensures forall k :: 0 <= k < |Binned(frames)| ==> 0 <= Binned(frames)[k] < BINS * |frames|
  {
    if frames != [] {
      var n := |frames| - 1;
      BinnedInBounds(frames[..n]);
      assert FrameBytes(frames[n]);
      forall k | 0 <= k < |frames[n]| ensures BINS * n <= BinnedFrame(frames[n], n)[k] < BINS * (n + 1) {
        BinEncodes(frames[n][k], 0);
      }
    }
  }

  /** How many pixels of a frame have the top bits that `bin` encodes: the naive histogram. */
  function PixelCount(frame: seq<Pixel>, bin: int): nat {
    if frame == [] then 0
    else PixelCount(frame[..|frame| - 1], bin) + if Encodes(bin, frame[|frame| - 1]) then 1 else 0
  }

  lemma {:induction false} OccurrencesAppend(a: seq<int>, b: seq<int>, cell: int)
    ensures Occurrences(a + b, cell) == Occurrences(a, cell) + Occurrences(b, cell)
  {
    if b == [] {
      assert a + b == a;
    } else {
      assert (a + b)[..|a + b| - 1] == a + b[..|b| - 1];
      OccurrencesAppend(a, b[..|b| - 1], cell);
    }
  }

  lemma {:induction false} NoOccurrence(values: seq<int>, cell: int)
    requires forall k :: 0 <= k < |values| ==> values[k] != cell
    ensures Occurrences(values, cell) == 0
  {
    if values != [] { NoOccurrence(values[..|values| - 1], cell); }
  }

  /** Within a frame, the cell of a bin counts the pixels of that bin. */
  lemma {:induction false} OwnCells(frame: seq<Pixel>, f: nat, bin: int)
    requires 0 <= bin < BINS && FrameBytes(frame)
    ensures Occurrences(BinnedFrame(frame, f), BINS * f + bin) == PixelCount(frame, bin)
  {
    if frame != [] {
      var n := |frame| - 1;
      OwnCells(frame[..n], f, bin);
      BinEncodes(frame[n], bin);
      assert BinnedFrame(frame, f)[..n] == BinnedFrame(frame[..n], f);
    }
  }

  /** Frames never share a cell: cell (f, bin) counts pixels of frame f alone. */
  lemma {:induction false} PackedIsNaive(frames: seq<seq<Pixel>>, f: nat, bin: int)
    requires AllBytes(frames) && f < |frames| && 0 <= bin < BINS
    ensures Occurrences(Binned(frames), BINS * f + bin) == PixelCount(frames[f], bin)
  {
    var n, cell := |frames| - 1, BINS * f + bin;
    assert FrameBytes(frames[n]) && AllBytes(frames[..n]);
    OccurrencesAppend(Binned(frames[..n]), BinnedFrame(frames[n], n), cell);
    if f == n {
      LaterCells(frames[..n], n, bin);
      OwnCells(frames[n], n, bin);
    } else {
      PackedIsNaive(frames[..n], f, bin);
      OtherCells(frames[n], n, f, bin);
    }
  }

  lemma LaterCells(frames: seq<seq<Pixel>>, f: nat, bin: int)
    requires AllBytes(frames) && f >= |frames| && 0 <= bin < BINS
    ensures Occurrences(Binned(frames), BINS * f + bin) == 0
  {
    BinnedInBounds(frames);
    NoOccurrence(Binned(frames), BINS * f + bin);
  }

  lemma OtherCells(frame: seq<Pixel>, f: nat, g: nat, bin: int)
    requires g != f && 0 <= bin < BINS && FrameBytes(frame)
    ensures Occurrences(BinnedFrame(frame, f), BINS * g + bin) == 0
  {
    forall k | 0 <= k < |frame| ensures BinnedFrame(frame, f)[k] != BINS * g + bin { BinEncodes(frame[k], 0); }
    NoOccurrence(BinnedFrame(frame, f), BINS * g + bin);
  }

  /** The packed histogram is the naive one. */
  method ComputeColorHistograms(frames: seq<seq<Pixel>>) returns (histogram: array<int>)
    requires AllBytes(frames)
    ensures fresh(histogram) && histogram.Length == BINS * |frames|
    ensures forall f, bin :: 0 <= f < |frames| && 0 <= bin < BINS ==>
              0 <= BINS * f + bin < histogram.Length && histogram[BINS * f + bin] == PixelCount(frames[f], bin)
    ensures forall f: nat, r, g, b :: f < |frames| && 0 <= r < 8 && 0 <= g < 8 && 0 <= b < 8 ==>
              && 0 <= 512 * f + 64 * r + 8 * g + b < histogram.Length
              && histogram[512 * f + 64 * r + 8 * g + b] == |OfColor(frames[f], r, g, b)|
  {
    BinnedInBounds(frames);
    histogram := ScatterOnes(Binned(frames), BINS * |frames|);
    forall f, bin | 0 <= f < |frames| && 0 <= bin < BINS
      ensures 0 <= BINS * f + bin < histogram.Length && histogram[BINS * f + bin] == PixelCount(frames[f], bin)
    {
      PackedIsNaive(frames, f, bin);
    }
    forall f: nat, r, g, b | f < |frames| && 0 <= r < 8 && 0 <= g < 8 && 0 <= b < 8
      ensures 0 <= 512 * f + 64 * r + 8 * g + b < histogram.Length
      ensures histogram[512 * f + 64 * r + 8 * g + b] == |OfColor(frames[f], r, g, b)|
    {
      var bin := 64 * r + 8 * g + b;
      assert 0 <= BINS * f + bin < histogram.Length && histogram[BINS * f + bin] == PixelCount(frames[f], bin);
      CountIsOfColor(frames[f], r, g, b);
    }
  }

  /** The pixels of a colour: those whose channels lie in these eighths of their range. */
  ghost function OfColor(frame: seq<Pixel>, r: int, g: int, b: int): set<nat> {
    set k: nat | k < |frame| && IsOfColor(frame[k], r, g, b)
  }

  lemma {:induction false} CountIsOfColor(frame: seq<Pixel>, r: int, g: int, b: int)
    requires 0 <= r < 8 && 0 <= g < 8 && 0 <= b < 8
    ensures PixelCount(frame, 64 * r + 8 * g + b) == |OfColor(frame, r, g, b)|
  {
    if frame == [] {
      assert OfColor(frame, r, g, b) == {};
    } else {
      var n := |frame| - 1;
      CountIsOfColor(frame[..n], r, g, b);
      EncodesColor(frame[n], r, g, b);
      OneMorePixel(frame, r, g, b);
    }
  }

  predicate IsOfColor(p: Pixel, r: int, g: int, b: int) {
    32 * r <= p.r < 32 * r + 32 && 32 * g <= p.g < 32 * g + 32 && 32 * b <= p.b < 32 * b + 32
  }

  lemma OneMorePixel(frame: seq<Pixel>, r: int, g: int, b: int)
    requires frame != []
    ensures
      var n := |frame| - 1;
      |OfColor(frame, r, g, b)| == |OfColor(frame[..n], r, g, b)| + if IsOfColor(frame[n], r, g, b) then 1 else 0
  {
    var n := |frame| - 1;
    var before := OfColor(frame[..n], r, g, b);
    assert n !in before;
    if IsOfColor(frame[n], r, g, b) {
      assert OfColor(frame, r, g, b) == before + {n};
    } else {
      assert OfColor(frame, r, g, b) == before;
    }
  }

  lemma EncodesColor(p: Pixel, r: int, g: int, b: int)
    requires 0 <= r < 8 && 0 <= g < 8 && 0 <= b < 8
    ensures Encodes(64 * r + 8 * g + b, p) <==> IsOfColor(p, r, g, b)
  {
    Digits(r, g, b, 64 * r + 8 * g + b);
  }

  /** The sum of the first `bins` cells of a frame. */
  function RowSum(frame: seq<Pixel>, bins: nat): nat {
    if bins == 0 then 0 else RowSum(frame, bins - 1) + PixelCount(frame, bins - 1)
  }

  lemma {:induction false} RowSumSnoc(frame: seq<Pixel>, p: Pixel, bins: nat)
    requires IsByte(p) && bins <= BINS
    ensures RowSum(frame + [p], bins) == RowSum(frame, bins) + if Bin(p) < bins then 1 else 0
  {
    if bins > 0 {
      RowSumSnoc(frame, p, bins - 1);
      BinEncodes(p, bins - 1);
      assert (frame + [p])[..|frame|] == frame;
    } else {
      BinEncodes(p, 0);
    }
  }

  lemma {:induction false} RowSumEmpty(bins: nat)
    ensures RowSum([], bins) == 0
  {
    if bins > 0 { RowSumEmpty(bins - 1); }
  }

  /** Each frame's cells sum to its number of pixels. */
  lemma {:induction false} RowSumIsArea(frame: seq<Pixel>)
    requires FrameBytes(frame)
    ensures RowSum(frame, BINS) == |frame|
  {
    if frame == [] {
      RowSumEmpty(BINS);
    } else {
      var n := |frame| - 1;
      RowSumIsArea(frame[..n]);
      RowSumSnoc(frame[..n], frame[n], BINS);
      BinEncodes(frame[n], 0);
      assert frame[..n] + [frame[n]] == frame;
    }
  }
}
