/** The online text tracker of paddle_ocr.py as functions on tracks, and its invariants over every run. */
module OcrTracks {
  import opened Text
  import opened OcrGeometry

  const IOU_MATCH_THRESHOLD: real := 0.9
  const MAX_FRAME_GAP_FOR_TRACK: int := 5

  type Detection = seq<Point>

  datatype Frame = Frame(number: int, stamp: real, detections: seq<Detection>)

  datatype Track = Track(boxes: seq<Box>, frames: seq<int>, stamps: seq<real>)

  datatype Settings = Settings(interval: int, minDuration: int, stability: real)
  {
    function MaxGap(): int { MAX_FRAME_GAP_FOR_TRACK * interval }

    /** `max(1, min_duration_frames // frame_interval)`; the division floors, as Dafny's does for a positive
        divisor. */
    function AdjustedMin(): int
      requires interval > 0
    {
      Max(1, minDuration / interval)
    }
  }

  function Started(d: Detection, number: int, stamp: real): Track {
    Track([GetCornersFromPoints(d)], [number], [stamp])
  }

  function Extended(t: Track, d: Detection, number: int, stamp: real): Track {
    Track(t.boxes + [GetCornersFromPoints(d)], t.frames + [number], t.stamps + [stamp])
  }

  function LastSeen(t: Track): int { if |t.frames| > 0 then t.frames[|t.frames| - 1] else 0 }

  predicate Stale(cfg: Settings, t: Track, number: int) { number - LastSeen(t) > cfg.MaxGap() }

  predicate Matches(t: Track, d: Detection) {
    |t.boxes| > 0 && CalculateIou(GetCornersFromPoints(d), t.boxes[|t.boxes| - 1]) >= IOU_MATCH_THRESHOLD
  }

  /** The tracks that survive frame `number`, and those that do not. */
  function Kept(cfg: Settings, tracks: seq<Track>, number: int): seq<Track> {
    if tracks == [] then []
    else if Stale(cfg, tracks[0], number) then Kept(cfg, tracks[1..], number)
    else [tracks[0]] + Kept(cfg, tracks[1..], number)
  }

  function Expired(cfg: Settings, tracks: seq<Track>, number: int): seq<Track> {
    if tracks == [] then []
    else if Stale(cfg, tracks[0], number) then [tracks[0]] + Expired(cfg, tracks[1..], number)
    else Expired(cfg, tracks[1..], number)
  }

  /** The first track that matches takes the detection; if none does it starts a new one. */
  function Assign(tracks: seq<Track>, d: Detection, number: int, stamp: real): seq<Track> {
    if tracks == [] then [Started(d, number, stamp)]
    else if Matches(tracks[0], d) then [Extended(tracks[0], d, number, stamp)] + tracks[1..]
    else [tracks[0]] + Assign(tracks[1..], d, number, stamp)
  }

  function AssignAll(tracks: seq<Track>, ds: seq<Detection>, number: int, stamp: real): seq<Track> {
    if ds == [] then tracks
    else Assign(AssignAll(tracks, ds[..|ds| - 1], number, stamp), ds[|ds| - 1], number, stamp)
  }

  /** The active tracks, and the retired ones in the order in which they were classified. */
  datatype State = State(active: seq<Track>, retired: seq<Track>)

  function Process(cfg: Settings, s: State, f: Frame): State {
    State(AssignAll(Kept(cfg, s.active, f.number), f.detections, f.number, f.stamp),
          s.retired + Expired(cfg, s.active, f.number))
  }

  function Run(cfg: Settings, frames: seq<Frame>): State {
    if frames == [] then State([], []) else Process(cfg, Run(cfg, frames[..|frames| - 1]), frames[|frames| - 1])
  }

  /** The tracks in the order in which they are classified by the end of the run. */
  function Classified(cfg: Settings, frames: seq<Frame>): seq<Track> {
    Run(cfg, frames).retired + Run(cfg, frames).active
  }

  // ---- The reference tracker ----

  /** Keeps every track in creation order and skips the stale ones. */
  function RefAssign(cfg: Settings, tracks: seq<Track>, d: Detection, number: int, stamp: real): seq<Track> {
    if tracks == [] then [Started(d, number, stamp)]
    else if !Stale(cfg, tracks[0], number) && Matches(tracks[0], d)
    then [Extended(tracks[0], d, number, stamp)] + tracks[1..]
    else [tracks[0]] + RefAssign(cfg, tracks[1..], d, number, stamp)
  }

  function RefAssignAll(cfg: Settings, tracks: seq<Track>, ds: seq<Detection>, number: int, stamp: real): seq<Track> {
    if ds == [] then tracks
    else RefAssign(cfg, RefAssignAll(cfg, tracks, ds[..|ds| - 1], number, stamp), ds[|ds| - 1], number, stamp)
  }

  function RefRun(cfg: Settings, frames: seq<Frame>): seq<Track> {
    if frames == [] then []
    else
      var f := frames[|frames| - 1];
      RefAssignAll(cfg, RefRun(cfg, frames[..|frames| - 1]), f.detections, f.number, f.stamp)
  }

  predicate Ordered(frames: seq<Frame>) {
    forall i, j :: 0 <= i < j < |frames| ==> frames[i].number <= frames[j].number
  }

  function Count(tracks: seq<Track>, t: Track): nat {
    if tracks == [] then 0 else (if tracks[0] == t then 1 else 0) + Count(tracks[1..], t)
  }

  lemma {:induction false} CountAppend(a: seq<Track>, b: seq<Track>, t: Track)
    ensures Count(a + b, t) == Count(a, t) + Count(b, t)
  {
    if a == [] {
      assert a + b == b;
    } else {
      assert (a + b)[1..] == a[1..] + b;
      CountAppend(a[1..], b, t);
    }
  }

  /** What survives a later frame survived the earlier one. */
  lemma {:induction false} KeptLater(cfg: Settings, tracks: seq<Track>, number: int, later: int)
    requires number <= later
    ensures Kept(cfg, Kept(cfg, tracks, number), later) == Kept(cfg, tracks, later)
  {
    if tracks != [] {
      KeptLater(cfg, tracks[1..], number, later);
      var rest := Kept(cfg, tracks[1..], number);
      assert ([tracks[0]] + rest)[1..] == rest;
    }
  }

  lemma {:induction false} ExpiredLater(cfg: Settings, tracks: seq<Track>, number: int, later: int, t: Track)
    requires number <= later
    ensures Count(Expired(cfg, tracks, number), t) + Count(Expired(cfg, Kept(cfg, tracks, number), later), t)
         == Count(Expired(cfg, tracks, later), t)
  {
    if tracks != [] {
      ExpiredLater(cfg, tracks[1..], number, later, t);
      var rest := Kept(cfg, tracks[1..], number);
      assert ([tracks[0]] + rest)[1..] == rest;
      CountCons(tracks[0], Expired(cfg, tracks[1..], number), t);
      CountCons(tracks[0], Expired(cfg, rest, later), t);
      CountCons(tracks[0], Expired(cfg, tracks[1..], later), t);
    }
  }

  lemma CountCons(x: Track, s: seq<Track>, t: Track)
    ensures Count([x] + s, t) == (if x == t then 1 else 0) + Count(s, t)
  {
    assert ([x] + s)[1..] == s;
  }

  /** On the surviving tracks the two trackers do the same, and neither touches a stale one. */
  lemma {:induction false} AssignOnKept(cfg: Settings, tracks: seq<Track>, d: Detection, number: int, stamp: real)
    requires cfg.interval >= 0
    ensures Kept(cfg, RefAssign(cfg, tracks, d, number, stamp), number) ==
      Assign(Kept(cfg, tracks, number), d, number, stamp)
    ensures Expired(cfg, RefAssign(cfg, tracks, d, number, stamp), number) == Expired(cfg, tracks, number)
  {
    var r := RefAssign(cfg, tracks, d, number, stamp);
    if tracks == [] {
      assert r[1..] == [];
    } else {
      AssignOnKept(cfg, tracks[1..], d, number, stamp);
      assert r[1..] == if !Stale(cfg, tracks[0], number) && Matches(tracks[0], d) then tracks[1..]
                       else RefAssign(cfg, tracks[1..], d, number, stamp);
      var rest := Kept(cfg, tracks[1..], number);
      assert ([tracks[0]] + rest)[1..] == rest;
    }
  }

  lemma {:induction false} AssignAllOnKept(cfg: Settings, tracks: seq<Track>, ds: seq<Detection>, number: int,
                                           stamp: real)
    requires cfg.interval >= 0
    ensures Kept(cfg, RefAssignAll(cfg, tracks, ds, number, stamp), number) ==
      AssignAll(Kept(cfg, tracks, number), ds, number, stamp)
    ensures Expired(cfg, RefAssignAll(cfg, tracks, ds, number, stamp), number) == Expired(cfg, tracks, number)
  {
    if ds != [] {
      var n := |ds| - 1;
      AssignAllOnKept(cfg, tracks, ds[..n], number, stamp);
      AssignOnKept(cfg, RefAssignAll(cfg, tracks, ds[..n], number, stamp), ds[n], number, stamp);
    }
  }

  function LastNumber(frames: seq<Frame>): int
    requires frames != []
  {
    frames[|frames| - 1].number
  }

  /** Pruning refines no pruning: the active tracks are the surviving tracks of the reference tracker, with the same
      histories in the same order, and the retired ones are its stale tracks. */
  lemma {:induction false} PruningChangesNothing(cfg: Settings, frames: seq<Frame>, t: Track)
    requires cfg.interval >= 0 && Ordered(frames) && frames != []
    ensures Run(cfg, frames).active == Kept(cfg, RefRun(cfg, frames), LastNumber(frames))
    ensures Count(Run(cfg, frames).retired, t) == Count(Expired(cfg, RefRun(cfg, frames), LastNumber(frames)), t)
  {
    var n := |frames| - 1;
    var f, before, all := frames[n], frames[..n], RefRun(cfg, frames[..n]);
    AssignAllOnKept(cfg, all, f.detections, f.number, f.stamp);
    if before == [] {
      assert all == [] && Run(cfg, before) == State([], []);
    } else {
      var last := LastNumber(before);
      PruningChangesNothing(cfg, before, t);
      KeptLater(cfg, all, last, f.number);
      ExpiredLater(cfg, all, last, f.number, t);
      CountAppend(Run(cfg, before).retired, Expired(cfg, Run(cfg, before).active, f.number), t);
    }
  }

  lemma {:induction false} SplitCounts(cfg: Settings, tracks: seq<Track>, number: int, t: Track)
    ensures Count(Kept(cfg, tracks, number), t) + Count(Expired(cfg, tracks, number), t) == Count(tracks, t)
  {
    if tracks != [] {
      SplitCounts(cfg, tracks[1..], number, t);
      CountCons(tracks[0], Kept(cfg, tracks[1..], number), t);
      CountCons(tracks[0], Expired(cfg, tracks[1..], number), t);
    }
  }

  /** Every track of the reference tracker is classified, and exactly once. */
  lemma ClassifiedOnce(cfg: Settings, frames: seq<Frame>, t: Track)
    requires cfg.interval >= 0 && Ordered(frames)
    ensures Count(Classified(cfg, frames), t) == Count(RefRun(cfg, frames), t)
  {
    CountAppend(Run(cfg, frames).retired, Run(cfg, frames).active, t);
    if frames != [] {
      PruningChangesNothing(cfg, frames, t);
      SplitCounts(cfg, RefRun(cfg, frames), LastNumber(frames), t);
    }
  }

  // ---- What holds of every track ----

  /** Boxes that overlap almost fully, in frames that do not go back and do not skip too much. */
  ghost predicate TrackOk(cfg: Settings, t: Track) {
    && |t.boxes| == |t.frames| == |t.stamps| >= 1
    && (forall i :: 0 <= i < |t.boxes| - 1 ==> CalculateIou(t.boxes[i], t.boxes[i + 1]) >= 0.9)
    && (forall i :: 0 <= i < |t.frames| - 1 ==> t.frames[i] <= t.frames[i + 1] <= t.frames[i] + 5 * cfg.interval)
    && (forall i :: 0 <= i < |t.boxes| ==> WellFormed(t.boxes[i]))
  }

  ghost predicate TracksOk(cfg: Settings, tracks: seq<Track>) {
    forall k :: 0 <= k < |tracks| ==> TrackOk(cfg, tracks[k])
  }

  /** Every track was last seen at or before frame `number`, and not too long before. */
  ghost predicate SeenBy(cfg: Settings, tracks: seq<Track>, number: int) {
    forall k :: 0 <= k < |tracks| ==> LastSeen(tracks[k]) <= number <= LastSeen(tracks[k]) + cfg.MaxGap()
  }

  lemma ExtendedOk(cfg: Settings, t: Track, d: Detection, number: int, stamp: real)
    requires TrackOk(cfg, t) && Matches(t, d) && LastSeen(t) <= number <= LastSeen(t) + cfg.MaxGap()
    ensures TrackOk(cfg, Extended(t, d, number, stamp))
  {
    var t' := Extended(t, d, number, stamp);
    IouSymmetric(GetCornersFromPoints(d), t.boxes[|t.boxes| - 1]);
    CornersAreWellFormed(d);
    forall i | 0 <= i < |t'.boxes| - 1 ensures CalculateIou(t'.boxes[i], t'.boxes[i + 1]) >= IOU_MATCH_THRESHOLD {
      if i < |t.boxes| - 1 { assert t'.boxes[i] == t.boxes[i] && t'.boxes[i + 1] == t.boxes[i + 1]; }
    }
  }

  lemma StartedOk(cfg: Settings, d: Detection, number: int, stamp: real)
    ensures TrackOk(cfg, Started(d, number, stamp)) && LastSeen(Started(d, number, stamp)) == number
  {
    CornersAreWellFormed(d);
  }

  lemma {:induction false} AssignOk(cfg: Settings, tracks: seq<Track>, d: Detection, number: int, stamp: real)
    requires cfg.interval >= 0 && TracksOk(cfg, tracks) && SeenBy(cfg, tracks, number)
    ensures TracksOk(cfg, Assign(tracks, d, number, stamp)) && SeenBy(cfg, Assign(tracks, d, number, stamp), number)
  {
    if tracks == [] {
      StartedOk(cfg, d, number, stamp);
    } else if Matches(tracks[0], d) {
      ExtendedOk(cfg, tracks[0], d, number, stamp);
    } else {
      AssignOk(cfg, tracks[1..], d, number, stamp);
    }
  }

  lemma {:induction false} AssignAllOk(cfg: Settings, tracks: seq<Track>, ds: seq<Detection>, number: int, stamp: real)
    requires cfg.interval >= 0 && TracksOk(cfg, tracks) && SeenBy(cfg, tracks, number)
    ensures TracksOk(cfg, AssignAll(tracks, ds, number, stamp))
    ensures SeenBy(cfg, AssignAll(tracks, ds, number, stamp), number)
  {
    if ds != [] {
      AssignAllOk(cfg, tracks, ds[..|ds| - 1], number, stamp);
      AssignOk(cfg, AssignAll(tracks, ds[..|ds| - 1], number, stamp), ds[|ds| - 1], number, stamp);
    }
  }

  lemma {:induction false} KeptOk(cfg: Settings, tracks: seq<Track>, before: int, number: int)
    requires TracksOk(cfg, tracks) && SeenBy(cfg, tracks, before) && before <= number
    ensures TracksOk(cfg, Kept(cfg, tracks, number)) && SeenBy(cfg, Kept(cfg, tracks, number), number)
    ensures TracksOk(cfg, Expired(cfg, tracks, number))
  {
    if tracks != [] { KeptOk(cfg, tracks[1..], before, number); }
  }

  /** Over every run on ordered frames, all tracks, active or retired, are of that kind. */
  lemma {:induction false} EveryTrackOk(cfg: Settings, frames: seq<Frame>)
    requires cfg.interval >= 0 && Ordered(frames)
    ensures TracksOk(cfg, Run(cfg, frames).active) && TracksOk(cfg, Run(cfg, frames).retired)
    ensures frames != [] ==> SeenBy(cfg, Run(cfg, frames).active, LastNumber(frames))
  {
    if frames != [] {
      var n := |frames| - 1;
      var f, before := frames[n], frames[..n];
      EveryTrackOk(cfg, before);
      var s := Run(cfg, before);
      KeptOk(cfg, s.active, if before == [] then f.number else LastNumber(before), f.number);
      AssignAllOk(cfg, Kept(cfg, s.active, f.number), f.detections, f.number, f.stamp);
    }
  }

  // ---- Track lengths ----

  function TotalLength(tracks: seq<Track>): nat {
    if tracks == [] then 0 else |tracks[0].frames| + TotalLength(tracks[1..])
  }

  function Detections(frames: seq<Frame>): nat {
    if frames == [] then 0 else Detections(frames[..|frames| - 1]) + |frames[|frames| - 1].detections|
  }

  lemma LengthCons(x: Track, s: seq<Track>)
    ensures TotalLength([x] + s) == |x.frames| + TotalLength(s)
  {
    assert ([x] + s)[1..] == s;
  }

  lemma {:induction false} LengthAppend(a: seq<Track>, b: seq<Track>)
    ensures TotalLength(a + b) == TotalLength(a) + TotalLength(b)
  {
    if a == [] {
      assert a + b == b;
    } else {
      assert (a + b)[1..] == a[1..] + b;
      LengthAppend(a[1..], b);
    }
  }

  lemma {:induction false} AssignLength(tracks: seq<Track>, d: Detection, number: int, stamp: real)
    ensures TotalLength(Assign(tracks, d, number, stamp)) == TotalLength(tracks) + 1
  {
    if tracks == [] {
      LengthCons(Started(d, number, stamp), []);
      assert [Started(d, number, stamp)] + [] == [Started(d, number, stamp)];
    } else {
      AssignLength(tracks[1..], d, number, stamp);
      LengthCons(Extended(tracks[0], d, number, stamp), tracks[1..]);
      LengthCons(tracks[0], Assign(tracks[1..], d, number, stamp));
    }
  }

  lemma {:induction false} AssignAllLength(tracks: seq<Track>, ds: seq<Detection>, number: int, stamp: real)
    ensures TotalLength(AssignAll(tracks, ds, number, stamp)) == TotalLength(tracks) + |ds|
  {
    if ds != [] {
      AssignAllLength(tracks, ds[..|ds| - 1], number, stamp);
      AssignLength(AssignAll(tracks, ds[..|ds| - 1], number, stamp), ds[|ds| - 1], number, stamp);
    }
  }

  lemma {:induction false} SplitLength(cfg: Settings, tracks: seq<Track>, number: int)
    ensures TotalLength(Kept(cfg, tracks, number)) + TotalLength(Expired(cfg, tracks, number)) == TotalLength(tracks)
  {
    if tracks != [] {
      SplitLength(cfg, tracks[1..], number);
      LengthCons(tracks[0], Kept(cfg, tracks[1..], number));
      LengthCons(tracks[0], Expired(cfg, tracks[1..], number));
    }
  }

  /** No detection is lost or used twice: the lengths of all tracks sum to the number of detections. */
  lemma {:induction false} LengthsSumToDetections(cfg: Settings, frames: seq<Frame>)
    ensures TotalLength(Classified(cfg, frames)) == Detections(frames)
  {
    if frames != [] {
      var n := |frames| - 1;
      var f, s := frames[n], Run(cfg, frames[..n]);
      LengthsSumToDetections(cfg, frames[..n]);
      LengthAppend(s.retired, s.active);
      SplitLength(cfg, s.active, f.number);
      AssignAllLength(Kept(cfg, s.active, f.number), f.detections, f.number, f.stamp);
      LengthAppend(s.retired, Expired(cfg, s.active, f.number));
      LengthAppend(Run(cfg, frames).retired, Run(cfg, frames).active);
    }
  }

  // ---- Classification ----

  datatype Reason = StableLocationText | CornerText

  datatype Segment = Segment(startFrame: int, endFrame: int, startTime: real, endTime: real, durationFrames: int,
                             durationSeconds: real, avgStability: Option<real>, reason: Reason)

  function IouSum(boxes: seq<Box>): real {
    if |boxes| < 2 then 0.0
    else IouSum(boxes[..|boxes| - 1]) + CalculateIou(boxes[|boxes| - 2], boxes[|boxes| - 1])
  }

  /** The mean IoU of consecutive boxes; one box alone counts as fully stable. */
  function AvgStability(t: Track): real {
    if |t.boxes| < 2 then 1.0 else IouSum(t.boxes) / (|t.boxes| - 1) as real
  }

  predicate IsStable(cfg: Settings, t: Track)
    requires cfg.interval > 0
  {
    |t.frames| >= cfg.AdjustedMin() && AvgStability(t) >= cfg.stability
  }

  function ToSegment(t: Track): Segment
    requires |t.frames| == |t.stamps| >= 1
  {
    var n := |t.frames|;
    Segment(t.frames[0], t.frames[n - 1], t.stamps[0], t.stamps[n - 1], n,
            if n >= 2 then t.stamps[n - 1] - t.stamps[0] else 0.0, Some(AvgStability(t)), StableLocationText)
  }

  lemma {:induction false} IouSumLarge(boxes: seq<Box>)
    requires |boxes| >= 1
    requires forall i :: 0 <= i < |boxes| - 1 ==> CalculateIou(boxes[i], boxes[i + 1]) >= IOU_MATCH_THRESHOLD
    ensures IouSum(boxes) >= IOU_MATCH_THRESHOLD * (|boxes| - 1) as real
  {
    if |boxes| > 1 {
      var n := |boxes| - 1;
      assert boxes[..n][n - 1] == boxes[n - 1];
      IouSumLarge(boxes[..n]);
      assert CalculateIou(boxes[n - 1], boxes[n]) >= IOU_MATCH_THRESHOLD;
    }
  }

  lemma MeanLarge(sum: real, n: int)
    requires n > 0 && sum >= IOU_MATCH_THRESHOLD * n as real
    ensures sum / n as real >= IOU_MATCH_THRESHOLD
  {
  }

  /** With a stability threshold of at most 0.9 a track of a run is confirmed exactly when it is long enough. */
  lemma ConfirmedIffLongEnough(cfg: Settings, frames: seq<Frame>, t: Track)
    requires cfg.interval > 0 && cfg.stability <= 0.9 && Ordered(frames)
    requires t in Classified(cfg, frames)
    ensures IsStable(cfg, t) <==> |t.frames| >= 1 && |t.frames| >= cfg.minDuration / cfg.interval
  {
    EveryTrackOk(cfg, frames);
    assert TrackOk(cfg, t);
    IouSumLarge(t.boxes);
    if |t.boxes| >= 2 { MeanLarge(IouSum(t.boxes), |t.boxes| - 1); }
  }
}
