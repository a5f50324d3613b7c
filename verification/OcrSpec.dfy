/** What the OCR detectors do to their tracks and segments, said of the tracks and segments themselves. */
module OcrSpec {
  import opened Text
  import opened OcrGeometry
  import opened OcrTracks

  // ---- One frame ----

  /** A track not seen for more than `gap` frames is gone; the others are kept, in order. */
  ghost predicate Parted(all: seq<Track>, number: int, gap: int, kept: seq<Track>, gone: seq<Track>)
    decreases |all|
  {
    if all == [] then kept == [] && gone == []
    else
      var t := all[0];
      var last := if |t.frames| > 0 then t.frames[|t.frames| - 1] else 0;
      if number - last > gap then gone != [] && gone[0] == t && Parted(all[1..], number, gap, kept, gone[1..])
      else kept != [] && kept[0] == t && Parted(all[1..], number, gap, kept[1..], gone)
  }

  /** The last box of a track overlaps `box` by at least 0.9. */
  ghost predicate Overlaps(t: Track, box: Box) {
    |t.boxes| > 0 && CalculateIou(box, t.boxes[|t.boxes| - 1]) >= 0.9
  }

  /** A detection extends the first track whose last box it overlaps, or else starts a track at the end. */
  ghost predicate Placed(before: seq<Track>, d: Detection, number: int, stamp: real, after: seq<Track>) {
    var box := GetCornersFromPoints(d);
    || (exists i ::
          && 0 <= i < |before| && Overlaps(before[i], box) && (forall j :: 0 <= j < i ==> !Overlaps(before[j], box))
          && after == before[i := Track(before[i].boxes + [box], before[i].frames + [number],
                                        before[i].stamps + [stamp])])
    || ((forall j :: 0 <= j < |before| ==> !Overlaps(before[j], box))
        && after == before + [Track([box], [number], [stamp])])
  }

  /** The detections of a frame are placed one after the other. */
  ghost predicate AllPlaced(before: seq<Track>, ds: seq<Detection>, number: int, stamp: real, after: seq<Track>)
    decreases |ds|
  {
    if ds == [] then after == before
    else exists mid :: Placed(before, ds[0], number, stamp, mid) && AllPlaced(mid, ds[1..], number, stamp, after)
  }

  /** A frame retires the tracks that were not seen for more than five intervals and then places its detections. */
  ghost predicate FrameStep(cfg: Settings, s: State, f: Frame, s': State) {
    exists kept: seq<Track>, gone: seq<Track> ::
      && Parted(s.active, f.number, 5 * cfg.interval, kept, gone)
      && AllPlaced(kept, f.detections, f.number, f.stamp, s'.active) && s'.retired == s.retired + gone
  }

  lemma {:induction false} PartedSays(cfg: Settings, all: seq<Track>, number: int)
    ensures Parted(all, number, 5 * cfg.interval, Kept(cfg, all, number), Expired(cfg, all, number))
  {
    if all != [] { PartedSays(cfg, all[1..], number); }
  }

  lemma PlacedBehind(t: Track, rest: seq<Track>, d: Detection, number: int, stamp: real, rest': seq<Track>)
    requires Placed(rest, d, number, stamp, rest') && !Overlaps(t, GetCornersFromPoints(d))
    ensures Placed([t] + rest, d, number, stamp, [t] + rest')
  {
    var box, before := GetCornersFromPoints(d), [t] + rest;
    assert forall j :: 0 < j < |before| ==> before[j] == rest[j - 1];
    if forall j :: 0 <= j < |rest| ==> !Overlaps(rest[j], box) {
      assert [t] + (rest + [Track([box], [number], [stamp])]) == before + [Track([box], [number], [stamp])];
    } else {
      var i :| 0 <= i < |rest| && Overlaps(rest[i], box) && (forall j :: 0 <= j < i ==> !Overlaps(rest[j], box))
               && rest' == rest[i := Track(rest[i].boxes + [box], rest[i].frames + [number], rest[i].stamps + [stamp])];
      assert [t] + rest' == before[i + 1 := rest'[i]];
      assert Overlaps(before[i + 1], box);
    }
  }

  lemma {:induction false} PlacedSays(before: seq<Track>, d: Detection, number: int, stamp: real)
    ensures Placed(before, d, number, stamp, Assign(before, d, number, stamp))
  {
    var box := GetCornersFromPoints(d);
    if before == [] {
      assert before + [Track([box], [number], [stamp])] == [Track([box], [number], [stamp])];
    } else if Matches(before[0], d) {
      assert Overlaps(before[0], box);
      assert Assign(before, d, number, stamp) == before[0 := Extended(before[0], d, number, stamp)];
    } else {
      PlacedSays(before[1..], d, number, stamp);
      PlacedBehind(before[0], before[1..], d, number, stamp, Assign(before[1..], d, number, stamp));
      assert before == [before[0]] + before[1..];
    }
  }

  lemma {:induction false} AssignAllFirst(before: seq<Track>, ds: seq<Detection>, number: int, stamp: real)
    requires ds != []
    ensures AssignAll(before, ds, number, stamp) ==
      AssignAll(Assign(before, ds[0], number, stamp), ds[1..], number, stamp)
    decreases |ds|
  {
    var n := |ds| - 1;
    if n > 0 {
      AssignAllFirst(before, ds[..n], number, stamp);
      assert ds[..n][1..] == ds[1..][..n - 1];
    } else {
      assert ds[..n] == [] && ds[1..] == [];
    }
  }

  lemma {:induction false} AllPlacedSays(before: seq<Track>, ds: seq<Detection>, number: int, stamp: real)
    ensures AllPlaced(before, ds, number, stamp, AssignAll(before, ds, number, stamp))
    decreases |ds|
  {
    if ds != [] {
      var mid := Assign(before, ds[0], number, stamp);
      PlacedSays(before, ds[0], number, stamp);
      AllPlacedSays(mid, ds[1..], number, stamp);
      AssignAllFirst(before, ds, number, stamp);
    }
  }

  lemma FrameSays(cfg: Settings, s: State, f: Frame)
    ensures FrameStep(cfg, s, f, Process(cfg, s, f))
  {
    PartedSays(cfg, s.active, f.number);
    AllPlacedSays(Kept(cfg, s.active, f.number), f.detections, f.number, f.stamp);
  }

  // ---- A whole run ----

  /** The states of a run, one after each frame. */
  ghost predicate RunSteps(cfg: Settings, frames: seq<Frame>, states: seq<State>) {
    && |states| == |frames| + 1 && states[0] == State([], [])
    && forall k :: 0 <= k < |frames| ==> FrameStep(cfg, states[k], frames[k], states[k + 1])
  }

  lemma {:induction false} RunSays(cfg: Settings, frames: seq<Frame>) returns (states: seq<State>)
    ensures RunSteps(cfg, frames, states) && states[|frames|] == Run(cfg, frames)
  {
    if frames == [] {
      states := [State([], [])];
    } else {
      var n := |frames| - 1;
      var before := RunSays(cfg, frames[..n]);
      FrameSays(cfg, Run(cfg, frames[..n]), frames[n]);
      states := before + [Run(cfg, frames)];
      forall k | 0 <= k < |frames| ensures FrameStep(cfg, states[k], frames[k], states[k + 1]) {
        if k < n { assert frames[..n][k] == frames[k] && states[k] == before[k] && states[k + 1] == before[k + 1]; }
      }
    }
  }

  // ---- There is no other run ----

  lemma {:induction false} PartedOnce(cfg: Settings, all: seq<Track>, number: int, kept: seq<Track>, gone: seq<Track>)
    requires Parted(all, number, 5 * cfg.interval, kept, gone)
    ensures kept == Kept(cfg, all, number) && gone == Expired(cfg, all, number)
    decreases |all|
  {
    if all != [] {
      if Stale(cfg, all[0], number) {
        PartedOnce(cfg, all[1..], number, kept, gone[1..]);
        assert gone == [gone[0]] + gone[1..];
      } else {
        PartedOnce(cfg, all[1..], number, kept[1..], gone);
        assert kept == [kept[0]] + kept[1..];
      }
    }
  }

  lemma PlacedOnce(before: seq<Track>, d: Detection, number: int, stamp: real, x: seq<Track>, y: seq<Track>)
    requires Placed(before, d, number, stamp, x) && Placed(before, d, number, stamp, y)
    ensures x == y
  {
  }

  lemma {:induction false} AllPlacedOnce(before: seq<Track>, ds: seq<Detection>, number: int, stamp: real,
                                         x: seq<Track>, y: seq<Track>)
    requires AllPlaced(before, ds, number, stamp, x) && AllPlaced(before, ds, number, stamp, y)
    ensures x == y
    decreases |ds|
  {
    if ds != [] {
      var a :| Placed(before, ds[0], number, stamp, a) && AllPlaced(a, ds[1..], number, stamp, x);
      var b :| Placed(before, ds[0], number, stamp, b) && AllPlaced(b, ds[1..], number, stamp, y);
      PlacedOnce(before, ds[0], number, stamp, a, b);
      AllPlacedOnce(a, ds[1..], number, stamp, x, y);
    }
  }

  lemma FrameOnce(cfg: Settings, s: State, f: Frame, s': State)
    requires FrameStep(cfg, s, f, s')
    ensures s' == Process(cfg, s, f)
  {
    var kept: seq<Track>, gone: seq<Track> :|
      && Parted(s.active, f.number, 5 * cfg.interval, kept, gone)
      && AllPlaced(kept, f.detections, f.number, f.stamp, s'.active) && s'.retired == s.retired + gone;
    PartedOnce(cfg, s.active, f.number, kept, gone);
    AllPlacedSays(kept, f.detections, f.number, f.stamp);
    AllPlacedOnce(kept, f.detections, f.number, f.stamp, s'.active, AssignAll(kept, f.detections, f.number, f.stamp));
  }

  lemma {:induction false} OneRun(cfg: Settings, frames: seq<Frame>, states: seq<State>)
    requires RunSteps(cfg, frames, states)
    ensures states[|frames|] == Run(cfg, frames)
  {
    if frames != [] {
      var n := |frames| - 1;
      forall k | 0 <= k < n ensures FrameStep(cfg, states[..n + 1][k], frames[..n][k], states[..n + 1][k + 1]) {
        assert FrameStep(cfg, states[k], frames[k], states[k + 1]);
      }
      OneRun(cfg, frames[..n], states[..n + 1]);
      FrameOnce(cfg, states[n], frames[n], states[n + 1]);
    }
  }

  // ---- Verdicts ----

  /** The overlaps of consecutive boxes, summed from the first on. */
  ghost function OverlapSum(boxes: seq<Box>): real {
    if |boxes| < 2 then 0.0 else CalculateIou(boxes[0], boxes[1]) + OverlapSum(boxes[1..])
  }

  lemma {:induction false} SumsAgree(boxes: seq<Box>)
    ensures IouSum(boxes) == OverlapSum(boxes)
  {
    if |boxes| == 2 {
      assert |boxes[..1]| == |boxes[1..]| == 1;
    } else if |boxes| > 2 {
      var n := |boxes| - 1;
      SumsAgree(boxes[1..]);
      SumsAgree(boxes[..n]);
      SumsAgree(boxes[1..][..n - 1]);
      assert boxes[..n][1..] == boxes[1..][..n - 1];
    }
  }

  /** Long enough, counted in sampled frames, and the mean overlap of consecutive boxes is at least the threshold. */
  ghost predicate Stable(cfg: Settings, t: Track) {
    && |t.frames| >= 1 && cfg.minDuration < (|t.frames| + 1) * cfg.interval
    && if |t.boxes| < 2 then cfg.stability <= 1.0
       else OverlapSum(t.boxes) / (|t.boxes| - 1) as real >= cfg.stability
  }

  lemma FloorAtMost(x: int, d: int, n: int)
    requires d > 0
    ensures x / d <= n <==> x < (n + 1) * d
  {
    assert x == x / d * d + x % d;
    if x / d <= n { assert x / d * d <= n * d; }
    if x / d > n { assert x / d * d >= (n + 1) * d; }
  }

  lemma LongSays(cfg: Settings, n: nat)
    requires cfg.interval > 0
    ensures n >= cfg.AdjustedMin() <==> n >= 1 && cfg.minDuration < (n + 1) * cfg.interval
  {
    FloorAtMost(cfg.minDuration, cfg.interval, n);
  }

  lemma StableSays(cfg: Settings, t: Track)
    requires cfg.interval > 0
    ensures IsStable(cfg, t) <==> Stable(cfg, t)
  {
    LongSays(cfg, |t.frames|);
    SumsAgree(t.boxes);
  }

  /** The segment of a stable track. */
  ghost predicate SegmentOf(t: Track, s: Segment) {
    && |t.frames| == |t.stamps| >= 1
    && s.startFrame == t.frames[0] && s.endFrame == t.frames[|t.frames| - 1]
    && s.startTime == t.stamps[0] && s.endTime == t.stamps[|t.stamps| - 1]
    && s.durationFrames == |t.frames| && s.durationSeconds == t.stamps[|t.stamps| - 1] - t.stamps[0]
    && s.avgStability == Some(if |t.boxes| < 2 then 1.0 else OverlapSum(t.boxes) / (|t.boxes| - 1) as real)
    && s.reason == StableLocationText
  }

  /** One segment per stable track, in order. */
  ghost predicate SegmentsOf(cfg: Settings, tracks: seq<Track>, segments: seq<Segment>)
    decreases |tracks|
  {
    if tracks == [] then segments == []
    else if Stable(cfg, tracks[0])
    then segments != [] && SegmentOf(tracks[0], segments[0]) && SegmentsOf(cfg, tracks[1..], segments[1..])
    else SegmentsOf(cfg, tracks[1..], segments)
  }

  lemma SegmentSays(t: Track)
    requires |t.frames| == |t.stamps| >= 1
    ensures SegmentOf(t, ToSegment(t))
  {
    SumsAgree(t.boxes);
  }

  /** The stable segments of a video: those of the tracks of some run over its frames, retired ones first. There is only
      one such run (`OneRun`). */
  ghost predicate StableSegments(cfg: Settings, frames: seq<Frame>, segments: seq<Segment>) {
    exists states: seq<State> ::
      RunSteps(cfg, frames, states) && SegmentsOf(cfg, states[|frames|].retired + states[|frames|].active, segments)
  }

  // ---- Corners ----

  datatype Zone = Zone(frameWidth: int, frameHeight: int, xNorm: real, yNorm: real)

  ghost predicate InZone(z: Zone, d: Detection) {
    AtCorner(GetCornersFromPoints(d), z.frameWidth, z.frameHeight, z.xNorm, z.yNorm)
  }

  ghost predicate HasInZone(z: Zone, f: Frame) {
    exists k :: 0 <= k < |f.detections| && InZone(z, f.detections[k])
  }

  /** One segment of a single frame for each frame with a detection in a corner, in order. */
  ghost predicate CornersOf(z: Zone, frames: seq<Frame>, segments: seq<Segment>)
    decreases |frames|
  {
    if frames == [] then segments == []
    else if HasInZone(z, frames[0]) then
      && segments != []
      && segments[0] == Segment(frames[0].number, frames[0].number, frames[0].stamp, frames[0].stamp, 1, 0.0, None,
                                CornerText)
      && CornersOf(z, frames[1..], segments[1..])
    else CornersOf(z, frames[1..], segments)
  }

  /** The frames with a detection. */
  ghost function WithText(frames: seq<Frame>): set<nat> {
    set k: nat | k < |frames| && frames[k].detections != []
  }

  /** All of these segments if they are more than the share `ratio` of the frames with a detection, and else none. */
  ghost predicate CornerSegmentsOf(z: Zone, ratio: real, frames: seq<Frame>, segments: seq<Segment>) {
    exists all ::
      && CornersOf(z, frames, all)
      && var n := |WithText(frames)|;
      segments == if n > 0 && |all| as real / n as real > ratio then all else []
  }
}
