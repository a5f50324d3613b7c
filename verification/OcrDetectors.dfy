/** The detector objects of paddle_ocr.py, proved against the tracker functions of OcrTracks. */
module OcrDetectors {
  import opened Text
  import opened OcrGeometry
  import opened OcrTracks
  import opened OcrSpec

  predicate Shaped(t: Track) { |t.boxes| == |t.frames| == |t.stamps| >= 1 }

  predicate AllShaped(tracks: seq<Track>) { forall k :: 0 <= k < |tracks| ==> Shaped(tracks[k]) }

  /** The segments of the stable ones of these tracks, in order. */
  function Confirmed(cfg: Settings, tracks: seq<Track>): seq<Segment>
    requires cfg.interval > 0 && AllShaped(tracks)
  {
    if tracks == [] then []
    else
      var n := |tracks| - 1;
      if IsStable(cfg, tracks[n]) then Confirmed(cfg, tracks[..n]) + [ToSegment(tracks[n])]
        else Confirmed(cfg, tracks[..n])
  }

  lemma ConfirmedSnoc(cfg: Settings, tracks: seq<Track>, t: Track)
    requires cfg.interval > 0 && AllShaped(tracks) && Shaped(t)
    ensures AllShaped(tracks + [t])
    ensures Confirmed(cfg, tracks + [t]) ==
      if IsStable(cfg, t) then Confirmed(cfg, tracks) + [ToSegment(t)] else Confirmed(cfg, tracks)
  {
    assert (tracks + [t])[..|tracks|] == tracks;
  }

  lemma {:induction false} SegmentsSnoc(cfg: Settings, tracks: seq<Track>, segments: seq<Segment>, t: Track)
    requires cfg.interval > 0 && SegmentsOf(cfg, tracks, segments) && Shaped(t)
    ensures SegmentsOf(cfg, tracks + [t], if Stable(cfg, t) then segments + [ToSegment(t)] else segments)
    decreases |tracks|
  {
    SegmentSays(t);
    if tracks == [] {
      assert (tracks + [t])[1..] == [] && segments + [ToSegment(t)] == [ToSegment(t)] && [ToSegment(t)][1..] == [];
    } else {
      assert (tracks + [t])[1..] == tracks[1..] + [t];
      if Stable(cfg, tracks[0]) {
        SegmentsSnoc(cfg, tracks[1..], segments[1..], t);
        assert (segments + [ToSegment(t)])[1..] == segments[1..] + [ToSegment(t)];
      } else {
        SegmentsSnoc(cfg, tracks[1..], segments, t);
      }
    }
  }

  lemma {:induction false} ConfirmedSays(cfg: Settings, tracks: seq<Track>)
    requires cfg.interval > 0 && AllShaped(tracks)
    ensures SegmentsOf(cfg, tracks, Confirmed(cfg, tracks))
  {
    if tracks != [] {
      var n := |tracks| - 1;
      ConfirmedSays(cfg, tracks[..n]);
      StableSays(cfg, tracks[n]);
      SegmentsSnoc(cfg, tracks[..n], Confirmed(cfg, tracks[..n]), tracks[n]);
      assert tracks == tracks[..n] + [tracks[n]];
    }
  }

  lemma AnalyzedSays(cfg: Settings, frames: seq<Frame>)
    requires cfg.interval > 0 && AllShaped(Classified(cfg, frames))
    ensures StableSegments(cfg, frames, Confirmed(cfg, Classified(cfg, frames)))
  {
    var states := RunSays(cfg, frames);
    ConfirmedSays(cfg, Classified(cfg, frames));
  }

  // ---- Facts that match the loops to the functions ----

  lemma {:induction false} KeptSnoc(cfg: Settings, tracks: seq<Track>, t: Track, number: int)
    ensures Kept(cfg, tracks + [t], number) == Kept(cfg, tracks, number) + if Stale(cfg, t, number) then [] else [t]
    ensures Expired(cfg, tracks + [t], number) ==
      Expired(cfg, tracks, number) + if Stale(cfg, t, number) then [t] else []
  {
    if tracks != [] {
      KeptSnoc(cfg, tracks[1..], t, number);
      assert (tracks + [t])[1..] == tracks[1..] + [t];
    } else {
      assert (tracks + [t])[1..] == [];
    }
  }

  lemma KeptTake(cfg: Settings, tracks: seq<Track>, k: nat, number: int)
    requires k < |tracks|
    ensures
      var t := tracks[k];
      && Kept(cfg, tracks[..k + 1], number) ==
        Kept(cfg, tracks[..k], number) + (if Stale(cfg, t, number) then [] else [t])
      && Expired(cfg, tracks[..k + 1], number) ==
        Expired(cfg, tracks[..k], number) + (if Stale(cfg, t, number) then [t] else [])
  {
    KeptSnoc(cfg, tracks[..k], tracks[k], number);
    assert tracks[..k + 1] == tracks[..k] + [tracks[k]];
  }

  lemma {:induction false} AssignAt(tracks: seq<Track>, d: Detection, number: int, stamp: real, k: nat)
    requires k < |tracks| && Matches(tracks[k], d) && forall j :: 0 <= j < k ==> !Matches(tracks[j], d)
    ensures Assign(tracks, d, number, stamp) == tracks[k := Extended(tracks[k], d, number, stamp)]
  {
    if k > 0 {
      AssignAt(tracks[1..], d, number, stamp, k - 1);
      assert tracks == [tracks[0]] + tracks[1..];
    }
  }

  lemma {:induction false} AssignNone(tracks: seq<Track>, d: Detection, number: int, stamp: real)
    requires forall j :: 0 <= j < |tracks| ==> !Matches(tracks[j], d)
    ensures Assign(tracks, d, number, stamp) == tracks + [Started(d, number, stamp)]
  {
    if tracks != [] {
      AssignNone(tracks[1..], d, number, stamp);
      assert tracks == [tracks[0]] + tracks[1..];
    }
  }

  lemma {:induction false} AssignShaped(tracks: seq<Track>, d: Detection, number: int, stamp: real)
    requires AllShaped(tracks)
    ensures AllShaped(Assign(tracks, d, number, stamp))
  {
    if tracks != [] { AssignShaped(tracks[1..], d, number, stamp); }
  }

  lemma {:induction false} AssignAllShaped(tracks: seq<Track>, ds: seq<Detection>, number: int, stamp: real)
    requires AllShaped(tracks)
    ensures AllShaped(AssignAll(tracks, ds, number, stamp))
  {
    if ds != [] {
      AssignAllShaped(tracks, ds[..|ds| - 1], number, stamp);
      AssignShaped(AssignAll(tracks, ds[..|ds| - 1], number, stamp), ds[|ds| - 1], number, stamp);
    }
  }

  lemma {:induction false} KeptShaped(cfg: Settings, tracks: seq<Track>, number: int)
    requires AllShaped(tracks)
    ensures AllShaped(Kept(cfg, tracks, number)) && AllShaped(Expired(cfg, tracks, number))
  {
    if tracks != [] { KeptShaped(cfg, tracks[1..], number); }
  }

  lemma {:induction false} RunShaped(cfg: Settings, frames: seq<Frame>)
    ensures AllShaped(Run(cfg, frames).active) && AllShaped(Run(cfg, frames).retired)
    ensures AllShaped(Classified(cfg, frames))
  {
    if frames != [] {
      var n := |frames| - 1;
      RunShaped(cfg, frames[..n]);
      var s, f := Run(cfg, frames[..n]), frames[n];
      KeptShaped(cfg, s.active, f.number);
      AssignAllShaped(Kept(cfg, s.active, f.number), f.detections, f.number, f.stamp);
    }
  }

  // ---- Tracks ----

  datatype Verdict = TooShortForStable | StableText | DurationMetNotStableEnough

  class TextTrack {
    var bboxCornersHistory: seq<Box>
    var frameNumbers: seq<int>
    var timestamps: seq<real>
    var lastSeenFrame: int

    ghost predicate Valid()
      reads this
    {
      Shaped(View()) && lastSeenFrame == LastSeen(View())
    }

    function View(): Track
      reads this
    {
      Track(bboxCornersHistory, frameNumbers, timestamps)
    }

    constructor (bbox: Detection, frameNum: int, timestamp: real)
      ensures Valid() && View() == Started(bbox, frameNum, timestamp)
    {
      bboxCornersHistory, frameNumbers, timestamps := [GetCornersFromPoints(bbox)], [frameNum], [timestamp];
      lastSeenFrame := frameNum;
    }

    method Update(bbox: Detection, frameNum: int, timestamp: real)
      requires Valid()
      modifies this
      ensures Valid() && View() == Extended(old(View()), bbox, frameNum, timestamp)
    {
      bboxCornersHistory := bboxCornersHistory + [GetCornersFromPoints(bbox)];
      frameNumbers, timestamps := frameNumbers + [frameNum], timestamps + [timestamp];
      lastSeenFrame := frameNum;
    }

    method GetAvgBboxStabilityIou() returns (avg: real)
      requires Valid()
      ensures avg == AvgStability(View())
    {
      if |bboxCornersHistory| < 2 { return 1.0; }
      var sum := 0.0;
      for i := 1 to |bboxCornersHistory|
        invariant sum == IouSum(bboxCornersHistory[..i])
      {
        assert bboxCornersHistory[..i + 1][..i] == bboxCornersHistory[..i];
        sum := sum + CalculateIou(bboxCornersHistory[i - 1], bboxCornersHistory[i]);
      }
      assert bboxCornersHistory[..|bboxCornersHistory|] == bboxCornersHistory;
      avg := sum / (|bboxCornersHistory| - 1) as real;
    }

    method CheckIfStableText(cfg: Settings) returns (verdict: Verdict)
      requires Valid() && cfg.interval > 0
      ensures verdict == StableText <==> IsStable(cfg, View())
      ensures verdict == StableText <==> Stable(cfg, View())
      ensures verdict == TooShortForStable <==> cfg.minDuration >= (|View().frames| + 1) * cfg.interval
    {
      StableSays(cfg, View());
      LongSays(cfg, |frameNumbers|);
      if |frameNumbers| < cfg.AdjustedMin() { return TooShortForStable; }
      var avg := GetAvgBboxStabilityIou();
      verdict := if avg >= cfg.stability then StableText else DurationMetNotStableEnough;
    }
  }

  // ---- The stable text detector ----

  /** The track objects are distinct and hold these tracks. */
  ghost predicate Shows(tracks: seq<TextTrack>, views: seq<Track>)
    reads tracks
  {
    && |tracks| == |views|
    && (forall i, j :: 0 <= i < j < |tracks| ==> tracks[i] != tracks[j])
    && (forall k :: 0 <= k < |tracks| ==> tracks[k].Valid() && tracks[k].View() == views[k])
  }

  lemma ShowsSnoc(tracks: seq<TextTrack>, views: seq<Track>, t: TextTrack)
    requires Shows(tracks, views) && t.Valid() && forall i :: 0 <= i < |tracks| ==> tracks[i] != t
    ensures Shows(tracks + [t], views + [t.View()])
  {
  }

  /** No track from `k` on is in `seen`. */
  ghost predicate NotYet(tracks: seq<TextTrack>, k: nat, seen: set<TextTrack>) {
    forall j :: k <= j < |tracks| ==> tracks[j] !in seen
  }

  lemma JoinedInTurn(a: seq<Track>, b: seq<Track>, c: seq<Track>)
    ensures a + (b + c) == a + b + c
  {
  }

  ghost predicate AllDiffer(tracks: seq<TextTrack>) {
    forall i, j :: 0 <= i < j < |tracks| ==> tracks[i] != tracks[j]
  }

  lemma StillNotYet(tracks: seq<TextTrack>, k: nat, seen: set<TextTrack>, seen': set<TextTrack>)
    requires AllDiffer(tracks) && k < |tracks| && NotYet(tracks, k, seen) && seen' <= seen + {tracks[k]}
    ensures NotYet(tracks, k + 1, seen')
  {
  }

  /** `active` and `retired` are the detector's state as a value; `Valid` ties them to the objects and segments. */
  class StableTextDetector {
    const cfg: Settings
    var activeTracks: seq<TextTrack>
    var confirmedSegments: seq<Segment>
    ghost var active: seq<Track>
    ghost var retired: seq<Track>
    ghost var repr: set<TextTrack>

    ghost predicate Valid()
      reads this, repr, activeTracks
    {
      && (forall k :: 0 <= k < |activeTracks| ==> activeTracks[k] in repr)
      && Shows(activeTracks, active) && Reported()
    }

    ghost predicate Reported()
      reads this
    {
      cfg.interval > 0 && AllShaped(retired) && confirmedSegments == Confirmed(cfg, retired)
    }

    ghost function View(): State
      reads this
    {
      State(active, retired)
    }

    constructor (cfg: Settings)
      requires cfg.interval > 0
      ensures this.cfg == cfg && Valid() && activeTracks == []
    {
      this.cfg := cfg;
      activeTracks, confirmedSegments, active, retired, repr := [], [], [], [], {};
    }

    /** The part `process_frame` and `finalize` share: classify one track. */
    method Retire(track: TextTrack)
      requires Reported() && track.Valid()
      modifies this`confirmedSegments, this`retired
      ensures Reported() && retired == old(retired) + [track.View()]
    {
      ghost var t := track.View();
      var verdict := track.CheckIfStableText(cfg);
      ConfirmedSnoc(cfg, retired, t);
      if verdict == StableText {
        confirmedSegments := confirmedSegments + [ToSegment(track.View())];
        assert confirmedSegments == Confirmed(cfg, retired + [t]);
      } else {
        assert confirmedSegments == Confirmed(cfg, retired + [t]);
      }
      retired := retired + [t];
    }

    /** The body of the loop over the active tracks: a stale one is retired, any other is kept. */
    method Sift(number: int, k: nat, updated: seq<TextTrack>, ghost seen: set<TextTrack>, ghost kept: seq<Track>)
      returns (updated': seq<TextTrack>, ghost seen': set<TextTrack>, ghost gone: seq<Track>)
      requires Reported() && k < |activeTracks| && Shows(activeTracks, active) && Shows(updated, kept)
      requires forall i :: 0 <= i < |updated| ==> updated[i] in seen
      requires activeTracks[k] !in seen
      modifies this`confirmedSegments, this`retired
      ensures Reported() && retired == old(retired) + gone
      ensures gone == if Stale(cfg, active[k], number) then [active[k]] else []
      ensures Shows(updated', kept + if Stale(cfg, active[k], number) then [] else [active[k]])
      ensures (forall i :: 0 <= i < |updated'| ==> updated'[i] in seen') && seen' <= seen + {activeTracks[k]}
    {
      var track := activeTracks[k];
      updated', seen', gone := updated, seen, [];
      if number - track.lastSeenFrame > cfg.MaxGap() {
        Retire(track);
        gone := [active[k]];
        assert kept + [] == kept;
      } else {
        ShowsSnoc(updated, kept, track);
        updated', seen' := updated + [track], seen + {track};
        assert retired + gone == retired;
      }
    }

    /** The loop over the active tracks that drops the stale ones. */
    method DropStale(number: int)
      requires Valid()
      modifies this`activeTracks, this`confirmedSegments, this`active, this`retired
      ensures Valid()
      ensures View() == State(Kept(cfg, old(active), number), old(retired) + Expired(cfg, old(active), number))
    {
      var updated: seq<TextTrack> := [];
      ghost var was, seen := retired, {};
      assert AllDiffer(activeTracks);
      for k := 0 to |activeTracks|
        modifies this`confirmedSegments, this`retired
        invariant Reported() && retired == was + Expired(cfg, active[..k], number)
        invariant (forall i :: 0 <= i < |updated| ==> updated[i] in seen) && seen <= repr
        invariant NotYet(activeTracks, k, seen)
        invariant Shows(updated, Kept(cfg, active[..k], number))
      {
        KeptTake(cfg, active, k, number);
        ghost var before, gone := seen, [];
        updated, seen, gone := Sift(number, k, updated, seen, Kept(cfg, active[..k], number));
        StillNotYet(activeTracks, k, before, seen);
        JoinedInTurn(was, Expired(cfg, active[..k], number), gone);
      }
      assert active[..|active|] == active;
      activeTracks, active := updated, Kept(cfg, active, number);
    }

    /** The loop over the active tracks for one detection. */
    method Place(d: Detection, number: int, stamp: real)
      requires Valid()
      modifies this`activeTracks, this`active, this`repr, repr
      ensures Valid() && View() == State(Assign(old(active), d, number, stamp), old(retired))
      ensures fresh(repr - old(repr))
    {
      var box := GetCornersFromPoints(d);
      for k := 0 to |activeTracks|
        invariant forall j :: 0 <= j < k ==> !Matches(active[j], d)
      {
        var track := activeTracks[k];
        var history := track.bboxCornersHistory;
        if |history| > 0 && CalculateIou(box, history[|history| - 1]) >= IOU_MATCH_THRESHOLD {
          AssignAt(active, d, number, stamp, k);
          track.Update(d, number, stamp);
          active := active[k := Extended(active[k], d, number, stamp)];
          return;
        }
      }
      AssignNone(active, d, number, stamp);
      StartTrack(d, number, stamp);
    }

    method StartTrack(d: Detection, number: int, stamp: real)
      requires Valid()
      modifies this`activeTracks, this`active, this`repr
      ensures Valid() && active == old(active) + [Started(d, number, stamp)] && fresh(repr - old(repr))
    {
      var started := new TextTrack(d, number, stamp);
      activeTracks, repr := activeTracks + [started], repr + {started};
      active := active + [Started(d, number, stamp)];
    }

    /** The loop over the detections of a frame. */
    method PlaceAll(ds: seq<Detection>, number: int, stamp: real)
      requires Valid()
      modifies this`activeTracks, this`active, this`repr, repr
      ensures Valid() && View() == State(AssignAll(old(active), ds, number, stamp), old(retired))
      ensures fresh(repr - old(repr))
    {
      for k := 0 to |ds|
        invariant Valid() && View() == State(AssignAll(old(active), ds[..k], number, stamp), old(retired))
        invariant fresh(repr - old(repr))
      {
        assert ds[..k + 1][..k] == ds[..k];
        Place(ds[k], number, stamp);
      }
      assert ds[..|ds|] == ds;
    }

    method ProcessFrame(f: Frame)
      requires Valid()
      modifies this, repr
      ensures Valid() && View() == Process(cfg, old(View()), f) && FrameStep(cfg, old(View()), f, View())
      ensures fresh(repr - old(repr))
    {
      FrameSays(cfg, View(), f);
      DropStale(f.number);
      PlaceAll(f.detections, f.number, f.stamp);
    }

    /** Classify what is still active. */
    method Finalize() returns (segments: seq<Segment>)
      requires Valid()
      modifies this`confirmedSegments, this`retired
      ensures Valid() && retired == old(retired) + active && segments == Confirmed(cfg, retired)
    {
      for k := 0 to |activeTracks|
        invariant Reported() && retired == old(retired) + active[..k]
      {
        assert active[..k + 1] == active[..k] + [active[k]];
        Retire(activeTracks[k]);
      }
      assert active[..|active|] == active;
      segments := confirmedSegments;
    }

    /** The segments depend on the frames alone: whatever was analyzed before is forgotten. */
    method Analyze(frames: seq<Frame>) returns (segments: seq<Segment>)
      requires cfg.interval > 0
      modifies this
      ensures AllShaped(Classified(cfg, frames)) && segments == Confirmed(cfg, Classified(cfg, frames))
      ensures Valid() && StableSegments(cfg, frames, segments)
    {
      activeTracks, confirmedSegments, active, retired, repr := [], [], [], [], {};
      for k := 0 to |frames|
        invariant Valid() && View() == Run(cfg, frames[..k])
        invariant fresh(repr)
      {
        assert frames[..k + 1][..k] == frames[..k];
        ProcessFrame(frames[k]);
      }
      assert frames[..|frames|] == frames;
      RunShaped(cfg, frames);
      segments := Finalize();
      AnalyzedSays(cfg, frames);
    }
  }

  // ---- The corner text detector ----

  predicate InCorner(z: Zone, d: Detection) {
    IsBboxInCornerZone(GetCornersFromPoints(d), z.frameWidth, z.frameHeight, z.xNorm, z.yNorm)
  }

  predicate HasCorner(z: Zone, f: Frame) {
    exists k :: 0 <= k < |f.detections| && InCorner(z, f.detections[k])
  }

  /** How many frames have a detection, and which have one in a corner. */
  function Sampled(frames: seq<Frame>): nat {
    if frames == [] then 0 else Sampled(frames[..|frames| - 1]) + if frames[|frames| - 1].detections != [] then 1 else 0
  }

  function CornerFrames(z: Zone, frames: seq<Frame>): seq<Frame> {
    if frames == [] then []
    else
      var n := |frames| - 1;
      if HasCorner(z, frames[n]) then CornerFrames(z, frames[..n]) + [frames[n]] else CornerFrames(z, frames[..n])
  }

  function CornerSegment(f: Frame): Segment {
    Segment(f.number, f.number, f.stamp, f.stamp, 1, 0.0, None, CornerText)
  }

  function CornerSegments(frames: seq<Frame>): (s: seq<Segment>)
    ensures |s| == |frames| && forall k :: 0 <= k < |s| ==> s[k] == CornerSegment(frames[k])
  {
    seq(|frames|, k requires 0 <= k < |frames| => CornerSegment(frames[k]))
  }

  /** Corner frames are exactly the frames with a detection in a corner, all of which have a detection at all ... */
  lemma {:induction false} CornerFramesSpec(z: Zone, frames: seq<Frame>)
    ensures forall f :: f in CornerFrames(z, frames) <==> f in frames && HasCorner(z, f)
    ensures |CornerFrames(z, frames)| <= Sampled(frames)
  {
    if frames != [] {
      var n := |frames| - 1;
      CornerFramesSpec(z, frames[..n]);
      assert frames == frames[..n] + [frames[n]];
    }
  }

  /** ... and they are in frame order. */
  lemma {:induction false} CornerFramesOrdered(z: Zone, frames: seq<Frame>)
    requires Ordered(frames)
    ensures Ordered(CornerFrames(z, frames))
  {
    if frames != [] {
      var n := |frames| - 1;
      var before := CornerFrames(z, frames[..n]);
      CornerFramesOrdered(z, frames[..n]);
      CornerFramesSpec(z, frames[..n]);
      forall i | 0 <= i < |before| ensures before[i].number <= frames[n].number {
        assert before[i] in before;
        var j :| 0 <= j < n && frames[..n][j] == before[i];
        assert frames[j].number <= frames[n].number;
      }
    }
  }

  lemma HasCornerSays(z: Zone, f: Frame)
    ensures HasCorner(z, f) <==> HasInZone(z, f)
  {
    forall k | 0 <= k < |f.detections| ensures InCorner(z, f.detections[k]) <==> InZone(z, f.detections[k]) {
      CornerZoneSays(GetCornersFromPoints(f.detections[k]), z.frameWidth, z.frameHeight, z.xNorm, z.yNorm);
    }
  }

  lemma {:induction false} CornersSnoc(z: Zone, frames: seq<Frame>, segments: seq<Segment>, f: Frame)
    requires CornersOf(z, frames, segments)
    ensures CornersOf(z, frames + [f], if HasInZone(z, f) then segments + [CornerSegment(f)] else segments)
    decreases |frames|
  {
    if frames == [] {
      assert (frames + [f])[1..] == [] && segments + [CornerSegment(f)] == [CornerSegment(f)];
      assert [CornerSegment(f)][1..] == [];
    } else {
      assert (frames + [f])[1..] == frames[1..] + [f];
      if HasInZone(z, frames[0]) {
        CornersSnoc(z, frames[1..], segments[1..], f);
        assert (segments + [CornerSegment(f)])[1..] == segments[1..] + [CornerSegment(f)];
      } else {
        CornersSnoc(z, frames[1..], segments, f);
      }
    }
  }

  lemma {:induction false} CornerFramesSay(z: Zone, frames: seq<Frame>)
    ensures CornersOf(z, frames, CornerSegments(CornerFrames(z, frames)))
  {
    if frames != [] {
      var n := |frames| - 1;
      var corners := CornerFrames(z, frames[..n]);
      CornerFramesSay(z, frames[..n]);
      HasCornerSays(z, frames[n]);
      CornersSnoc(z, frames[..n], CornerSegments(corners), frames[n]);
      assert frames == frames[..n] + [frames[n]];
      assert CornerSegments(corners + [frames[n]]) == CornerSegments(corners) + [CornerSegment(frames[n])];
    }
  }

  lemma {:induction false} SampledSays(frames: seq<Frame>)
    ensures Sampled(frames) == |WithText(frames)|
  {
    if frames == [] {
      assert WithText(frames) == {};
    } else {
      var n := |frames| - 1;
      SampledSays(frames[..n]);
      assert WithText(frames) == WithText(frames[..n]) + if frames[n].detections != [] then {n} else {};
    }
  }

  lemma CornerDetectionSays(z: Zone, ratio: real, frames: seq<Frame>)
    ensures
      var corners := CornerFrames(z, frames);
      CornerSegmentsOf(z, ratio, frames,
                       if Exceeds(|corners|, Sampled(frames), ratio) then CornerSegments(corners) else [])
  {
    CornerFramesSay(z, frames);
    SampledSays(frames);
  }

  /** `part` is more than the share `ratio` of `whole`. */
  predicate Exceeds(part: nat, whole: nat, ratio: real) { whole > 0 && part as real / whole as real > ratio }

  class CornerTextDetector {
    const zone: Zone
    const ratio: real

    constructor (zone: Zone, ratio: real)
      ensures this.zone == zone && this.ratio == ratio
    {
      this.zone, this.ratio := zone, ratio;
    }

    /** One segment per corner frame, in order, if the corner frames are more than the configured share of the frames
        with detections; and else none. */
    method Detect(frames: seq<Frame>) returns (segments: seq<Segment>)
      ensures segments ==
        var corners := CornerFrames(zone, frames);
        if Exceeds(|corners|, Sampled(frames), ratio) then CornerSegments(corners) else []
      ensures CornerSegmentsOf(zone, ratio, frames, segments)
    {
      CornerDetectionSays(zone, ratio, frames);
      if frames == [] { return []; }
      var numSampled, totalCorner := 0, 0;
      segments := [];
      for k := 0 to |frames|
        invariant numSampled == Sampled(frames[..k])
        invariant totalCorner == |segments| && segments == CornerSegments(CornerFrames(zone, frames[..k]))
      {
        assert frames[..k + 1][..k] == frames[..k];
        var f := frames[k];
        if f.detections == [] { continue; }
        numSampled := numSampled + 1;
        var hasCorner := exists j :: 0 <= j < |f.detections| && InCorner(zone, f.detections[j]);
        if hasCorner {
          totalCorner := totalCorner + 1;
          segments := segments + [CornerSegment(f)];
        }
      }
      assert frames[..|frames|] == frames;
      if !Exceeds(totalCorner, numSampled, ratio) { segments := []; }
    }
  }

  // ---- Both together ----

  /** A box as the OCR engine reports it: a list of pairs, or anything else. */
  datatype OcrBox = NotPairs | Points(points: Detection)

  datatype Error = BadDimensions | BadRate

  /** The boxes of one frame that become detections. */
  function Usable(z: Zone, ignoreCorners: bool, boxes: seq<OcrBox>): (ds: seq<Detection>)
    ensures ignoreCorners ==> forall k :: 0 <= k < |ds| ==> !InCorner(z, ds[k])
  {
    if boxes == [] then []
    else
      var n := |boxes| - 1;
      var before := Usable(z, ignoreCorners, boxes[..n]);
      if boxes[n].NotPairs? || (ignoreCorners && InCorner(z, boxes[n].points)) then before
      else before + [boxes[n].points]
  }

  function Transformed(z: Zone, fps: real, ignoreCorners: bool, results: seq<seq<OcrBox>>): (frames: seq<Frame>)
    requires fps > 0.0
    ensures |frames| == |results| && Ordered(frames)
    ensures forall i :: 0 <= i < |frames| ==>
              frames[i] == Frame(i, i as real / fps, Usable(z, ignoreCorners, results[i]))
  {
    seq(|results|, i requires 0 <= i < |results| => Frame(i, i as real / fps, Usable(z, ignoreCorners, results[i])))
  }

  /** The lists of points among the boxes, in order, without those in a corner if the corners are ignored. */
  ghost predicate UsableOf(z: Zone, ignoreCorners: bool, boxes: seq<OcrBox>, ds: seq<Detection>)
    decreases |boxes|
  {
    if boxes == [] then ds == []
    else if boxes[0].NotPairs? || (ignoreCorners && InZone(z, boxes[0].points)) then
      UsableOf(z, ignoreCorners, boxes[1..], ds)
    else ds != [] && ds[0] == boxes[0].points && UsableOf(z, ignoreCorners, boxes[1..], ds[1..])
  }

  lemma {:induction false} UsableSnoc(z: Zone, ignoreCorners: bool, boxes: seq<OcrBox>, ds: seq<Detection>, b: OcrBox)
    requires UsableOf(z, ignoreCorners, boxes, ds)
    ensures UsableOf(z, ignoreCorners, boxes + [b],
                     if b.NotPairs? || (ignoreCorners && InZone(z, b.points)) then ds else ds + [b.points])
    decreases |boxes|
  {
    if boxes == [] {
      assert (boxes + [b])[1..] == [];
      if b.Points? { assert ds + [b.points] == [b.points] && [b.points][1..] == []; }
    } else {
      assert (boxes + [b])[1..] == boxes[1..] + [b];
      if boxes[0].NotPairs? || (ignoreCorners && InZone(z, boxes[0].points)) {
        UsableSnoc(z, ignoreCorners, boxes[1..], ds, b);
      } else {
        UsableSnoc(z, ignoreCorners, boxes[1..], ds[1..], b);
        if b.Points? { assert (ds + [b.points])[1..] == ds[1..] + [b.points]; }
      }
    }
  }

  lemma {:induction false} UsableSays(z: Zone, ignoreCorners: bool, boxes: seq<OcrBox>)
    ensures UsableOf(z, ignoreCorners, boxes, Usable(z, ignoreCorners, boxes))
  {
    if boxes != [] {
      var n := |boxes| - 1;
      UsableSays(z, ignoreCorners, boxes[..n]);
      UsableSnoc(z, ignoreCorners, boxes[..n], Usable(z, ignoreCorners, boxes[..n]), boxes[n]);
      assert boxes == boxes[..n] + [boxes[n]];
      if boxes[n].Points? {
        CornerZoneSays(GetCornersFromPoints(boxes[n].points), z.frameWidth, z.frameHeight, z.xNorm, z.yNorm);
      }
    }
  }

  /** Frame `i` is number `i`, at time `i / fps`, with the usable boxes of result `i`. */
  ghost predicate FramesOf(z: Zone, fps: real, ignoreCorners: bool, results: seq<seq<OcrBox>>, frames: seq<Frame>)
    requires fps > 0.0
  {
    && |frames| == |results|
    && forall i :: 0 <= i < |frames| ==>
         && frames[i].number == i && frames[i].stamp == i as real / fps
         && UsableOf(z, ignoreCorners, results[i], frames[i].detections)
  }

  lemma TransformedSays(z: Zone, fps: real, ignoreCorners: bool, results: seq<seq<OcrBox>>)
    requires fps > 0.0
    ensures FramesOf(z, fps, ignoreCorners, results, Transformed(z, fps, ignoreCorners, results))
  {
    forall i | 0 <= i < |results| { UsableSays(z, ignoreCorners, results[i]); }
  }

  /** The stable segments of these frames followed by their corner segments, if there is a corner detector. */
  ghost predicate DetectedIn(cfg: Settings, z: Zone, ratio: Option<real>, frames: seq<Frame>, segments: seq<Segment>) {
    exists n :: 0 <= n <= |segments| && StableSegments(cfg, frames, segments[..n])
                && if ratio.Some? then CornerSegmentsOf(z, ratio.value, frames, segments[n..]) else n == |segments|
  }

  lemma JoinedSays(cfg: Settings, z: Zone, ratio: Option<real>, frames: seq<Frame>, found: seq<Segment>,
                   corners: seq<Segment>, segments: seq<Segment>)
    requires StableSegments(cfg, frames, found) && segments == found + corners
    requires if ratio.Some? then CornerSegmentsOf(z, ratio.value, frames, corners) else corners == []
    ensures DetectedIn(cfg, z, ratio, frames, segments)
  {
    assert segments[..|found|] == found && segments[|found|..] == corners;
  }

  class ArtificialTextDetector {
    const zone: Zone
    const fps: real
    const ignoreCornerRegion: bool
    const stable: StableTextDetector
    const corner: Option<CornerTextDetector>

    ghost predicate Valid()
    {
      fps > 0.0 && stable.cfg.interval > 0 && (corner.Some? ==> corner.value.zone == zone)
    }

    constructor (zone: Zone, fps: real, cfg: Settings, useCornerDetection: bool, ratio: real, ignoreCornerRegion: bool)
      requires fps > 0.0 && cfg.interval > 0
      ensures Valid() && fresh(stable) && stable.cfg == cfg && this.zone == zone && this.fps == fps
      ensures this.ignoreCornerRegion == ignoreCornerRegion && (corner.Some? <==> useCornerDetection)
      ensures useCornerDetection ==> corner.value.ratio == ratio
    {
      this.zone, this.fps, this.ignoreCornerRegion := zone, fps, ignoreCornerRegion;
      stable := new StableTextDetector(cfg);
      if useCornerDetection {
        var c := new CornerTextDetector(zone, ratio);
        corner := Some(c);
      } else {
        corner := None;
      }
    }

    /** The checks of `__init__`. */
    static method Create(zone: Zone, fps: real, cfg: Settings, useCornerDetection: bool, ratio: real,
                         ignoreCornerRegion: bool)
      returns (r: Result<ArtificialTextDetector, Error>)
      ensures r.Ok? <==> zone.frameWidth > 0 && zone.frameHeight > 0 && fps > 0.0 && cfg.interval > 0
      ensures r.Ok? ==> fresh(r.value) && fresh(r.value.stable) && r.value.Valid()
      ensures r.Ok? ==> r.value.zone == zone && r.value.fps == fps && r.value.stable.cfg == cfg
      ensures r.Ok? ==> r.value.ignoreCornerRegion == ignoreCornerRegion
      ensures r.Ok? ==> (r.value.corner.Some? <==> useCornerDetection)
      ensures r.Ok? && useCornerDetection ==> r.value.corner.value.ratio == ratio
      ensures r.Err? ==> r.error == if zone.frameWidth <= 0 || zone.frameHeight <= 0 then BadDimensions else BadRate
    {
      if zone.frameHeight <= 0 || zone.frameWidth <= 0 { return Err(BadDimensions); }
      if fps <= 0.0 || cfg.interval <= 0 { return Err(BadRate); }
      var d := new ArtificialTextDetector(zone, fps, cfg, useCornerDetection, ratio, ignoreCornerRegion);
      r := Ok(d);
    }

    method TransformOcrResults(results: seq<seq<OcrBox>>) returns (frames: seq<Frame>)
      requires Valid()
      ensures frames == Transformed(zone, fps, ignoreCornerRegion, results)
    {
      frames := [];
      for i := 0 to |results|
        invariant frames == Transformed(zone, fps, ignoreCornerRegion, results[..i])
      {
        var boxes, detections: seq<Detection> := results[i], [];
        for k := 0 to |boxes|
          invariant detections == Usable(zone, ignoreCornerRegion, boxes[..k])
        {
          assert boxes[..k + 1][..k] == boxes[..k];
          if boxes[k].NotPairs? { continue; }
          if ignoreCornerRegion && InCorner(zone, boxes[k].points) { continue; }
          detections := detections + [boxes[k].points];
        }
        assert boxes[..|boxes|] == boxes;
        frames := frames + [Frame(i, i as real / fps, detections)];
      }
      assert results[..|results|] == results;
    }

    /** Stable segments, then corner segments; and when the corner region is ignored there are none of the latter,
        whatever the OCR engine reports. */
    method Detect(results: seq<seq<OcrBox>>) returns (segments: seq<Segment>)
      requires Valid()
      modifies stable
      ensures
        var frames := Transformed(zone, fps, ignoreCornerRegion, results);
        && AllShaped(Classified(stable.cfg, frames))
        && Confirmed(stable.cfg, Classified(stable.cfg, frames)) <= segments
        && segments[|Confirmed(stable.cfg, Classified(stable.cfg, frames))|..]
           == if corner.Some? && Exceeds(|CornerFrames(zone, frames)|, Sampled(frames), corner.value.ratio)
              then CornerSegments(CornerFrames(zone, frames)) else []
      ensures ignoreCornerRegion ==> forall s :: s in segments ==> s.reason != CornerText
      ensures exists frames :: FramesOf(zone, fps, ignoreCornerRegion, results, frames)
                && DetectedIn(stable.cfg, zone, if corner.Some? then Some(corner.value.ratio) else None, frames,
                              segments)
    {
      var frames := TransformOcrResults(results);
      TransformedSays(zone, fps, ignoreCornerRegion, results);
      var found := stable.Analyze(frames);
      StableReasons(stable.cfg, Classified(stable.cfg, frames));
      var corners := DetectCorners(frames);
      if ignoreCornerRegion { NoCorners(zone, fps, results); }
      segments := found + corners;
      JoinedSays(stable.cfg, zone, if corner.Some? then Some(corner.value.ratio) else None, frames, found, corners,
                 segments);
    }

    method DetectCorners(frames: seq<Frame>) returns (corners: seq<Segment>)
      requires Valid()
      ensures corners == if corner.Some? && Exceeds(|CornerFrames(zone, frames)|, Sampled(frames), corner.value.ratio)
                         then CornerSegments(CornerFrames(zone, frames)) else []
      ensures if corner.Some? then CornerSegmentsOf(zone, corner.value.ratio, frames, corners) else corners == []
    {
      corners := [];
      if corner.Some? {
        CornerDetectionSays(zone, corner.value.ratio, frames);
        if frames != [] { corners := corner.value.Detect(frames); }
      }
    }
  }

  lemma {:induction false} StableReasons(cfg: Settings, tracks: seq<Track>)
    requires cfg.interval > 0 && AllShaped(tracks)
    ensures forall s :: s in Confirmed(cfg, tracks) ==> s.reason == StableLocationText
  {
    if tracks != [] { StableReasons(cfg, tracks[..|tracks| - 1]); }
  }

  lemma {:induction false} NoCornerFrames(z: Zone, frames: seq<Frame>)
    requires forall k :: 0 <= k < |frames| ==> !HasCorner(z, frames[k])
    ensures CornerFrames(z, frames) == []
  {
    if frames != [] { NoCornerFrames(z, frames[..|frames| - 1]); }
  }

  /** With the corner region ignored no frame has a detection in a corner. */
  lemma NoCorners(z: Zone, fps: real, results: seq<seq<OcrBox>>)
    requires fps > 0.0
    ensures CornerFrames(z, Transformed(z, fps, true, results)) == []
  {
    NoCornerFrames(z, Transformed(z, fps, true, results));
  }
}
