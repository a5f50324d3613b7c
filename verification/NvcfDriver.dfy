/** `_main` of operate_nvcf_functions.py: N jobs on X workers, over any number of sessions that may be cut short at
    any point. The state machine says what one session and its log do; the imperative driver is proved to be one of
    its runs, and to end. */
module NvcfDriver {
  import opened Text
  import opened OrderedDict
  import opened NvcfWorker
  import opened NvcfProgress

  /** Everything that survives a session is in `text`; `fulfilled` and `appended` are its history. */
  datatype World = World(
    pending: seq<Job>,
    slots: seq<Slot>,
    unsaved: Option<string>,
    alive: bool,
    text: string,
    initial: seq<Job>,
    started: seq<Job>,
    launches: seq<string>,
    gaveUp: seq<string>,
    finishedAtStart: set<string>,
    base: nat,
    fulfilled: seq<string>,
    appended: seq<string>)

  datatype Event =
    | Assign(worker: nat, id: Option<ReqId>)
    | Poll(worker: nat, status: Status, relaunch: Option<ReqId>)
    | PollRaises(worker: nat)
    | Save
    | Restart(inputs: seq<(string, string)>, workers: nat)

  function Inputs(jobs: seq<Job>): (p: seq<string>)
    ensures |p| == |jobs| && forall k :: 0 <= k < |p| ==> p[k] == jobs[k].input
  {
    seq(|jobs|, k requires 0 <= k < |jobs| => jobs[k].input)
  }

  function JobsOf(list: JobList): (jobs: seq<Job>)
    ensures |jobs| == |list| && forall k :: 0 <= k < |jobs| ==> jobs[k] == list[k].value
  {
    seq(|list|, k requires 0 <= k < |list| => list[k].value)
  }

  /** The job list a session starts with. */
  function Listed(inputs: seq<(string, string)>, text: string): seq<Job> {
    JobsOf(FromItems(JobWrites(inputs, Entries(Lines(text)))))
  }

  predicate Enabled(w: World, ev: Event) {
    match ev
    case Assign(k, id) => w.alive && w.unsaved.None? && k < |w.slots| && w.slots[k].Idle? && w.pending != []
    case Poll(k, status, relaunch) =>
      && w.alive && w.unsaved.None? && k < |w.slots| && w.slots[k].Busy? && w.slots[k].reqId.Some?
    case PollRaises(k) => w.alive && w.unsaved.None? && k < |w.slots| && w.slots[k].Busy?
    case Save => w.alive && w.unsaved.Some?
    case Restart(_, _) => true
  }

  /** An idle worker takes the first pending job; the session dies if its submission raises. */
  function AssignStep(w: World, k: nat, id: Option<ReqId>): World
    requires Enabled(w, Assign(k, id))
  {
    var job := w.pending[0];
    w.(pending := w.pending[1..], slots := w.slots[k := Busy(job, id, 0)], started := w.started + [job],
       launches := w.launches + [job.input], alive := id.Some?)
  }

  function PollStep(w: World, k: nat, status: Status, relaunch: Option<ReqId>): World
    requires Enabled(w, Poll(k, status, relaunch))
  {
    var slot := w.slots[k];
    var after := w.(slots := w.slots[k := AfterPoll(slot, status, relaunch)]);
    if Relaunches(slot, status) then after.(launches := w.launches + [slot.job.input], alive := relaunch.Some?)
    else match PollState(slot, status)
      case Running => after
      case Succeeded => after.(unsaved := Some(slot.job.input), fulfilled := w.fulfilled + [slot.job.input])
      case GaveUp => after.(gaveUp := w.gaveUp + [slot.job.input])
  }

  function SaveStep(w: World): World
    requires Enabled(w, Save)
  {
    var p := w.unsaved.value;
    w.(unsaved := None, text := w.text + LogLine(p), appended := w.appended + [p])
  }

  /** A session is abandoned wherever it is, and a new one reads the log. */
  function RestartStep(w: World, inputs: seq<(string, string)>, workers: nat): World {
    var jobs := Listed(inputs, w.text);
    World(jobs, seq(workers, i => Idle), None, true, w.text, jobs, [], [], [], Entries(Lines(w.text)), |w.appended|,
          w.fulfilled, w.appended)
  }

  function Apply(w: World, ev: Event): World
    requires Enabled(w, ev)
  {
    match ev
    case Assign(k, id) => AssignStep(w, k, id)
    case Poll(k, status, relaunch) => PollStep(w, k, status, relaunch)
    case PollRaises(k) => w.(alive := false)
    case Save => SaveStep(w)
    case Restart(inputs, workers) => RestartStep(w, inputs, workers)
  }

  /** The state after the events, if each was possible. */
  function Run(w: World, events: seq<Event>): Option<World> {
    if events == [] then Some(w)
    else
      var n := |events| - 1;
      match Run(w, events[..n])
      case None => None
      case Some(v) => if Enabled(v, events[n]) then Some(Apply(v, events[n])) else None
  }

  lemma RunAppend(w: World, events: seq<Event>, ev: Event)
    ensures Run(w, events + [ev])
         == match Run(w, events) case None => None case Some(v) => if Enabled(v, ev) then Some(Apply(v, ev)) else None
  {
    assert (events + [ev])[..|events|] == events;
  }

  // ---- Counting ----

  /** How often `p` occurs. */
  function Count(s: seq<string>, p: string): nat {
    if s == [] then 0 else Count(s[..|s| - 1], p) + if s[|s| - 1] == p then 1 else 0
  }

  lemma {:induction false} CountAppend(a: seq<string>, b: seq<string>, p: string)
    ensures Count(a + b, p) == Count(a, p) + Count(b, p)
  {
    if b == [] {
      assert a + b == a;
    } else {
      assert (a + b)[..|a + b| - 1] == a + b[..|b| - 1];
      CountAppend(a, b[..|b| - 1], p);
    }
  }

  lemma CountSnoc(s: seq<string>, q: string, p: string)
    ensures Count(s + [q], p) == Count(s, p) + if q == p then 1 else 0
  {
    assert (s + [q])[..|s|] == s;
  }

  lemma {:induction false} CountIn(s: seq<string>, p: string)
    ensures Count(s, p) > 0 <==> p in s
  {
    if s != [] {
      var n := |s| - 1;
      CountIn(s[..n], p);
      assert s == s[..n] + [s[n]];
    }
  }

  function Holds(slot: Slot, p: string): nat {
    if slot.Busy? && slot.job.input == p then 1 else 0
  }

  /** How many workers hold `p`. */
  function Holders(slots: seq<Slot>, p: string): nat {
    if slots == [] then 0 else Holders(slots[..|slots| - 1], p) + Holds(slots[|slots| - 1], p)
  }

  lemma {:induction false} HoldersSet(slots: seq<Slot>, k: nat, slot: Slot, p: string)
    requires k < |slots|
    ensures Holders(slots[k := slot], p) == Holders(slots, p) - Holds(slots[k], p) + Holds(slot, p)
  {
    var n := |slots| - 1;
    if k == n {
      assert slots[k := slot][..n] == slots[..n];
    } else {
      assert slots[k := slot][..n] == slots[..n][k := slot];
      HoldersSet(slots[..n], k, slot, p);
    }
  }

  lemma {:induction false} NoHolders(slots: seq<Slot>, p: string)
    requires forall k :: 0 <= k < |slots| ==> slots[k] == Idle
    ensures Holders(slots, p) == 0
  {
    if slots != [] { NoHolders(slots[..|slots| - 1], p); }
  }

  lemma TwoHolders(slots: seq<Slot>, i: nat, j: nat, p: string)
    requires i < j < |slots| && Holds(slots[i], p) == 1 && Holds(slots[j], p) == 1
    ensures Holders(slots, p) >= 2
  {
    HoldersSet(slots, j, Idle, p);
    HoldersSet(slots[j := Idle], i, Idle, p);
  }

  function Once(p: Option<string>, q: string): nat {
    if p == Some(q) then 1 else 0
  }

  // ---- The invariant ----

  /** The inputs this session has recorded. */
  function Recorded(w: World): seq<string> {
    if w.base <= |w.appended| then w.appended[w.base..] else []
  }

  /** Every started job is held by a worker, or about to be recorded, or recorded, or given up. */
  ghost predicate Conserved(w: World, p: string) {
    Count(Inputs(w.started), p)
    == Holders(w.slots, p) + Once(w.unsaved, p) + Count(Recorded(w), p) + Count(w.gaveUp, p)
  }

  /** The jobs of a session are distinct, and none was finished when it began. */
  ghost predicate ListedOnce(w: World, p: string) {
    && Count(Inputs(w.initial), p) == Count(Inputs(w.started), p) + Count(Inputs(w.pending), p)
    && Count(Inputs(w.initial), p) <= (if p in w.finishedAtStart then 0 else 1)
  }

  /** Nothing is launched more than five times, nothing is given up before its fifth launch, and nothing is launched
      that has not started. */
  ghost predicate LaunchedFewTimes(w: World, p: string) {
    && Count(w.launches, p) <= NUM_RETRIES
    && (Count(w.gaveUp, p) > 0 ==> Count(w.launches, p) == NUM_RETRIES)
    && (Count(w.launches, p) > 0 ==> Count(Inputs(w.started), p) > 0)
  }

  /** What is appended was fulfilled; and a clean input is appended at most once, and read back from then on. */
  ghost predicate LogOk(w: World, p: string) {
    && w.base <= |w.appended|
    && Count(w.appended, p) + Once(w.unsaved, p) <= Count(w.fulfilled, p)
    && (Clean(p) ==>
          && Count(w.appended, p) <= 1
          && (Count(w.appended, p) > 0 ==> p in Entries(Lines(w.text)))
          && (Count(w.appended[..w.base], p) > 0 ==> p in w.finishedAtStart))
  }

  /** A held job has been launched once more than it has been rerun. */
  ghost predicate HolderOk(w: World, k: nat)
    requires k < |w.slots|
  {
    var slot := w.slots[k];
    slot.Busy? ==> Count(w.launches, slot.job.input) == slot.reruns + 1 <= NUM_RETRIES && (w.alive ==> slot.reqId.Some?)
  }

  ghost predicate InputOk(w: World, p: string) {
    Conserved(w, p) && ListedOnce(w, p) && LaunchedFewTimes(w, p) && LogOk(w, p)
  }

  ghost predicate Inv(w: World) {
    && w.initial == w.started + w.pending && LineEnded(w.text)
    && (forall p: string :: InputOk(w, p))
    && (forall k: nat :: k < |w.slots| ==> HolderOk(w, k))
  }

  // ---- Every event keeps it ----

  lemma InputsAppend(a: seq<Job>, b: seq<Job>)
    ensures Inputs(a + b) == Inputs(a) + Inputs(b)
  {
  }

  /** An input held, being recorded, recorded or given up is so just once, and is not pending. */
  lemma OnePlace(w: World, p: string)
    requires Conserved(w, p) && ListedOnce(w, p)
    ensures Holders(w.slots, p) + Once(w.unsaved, p) + Count(Recorded(w), p) + Count(w.gaveUp, p) +
      Count(Inputs(w.pending), p) <= 1
  {
  }

  /** Two workers never hold the same input. */
  lemma WorkersDiffer(w: World, i: nat, j: nat)
    requires Inv(w) && i < j < |w.slots| && w.slots[i].Busy? && w.slots[j].Busy?
    ensures w.slots[i].job.input != w.slots[j].job.input
  {
    var p := w.slots[i].job.input;
    assert InputOk(w, p);
    if w.slots[j].job.input == p { TwoHolders(w.slots, i, j, p); }
  }

  lemma HeldIsStarted(w: World, k: nat)
    requires k < |w.slots| && w.slots[k].Busy? && InputOk(w, w.slots[k].job.input)
    ensures Count(Inputs(w.started), w.slots[k].job.input) > 0
    ensures Count(Inputs(w.pending), w.slots[k].job.input) == 0
  {
    HoldersSet(w.slots, k, Idle, w.slots[k].job.input);
  }

  lemma PendingMoves(started: seq<Job>, pending: seq<Job>, p: string)
    requires pending != []
    ensures Count(Inputs(started + [pending[0]]), p) ==
      Count(Inputs(started), p) + if pending[0].input == p then 1 else 0
    ensures Count(Inputs(pending[1..]), p) == Count(Inputs(pending), p) - if pending[0].input == p then 1 else 0
  {
    InputsAppend(started, [pending[0]]);
    CountSnoc(Inputs(started), pending[0].input, p);
    assert pending == [pending[0]] + pending[1..];
    InputsAppend([pending[0]], pending[1..]);
    CountAppend([pending[0].input], Inputs(pending[1..]), p);
    assert Inputs([pending[0]]) == [pending[0].input];
    CountSnoc([], pending[0].input, p);
    assert [] + [pending[0].input] == [pending[0].input];
  }

  lemma AssignInput(w: World, k: nat, id: Option<ReqId>, p: string)
    requires InputOk(w, p) && Enabled(w, Assign(k, id))
    ensures InputOk(AssignStep(w, k, id), p)
  {
    var job := w.pending[0];
    HoldersSet(w.slots, k, Busy(job, id, 0), p);
    PendingMoves(w.started, w.pending, p);
    CountSnoc(w.launches, job.input, p);
  }

  lemma AssignHolders(w: World, k: nat, id: Option<ReqId>, j: nat)
    requires Inv(w) && Enabled(w, Assign(k, id)) && j < |w.slots|
    ensures HolderOk(AssignStep(w, k, id), j)
  {
    var job := w.pending[0];
    assert HolderOk(w, j);
    PendingMoves(w.started, w.pending, job.input);
    assert InputOk(w, job.input);
    if j == k {
      CountSnoc(w.launches, job.input, job.input);
    } else if w.slots[j].Busy? {
      assert InputOk(w, w.slots[j].job.input);
      HeldIsStarted(w, j);
      CountSnoc(w.launches, job.input, w.slots[j].job.input);
    }
  }

  lemma RelaunchInput(w: World, k: nat, relaunch: Option<ReqId>, p: string)
    requires k < |w.slots| && w.slots[k].Busy? && w.unsaved.None? && w.slots[k].reruns + 1 < NUM_RETRIES
    requires InputOk(w, p) && HolderOk(w, k) && InputOk(w, w.slots[k].job.input)
    ensures
      var slot := w.slots[k];
      InputOk(w.(slots := w.slots[k := Busy(slot.job, relaunch, slot.reruns + 1)],
                 launches := w.launches + [slot.job.input], alive := relaunch.Some?), p)
  {
    var slot := w.slots[k];
    HoldersSet(w.slots, k, Busy(slot.job, relaunch, slot.reruns + 1), p);
    HeldIsStarted(w, k);
    CountSnoc(w.launches, slot.job.input, p);
    LogStays(w, w.(slots := w.slots[k := Busy(slot.job, relaunch, slot.reruns + 1)],
                   launches := w.launches + [slot.job.input], alive := relaunch.Some?), p);
  }

  lemma SucceedInput(w: World, k: nat, p: string)
    requires k < |w.slots| && w.slots[k].Busy? && w.unsaved.None? && InputOk(w, p)
    ensures
      var input := w.slots[k].job.input;
      InputOk(w.(slots := w.slots[k := Idle], unsaved := Some(input), fulfilled := w.fulfilled + [input]), p)
  {
    var input := w.slots[k].job.input;
    var w' := w.(slots := w.slots[k := Idle], unsaved := Some(input), fulfilled := w.fulfilled + [input]);
    HoldersSet(w.slots, k, Idle, p);
    CountSnoc(w.fulfilled, input, p);
    LogStays(w, w', p);
    CountsStay(w, w', p);
  }

  /** An input that goes from a worker to the one about to be recorded is counted as before. */
  lemma CountsStay(w: World, w': World, p: string)
    requires Conserved(w, p) && ListedOnce(w, p) && LaunchedFewTimes(w, p)
    requires w'.initial == w.initial && w'.started == w.started && w'.pending == w.pending
    requires w'.finishedAtStart == w.finishedAtStart && w'.launches == w.launches && w'.gaveUp == w.gaveUp
    requires w'.appended == w.appended && w'.base == w.base
    requires Holders(w'.slots, p) + Once(w'.unsaved, p) == Holders(w.slots, p) + Once(w.unsaved, p)
    ensures Conserved(w', p) && ListedOnce(w', p) && LaunchedFewTimes(w', p)
  {
    assert Recorded(w') == Recorded(w);
  }

  lemma GiveUpInput(w: World, k: nat, p: string)
    requires k < |w.slots| && w.slots[k].Busy? && w.slots[k].reruns + 1 >= NUM_RETRIES && HolderOk(w, k)
    requires InputOk(w, p)
    ensures InputOk(w.(slots := w.slots[k := Idle], gaveUp := w.gaveUp + [w.slots[k].job.input]), p)
  {
    var w' := w.(slots := w.slots[k := Idle], gaveUp := w.gaveUp + [w.slots[k].job.input]);
    HoldersSet(w.slots, k, Idle, p);
    CountSnoc(w.gaveUp, w.slots[k].job.input, p);
    LogStays(w, w', p);
    assert Conserved(w', p) && ListedOnce(w', p) && LaunchedFewTimes(w', p);
  }

  /** The four ways a poll can go. */
  lemma PollCases(w: World, k: nat, status: Status, relaunch: Option<ReqId>)
    requires Enabled(w, Poll(k, status, relaunch))
    ensures
      var slot := w.slots[k];
      PollStep(w, k, status, relaunch) ==
        if Relaunches(slot, status) then w.(slots := w.slots[k := Busy(slot.job, relaunch, slot.reruns + 1)],
                                            launches := w.launches + [slot.job.input], alive := relaunch.Some?)
        else if status.InProgress? then w
        else if status.Fulfilled? then w.(slots := w.slots[k := Idle], unsaved := Some(slot.job.input),
                                          fulfilled := w.fulfilled + [slot.job.input])
        else w.(slots := w.slots[k := Idle], gaveUp := w.gaveUp + [slot.job.input])
  {
    assert w.slots[k := w.slots[k]] == w.slots;
  }

  lemma PollInput(w: World, k: nat, status: Status, relaunch: Option<ReqId>, p: string)
    requires Enabled(w, Poll(k, status, relaunch)) && InputOk(w, p) && HolderOk(w, k)
    requires InputOk(w, w.slots[k].job.input)
    ensures InputOk(PollStep(w, k, status, relaunch), p)
  {
    PollCases(w, k, status, relaunch);
    if Relaunches(w.slots[k], status) {
      RelaunchInput(w, k, relaunch, p);
    } else if status.Fulfilled? {
      SucceedInput(w, k, p);
    } else if !status.InProgress? {
      GiveUpInput(w, k, p);
    }
  }

  /** What leaves the log alone, and counts what is to be recorded as fulfilled, keeps the log right. */
  lemma LogStays(w: World, w': World, p: string)
    requires LogOk(w, p) && w'.base == w.base && w'.text == w.text && w'.appended == w.appended
    requires w'.finishedAtStart == w.finishedAtStart
    requires Count(w'.fulfilled, p) - Count(w.fulfilled, p) == Once(w'.unsaved, p) - Once(w.unsaved, p)
    ensures LogOk(w', p)
  {
  }

  lemma PollHolders(w: World, k: nat, status: Status, relaunch: Option<ReqId>, j: nat)
    requires Inv(w) && Enabled(w, Poll(k, status, relaunch)) && j < |w.slots|
    ensures HolderOk(PollStep(w, k, status, relaunch), j)
  {
    var input := w.slots[k].job.input;
    assert HolderOk(w, j) && HolderOk(w, k);
    if j == k {
      CountSnoc(w.launches, input, input);
    } else if w.slots[j].Busy? {
      if j < k { WorkersDiffer(w, j, k); } else { WorkersDiffer(w, k, j); }
      CountSnoc(w.launches, input, w.slots[j].job.input);
    }
  }

  /** Recording an input keeps all that the log held, and adds a clean input. */
  lemma SavedReads(text: string, q: string, p: string)
    requires LineEnded(text)
    ensures p in Entries(Lines(text)) || (p == q && Clean(q)) ==> p in Entries(Lines(text + LogLine(q)))
  {
    RecordReads(text, q);
    AppendReads(text, q);
  }

  lemma SaveCounts(w: World, p: string)
    requires w.unsaved.Some? && w.base <= |w.appended|
    ensures
      var appended := w.appended + [w.unsaved.value];
      && Count(appended, p) == Count(w.appended, p) + Once(w.unsaved, p)
      && Count(appended[w.base..], p) == Count(Recorded(w), p) + Once(w.unsaved, p)
      && Count(w.appended, p) == Count(w.appended[..w.base], p) + Count(Recorded(w), p)
      && appended[..w.base] == w.appended[..w.base]
  {
    var q, appended := w.unsaved.value, w.appended + [w.unsaved.value];
    CountSnoc(w.appended, q, p);
    CountSnoc(Recorded(w), q, p);
    assert appended[w.base..] == Recorded(w) + [q];
    assert w.appended == w.appended[..w.base] + Recorded(w);
    CountAppend(w.appended[..w.base], Recorded(w), p);
  }

  /** A clean input is recorded for the first time. */
  lemma SaveLog(w: World, p: string)
    requires InputOk(w, p) && Enabled(w, Save) && LineEnded(w.text)
    ensures LogOk(SaveStep(w), p)
  {
    SaveCounts(w, p);
    OnePlace(w, p);
    SavedReads(w.text, w.unsaved.value, p);
  }

  lemma SaveInput(w: World, p: string)
    requires InputOk(w, p) && Enabled(w, Save) && LineEnded(w.text)
    ensures InputOk(SaveStep(w), p)
  {
    SaveCounts(w, p);
    SaveLog(w, p);
    assert Conserved(SaveStep(w), p);
  }

  lemma RestartInput(w: World, inputs: seq<(string, string)>, workers: nat, p: string)
    requires LogOk(w, p)
    ensures InputOk(RestartStep(w, inputs, workers), p)
  {
    var w', finished := RestartStep(w, inputs, workers), Entries(Lines(w.text));
    var list := FromItems(JobWrites(inputs, finished));
    JobListSpec(inputs, finished);
    NoHolders(w'.slots, p);
    assert Recorded(w') == [] && w'.appended[..w'.base] == w.appended;
    KeysOnce(list, JobsOf(list), p);
    if p in finished { CountIn(Inputs(w'.initial), p); }
    assert Inputs([]) == [];
  }

  lemma {:induction false} KeysOnce(list: JobList, jobs: seq<Job>, p: string)
    requires DistinctKeys(list) && |jobs| == |list|
    requires forall k :: 0 <= k < |list| ==> list[k].key == jobs[k].input
    ensures Count(Inputs(jobs), p) <= 1
    ensures Count(Inputs(jobs), p) > 0 ==> exists k :: 0 <= k < |list| && list[k].key == p
  {
    if list != [] {
      var n := |list| - 1;
      KeysOnce(list[..n], jobs[..n], p);
      assert jobs == jobs[..n] + [jobs[n]];
      InputsAppend(jobs[..n], [jobs[n]]);
      assert Inputs([jobs[n]]) == [jobs[n].input];
      CountSnoc(Inputs(jobs[..n]), jobs[n].input, p);
    }
  }

  lemma AssignKeeps(w: World, k: nat, id: Option<ReqId>)
    requires Inv(w) && Enabled(w, Assign(k, id))
    ensures Inv(AssignStep(w, k, id))
  {
    var w' := AssignStep(w, k, id);
    forall p: string ensures InputOk(w', p) { AssignInput(w, k, id, p); }
    forall j: nat | j < |w'.slots| ensures HolderOk(w', j) { AssignHolders(w, k, id, j); }
    assert w.pending == [w.pending[0]] + w.pending[1..];
  }

  lemma PollKeeps(w: World, k: nat, status: Status, relaunch: Option<ReqId>)
    requires Inv(w) && Enabled(w, Poll(k, status, relaunch))
    ensures Inv(PollStep(w, k, status, relaunch))
  {
    var w' := PollStep(w, k, status, relaunch);
    assert HolderOk(w, k);
    forall p: string ensures InputOk(w', p) { PollInput(w, k, status, relaunch, p); }
    forall j: nat | j < |w'.slots| ensures HolderOk(w', j) { PollHolders(w, k, status, relaunch, j); }
  }

  lemma SaveKeeps(w: World)
    requires Inv(w) && Enabled(w, Save)
    ensures Inv(SaveStep(w))
  {
    var w' := SaveStep(w);
    forall p: string ensures InputOk(w', p) { SaveInput(w, p); }
    forall j: nat | j < |w'.slots| ensures HolderOk(w', j) { assert HolderOk(w, j); }
    AppendReads(w.text, w.unsaved.value);
  }

  lemma RaiseKeeps(w: World)
    requires Inv(w)
    ensures Inv(w.(alive := false))
  {
    var w' := w.(alive := false);
    forall p: string ensures InputOk(w', p) { assert InputOk(w, p); }
    forall j: nat | j < |w'.slots| ensures HolderOk(w', j) { assert HolderOk(w, j); }
  }

  lemma RestartKeeps(w: World, inputs: seq<(string, string)>, workers: nat)
    requires LineEnded(w.text) && forall p: string :: LogOk(w, p)
    ensures Inv(RestartStep(w, inputs, workers))
  {
    forall p: string ensures InputOk(RestartStep(w, inputs, workers), p) { RestartInput(w, inputs, workers, p); }
  }

  lemma EveryEventKeeps(w: World, ev: Event)
    requires Inv(w) && Enabled(w, ev)
    ensures Inv(Apply(w, ev))
  {
    match ev
    case Assign(k, id) => AssignKeeps(w, k, id);
    case Poll(k, status, relaunch) => PollKeeps(w, k, status, relaunch);
    case PollRaises(k) => RaiseKeeps(w);
    case Save => SaveKeeps(w);
    case Restart(inputs, workers) =>
      forall p: string ensures LogOk(w, p) { assert InputOk(w, p); }
      RestartKeeps(w, inputs, workers);
  }

  /** A log of earlier runs, before the first session. */
  function Before(text: string): World {
    World([], [], None, false, text, [], [], [], [], {}, 0, [], [])
  }

  /** The invariant holds in every state of every sequence of sessions, however each one is cut short. */
  lemma {:induction false} EveryRun(text: string, events: seq<Event>)
    requires LineEnded(text) && Run(Before(text), events).Some?
    ensures Inv(Run(Before(text), events).value)
  {
    if events == [] {
      assert Inputs([]) == [] && Recorded(Before(text)) == [];
      forall p: string ensures InputOk(Before(text), p) { }
    } else {
      var n := |events| - 1;
      EveryRun(text, events[..n]);
      EveryEventKeeps(Run(Before(text), events[..n]).value, events[n]);
    }
  }
}
