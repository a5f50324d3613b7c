/** What the driver's invariant means for whole histories of sessions, and the driver itself as a loop over worker
    objects. */
module NvcfMain {
  import opened Text
  import opened OrderedDict
  import opened NvcfWorker
  import opened NvcfProgress
  import opened NvcfDriver

  // ---- Crash and restart safety ----

  /** The lines appended for a list of inputs. */
  function LogText(appended: seq<string>): string {
    if appended == [] then [] else LogText(appended[..|appended| - 1]) + (appended[|appended| - 1] + ['\n'])
  }

  lemma LogTextSnoc(text: string, appended: seq<string>, p: string)
    ensures text + LogText(appended + [p]) == (text + LogText(appended)) + LogLine(p)
  {
    assert (appended + [p])[..|appended|] == appended;
  }

  /** Only recording changes the file. */
  lemma LogStep(w: World, ev: Event)
    requires Enabled(w, ev)
    ensures !ev.Save? ==> Apply(w, ev).text == w.text && Apply(w, ev).appended == w.appended
    ensures ev.Save? ==> w.unsaved.Some? && Apply(w, ev).text == w.text + LogLine(w.unsaved.value)
    ensures ev.Save? ==> Apply(w, ev).appended == w.appended + [w.unsaved.value]
  {
  }

  /** Over any sessions the progress file is the file there was, followed by one line per recorded input. */
  lemma {:induction false} FileGrows(text: string, events: seq<Event>)
    requires Run(Before(text), events).Some?
    ensures
      var w := Run(Before(text), events).value;
      w.text == text + LogText(w.appended)
  {
    if events == [] {
      assert text + LogText([]) == text;
    } else {
      var n := |events| - 1;
      FileGrows(text, events[..n]);
      var v := Run(Before(text), events[..n]).value;
      LogStep(v, events[n]);
      if events[n].Save? { LogTextSnoc(text, v.appended, v.unsaved.value); }
    }
  }

  /** What is recorded was fulfilled; a clean input is recorded at most once, however often sessions are restarted. */
  lemma RecordedOnce(text: string, events: seq<Event>, p: string)
    requires LineEnded(text) && Run(Before(text), events).Some?
    ensures
      var w := Run(Before(text), events).value;
      Count(w.appended, p) <= Count(w.fulfilled, p) && (Clean(p) ==> Count(w.appended, p) <= 1)
  {
    EveryRun(text, events);
    assert InputOk(Run(Before(text), events).value, p);
  }

  lemma {:induction false} SessionKeeps(w: World, events: seq<Event>)
    requires Run(w, events).Some? && forall k :: 0 <= k < |events| ==> !events[k].Restart?
    ensures Run(w, events).value.finishedAtStart == w.finishedAtStart && Run(w, events).value.initial == w.initial
  {
    if events != [] {
      var n := |events| - 1;
      SessionKeeps(w, events[..n]);
      assert !events[n].Restart?;
    }
  }

  lemma {:induction false} InvKeeps(w: World, events: seq<Event>)
    requires Inv(w) && Run(w, events).Some?
    ensures Inv(Run(w, events).value)
  {
    if events != [] {
      var n := |events| - 1;
      InvKeeps(w, events[..n]);
      EveryEventKeeps(Run(w, events[..n]).value, events[n]);
    }
  }

  /** In a session no input is launched that the progress file named when the session began, none more than five
      times, none is given up before its fifth launch, and jobs start in the order of the job list. */
  lemma SessionLaunches(w: World, inputs: seq<(string, string)>, workers: nat, events: seq<Event>, p: string)
    requires Inv(w) && Run(RestartStep(w, inputs, workers), events).Some?
    requires forall k :: 0 <= k < |events| ==> !events[k].Restart?
    ensures
      var v := Run(RestartStep(w, inputs, workers), events).value;
      && (p in Entries(Lines(w.text)) ==> Count(v.launches, p) == 0)
      && Count(v.launches, p) <= 5
      && (Count(v.gaveUp, p) > 0 ==> Count(v.launches, p) == 5)
      && Listed(inputs, w.text) == v.started + v.pending
  {
    var first := RestartStep(w, inputs, workers);
    EveryEventKeeps(w, Restart(inputs, workers));
    InvKeeps(first, events);
    SessionKeeps(first, events);
    assert InputOk(Run(first, events).value, p);
  }

  /** Every job of a session is pending, held by a worker, about to be recorded, recorded or given up: exactly one of
      these. */
  lemma OneFate(w: World, inputs: seq<(string, string)>, workers: nat, events: seq<Event>, p: string)
    requires Inv(w) && Run(RestartStep(w, inputs, workers), events).Some?
    requires forall k :: 0 <= k < |events| ==> !events[k].Restart?
    requires p in Inputs(Listed(inputs, w.text))
    ensures
      var v := Run(RestartStep(w, inputs, workers), events).value;
      Count(Inputs(v.pending), p) + Holders(v.slots, p) + Once(v.unsaved, p) + Count(Recorded(v), p) +
        Count(v.gaveUp, p) == 1
  {
    var first := RestartStep(w, inputs, workers);
    EveryEventKeeps(w, Restart(inputs, workers));
    InvKeeps(first, events);
    SessionKeeps(first, events);
    assert InputOk(Run(first, events).value, p);
    CountIn(Inputs(Listed(inputs, w.text)), p);
  }

  lemma ListedInputs(inputs: seq<(string, string)>, text: string, p: string)
    ensures p in Inputs(Listed(inputs, text)) <==>
              p !in Entries(Lines(text)) && exists k :: 0 <= k < |inputs| && inputs[k].0 == p
  {
    var list := FromItems(JobWrites(inputs, Entries(Lines(text))));
    JobListSpec(inputs, Entries(Lines(text)));
    var jobs := Listed(inputs, text);
    if p in Inputs(jobs) {
      var k :| 0 <= k < |jobs| && Inputs(jobs)[k] == p;
      assert list[k] in list && list[k].key == p;
      assert Has(list, p);
    }
    if Has(list, p) {
      var k := Find(list, p);
      assert list[k] in list && Inputs(jobs)[k] == p;
    }
  }

  /** After an input is recorded, the next session lists it again exactly when its path is not clean: blank, padded,
      or with a line break. */
  lemma ListedAgainIffNotClean(text: string, inputs: seq<(string, string)>, p: string)
    requires LineEnded(text) && exists k :: 0 <= k < |inputs| && inputs[k].0 == p
    ensures p in Inputs(Listed(inputs, text + LogLine(p))) <==> !Clean(p)
    ensures p in Inputs(Listed(inputs, text + LogLine(p))) <==>
              |p| == 0 || White(p[0]) || White(p[|p| - 1]) || '\n' in p || '\r' in p
  {
    if |p| > 0 {
      SpaceIsWhite(p[0]);
      SpaceIsWhite(p[|p| - 1]);
    }
    ListedInputs(inputs, text + LogLine(p), p);
    RecordReads(text, p);
  }

  // ---- The driver ----

  /** Work left: seven for a pending job, and for a held one six less its reruns. */
  function WorkOf(slot: Slot): nat {
    if slot.Idle? then 0 else if slot.reruns < 5 then 6 - slot.reruns else 1
  }

  function Work(slots: seq<Slot>): nat {
    if slots == [] then 0 else Work(slots[..|slots| - 1]) + WorkOf(slots[|slots| - 1])
  }

  lemma {:induction false} WorkSet(slots: seq<Slot>, k: nat, slot: Slot)
    requires k < |slots|
    ensures Work(slots[k := slot]) == Work(slots) - WorkOf(slots[k]) + WorkOf(slot)
  {
    var n := |slots| - 1;
    if k == n {
      assert slots[k := slot][..n] == slots[..n];
    } else {
      assert slots[k := slot][..n] == slots[..n][k := slot];
      WorkSet(slots[..n], k, slot);
    }
  }

  function Left(w: World): nat {
    7 * |w.pending| + Work(w.slots)
  }

  /** Less work, or as much work and less patience. */
  predicate Less(left: nat, patience: nat, left0: nat, patience0: nat) {
    left < left0 || (left == left0 && patience < patience0)
  }

  /** A session between two visits: alive, with nothing left to record. */
  ghost predicate Ready(w: World) {
    Inv(w) && w.alive && w.unsaved.None?
  }

  /** The two states belong to one session. */
  predicate SameSession(w: World, w': World) {
    w'.initial == w.initial && w'.base == w.base
  }

  /** One event of a run, seen from its end. */
  lemma Extends(w0: World, events: seq<Event>, w: World, ev: Event)
    requires Run(w0, events) == Some(w) && Inv(w) && Enabled(w, ev)
    ensures Run(w0, events + [ev]) == Some(Apply(w, ev)) && Inv(Apply(w, ev))
  {
    RunAppend(w0, events, ev);
    EveryEventKeeps(w, ev);
  }

  /** The body of the inner loop for an idle worker while jobs are pending. */
  method AssignNext(worker: Worker, k: nat, pending: seq<Job>, cli: Nvcf, ghost w0: World, ghost events: seq<Event>,
                    ghost w: World)
    returns (ok: bool, rest: seq<Job>, ghost more: seq<Event>, ghost w': World)
    requires worker.Valid() && k < |w.slots| && worker.View() == w.slots[k] == Idle
    requires Ready(w) && w.pending == pending && pending != [] && Run(w0, events) == Some(w)
    modifies worker, cli
    ensures worker.Valid() && w'.slots == w.slots[k := worker.View()] && w'.pending == rest && w'.text == w.text
    ensures SameSession(w, w') && Inv(w') && Run(w0, more) == Some(w') && (ok ==> Ready(w') && Left(w') < Left(w))
  {
    var job := pending[0];
    rest := pending[1..];
    ok := worker.AddJob(job, cli);
    ghost var ev := Assign(k, worker.reqId);
    Extends(w0, events, w, ev);
    more, w' := events + [ev], Apply(w, ev);
    WorkSet(w.slots, k, w'.slots[k]);
  }

  /** ... and for a busy one: poll it, and record its input if it succeeded. */
  method PollWorker(worker: Worker, k: nat, text: string, cli: Nvcf, ghost w0: World, ghost events: seq<Event>,
                    ghost w: World)
    returns (ok: bool, text': string, ghost more: seq<Event>, ghost w': World)
    requires worker.Valid() && k < |w.slots| && worker.View() == w.slots[k] && w.slots[k].Busy?
    requires Ready(w) && w.text == text && Run(w0, events) == Some(w)
    modifies worker, cli
    ensures worker.Valid() && w'.slots == w.slots[k := worker.View()] && w'.pending == w.pending && w'.text == text'
    ensures SameSession(w, w') && Inv(w') && Run(w0, more) == Some(w')
    ensures ok ==> Ready(w') && Less(Left(w'), cli.patience, Left(w), old(cli.patience))
  {
    assert HolderOk(w, k);
    text' := text;
    var state, input;
    ghost var status;
    ok, state, input, status := worker.PollJob(cli);
    ghost var ev := if status.None? then PollRaises(k) else Poll(k, status.value, worker.reqId);
    PollEvent(w0, events, w, k, ev);
    more, w' := events + [ev], Apply(w, ev);
    if status.None? {
      assert w.slots[k := w.slots[k]] == w.slots;
    } else {
      PollCases(w, k, status.value, worker.reqId);
      WorkSet(w.slots, k, w'.slots[k]);
    }
    if ok && state == Succeeded {
      text' := text + LogLine(input);
      Extends(w0, more, w', Save);
      more, w' := more + [Save], SaveStep(w');
    }
  }

  lemma PollEvent(w0: World, events: seq<Event>, w: World, k: nat, ev: Event)
    requires Run(w0, events) == Some(w) && Ready(w) && k < |w.slots| && w.slots[k].Busy?
    requires ev == PollRaises(k) || (ev.Poll? && ev.worker == k)
    ensures Enabled(w, ev) && Run(w0, events + [ev]) == Some(Apply(w, ev)) && Inv(Apply(w, ev))
  {
    assert HolderOk(w, k);
    Extends(w0, events, w, ev);
  }

  /** The worker objects do what the slots say, and no two of them are one. */
  ghost predicate Fleet(workers: seq<Worker>, slots: seq<Slot>)
    reads workers
  {
    && |workers| == |slots|
    && (forall i, j :: 0 <= i < j < |workers| ==> workers[i] != workers[j])
    && (forall k :: 0 <= k < |workers| ==> workers[k].Valid() && workers[k].View() == slots[k])
  }

  method AnyBusy(workers: seq<Worker>, ghost slots: seq<Slot>) returns (busy: bool)
    requires Fleet(workers, slots)
    ensures busy <==> exists k :: 0 <= k < |slots| && slots[k].Busy?
  {
    for k := 0 to |workers|
      invariant forall j :: 0 <= j < k ==> slots[j].Idle?
    {
      if workers[k].index.Some? { return true; }
    }
    busy := false;
  }

  /** A visit that does nothing finds an idle worker and no job. */
  ghost predicate Visited(w: World, patience: nat, k: nat, w': World, patience': nat) {
    || Less(Left(w'), patience', Left(w), patience)
    || (w' == w && patience' == patience && k < |w.slots| && w.slots[k].Idle? && w.pending == [])
  }

  lemma PassesOn(w: World, patience: nat, k: nat, w1: World, patience1: nat, w2: World, patience2: nat)
    requires Passed(w, patience, k, w1, patience1) && Visited(w1, patience1, k, w2, patience2)
    ensures Passed(w, patience, k + 1, w2, patience2)
  {
  }

  /** With something to do, a pass over all workers does something. */
  lemma PassDoesWork(w: World, patience: nat, w': World, patience': nat)
    requires Passed(w, patience, |w.slots|, w', patience') && w.slots != []
    requires w.pending != [] || exists k :: 0 <= k < |w.slots| && w.slots[k].Busy?
    ensures Less(Left(w'), patience', Left(w), patience)
  {
  }

  /** One pass of the inner loop's body. */
  method Visit(workers: seq<Worker>, k: nat, pending: seq<Job>, text: string, cli: Nvcf,
               ghost w0: World, ghost events: seq<Event>, ghost w: World)
    returns (ok: bool, rest: seq<Job>, text': string, ghost more: seq<Event>, ghost w': World)
    requires k < |workers| && Fleet(workers, w.slots)
    requires Ready(w) && w.pending == pending && w.text == text && Run(w0, events) == Some(w)
    modifies workers, cli
    ensures Fleet(workers, w'.slots) && w'.pending == rest && w'.text == text'
    ensures SameSession(w, w') && Inv(w') && Run(w0, more) == Some(w')
    ensures ok ==> Ready(w')
    ensures ok ==> Visited(w, old(cli.patience), k, w', cli.patience)
  {
    ok, rest, text', more, w' := true, pending, text, events, w;
    if workers[k].index.None? {
      if pending != [] {
        ok, rest, more, w' := AssignNext(workers[k], k, pending, cli, w0, events, w);
      }
    } else {
      ok, text', more, w' := PollWorker(workers[k], k, text, cli, w0, events, w);
    }
  }

  /** After `k` visits there is less to do, or nothing was done because those workers are idle and no job pends. */
  ghost predicate Passed(w: World, patience: nat, k: nat, w': World, patience': nat) {
    || Less(Left(w'), patience', Left(w), patience)
    || (w' == w && patience' == patience && (k > 0 ==> w.pending == [])
        && forall j :: 0 <= j < k && j < |w.slots| ==> w.slots[j].Idle?)
  }

  /** Visit every worker once. With a job pending or a worker busy, and at least one worker, this makes progress. */
  method VisitAll(workers: seq<Worker>, pending: seq<Job>, text: string, cli: Nvcf,
                  ghost w0: World, ghost events: seq<Event>, ghost w: World)
    returns (ok: bool, rest: seq<Job>, text': string, ghost more: seq<Event>, ghost w': World)
    requires Fleet(workers, w.slots) && workers != []
    requires Ready(w) && w.pending == pending && w.text == text && Run(w0, events) == Some(w)
    requires pending != [] || exists k :: 0 <= k < |w.slots| && w.slots[k].Busy?
    modifies workers, cli
    ensures Fleet(workers, w'.slots) && w'.pending == rest && w'.text == text'
    ensures SameSession(w, w') && Inv(w') && Run(w0, more) == Some(w')
    ensures ok ==> Ready(w') && Less(Left(w'), cli.patience, Left(w), old(cli.patience))
  {
    ok, rest, text', more, w' := true, pending, text, events, w;
    for k := 0 to |workers|
      invariant ok && Fleet(workers, w'.slots) && w'.pending == rest && w'.text == text'
      invariant SameSession(w, w') && Ready(w') && Run(w0, more) == Some(w')
      invariant Passed(w, old(cli.patience), k, w', cli.patience)
    {
      ghost var before, patience := w', cli.patience;
      ok, rest, text', more, w' := Visit(workers, k, rest, text', cli, w0, more, w');
      if !ok { return; }
      PassesOn(w, old(cli.patience), k, before, patience, w', cli.patience);
    }
    PassDoesWork(w, old(cli.patience), w', cli.patience);
  }

  /** When nothing is pending and nobody is busy, every job of a first session is recorded or given up. */
  lemma AllSettled(w: World, inputs: seq<(string, string)>, progress: string)
    requires Inv(w) && w.unsaved.None? && w.pending == [] && forall k :: 0 <= k < |w.slots| ==> w.slots[k].Idle?
    requires w.initial == Listed(inputs, progress) && w.base == 0
    ensures forall p :: p in Inputs(Listed(inputs, progress)) ==> Count(w.appended, p) + Count(w.gaveUp, p) == 1
  {
    assert Recorded(w) == w.appended && Inputs(w.pending) == [];
    forall p | p in Inputs(w.initial) ensures Count(w.appended, p) + Count(w.gaveUp, p) == 1 {
      assert InputOk(w, p);
      NoHolders(w.slots, p);
      CountIn(Inputs(w.initial), p);
    }
  }

  /** Jobs under their own inputs. */
  function ByInput(jobs: seq<Job>): (list: JobList)
    ensures |list| == |jobs| && forall k :: 0 <= k < |list| ==> list[k] == Entry(jobs[k].input, jobs[k])
  {
    seq(|jobs|, k requires 0 <= k < |jobs| => Entry(jobs[k].input, jobs[k]))
  }

  /** The session's jobs are those listed and not finished, in order; they start in that order, none is launched more
      than five times, and none is given up before its fifth launch. */
  ghost predicate SessionOf(w: World, inputs: seq<(string, string)>, progress: string) {
    && ListsJobs(inputs, Entries(Lines(progress)), ByInput(w.initial)) && w.initial == w.started + w.pending
    && forall p: string :: Count(w.launches, p) <= 5 && (Count(w.gaveUp, p) > 0 ==> Count(w.launches, p) == 5)
  }

  lemma SessionSays(w: World, inputs: seq<(string, string)>, progress: string)
    requires Inv(w) && w.initial == Listed(inputs, progress)
    ensures SessionOf(w, inputs, progress)
  {
    ListedSays(inputs, progress);
    forall p: string ensures Count(w.launches, p) <= 5 && (Count(w.gaveUp, p) > 0 ==> Count(w.launches, p) == 5) {
      assert InputOk(w, p);
    }
  }

  lemma ListedSays(inputs: seq<(string, string)>, progress: string)
    ensures ListsJobs(inputs, Entries(Lines(progress)), ByInput(Listed(inputs, progress)))
  {
    var list := FromItems(JobWrites(inputs, Entries(Lines(progress))));
    JobListSpec(inputs, Entries(Lines(progress)));
    forall k | 0 <= k < |list| ensures ByInput(Listed(inputs, progress))[k] == list[k] {
      assert list[k] in list;
    }
    assert ByInput(Listed(inputs, progress)) == list;
  }

  /** N jobs on X workers: run until nothing is pending and every worker is idle, or until a submission or a status
      check raises. Without a worker this ends only if there is no job. */
  method Operate(inputs: seq<(string, string)>, progress: string, workers: seq<Worker>, cli: Nvcf)
    returns (ok: bool, text: string, ghost events: seq<Event>, ghost w: World)
    requires LineEnded(progress) && Fleet(workers, seq(|workers|, i => Idle))
    requires workers != [] || Listed(inputs, progress) == []
    modifies workers, cli
    ensures Run(Before(progress), events) == Some(w) && text == progress + LogText(w.appended)
    ensures SessionOf(w, inputs, progress)
    ensures ok ==> forall k :: 0 <= k < |workers| ==> workers[k].Valid() && workers[k].View() == Idle
    ensures ok ==> forall p :: p in Inputs(Listed(inputs, progress)) ==> Count(w.appended, p) + Count(w.gaveUp, p) == 1
  {
    var list := BuildInputList(inputs, progress);
    var pending := JobsOf(list);
    text := progress;
    ok := true;
    ghost var w0 := Before(progress);
    events := [Restart(inputs, |workers|)];
    w := RestartStep(w0, inputs, |workers|);
    EveryRun(progress, []);
    Extends(w0, [], w0, Restart(inputs, |workers|));
    assert [] + events == events;
    ghost var first := w;
    var busy := AnyBusy(workers, w.slots);
    while pending != [] || busy
      invariant Fleet(workers, w.slots) && w.pending == pending && w.text == text
      invariant Ready(w) && Run(w0, events) == Some(w) && ok
      invariant busy <==> exists k :: 0 <= k < |w.slots| && w.slots[k].Busy?
      invariant workers == [] ==> pending == []
      invariant SameSession(first, w)
      decreases Left(w), cli.patience
    {
      ok, pending, text, events, w := VisitAll(workers, pending, text, cli, w0, events, w);
      if !ok {
        FileGrows(progress, events);
        SessionSays(w, inputs, progress);
        return;
      }
      busy := AnyBusy(workers, w.slots);
    }
    FileGrows(progress, events);
    SessionSays(w, inputs, progress);
    AllSettled(w, inputs, progress);
  }

  /** A driver with jobs and no worker never gets anywhere, whatever happens: that is why `Operate` asks for one. */
  lemma {:induction false} NoWorkerNoProgress(w: World, events: seq<Event>)
    requires w.slots == [] && w.unsaved.None? && Run(w, events).Some?
    requires forall k :: 0 <= k < |events| ==> !events[k].Restart?
    ensures Run(w, events) == Some(w)
  {
    if events != [] {
      var n := |events| - 1;
      NoWorkerNoProgress(w, events[..n]);
    }
  }
}
