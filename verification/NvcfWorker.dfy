/** `_Worker` of operate_nvcf_functions.py: one NVCF function that runs at most one job at a time. */
module NvcfWorker {
  import opened Text

  const NUM_RETRIES: nat := 5

  type ReqId = nat

  datatype Job = Job(index: int, input: string, output: string)

  datatype Status = InProgress | Failed | Fulfilled | NotFound

  datatype JobState = Running | Succeeded | GaveUp

  /** What a worker is doing. A job without a request id is one whose submission raised. */
  datatype Slot =
    | Idle
    | Busy(job: Job, reqId: Option<ReqId>, reruns: nat)

  /** The worker after a poll answered `status`; `relaunch` is the id a renewed submission gets, if it gets one. */
  function AfterPoll(slot: Slot, status: Status, relaunch: Option<ReqId>): Slot
    requires slot.Busy?
  {
    match status
    case InProgress => slot
    case Fulfilled => Idle
    case _ => if slot.reruns + 1 >= NUM_RETRIES then Idle else Busy(slot.job, relaunch, slot.reruns + 1)
  }

  /** What a poll reports. */
  function PollState(slot: Slot, status: Status): JobState
    requires slot.Busy?
  {
    match status
    case InProgress => Running
    case Fulfilled => Succeeded
    case _ => if slot.reruns + 1 >= NUM_RETRIES then GaveUp else Running
  }

  /** A poll that launches the job again. */
  predicate Relaunches(slot: Slot, status: Status) {
    slot.Busy? && (status.Failed? || status.NotFound?) && slot.reruns + 1 < NUM_RETRIES
  }

  /** Calls of the command line tool: an invocation with the valid request id it printed, if any; a blind
      termination; a status query with the status it printed, if any. */
  datatype Call = Invoked(id: Option<ReqId>) | Terminated | Polled(status: Option<Status>)

  /** The command line tool, answering as it likes. `patience` bounds the consecutive in-progress answers: it is
      chosen anew with every other answer, so the only promise is that a launched request ends eventually. */
  class Nvcf {
    var patience: nat
    ghost var calls: seq<Call>

    constructor ()
      ensures calls == []
    {
      calls := [];
    }

    method Invoke() returns (id: Option<ReqId>)
      modifies this
      ensures calls == old(calls) + [Invoked(id)]
    {
      var valid: bool := *;
      var number: int :| number >= 0;
      id := if valid then Some(number) else None;
      var more: int :| more >= 0;
      patience := more;
      calls := calls + [Invoked(id)];
    }

    method Terminate()
      modifies this`calls
      ensures calls == old(calls) + [Terminated]
    {
      calls := calls + [Terminated];
    }

    method Query() returns (status: Option<Status>)
      modifies this
      ensures calls == old(calls) + [Polled(status)]
      ensures status == Some(InProgress) ==> patience < old(patience)
      ensures status == None ==> patience == old(patience)
    {
      status :| status == Some(InProgress) ==> patience > 0;
      if status == Some(InProgress) {
        patience := patience - 1;
      } else if status.Some? {
        var more: int :| more >= 0;
        patience := more;
      }
      calls := calls + [Polled(status)];
    }
  }

  /** The calls of one launch: up to five invocations without a valid id, each followed by a blind termination, then one
      that succeeds, or a sixth that raises. */
  ghost predicate IsLaunch(calls: seq<Call>, id: Option<ReqId>) {
    exists failures: nat ::
      && failures <= 5 && (id.None? ==> failures == 5) && |calls| == 2 * failures + 1
      && FailedSubmits(calls[..2 * failures], failures) && calls[2 * failures] == Invoked(id)
  }

  ghost predicate FailedSubmits(calls: seq<Call>, failures: nat) {
    && |calls| == 2 * failures
    && forall k :: 0 <= k < failures ==> calls[2 * k] == Invoked(None) && calls[2 * k + 1] == Terminated
  }

  /** The calls of one status check: up to five useless answers, then a status, or a sixth that raises. */
  ghost predicate IsCheck(calls: seq<Call>, status: Option<Status>) {
    && 1 <= |calls| <= 6 && (status.None? ==> |calls| == 6) && calls[|calls| - 1] == Polled(status)
    && forall k :: 0 <= k < |calls| - 1 ==> calls[k] == Polled(None)
  }

  /** The calls of one poll: a status check and, if the job is launched again, a blind termination and a launch. */
  ghost predicate IsPoll(calls: seq<Call>, status: Option<Status>, relaunches: bool, id: Option<ReqId>) {
    if !relaunches then IsCheck(calls, status)
    else exists n: nat ::
      n < |calls| && IsCheck(calls[..n], status) && calls[n] == Terminated && IsLaunch(calls[n + 1..], id)
  }

  lemma PollCalls(calls0: seq<Call>, calls1: seq<Call>, calls2: seq<Call>, status: Option<Status>, id: Option<ReqId>)
    requires calls0 <= calls1 < calls2 && IsCheck(calls1[|calls0|..], status)
    requires calls2[|calls1|] == Terminated && IsLaunch(calls2[|calls1| + 1..], id)
    ensures IsPoll(calls2[|calls0|..], status, true, id)
  {
    var n, made := |calls1| - |calls0|, calls2[|calls0|..];
    assert made[..n] == calls1[|calls0|..] && made[n] == Terminated && made[n + 1..] == calls2[|calls1| + 1..];
  }

  class Worker {
    var index: Option<int>
    var inputPath: Option<string>
    var outputPath: Option<string>
    var reqId: Option<ReqId>
    var rerunCount: nat

    /** What `is_idle` asserts, and that a job's fields are set together. */
    ghost predicate Valid()
      reads this
    {
      if index.None? then inputPath.None? && outputPath.None? && reqId.None? && rerunCount == 0
      else inputPath.Some? && outputPath.Some?
    }

    function View(): Slot
      requires Valid()
      reads this
    {
      if index.None? then Idle else Busy(Job(index.value, inputPath.value, outputPath.value), reqId, rerunCount)
    }

    constructor ()
      ensures Valid() && View() == Idle
    {
      index, inputPath, outputPath, reqId, rerunCount := None, None, None, None, 0;
    }

    method SubmitJob(cli: Nvcf) returns (ok: bool)
      modifies this`reqId, cli
      ensures old(cli.calls) <= cli.calls
      ensures ok ==> reqId.Some? && IsLaunch(cli.calls[|old(cli.calls)|..], reqId)
      ensures !ok ==> reqId == old(reqId) && IsLaunch(cli.calls[|old(cli.calls)|..], None)
    {
      var retryCount := 0;
      ghost var calls0 := cli.calls;
      while true
        invariant retryCount <= NUM_RETRIES && reqId == old(reqId)
        invariant calls0 <= cli.calls && FailedSubmits(cli.calls[|calls0|..], retryCount)
        decreases NUM_RETRIES - retryCount
      {
        ghost var before := cli.calls;
        var id := cli.Invoke();
        assert cli.calls[|calls0|..][..2 * retryCount] == before[|calls0|..];
        if id.Some? {
          reqId := id;
          return true;
        }
        if retryCount >= NUM_RETRIES {
          return false;
        }
        retryCount := retryCount + 1;
        cli.Terminate();
        assert cli.calls[|calls0|..] == before[|calls0|..] + [Invoked(None), Terminated];
      }
    }

    method LaunchJob(cli: Nvcf) returns (ok: bool)
      modifies this`reqId, cli
      ensures ok <==> reqId.Some?
      ensures old(cli.calls) <= cli.calls
      ensures IsLaunch(cli.calls[|old(cli.calls)|..], reqId)
    {
      reqId := None;
      ok := SubmitJob(cli);
    }

    /** Start a job on an idle worker. */
    method AddJob(job: Job, cli: Nvcf) returns (ok: bool)
      requires Valid() && View() == Idle
      modifies this, cli
      ensures Valid() && View() == Busy(job, reqId, 0) && (ok <==> reqId.Some?)
      ensures old(cli.calls) <= cli.calls && IsLaunch(cli.calls[|old(cli.calls)|..], reqId)
    {
      index, inputPath, outputPath := Some(job.index), Some(job.input), Some(job.output);
      ok := LaunchJob(cli);
    }

    method Reset()
      modifies this
      ensures Valid() && View() == Idle
    {
      index, inputPath, outputPath, reqId, rerunCount := None, None, None, None, 0;
    }

    method CheckJobStatus(cli: Nvcf) returns (status: Option<Status>)
      modifies cli
      ensures old(cli.calls) <= cli.calls && IsCheck(cli.calls[|old(cli.calls)|..], status)
      ensures status == Some(InProgress) ==> cli.patience < old(cli.patience)
    {
      var retryCount := 0;
      ghost var calls0 := cli.calls;
      while true
        invariant retryCount <= NUM_RETRIES && cli.patience == old(cli.patience)
        invariant calls0 <= cli.calls && |cli.calls| == |calls0| + retryCount
        invariant forall k :: |calls0| <= k < |cli.calls| ==> cli.calls[k] == Polled(None)
        decreases NUM_RETRIES - retryCount
      {
        status := cli.Query();
        if status.Some? || retryCount >= NUM_RETRIES {
          return;
        }
        retryCount := retryCount + 1;
      }
    }

    /** Poll the job of a busy worker. `status` is what the check found, `None` if it raised; a job that failed is
        launched again unless it has failed five times. `ok` says that nothing was raised. */
    method PollJob(cli: Nvcf) returns (ok: bool, state: JobState, input: string, ghost status: Option<Status>)
      requires Valid() && View().Busy? && reqId.Some?
      modifies this, cli
      ensures Valid() && input == old(View()).job.input
      ensures status.None? ==> !ok && View() == old(View())
      ensures status.Some? ==>
                && state == PollState(old(View()), status.value)
                && View() == AfterPoll(old(View()), status.value, reqId)
                && (ok <==> Relaunches(old(View()), status.value) ==> reqId.Some?)
      ensures
        match status
        case None => true
        case Some(InProgress) => ok && state == Running && View() == old(View())
        case Some(Fulfilled) => ok && state == Succeeded && View() == Idle
        case _ =>
          if old(View()).reruns >= 4 then ok && state == GaveUp && View() == Idle
          else
            && state == Running && View() == Busy(old(View()).job, reqId, old(View()).reruns + 1)
            && (ok <==> reqId.Some?)
      ensures status == Some(InProgress) ==> cli.patience < old(cli.patience)
      ensures old(cli.calls) <= cli.calls
      ensures IsPoll(cli.calls[|old(cli.calls)|..], status,
                     status in {Some(Failed), Some(NotFound)} && old(View()).reruns < 4, reqId)
    {
      status := None;
      ghost var calls0 := cli.calls;
      input := inputPath.value;
      state := Running;
      var checked := CheckJobStatus(cli);
      if checked.None? { return false, state, input, None; }
      status := checked;
      ok := true;
      if checked.value.Fulfilled? {
        state := Succeeded;
        Reset();
      } else if checked.value.Failed? || checked.value.NotFound? {
        rerunCount := rerunCount + 1;
        if rerunCount >= NUM_RETRIES {
          state := GaveUp;
          Reset();
        } else {
          ghost var calls1 := cli.calls;
          ok := Relaunch(cli);
          PollCalls(calls0, calls1, cli.calls, status, reqId);
        }
      }
    }

    /** A blind termination and a launch. */
    method Relaunch(cli: Nvcf) returns (ok: bool)
      modifies this`reqId, cli
      ensures ok <==> reqId.Some?
      ensures old(cli.calls) < cli.calls && cli.calls[|old(cli.calls)|] == Terminated
      ensures IsLaunch(cli.calls[|old(cli.calls)| + 1..], reqId)
    {
      cli.Terminate();
      ok := LaunchJob(cli);
    }
  }
}
