/**
 * `_wait_for_job` (backend/app/services/export_service.py): polling a
 * BigQuery extract job every five seconds until it reports an error, finishes
 * or runs past its timeout. The job's replies and the wall clock are inputs.
 */
module JobWaiter {
  import opened Wrappers
  import opened Text
  import opened Errors

  /** What one `job.reload()` yields: the job's `error_result` (its text when
      truthy) and `done()`, or the exception the reload raised. */
  datatype JobPoll =
    | Reloaded(errorResult: Option<string>, done: bool)
    | ReloadFailed(reason: string)

  /** The job as seen by the waiter: its id, the outcome of its k-th reload,
      and the k-th reading of `time.time()` (reading 0 is `start_time`,
      reading k + 1 the one taken on the k-th pass through the loop). */
  datatype JobFeed = JobFeed(jobId: string, polls: nat -> JobPoll, clock: nat -> real)

  /** The clock never runs backwards, and between two passes through the loop
      `time.sleep(5)` lets at least five seconds go by. */
  ghost predicate SleepAdvances(clock: nat -> real)
  {
    forall k: nat :: clock(k) <= clock(k + 1) && (k >= 1 ==> clock(k) + 5.0 <= clock(k + 1))
  }

  const DefaultTimeout := 3600

  /** The last pass the loop can reach: by then more than `timeout` seconds
      have gone by. */
  function LastPass(timeout: int): nat
  {
    if timeout < 0 then 0 else timeout / 5 + 1
  }

  /** Seconds since `start_time` at the time check of pass k. */
  function Elapsed(feed: JobFeed, k: nat): real
  {
    feed.clock(k + 1) - feed.clock(0)
  }

  function JobDetails(feed: JobFeed): Details
  {
    map["job_id" := feed.jobId]
  }

  function MonitoringFailed(reason: string): ApiError
  {
    ExportError("Job monitoring failed: " + reason)
  }

  function JobFailed(feed: JobFeed, errorResult: string): ApiError
  {
    ExportError("Export job failed: " + errorResult, Some(JobDetails(feed)))
  }

  function TimedOut(feed: JobFeed, timeout: int): ApiError
  {
    ExportError("Export job timed out after " + IntToString(timeout) + " seconds", Some(JobDetails(feed)))
  }

  /** One pass through the loop: go round again, or leave it, with `None` for
      a normal return and the `ExportError` raised otherwise. */
  datatype Step = Continue | Stop(raised: Option<ApiError>)

  function StepAt(feed: JobFeed, timeout: int, k: nat): (r: Step)
    ensures r == Stop(None) <==> feed.polls(k) == Reloaded(None, true)
    ensures r == Continue <==> feed.polls(k) == Reloaded(None, false) && Elapsed(feed, k) <= timeout as real
    ensures r.Stop? && r.raised.Some? ==> r.raised.value.cls == Export && r.raised.value.statusCode == 500
  {
    match feed.polls(k)
    case ReloadFailed(reason) => Stop(Some(MonitoringFailed(reason)))
    case Reloaded(errorResult, done) =>
      if errorResult.Some? then Stop(Some(JobFailed(feed, errorResult.value)))
      else if done then Stop(None)
      else if Elapsed(feed, k) > timeout as real then Stop(Some(TimedOut(feed, timeout)))
      else Continue
  }

  /** At the time check of pass k at least 5k seconds have gone by. */
  lemma {:induction false} ElapsedLowerBound(feed: JobFeed, k: nat)
    requires SleepAdvances(feed.clock)
    ensures Elapsed(feed, k) >= 5.0 * (k as real)
  {
    if k == 0 {
      assert feed.clock(0) <= feed.clock(1);
    } else {
      ElapsedLowerBound(feed, k - 1);
      assert feed.clock(k) + 5.0 <= feed.clock(k + 1);
    }
  }

  /** No pass after `LastPass(timeout)` is reached: that one stops. */
  lemma LastPassStops(feed: JobFeed, timeout: int, k: nat)
    requires SleepAdvances(feed.clock)
    requires k >= LastPass(timeout)
    ensures StepAt(feed, timeout, k).Stop?
  {
    ElapsedLowerBound(feed, k);
    if timeout >= 0 {
      var q := timeout / 5;
      assert timeout == 5 * q + timeout % 5 && timeout % 5 < 5;
      assert 5 * k >= 5 * q + 5;
      assert 5 * k > timeout;
      assert 5.0 * (k as real) == (5 * k) as real;
    }
  }

  /** The loop's outcome (`None` for a normal return) and the number of
      reloads it made. */
  datatype WaitRun = WaitRun(raised: Option<ApiError>, reloads: nat)

  /** The loop from pass k on. */
  function Wait(feed: JobFeed, timeout: int, k: nat): WaitRun
    requires SleepAdvances(feed.clock)
    requires k <= LastPass(timeout)
    decreases LastPass(timeout) - k
  {
    match StepAt(feed, timeout, k)
    case Stop(raised) => WaitRun(raised, k + 1)
    case Continue =>
      assert k < LastPass(timeout) by {
        if k >= LastPass(timeout) {
          LastPassStops(feed, timeout, k);
        }
      }
      Wait(feed, timeout, k + 1)
  }

  /** `_wait_for_job(job, timeout)`: each pass reloads the job and checks, in
      this order, a failed reload, the job's error result, completion and the
      timeout, then sleeps five seconds. */
  method WaitForJob(feed: JobFeed, timeout: int := DefaultTimeout) returns (raised: Option<ApiError>, reloads: nat, sleeps: nat)
    requires SleepAdvances(feed.clock)
    ensures WaitRun(raised, reloads) == Wait(feed, timeout, 0)
    ensures reloads >= 1 && sleeps == reloads - 1
  {
    var start := feed.clock(0);
    var k: nat := 0;
    sleeps := 0;
    while true
      invariant k <= LastPass(timeout)
      invariant sleeps == k
      invariant Wait(feed, timeout, 0) == Wait(feed, timeout, k)
      decreases LastPass(timeout) - k
    {
      var poll := feed.polls(k);
      if poll.ReloadFailed? {
        return Some(MonitoringFailed(poll.reason)), k + 1, sleeps;
      }
      if poll.errorResult.Some? {
        return Some(JobFailed(feed, poll.errorResult.value)), k + 1, sleeps;
      }
      if poll.done {
        return None, k + 1, sleeps;
      }
      var now := feed.clock(k + 1);
      if now - start > timeout as real {
        return Some(TimedOut(feed, timeout)), k + 1, sleeps;
      }
      assert StepAt(feed, timeout, k) == Continue;
      assert k < LastPass(timeout) by {
        if k >= LastPass(timeout) {
          LastPassStops(feed, timeout, k);
        }
      }
      sleeps := sleeps + 1;
      k := k + 1;
    }
  }

  /** The loop from pass k: every pass before the last one goes round again,
      the last one stops with the run's outcome, and no run goes past
      `LastPass(timeout)`. */
  lemma {:induction false} WaitPasses(feed: JobFeed, timeout: int, k: nat)
    requires SleepAdvances(feed.clock)
    requires k <= LastPass(timeout)
    ensures var w := Wait(feed, timeout, k);
      k < w.reloads <= LastPass(timeout) + 1 &&
      (forall j :: k <= j < w.reloads - 1 ==> StepAt(feed, timeout, j) == Continue) &&
      StepAt(feed, timeout, w.reloads - 1) == Stop(w.raised)
    decreases LastPass(timeout) - k
  {
    if StepAt(feed, timeout, k).Continue? {
      if k == LastPass(timeout) {
        LastPassStops(feed, timeout, k);
      } else {
        WaitPasses(feed, timeout, k + 1);
      }
    }
  }

  /** The whole wait: it makes between 1 and `LastPass(timeout) + 1` reloads;
      it returns normally exactly when the last reload reported the job done
      without an error, every earlier reload having reported it unfinished
      within the timeout; and the exception it raises otherwise is an
      `ExportError` (status 500). */
  lemma WaitOutcome(feed: JobFeed, timeout: int)
    requires SleepAdvances(feed.clock)
    ensures var w := Wait(feed, timeout, 0);
      1 <= w.reloads <= LastPass(timeout) + 1 &&
      (forall j :: 0 <= j < w.reloads - 1 ==>
         feed.polls(j) == Reloaded(None, false) && Elapsed(feed, j) <= timeout as real) &&
      (w.raised.None? <==> feed.polls(w.reloads - 1) == Reloaded(None, true)) &&
      (w.raised.Some? ==> w.raised.value.cls == Export && w.raised.value.statusCode == 500)
  {
    WaitPasses(feed, timeout, 0);
    var w := Wait(feed, timeout, 0);
    forall j | 0 <= j < w.reloads - 1
      ensures feed.polls(j) == Reloaded(None, false) && Elapsed(feed, j) <= timeout as real
    {
      assert StepAt(feed, timeout, j) == Continue;
    }
    var last := StepAt(feed, timeout, w.reloads - 1);
    assert last == Stop(w.raised);
  }

  /** A reported error wins over completion: a reload reporting both raises
      "Export job failed" with the job id. */
  lemma ErrorBeatsDone(feed: JobFeed, timeout: int, k: nat, e: string)
    requires feed.polls(k) == Reloaded(Some(e), true)
    ensures StepAt(feed, timeout, k) == Stop(Some(ExportError("Export job failed: " + e, Some(map["job_id" := feed.jobId]))))
    ensures StepAt(feed, timeout, k).raised.value.details["job_id"] == feed.jobId
  {
  }

  /** The timeout is strict: an unfinished job whose elapsed time equals the
      timeout is polled again, and one past it raises the timeout error. */
  lemma TimeoutIsStrict(feed: JobFeed, timeout: int, k: nat)
    requires feed.polls(k) == Reloaded(None, false)
    ensures Elapsed(feed, k) == timeout as real ==> StepAt(feed, timeout, k) == Continue
    ensures Elapsed(feed, k) > timeout as real ==>
      StepAt(feed, timeout, k) == Stop(Some(TimedOut(feed, timeout))) &&
      TimedOut(feed, timeout).message == "Export job timed out after " + IntToString(timeout) + " seconds"
  {
  }

  /** An exception from `reload` is wrapped, without the job id. */
  lemma ReloadFailureWrapped(feed: JobFeed, timeout: int, k: nat, reason: string)
    requires feed.polls(k) == ReloadFailed(reason)
    ensures StepAt(feed, timeout, k).raised == Some(ApiError(Export, "Job monitoring failed: " + reason, 500, map[]))
  {
  }

  /** A job that is already done at the first reload returns at once, with no
      sleep, whatever the clock readings, under the clock assumption. */
  lemma DoneAtFirstReload(feed: JobFeed, timeout: int)
    requires SleepAdvances(feed.clock)
    requires feed.polls(0) == Reloaded(None, true)
    ensures Wait(feed, timeout, 0) == WaitRun(None, 1)
  {
    assert StepAt(feed, timeout, 0) == Stop(None);
  }
}
