/**
  The Job Poller of the asynchronous aggregator: submit, poll the job status
  until it is "Done" or "Error" or the time budget runs out, then fetch the
  merged message and count its results.

  Time is a virtual integer clock measured from the start of the call. Every
  network exchange carries the time it took; `sleep` advances the clock by
  exactly the poll interval. The loop test compares the budget with the
  timestamp taken just BEFORE the previous sleep, as `lookup` does.
 */
module JobPoller {
  import opened Values
  import opened Calls
  import opened Arith

  /** The merged message `{fields: {data: {message: {results: [...]}}}}`.
      `fields` or `data` absent reads as `{}` (zero results); either one null
      makes the next `.get` raise, which the call catches (zero results). */
  datatype DataObject = DataObject(message: Field<Message>)
  datatype FieldsObject = FieldsObject(data: Field<DataObject>)
  datatype MergedRecord = MergedRecord(fields: Field<FieldsObject>)

  /** Fetching the merged message: a fault (transport, non-2xx, undecodable
      body) or the decoded record. */
  datatype Fetch = FetchFault | Fetched(record: MergedRecord)

  /** One job-status poll. `status` is `response.get("status")` (None when
      absent or null) and `merged` the merged message identifier with the
      outcome of fetching it, when one is given. */
  datatype PollReply = PollFault | JobStatus(status: Option<string>, merged: Option<Fetch>)

  /** A poll and the time it took. */
  datatype Poll = Poll(latency: nat, reply: PollReply)

  /** The submission: a fault before any response, or a response with its
      code, whether its body decoded to an object, and the time it took. */
  datatype SubmitReply = SubmitFault | Submitted(code: int, decoded: bool, latency: nat)

  /** Everything the service answers to one call: the submission and the
      replies to the successive polls. */
  datatype JobScript = JobScript(submit: SubmitReply, polls: nat -> Poll)

  /** How the call ended: the job reached a terminal status, the budget ran
      out, or a fault was caught. */
  datatype End = Resolved | Expired | Faulted

  /** The call's result together with the number of polls made. */
  datatype JobRun = JobRun(result: CallResult, polls: nat, end: End)

  /** Reference settings: `MAX_QUERY_TIME` seconds and a 10-second sleep. */
  const MaxQueryTime: nat := 3600
  const PollInterval: nat := 10

  predicate IsTerminal(status: Option<string>) {
    status == Some("Done") || status == Some("Error")
  }

  /** The Python value `status` takes from a poll. */
  function StatusOf(status: Option<string>): Status {
    match status
    case Some(s) => Label(s)
    case None => Missing
  }

  /** The status a successful poll assigns; faults assign nothing. */
  function PolledStatus(p: Poll): Status {
    match p.reply
    case JobStatus(s, _) => StatusOf(s)
    case PollFault => Missing
  }

  /** A poll that the loop continues after. */
  predicate Continues(p: Poll) {
    p.reply.JobStatus? && !IsTerminal(p.reply.status)
  }

  /** The result count of the merged message, zero on every missing, null or
      faulting step of the path. */
  function MergedCount(merged: Option<Fetch>): (n: nat)
    ensures n > 0 ==> merged.Some? && merged.value.Fetched?
    ensures merged.Some? && merged.value.Fetched? && merged.value.record.fields.Present?
         && merged.value.record.fields.value.data.Present?
         ==> n == ResultCount(merged.value.record.fields.value.data.value.message)
    ensures merged.Some? && merged.value.Fetched?
         && !(merged.value.record.fields.Present? && merged.value.record.fields.value.data.Present?)
         ==> n == 0
  {
    match merged
    case None => 0
    case Some(FetchFault) => 0
    case Some(Fetched(record)) =>
      match record.fields
      case Absent => 0
      case Null => 0
      case Present(f) =>
        match f.data
        case Absent => 0
        case Null => 0
        case Present(d) => ResultCount(d.message)
  }

  /** The timestamp the loop test reads before poll `j`, when the loop was
      entered after `k` polls with stamp `stamp`: the time at the end of the
      previous poll, where a poll other than the first starts one interval
      after the previous stamp. */
  function StampAt(polls: nat -> Poll, interval: nat, k: nat, stamp: int, j: nat): int
    decreases j
  {
    if j <= k then stamp
    else StampAt(polls, interval, k, stamp, j - 1) + (if j - 1 == 0 then 0 else interval) + polls(j - 1).latency
  }

  /** Entering the loop one poll later, with the stamp that poll leaves,
      gives the same readings from then on. */
  lemma {:induction false} StampShift(polls: nat -> Poll, interval: nat, k: nat, stamp: int, j: nat)
    requires k < j
    ensures StampAt(polls, interval, k + 1, stamp + (if k == 0 then 0 else interval) + polls(k).latency, j)
         == StampAt(polls, interval, k, stamp, j)
    decreases j
  {
    if j > k + 1 {
      StampShift(polls, interval, k, stamp, j - 1);
    }
  }

  /** From a first stamp of at least one interval, the stamp before poll `j`
      is at least `j` intervals: every sleep but the first lies between two
      readings. */
  lemma {:induction false} StampGrows(polls: nat -> Poll, interval: nat, first: int, j: nat)
    requires first >= interval
    ensures StampAt(polls, interval, 0, first, j) >= j * interval
    decreases j
  {
    if j >= 2 {
      StampGrows(polls, interval, first, j - 1);
      assert (j - 1) * interval + interval == j * interval;
    }
  }

  /** Every timestamp the loop test reads before polls `k` to `n - 1` is
      within the budget: the loop was allowed to make those polls. */
  predicate WithinBudget(polls: nat -> Poll, interval: nat, budget: nat, k: nat, stamp: int, n: nat) {
    forall j :: k <= j < n ==> StampAt(polls, interval, k, stamp, j) <= budget
  }

  /** A reading within budget before poll `k`, followed by readings within
      budget from the loop entered one poll later. */
  lemma WithinBudgetShift(polls: nat -> Poll, interval: nat, budget: nat, k: nat, stamp: int, n: nat)
    requires stamp <= budget
    requires WithinBudget(polls, interval, budget, k + 1, stamp + (if k == 0 then 0 else interval) + polls(k).latency, n)
    ensures WithinBudget(polls, interval, budget, k, stamp, n)
  {
    forall j | k <= j < n ensures StampAt(polls, interval, k, stamp, j) <= budget {
      if j > k {
        StampShift(polls, interval, k, stamp, j);
      }
    }
  }

  /** What a run `r` of the poll loop entered after `k` polls, with `status`
      in the variable and `stamp` read from the clock, promises: every poll
      it makes is taken at a reading within the budget and it expires only at
      a reading past it; it continues only past non-terminal statuses; it
      resolves exactly on a Done or Error status, with that status and the
      merged count; it faults exactly on a failed poll; and expiry or a fault
      keeps zero results and the last status the variable was given. */
  predicate LoopRun(polls: nat -> Poll, interval: nat, budget: nat, status: Status, k: nat, stamp: int, r: JobRun) {
    && r.polls >= k && r.result.batch == None
    && WithinBudget(polls, interval, budget, k, stamp, r.polls)
    && (r.end == Expired ==> StampAt(polls, interval, k, stamp, r.polls) > budget)
    && (forall j :: k <= j < r.polls - 1 ==> Continues(polls(j)))
    && (r.end == Resolved <==> r.polls > k && polls(r.polls - 1).reply.JobStatus? && IsTerminal(polls(r.polls - 1).reply.status))
    && (r.end == Faulted <==> r.polls > k && polls(r.polls - 1).reply.PollFault?)
    && (r.end == Resolved ==>
          r.result.status == PolledStatus(polls(r.polls - 1))
          && r.result.numResults == MergedCount(polls(r.polls - 1).reply.merged))
    && (r.end == Expired ==>
          r.result.numResults == 0
          && r.result.status == (if r.polls == k then status else PolledStatus(polls(r.polls - 1))))
    && (r.end == Faulted ==>
          r.result.numResults == 0
          && r.result.status == (if r.polls == k + 1 then status else PolledStatus(polls(r.polls - 2))))
  }

  /** A non-terminal poll `k` within budget: a run of the loop entered one
      poll later, with the stamp poll `k` leaves and the status it assigns,
      is a run of the loop entered before poll `k`. */
  lemma LoopStep(polls: nat -> Poll, interval: nat, budget: nat, status: Status, k: nat, stamp: int, r: JobRun)
    requires stamp <= budget && Continues(polls(k))
    requires LoopRun(polls, interval, budget, StatusOf(polls(k).reply.status), k + 1,
                     stamp + (if k == 0 then 0 else interval) + polls(k).latency, r)
    ensures LoopRun(polls, interval, budget, status, k, stamp, r)
  {
    WithinBudgetShift(polls, interval, budget, k, stamp, r.polls);
    StampShift(polls, interval, k, stamp, r.polls);
  }

  /** The poll loop. `k` polls have been made, `status` is the value the
      variable holds, and `stamp` is the timestamp the loop test reads. After
      poll `k` the code reads the clock and then sleeps, so the next stamp is
      the time at the end of the poll; from the second poll on, a poll starts
      one interval after the previous stamp. A full sleep precedes the first
      reading, so every stamp is at least one interval. */
  function PollLoop(polls: nat -> Poll, interval: nat, budget: nat, status: Status, k: nat, stamp: int): (r: JobRun)
    requires interval > 0 && interval <= stamp
    ensures LoopRun(polls, interval, budget, status, k, stamp, r)
    decreases if stamp <= budget then budget - stamp + (if k == 0 then 2 else 1) else 0
  {
    if stamp > budget then JobRun(CallResult(status, 0, None), k, Expired)
    else
      var p := polls(k);
      match p.reply
      case PollFault => JobRun(CallResult(status, 0, None), k + 1, Faulted)
      case JobStatus(s, merged) =>
        if IsTerminal(s) then JobRun(CallResult(StatusOf(s), MergedCount(merged), None), k + 1, Resolved)
        else
          var next := stamp + (if k == 0 then 0 else interval) + p.latency;
          var r := PollLoop(polls, interval, budget, StatusOf(s), k + 1, next);
          LoopStep(polls, interval, budget, status, k, stamp, r);
          r
  }

  /** The first stamp the loop test reads: the end of the submission plus
      the first sleep. */
  function FirstStamp(submit: SubmitReply, interval: nat): int {
    if submit.Submitted? then submit.latency + interval else 0
  }

  /** One call against the asynchronous aggregator. The status starts as the
      "timeout" sentinel and becomes the submit code once a response exists; a
      failed submission ends the call with zero results and no poll. */
  function Lookup(script: JobScript, interval: nat, budget: nat): (r: JobRun)
    requires interval > 0
    ensures r.result.batch == None
    ensures script.submit.SubmitFault? ==> r == JobRun(CallResult(Timeout, 0, None), 0, Faulted)
    ensures script.submit.Submitted? && !(IsSuccess(script.submit.code) && script.submit.decoded) ==>
      r == JobRun(CallResult(HttpCode(script.submit.code), 0, None), 0, Faulted)
    ensures r.polls > 0 ==> (r.polls - 1) * interval <= budget
    ensures script.submit.Submitted? && IsSuccess(script.submit.code) && script.submit.decoded ==>
      && WithinBudget(script.polls, interval, budget, 0, FirstStamp(script.submit, interval), r.polls)
      && (r.end == Expired ==> StampAt(script.polls, interval, 0, FirstStamp(script.submit, interval), r.polls) > budget)
      && (r.end == Faulted <==> r.polls > 0 && script.polls(r.polls - 1).reply.PollFault?)
      && (r.end == Expired ==>
            r.result.status == if r.polls == 0 then HttpCode(script.submit.code) else PolledStatus(script.polls(r.polls - 1)))
      && (r.end == Faulted ==>
            r.result.status == if r.polls == 1 then HttpCode(script.submit.code) else PolledStatus(script.polls(r.polls - 2)))
    ensures forall j :: 0 <= j < r.polls - 1 ==> Continues(script.polls(j))
    ensures r.end != Resolved ==> r.result.numResults == 0
    ensures r.end == Resolved <==>
      r.polls > 0 && script.polls(r.polls - 1).reply.JobStatus? && IsTerminal(script.polls(r.polls - 1).reply.status)
    ensures r.end == Resolved ==>
      r.result.status == PolledStatus(script.polls(r.polls - 1))
      && r.result.numResults == MergedCount(script.polls(r.polls - 1).reply.merged)
  {
    match script.submit
    case SubmitFault => JobRun(CallResult(Timeout, 0, None), 0, Faulted)
    case Submitted(code, decoded, latency) =>
      if !IsSuccess(code) || !decoded then JobRun(CallResult(HttpCode(code), 0, None), 0, Faulted)
      else
        var r := PollLoop(script.polls, interval, budget, HttpCode(code), 0, latency + interval);
        if r.polls > 0 then
          StampGrows(script.polls, interval, latency + interval, r.polls - 1);
          r
        else r
  }

  /** The loop terminates within `budget / interval + 1` polls, whatever the
      latencies: a clock that advances at least one interval per sleep bounds
      the number of job-status requests. */
  lemma PollBound(script: JobScript, interval: nat, budget: nat)
    requires interval > 0
    ensures Lookup(script, interval, budget).polls <= budget / interval + 1
  {
    var r := Lookup(script, interval, budget);
    if r.polls > 0 {
      MulBound(r.polls - 1, interval, budget);
    }
  }

  /** With the reference settings a call makes at most 361 polls. */
  lemma ReferencePollBound(script: JobScript)
    ensures Lookup(script, PollInterval, MaxQueryTime).polls <= 361
  {
    PollBound(script, PollInterval, MaxQueryTime);
  }

  /** A budget that has expired before the first poll reports the submit
      code, not the "timeout" sentinel. */
  lemma ExpiredBeforePolling(script: JobScript, interval: nat, budget: nat)
    requires interval > 0
    requires script.submit.Submitted? && IsSuccess(script.submit.code) && script.submit.decoded
    requires script.submit.latency + interval > budget
    ensures Lookup(script, interval, budget) == JobRun(CallResult(HttpCode(script.submit.code), 0, None), 0, Expired)
  {
  }

  /** A failed fetch of the merged message reports the terminal status with
      zero results. */
  lemma FailedMergeFetch(script: JobScript, interval: nat, budget: nat)
    requires interval > 0
    requires script.submit.Submitted? && IsSuccess(script.submit.code) && script.submit.decoded
    requires script.submit.latency + interval <= budget
    requires script.polls(0).reply == JobStatus(Some("Done"), Some(FetchFault))
    ensures Lookup(script, interval, budget) == JobRun(CallResult(Label("Done"), 0, None), 1, Resolved)
  {
  }

  /** Submit, one "Running" poll, then "Done" with a merged message of five
      results: the call reports "Done" with five results after two polls. */
  lemma JobCompletes()
    ensures var polls := (j: nat) =>
              if j == 0 then Poll(3, JobStatus(Some("Running"), None))
              else Poll(2, JobStatus(Some("Done"), Some(Fetched(MergedRecord(Present(FieldsObject(Present(DataObject(Present(Object(false, Present(5))))))))))));
            Lookup(JobScript(Submitted(200, true, 1), polls), PollInterval, MaxQueryTime)
              == JobRun(CallResult(Label("Done"), 5, None), 2, Resolved)
  {
  }

  /** A job that stays "Running" ends with the budget: zero results and the
      last polled status. */
  lemma JobNeverFinishes(interval: nat, budget: nat)
    requires 0 < interval <= budget
    ensures var polls := (j: nat) => Poll(0, JobStatus(Some("Running"), None));
            var r := Lookup(JobScript(Submitted(200, true, 0), polls), interval, budget);
            r.end == Expired && r.result == CallResult(Label("Running"), 0, None) && r.polls > 0
  {
    var polls := (j: nat) => Poll(0, JobStatus(Some("Running"), None));
    var r := Lookup(JobScript(Submitted(200, true, 0), polls), interval, budget);
    assert StampAt(polls, interval, 0, FirstStamp(Submitted(200, true, 0), interval), 0) <= budget;
  }
}
