/** The sync engine's HTTP control plane as the client drives it
    (pkg/api/client.go, lines 18-242). Each HTTP exchange enters the model
    already classified: the transport either failed, or a response arrived
    with a status code, the body that was read, whether reading it
    succeeded, and what decoding that body as JSON produced. */
module ControlPlane {
  import opened Wrappers

  const StatusOK := 200
  /** Seconds every polling loop sleeps after a poll that does not end it. */
  const PollIntervalSeconds := 5

  const IdleState := "IDLE"
  const CommittedState := "COMMITTED"

  /** The decoded body of `GET /progress`; fields missing from the JSON take
      Go's zero values (false, ""). */
  datatype Progress = Progress(canCommit: bool, state: string, info: string, success: bool)

  /** One HTTP exchange. `decoded` is what decoding `body` produced: `None`
      when the JSON did not decode. `readOk` is false when reading the body
      failed; `body` is then whatever was read before the failure. */
  datatype Exchange<D> =
    | TransportError
    | Response(status: int, body: string, readOk: bool, decoded: Option<D>)

  /** What one iteration of `WaitForCanCommit` or `VerifyCommitted` concludes
      from a poll, in the order the loop checks: transport, read, status, decode. */
  datatype PollVerdict =
    | TransportFailed
    | ReadFailed
    | UnexpectedStatus(status: int, body: string)
    | DecodeFailed
    | Snapshot(progress: Progress)

  function Classify(e: Exchange<Progress>): (v: PollVerdict)
    ensures v.Snapshot? <==> e.Response? && e.readOk && e.status == StatusOK && e.decoded.Some?
    ensures v.Snapshot? ==> v.progress == e.decoded.value
    ensures v.UnexpectedStatus? ==> e.Response? && e.readOk && v.status == e.status != StatusOK && v.body == e.body
    ensures e.TransportError? ==> v == TransportFailed
    ensures e.Response? && !e.readOk ==> v == ReadFailed
    ensures e.Response? && e.readOk && e.status != StatusOK ==> v == UnexpectedStatus(e.status, e.body)
    ensures e.Response? && e.readOk && e.status == StatusOK && e.decoded.None? ==> v == DecodeFailed
  {
    match e
    case TransportError => TransportFailed
    case Response(status, body, readOk, decoded) =>
      if !readOk then ReadFailed
      else if status != StatusOK then UnexpectedStatus(status, body)
      else if decoded.None? then DecodeFailed
      else Snapshot(decoded.value)
  }

  /** A poll every loop absorbs and retries, whatever the loop waits for. */
  predicate IsTransient(e: Exchange<Progress>)
  {
    !Classify(e).Snapshot?
  }

  /** The condition that ends `WaitForReadyState`: the body decoded and the
      state is not IDLE. Neither the status code nor a read error is looked at. */
  predicate LeftIdle(e: Exchange<Progress>)
  {
    e.Response? && e.decoded.Some? && e.decoded.value.state != IdleState
  }

  /** The condition that ends `WaitForCanCommit`. */
  predicate CommitReady(e: Exchange<Progress>)
  {
    Classify(e).Snapshot? && Classify(e).progress.canCommit
  }

  /** The condition that ends `VerifyCommitted`. */
  predicate Committed(e: Exchange<Progress>)
  {
    Classify(e).Snapshot? && Classify(e).progress.state == CommittedState
  }

  /** Index of the first poll in `polls` that satisfies `goal`, or `None`
      when no poll in the finite prefix does ("not yet"). */
  function FirstReached(polls: seq<Exchange<Progress>>, goal: Exchange<Progress> -> bool): (r: Option<nat>)
    ensures r.Some? ==> r.value < |polls| && goal(polls[r.value])
    ensures forall j :: 0 <= j < (if r.Some? then r.value else |polls|) ==> !goal(polls[j])
  {
    if polls == [] then None
    else if goal(polls[0]) then Some(0)
    else match FirstReached(polls[1..], goal)
      case None => None
      case Some(k) => Some(k + 1)
  }

  /** The waits a loop has asked for after `n` polls that did not end it. */
  function PollWaits(n: nat): (w: seq<nat>)
    ensures |w| == n && forall i :: 0 <= i < n ==> w[i] == PollIntervalSeconds
  {
    seq(n, _ => PollIntervalSeconds)
  }

  /** `WaitForReadyState` over the finite sequence of polls it would see:
      the index of the poll it returns at, or `None` if it is still polling
      after the last one. `waits` logs each requested sleep in seconds. */
  method WaitForReadyState(polls: seq<Exchange<Progress>>) returns (done: Option<nat>, ghost waits: seq<nat>)
    ensures done == FirstReached(polls, LeftIdle)
    ensures waits == PollWaits(if done.Some? then done.value else |polls|)
  {
    var i := 0;
    waits := [];
    while i < |polls|
      invariant 0 <= i <= |polls|
      invariant forall j :: 0 <= j < i ==> !LeftIdle(polls[j])
      invariant waits == PollWaits(i)
    {
      var e := polls[i];
      if e.TransportError? {
        waits := waits + [PollIntervalSeconds];
        i := i + 1;
        continue;
      }
      // the read error is ignored: whatever was read is decoded
      if e.decoded.None? {
        waits := waits + [PollIntervalSeconds];
        i := i + 1;
        continue;
      }
      if e.decoded.value.state != IdleState {
        FirstReachedAt(polls, LeftIdle, i);
        return Some(i), waits;
      }
      waits := waits + [PollIntervalSeconds];
      i := i + 1;
    }
    FirstReachedNone(polls, LeftIdle);
    done := None;
  }

  /** `WaitForCanCommit` over a finite sequence of polls. */
  method WaitForCanCommit(polls: seq<Exchange<Progress>>) returns (done: Option<nat>, ghost waits: seq<nat>)
    ensures done == FirstReached(polls, CommitReady)
    ensures waits == PollWaits(if done.Some? then done.value else |polls|)
  {
    var i := 0;
    waits := [];
    while i < |polls|
      invariant 0 <= i <= |polls|
      invariant forall j :: 0 <= j < i ==> !CommitReady(polls[j])
      invariant waits == PollWaits(i)
    {
      var e := polls[i];
      if e.TransportError? || !e.readOk || e.status != StatusOK || e.decoded.None? {
        waits := waits + [PollIntervalSeconds];
        i := i + 1;
        continue;
      }
      if e.decoded.value.canCommit {
        FirstReachedAt(polls, CommitReady, i);
        return Some(i), waits;
      }
      waits := waits + [PollIntervalSeconds];
      i := i + 1;
    }
    FirstReachedNone(polls, CommitReady);
    done := None;
  }

  /** `VerifyCommitted` over a finite sequence of polls. */
  method VerifyCommitted(polls: seq<Exchange<Progress>>) returns (done: Option<nat>, ghost waits: seq<nat>)
    ensures done == FirstReached(polls, Committed)
    ensures waits == PollWaits(if done.Some? then done.value else |polls|)
  {
    var i := 0;
    waits := [];
    while i < |polls|
      invariant 0 <= i <= |polls|
      invariant forall j :: 0 <= j < i ==> !Committed(polls[j])
      invariant waits == PollWaits(i)
    {
      var e := polls[i];
      if e.TransportError? || !e.readOk || e.status != StatusOK || e.decoded.None? {
        waits := waits + [PollIntervalSeconds];
        i := i + 1;
        continue;
      }
      if e.decoded.value.state == CommittedState {
        FirstReachedAt(polls, Committed, i);
        return Some(i), waits;
      }
      waits := waits + [PollIntervalSeconds];
      i := i + 1;
    }
    FirstReachedNone(polls, Committed);
    done := None;
  }

  /** `FirstReached` is exactly "the first index satisfying the goal". */
  lemma {:induction false} FirstReachedAt(polls: seq<Exchange<Progress>>, goal: Exchange<Progress> -> bool, i: nat)
    requires i < |polls| && goal(polls[i])
    requires forall j :: 0 <= j < i ==> !goal(polls[j])
    ensures FirstReached(polls, goal) == Some(i)
  {
    if i > 0 {
      FirstReachedAt(polls[1..], goal, i - 1);
    }
  }

  lemma {:induction false} FirstReachedNone(polls: seq<Exchange<Progress>>, goal: Exchange<Progress> -> bool)
    requires forall j :: 0 <= j < |polls| ==> !goal(polls[j])
    ensures FirstReached(polls, goal) == None
  {
    if polls != [] {
      FirstReachedNone(polls[1..], goal);
    }
  }

  /** Transient failures are retried: putting any run of them in front of
      the polls only delays, by exactly their number, the poll at which
      `WaitForCanCommit` or `VerifyCommitted` returns. */
  lemma {:induction false} TransientPollsOnlyDelay(pre: seq<Exchange<Progress>>, polls: seq<Exchange<Progress>>)
    requires forall j :: 0 <= j < |pre| ==> IsTransient(pre[j])
    ensures FirstReached(pre + polls, CommitReady) ==
      (match FirstReached(polls, CommitReady) case None => None case Some(k) => Some(k + |pre|))
    ensures FirstReached(pre + polls, Committed) ==
      (match FirstReached(polls, Committed) case None => None case Some(k) => Some(k + |pre|))
  {
    if pre == [] {
      assert pre + polls == polls;
    } else {
      assert (pre + polls)[0] == pre[0];
      assert (pre + polls)[1..] == pre[1..] + polls;
      TransientPollsOnlyDelay(pre[1..], polls);
    }
  }

  /** `WaitForCanCommit` ends on `canCommit` whatever the state is, and
      `VerifyCommitted` ends on COMMITTED whatever `canCommit` is. */
  lemma CommitReadyIgnoresState(p: Progress, body: string)
    ensures CommitReady(Response(StatusOK, body, true, Some(p))) == p.canCommit
    ensures Committed(Response(StatusOK, body, true, Some(p))) == (p.state == CommittedState)
  {
  }

  /** `WaitForReadyState` does not look at the status code or at a failed
      read: a non-200 answer whose body decodes with a non-IDLE state (a
      body without a `state` field decodes to "") ends the wait. */
  lemma LeftIdleIgnoresStatus(status: int, body: string, readOk: bool, p: Progress)
    ensures LeftIdle(Response(status, body, readOk, Some(p))) == (p.state != IdleState)
    ensures LeftIdle(Response(500, body, false, Some(Progress(false, "", "", false))))
  {
  }

  /** Three REPLICATING snapshots and then a commit-ready one: the wait
      returns at the fourth poll, after three waits. */
  lemma FourthPollIsCommitReady()
    ensures
      var notYet := Response(StatusOK, "", true, Some(Progress(false, "REPLICATING", "", true)));
      var ready := Response(StatusOK, "", true, Some(Progress(true, "REPLICATING", "", true)));
      FirstReached([notYet, notYet, notYet, ready], CommitReady) == Some(3)
  {
    var notYet := Response(StatusOK, "", true, Some(Progress(false, "REPLICATING", "", true)));
    var ready := Response(StatusOK, "", true, Some(Progress(true, "REPLICATING", "", true)));
    FirstReachedAt([notYet, notYet, notYet, ready], CommitReady, 3);
  }

  // ---------------------------------------------------------------------
  // POST /start and POST /commit

  /** The topology the start request asks for; fixed for every session. */
  datatype StartRequest = StartRequest(
    source: string,
    destination: string,
    verificationEnabled: bool,
    enableUserWriteBlocking: string)

  const StartPayload := StartRequest("cluster0", "cluster1", false, "sourceAndDestination")

  datatype RequestBody = StartBody(request: StartRequest) | EmptyObject
  datatype Request = Post(url: string, body: RequestBody)

  /** The request `StartSync` sends; it does not depend on anything but the base URL. */
  function StartSyncRequest(baseURL: string): (q: Request)
    ensures q.body == StartBody(StartRequest("cluster0", "cluster1", false, "sourceAndDestination"))
  {
    Post(baseURL + "/start", StartBody(StartPayload))
  }

  /** The request `Commit` sends: an empty JSON object. */
  function CommitRequest(baseURL: string): (q: Request)
    ensures q.body == EmptyObject
  {
    Post(baseURL + "/commit", EmptyObject)
  }

  datatype ApiError =
    | StartTransportFailed
    | StartRejected(status: int, body: string)
    | CommitTransportFailed
    | CommitReadFailed
    | CommitRejected(status: int, body: string)
    | CommitDecodeFailed
    | CommitUnsuccessful

  /** `StartSync` given the answer to its POST. The body is not decoded. */
  function StartSync<D>(e: Exchange<D>): (r: Outcome<ApiError>)
    ensures r.Pass? <==> e.Response? && e.status == StatusOK
    ensures e.Response? && e.status != StatusOK ==> r == Fail(StartRejected(e.status, e.body))
  {
    match e
    case TransportError => Fail(StartTransportFailed)
    case Response(status, body, _, _) =>
      if status != StatusOK then Fail(StartRejected(status, body)) else Pass
  }

  /** `Commit` given the answer to its POST; `decoded` is the `success`
      field of the decoded body. */
  function Commit(e: Exchange<bool>): (r: Outcome<ApiError>)
    ensures r.Pass? <==> e.Response? && e.readOk && e.status == StatusOK && e.decoded == Some(true)
  {
    match e
    case TransportError => Fail(CommitTransportFailed)
    case Response(status, body, readOk, decoded) =>
      if !readOk then Fail(CommitReadFailed)
      else if status != StatusOK then Fail(CommitRejected(status, body))
      else if decoded.None? then Fail(CommitDecodeFailed)
      else if !decoded.value then Fail(CommitUnsuccessful)
      else Pass
  }

  /** A non-200 answer that was read in full is rejected by both calls with
      the status and the body verbatim, and `Commit` checks the status before
      it tries to decode. */
  lemma NonOkStatusIsRejected(status: int, body: string, decoded: Option<bool>)
    requires status != StatusOK
    ensures StartSync(Response(status, body, true, decoded)) == Fail(StartRejected(status, body))
    ensures Commit(Response(status, body, true, decoded)) == Fail(CommitRejected(status, body))
  {
  }

  /** HTTP 200 alone does not make a commit succeed: `success:false`, or a
      body that does not decode, is still a failure. */
  lemma CommitNeedsSuccessFlag(body: string)
    ensures Commit(Response(StatusOK, body, true, Some(false))) == Fail(CommitUnsuccessful)
    ensures Commit(Response(StatusOK, body, true, None)) == Fail(CommitDecodeFailed)
  {
  }

  /** Every answer `Commit` accepts, `StartSync` accepts too. */
  lemma CommitSuccessImpliesStartSuccess(e: Exchange<bool>)
    requires Commit(e).Pass?
    ensures StartSync(e).Pass?
  {
  }
}
