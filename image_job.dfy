/**
 * `generateImage` of app/api/generate-images/route.ts: submit a text-to-image job, then wait
 * 10 s, check the 5-minute ceiling and query the job's status, until a terminal status or the
 * ceiling; every failure is turned into a placeholder url plus an error message.
 *
 * The provider and the clock are inputs. `submit` is how the job submission ended; `polls(k)` is
 * the reply to the k-th status query; `clock(0)` is `Date.now()` right after submission and
 * `clock(k + 1)` is `Date.now()` after the (k + 1)-th wait. `encode` stands for
 * `encodeURIComponent`, with `None` where it throws.
 */
module ImageJob {
  import opened Wrappers
  import opened JsStrings

  const DefaultWidth: nat := 1024
  const DefaultHeight: nat := 1024
  const PreviewLength: nat := 30
  const PollIntervalMs: nat := 10000
  const TimeoutMs: nat := 300000
  const SuccessStatus: string := "SUCCESS"
  const FailedStatus: string := "FAILED"
  const OutputMissingMessage: string := "Output is missing in the job response"
  const JobFailedMessage: string := "Job failed. Please try again with different settings"
  const TimeoutMessage: string := "Job timed out after " + NatToDecimal(TimeoutMs / 1000) + " seconds"

  /** How `axios.post` of the job ended: a response (status, `JSON.stringify(data)`) or a throw. */
  datatype SubmitReply = Submitted(status: nat, body: string) | SubmitThrew(message: string)

  /** How one `axios.get` of the job status ended: `job.status` and `successInfo.images[0].url`, or a throw. */
  datatype PollReply = Polled(status: string, imageUrl: Option<string>) | PollThrew(message: string)

  /** `{ url, error? }`. */
  datatype ImageResult = ImageResult(url: string, error: Option<string>)

  /**
   * How the call settles. `Rejected` is the promise rejecting: it happens only when a placeholder
   * has to be built and cannot be, because the prompt is `undefined` (`prompt.substring` throws)
   * or `encodeURIComponent` throws on the preview; both throw in the catch blocks too.
   */
  datatype Settlement = Resolved(result: ImageResult) | Rejected

  /** The provider calls made, in order. */
  datatype NetCall = SubmitJob | QueryJob

  datatype FailReason = TimedOut | OutputMissing | JobFailed | Threw(message: string)

  datatype PollEnd = Completed(url: string) | Stopped(reason: FailReason)

  /** How the poll loop ended and how many status queries it made. */
  datatype PollRun = PollRun(end: PollEnd, queries: nat)

  datatype ImageRun = ImageRun(settlement: Settlement, calls: seq<NetCall>)

  /** `prompt.substring(0, 30)`. */
  function Preview(prompt: string): (r: string)
    ensures |r| <= PreviewLength && |r| <= |prompt| && r == prompt[..|r|]
    ensures |r| < PreviewLength ==> r == prompt
  {
    if |prompt| <= PreviewLength then prompt else prompt[..PreviewLength]
  }

  /**
   * The placeholder url built on every fallback path, or `None` where `encodeURIComponent`
   * throws on the preview.
   */
  function Placeholder(prompt: string, width: nat, height: nat, encode: string -> Option<string>): (r: Option<string>)
    ensures r.Some? <==> encode(Preview(prompt)).Some?
    ensures r.Some? ==>
      && StartsWith(r.value, "/placeholder.svg?height=")
      && |encode(Preview(prompt)).value| <= |r.value|
      && r.value[|r.value| - |encode(Preview(prompt)).value|..] == encode(Preview(prompt)).value
  {
    match encode(Preview(prompt))
    case None => None
    case Some(text) =>
      Some("/placeholder.svg?height=" + NatToDecimal(height) + "&width=" + NatToDecimal(width) + "&text=" + text)
  }

  /** No placeholder can be built: the prompt is `undefined`, or its preview does not encode. */
  predicate PlaceholderFails(prompt: Option<string>, width: nat, height: nat, encode: string -> Option<string>)
  {
    prompt.None? || Placeholder(prompt.value, width, height, encode).None?
  }

  /**
   * Returning the placeholder with `error`, or rejecting when the prompt is `undefined` (the
   * `substring` call throws) or `encodeURIComponent` throws.
   */
  function Fallback(prompt: Option<string>, width: nat, height: nat, encode: string -> Option<string>,
                    error: Option<string>): (s: Settlement)
    ensures s.Rejected? <==> PlaceholderFails(prompt, width, height, encode)
    ensures s.Resolved? ==> s.result == ImageResult(Placeholder(prompt.value, width, height, encode).value, error)
  {
    match prompt
    case None => Rejected
    case Some(p) =>
      match Placeholder(p, width, height, encode)
      case None => Rejected
      case Some(url) => Resolved(ImageResult(url, error))
  }

  function ApiErrorMessage(status: nat, body: string): string
  {
    "API error: " + NatToDecimal(status) + " - " + body
  }

  function ReasonMessage(reason: FailReason): string
  {
    match reason
    case TimedOut => TimeoutMessage
    case OutputMissing => OutputMissingMessage
    case JobFailed => JobFailedMessage
    case Threw(message) => message
  }

  /** A status reply that keeps the loop going. */
  predicate Pending(reply: PollReply)
  {
    reply.Polled? && reply.status != SuccessStatus && reply.status != FailedStatus
  }

  /** Every wait advances the millisecond clock. */
  ghost predicate ClockAdvances(clock: nat -> int)
  {
    forall k: nat :: clock(k) < clock(k + 1)
  }

  function Elapsed(clock: nat -> int, k: nat): int
  {
    clock(k) - clock(0)
  }

  /** The poll loop, entered after `k` status queries have been made. */
  function PollFrom(clock: nat -> int, polls: nat -> PollReply, k: nat): PollRun
    requires ClockAdvances(clock)
    decreases TimeoutMs - Elapsed(clock, k + 1)
  {
    if Elapsed(clock, k + 1) > TimeoutMs then PollRun(Stopped(TimedOut), k)
    else
      assert clock(k + 1) < clock(k + 2);
      match polls(k)
      case PollThrew(message) => PollRun(Stopped(Threw(message)), k + 1)
      case Polled(status, imageUrl) =>
        if status == SuccessStatus then
          if Truthy(imageUrl) then PollRun(Completed(imageUrl.value), k + 1)
          else PollRun(Stopped(OutputMissing), k + 1)
        else if status == FailedStatus then PollRun(Stopped(JobFailed), k + 1)
        else PollFrom(clock, polls, k + 1)
  }

  function Queries(n: nat): (r: seq<NetCall>)
    ensures |r| == n && forall i :: 0 <= i < n ==> r[i] == QueryJob
  {
    seq(n, _ => QueryJob)
  }

  /** What one `generateImage(prompt, width, height)` call does. */
  function JobRun(prompt: Option<string>, width: nat, height: nat, keyConfigured: bool,
                  encode: string -> Option<string>, submit: SubmitReply,
                  clock: nat -> int, polls: nat -> PollReply): ImageRun
    requires ClockAdvances(clock)
  {
    if !keyConfigured then ImageRun(Fallback(prompt, width, height, encode, None), [])
    else match submit
      case SubmitThrew(message) =>
        ImageRun(Fallback(prompt, width, height, encode, Some(message)), [SubmitJob])
      case Submitted(status, body) =>
        if status != 200 then
          ImageRun(Fallback(prompt, width, height, encode, Some(ApiErrorMessage(status, body))), [SubmitJob])
        else
          var run := PollFrom(clock, polls, 0);
          var settlement := match run.end
            case Completed(url) => Resolved(ImageResult(url, None))
            case Stopped(reason) => Fallback(prompt, width, height, encode, Some(ReasonMessage(reason)));
          ImageRun(settlement, [SubmitJob] + Queries(run.queries))
  }

  /**
   * `generateImage`: the key check, the submission, and the `while (true)` loop that waits,
   * checks the ceiling, queries and inspects the status.
   */
  method GenerateImage(prompt: Option<string>, width: nat, height: nat, keyConfigured: bool,
                       encode: string -> Option<string>, submit: SubmitReply,
                       clock: nat -> int, polls: nat -> PollReply)
    returns (settlement: Settlement, calls: seq<NetCall>)
    requires ClockAdvances(clock)
    ensures ImageRun(settlement, calls) == JobRun(prompt, width, height, keyConfigured, encode, submit, clock, polls)
  {
    calls := [];
    if !keyConfigured {
      settlement := Fallback(prompt, width, height, encode, None);
      return;
    }
    calls := calls + [SubmitJob];
    match submit {
      case SubmitThrew(message) =>
        settlement := Fallback(prompt, width, height, encode, Some(message));
        return;
      case Submitted(status, body) =>
        if status != 200 {
          settlement := Fallback(prompt, width, height, encode, Some(ApiErrorMessage(status, body)));
          return;
        }
    }
    var startTime := clock(0);
    var k: nat := 0;
    while true
      invariant PollFrom(clock, polls, k) == PollFrom(clock, polls, 0)
      invariant calls == [SubmitJob] + Queries(k)
      decreases TimeoutMs - (clock(k + 1) - startTime)
    {
      var now := clock(k + 1);
      if now - startTime > TimeoutMs {
        settlement := Fallback(prompt, width, height, encode, Some(TimeoutMessage));
        return;
      }
      var reply := polls(k);
      calls := calls + [QueryJob];
      match reply {
        case PollThrew(message) =>
          settlement := Fallback(prompt, width, height, encode, Some(message));
          return;
        case Polled(status, imageUrl) =>
          if status == SuccessStatus {
            if Truthy(imageUrl) {
              settlement := Resolved(ImageResult(imageUrl.value, None));
              return;
            }
            settlement := Fallback(prompt, width, height, encode, Some(OutputMissingMessage));
            return;
          } else if status == FailedStatus {
            settlement := Fallback(prompt, width, height, encode, Some(JobFailedMessage));
            return;
          }
      }
      assert clock(k + 1) < clock(k + 2);
      k := k + 1;
    }
  }

  lemma {:induction false} DefaultSizeText()
    ensures NatToDecimal(DefaultWidth) == "1024" && NatToDecimal(DefaultHeight) == "1024"
  {
    assert NatToDecimal(1) == "1";
    assert NatToDecimal(10) == "10";
    assert NatToDecimal(102) == "102";
  }

  /**
   * With the default size the placeholder is `/placeholder.svg?height=1024&width=1024&text=`
   * followed by the encoding of the prompt's first at most 30 characters.
   */
  lemma {:induction false} DefaultPlaceholderFormat(prompt: string, encode: string -> Option<string>)
    ensures var preview := Preview(prompt);
      && (encode(preview).Some? ==>
            Placeholder(prompt, DefaultWidth, DefaultHeight, encode)
              == Some("/placeholder.svg?height=1024&width=1024&text=" + encode(preview).value))
      && (encode(preview).None? ==> Placeholder(prompt, DefaultWidth, DefaultHeight, encode).None?)
      && |preview| == (if |prompt| < 30 then |prompt| else 30)
      && preview == prompt[..|preview|]
  {
    DefaultSizeText();
    var preview := Preview(prompt);
    if encode(preview).Some? {
      var text := encode(preview).value;
      assert Placeholder(prompt, DefaultWidth, DefaultHeight, encode)
        == Some("/placeholder.svg?height=" + "1024" + "&width=" + "1024" + "&text=" + text);
      assert "/placeholder.svg?height=" + "1024" + "&width=" + "1024" + "&text="
        == "/placeholder.svg?height=1024&width=1024&text=";
    }
  }

  /**
   * Without a key nothing is submitted or queried: the placeholder comes back with no error, or
   * the call rejects when no placeholder can be built.
   */
  lemma {:induction false} NoKeyMeansOffline(prompt: Option<string>, width: nat, height: nat, encode: string -> Option<string>,
                          submit: SubmitReply, clock: nat -> int, polls: nat -> PollReply)
    requires ClockAdvances(clock)
    ensures var run := JobRun(prompt, width, height, false, encode, submit, clock, polls);
      && run.calls == []
      && (run.settlement.Rejected? <==> PlaceholderFails(prompt, width, height, encode))
      && (run.settlement.Resolved? ==>
            run.settlement.result == ImageResult(Placeholder(prompt.value, width, height, encode).value, None))
  {
  }

  /** A submission answered with a status other than 200 yields placeholder plus error, and no query. */
  lemma {:induction false} RefusedSubmissionNeverPolls(prompt: string, width: nat, height: nat, encode: string -> Option<string>,
                                    status: nat, body: string, clock: nat -> int, polls: nat -> PollReply)
    requires ClockAdvances(clock) && status != 200
    ensures var run := JobRun(Some(prompt), width, height, true, encode, Submitted(status, body), clock, polls);
      var placeholder := Placeholder(prompt, width, height, encode);
      && run.calls == [SubmitJob]
      && (placeholder.Some? ==>
            run.settlement == Resolved(ImageResult(placeholder.value,
                                                   Some("API error: " + NatToDecimal(status) + " - " + body))))
      && (placeholder.None? ==> run.settlement == Rejected)
  {
  }

  /** The reply to query `j` is pending and was asked for within the ceiling. */
  predicate PendingWithin(clock: nat -> int, polls: nat -> PollReply, j: nat)
  {
    Pending(polls(j)) && Elapsed(clock, j + 1) <= TimeoutMs
  }

  /** Consecutive pending replies within the ceiling are skipped over. */
  lemma {:induction false} SkipPending(clock: nat -> int, polls: nat -> PollReply, i: nat, k: nat)
    requires ClockAdvances(clock) && i <= k
    requires forall j: nat :: i <= j < k ==> PendingWithin(clock, polls, j)
    ensures PollFrom(clock, polls, i) == PollFrom(clock, polls, k)
    decreases k - i
  {
    if i < k {
      assert PendingWithin(clock, polls, i);
      SkipPending(clock, polls, i + 1, k);
    }
  }

  /**
   * The first status reply that is `SUCCESS` with a url, reached within the ceiling after only
   * pending replies, ends the loop with that url after `k + 1` queries.
   */
  lemma {:induction false} FirstSuccessWins(clock: nat -> int, polls: nat -> PollReply, k: nat, url: string)
    requires ClockAdvances(clock)
    requires forall j: nat :: j < k ==> PendingWithin(clock, polls, j)
    requires Elapsed(clock, k + 1) <= TimeoutMs
    requires polls(k) == Polled(SuccessStatus, Some(url)) && url != ""
    ensures PollFrom(clock, polls, 0) == PollRun(Completed(url), k + 1)
  {
    SkipPending(clock, polls, 0, k);
  }

  /** A status reply that ends the loop without a url: the message the fallback then carries. */
  predicate FailsWith(reply: PollReply, message: string)
  {
    || (reply.Polled? && reply.status == SuccessStatus && !Truthy(reply.imageUrl) && message == OutputMissingMessage)
    || (reply.Polled? && reply.status == FailedStatus && message == JobFailedMessage)
    || reply == PollThrew(message)
  }

  /**
   * The first status reply that is `SUCCESS` without a url, `FAILED`, or a throw, reached within
   * the ceiling after only pending replies, ends the call after `k + 1` queries with the
   * placeholder and that reply's message (rejecting when no placeholder can be built).
   */
  lemma {:induction false} FirstFailureFallsBack(prompt: string, width: nat, height: nat,
                                                 encode: string -> Option<string>, body: string,
                                                 clock: nat -> int, polls: nat -> PollReply, k: nat, message: string)
    requires ClockAdvances(clock)
    requires forall j: nat :: j < k ==> PendingWithin(clock, polls, j)
    requires Elapsed(clock, k + 1) <= TimeoutMs
    requires FailsWith(polls(k), message)
    ensures var run := JobRun(Some(prompt), width, height, true, encode, Submitted(200, body), clock, polls);
      var placeholder := Placeholder(prompt, width, height, encode);
      && run.calls == [SubmitJob] + Queries(k + 1)
      && (placeholder.Some? ==> run.settlement == Resolved(ImageResult(placeholder.value, Some(message))))
      && (placeholder.None? ==> run.settlement == Rejected)
  {
    SkipPending(clock, polls, 0, k);
    assert clock(k + 1) < clock(k + 2);
  }

  /**
   * Conversely, the loop yields a url only as the reply to some query `k` that returned
   * `SUCCESS` with that (non-empty) url within the ceiling, every earlier reply being pending.
   */
  lemma {:induction false} CompletedOnlyOnSuccess(clock: nat -> int, polls: nat -> PollReply, i: nat)
    requires ClockAdvances(clock)
    ensures PollFrom(clock, polls, i).end.Completed? ==>
      var url := PollFrom(clock, polls, i).end.url;
      exists k :: i <= k && polls(k) == Polled(SuccessStatus, Some(url)) && url != ""
        && PollFrom(clock, polls, i).queries == k + 1 && Elapsed(clock, k + 1) <= TimeoutMs
        && forall j :: i <= j < k ==> Pending(polls(j))
    decreases TimeoutMs - Elapsed(clock, i + 1)
  {
    var run := PollFrom(clock, polls, i);
    if run.end.Completed? && Elapsed(clock, i + 1) <= TimeoutMs && Pending(polls(i)) {
      assert clock(i + 1) < clock(i + 2);
      CompletedOnlyOnSuccess(clock, polls, i + 1);
      var k :| i + 1 <= k && polls(k) == Polled(SuccessStatus, Some(run.end.url)) && run.end.url != ""
        && PollFrom(clock, polls, i + 1).queries == k + 1 && Elapsed(clock, k + 1) <= TimeoutMs
        && forall j :: i + 1 <= j < k ==> Pending(polls(j));
      assert forall j :: i <= j < k ==> Pending(polls(j));
    }
  }

  /** Every status query is made at a time within the ceiling: once it is exceeded, no query follows. */
  lemma {:induction false} QueriesWithinCeiling(clock: nat -> int, polls: nat -> PollReply, i: nat)
    requires ClockAdvances(clock)
    ensures i <= PollFrom(clock, polls, i).queries
    ensures forall n: nat :: i < n <= PollFrom(clock, polls, i).queries ==> Elapsed(clock, n) <= TimeoutMs
    decreases TimeoutMs - Elapsed(clock, i + 1)
  {
    if Elapsed(clock, i + 1) <= TimeoutMs && Pending(polls(i)) {
      assert clock(i + 1) < clock(i + 2);
      QueriesWithinCeiling(clock, polls, i + 1);
    }
  }

  /** A job that never leaves the pending states ends in the timeout: the loop never hangs. */
  lemma {:induction false} NeverTerminalTimesOut(clock: nat -> int, polls: nat -> PollReply, i: nat)
    requires ClockAdvances(clock)
    requires forall j :: i <= j ==> Pending(polls(j))
    ensures PollFrom(clock, polls, i).end == Stopped(TimedOut)
    decreases TimeoutMs - Elapsed(clock, i + 1)
  {
    if Elapsed(clock, i + 1) <= TimeoutMs {
      assert Pending(polls(i));
      assert clock(i + 1) < clock(i + 2);
      NeverTerminalTimesOut(clock, polls, i + 1);
    }
  }

  lemma {:induction false} ElapsedAtLeast(clock: nat -> int, n: nat)
    requires forall k: nat :: clock(k + 1) - clock(k) >= PollIntervalMs
    ensures Elapsed(clock, n) >= PollIntervalMs * n
  {
    if n > 0 {
      ElapsedAtLeast(clock, n - 1);
      assert clock(n) - clock(n - 1) >= PollIntervalMs;
    }
  }

  lemma {:induction false} AtMostThirtyFrom(clock: nat -> int, polls: nat -> PollReply, i: nat)
    requires forall k: nat :: clock(k + 1) - clock(k) >= PollIntervalMs
    requires ClockAdvances(clock) && i <= 30
    ensures PollFrom(clock, polls, i).queries <= 30
    decreases 30 - i
  {
    ElapsedAtLeast(clock, i + 1);
    if Elapsed(clock, i + 1) <= TimeoutMs && Pending(polls(i)) {
      AtMostThirtyFrom(clock, polls, i + 1);
    }
  }

  /**
   * With each 10 000 ms wait advancing the clock by at least that much, one `generateImage` call
   * makes at most one submission and 30 status queries.
   */
  lemma {:induction false} AtMostThirtyQueries(prompt: Option<string>, width: nat, height: nat, keyConfigured: bool,
                            encode: string -> Option<string>, submit: SubmitReply,
                            clock: nat -> int, polls: nat -> PollReply)
    requires forall k: nat :: clock(k + 1) - clock(k) >= PollIntervalMs
    ensures ClockAdvances(clock)
    ensures var calls := JobRun(prompt, width, height, keyConfigured, encode, submit, clock, polls).calls;
      && |calls| <= 31
      && (|calls| > 0 ==> calls[0] == SubmitJob)
      && forall i :: 1 <= i < |calls| ==> calls[i] == QueryJob
  {
    assert ClockAdvances(clock) by {
      forall k: nat ensures clock(k) < clock(k + 1) {
        assert clock(k + 1) - clock(k) >= PollIntervalMs;
      }
    }
    AtMostThirtyFrom(clock, polls, 0);
  }

  /**
   * Every settled call carries a non-empty url, and the call rejects only when no placeholder can
   * be built.
   */
  lemma {:induction false} AlwaysAUrl(prompt: Option<string>, width: nat, height: nat, keyConfigured: bool,
                   encode: string -> Option<string>, submit: SubmitReply,
                   clock: nat -> int, polls: nat -> PollReply)
    requires ClockAdvances(clock)
    ensures var settlement := JobRun(prompt, width, height, keyConfigured, encode, submit, clock, polls).settlement;
      && (settlement.Resolved? ==> settlement.result.url != "")
      && (!PlaceholderFails(prompt, width, height, encode) ==> settlement.Resolved?)
  {
    CompletedOnlyOnSuccess(clock, polls, 0);
  }

  /**
   * The error is absent on exactly two paths: no key (with a prompt to build the placeholder
   * from), and a status query that answered `SUCCESS` with a url. Every other path resolves with
   * the placeholder and an error, or rejects.
   */
  lemma {:induction false} NoErrorExactly(prompt: Option<string>, width: nat, height: nat, keyConfigured: bool,
                       encode: string -> Option<string>, submit: SubmitReply,
                       clock: nat -> int, polls: nat -> PollReply)
    requires ClockAdvances(clock)
    ensures var settlement := JobRun(prompt, width, height, keyConfigured, encode, submit, clock, polls).settlement;
      (settlement.Resolved? && settlement.result.error.None?) <==>
        || (!keyConfigured && !PlaceholderFails(prompt, width, height, encode))
        || (keyConfigured && submit.Submitted? && submit.status == 200
            && PollFrom(clock, polls, 0).end.Completed?)
    ensures var settlement := JobRun(prompt, width, height, keyConfigured, encode, submit, clock, polls).settlement;
      settlement.Resolved? && settlement.result.error.Some? ==>
        settlement.result.url == Placeholder(prompt.value, width, height, encode).value
  {
  }
}
