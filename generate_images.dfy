/**
 * The `POST` handler of app/api/generate-images/route.ts: walk the script's segments in index
 * order, run one image job per segment on its `image_description`, write the url into the
 * segment in place when the job reports no error, and collect one record per such segment.
 *
 * Each segment's job meets the provider through its own `Provider` (submission reply, clock and
 * status replies), since the jobs run one after another against the same service.
 */
module GenerateImages {
  import opened Wrappers
  import opened ScriptModel
  import opened ImageJob

  const InternalMessage: string := "Lỗi máy chủ nội bộ"

  /** What the provider does with one job. */
  datatype Provider = Provider(submit: SubmitReply, clock: nat -> int, polls: nat -> PollReply)

  /** Whether the key is set, `encodeURIComponent`, and the provider seen by the job of segment `i`. */
  datatype Config = Config(keyConfigured: bool, encode: string -> Option<string>, providers: nat -> Provider)

  ghost predicate Valid(c: Config)
  {
    forall i: nat :: ClockAdvances(c.providers(i).clock)
  }

  /** How `generateImage(description)` settles for segment `i`, at the default size. */
  function Job(c: Config, i: nat, description: Option<string>): Settlement
    requires Valid(c)
  {
    var p := c.providers(i);
    JobRun(description, DefaultWidth, DefaultHeight, c.keyConfigured, c.encode, p.submit, p.clock, p.polls).settlement
  }

  /** `if (!error)`: the job resolved and its error is `undefined` or empty. */
  predicate Succeeded(s: Settlement)
  {
    s.Resolved? && !Truthy(s.result.error)
  }

  /** The job resolved, but with an error. */
  predicate FailedQuietly(s: Settlement)
  {
    s.Resolved? && Truthy(s.result.error)
  }

  /** The segment after `image_path` and `direct_image_url` are both set to `url`. */
  function Updated(segment: Segment, url: string): Segment
  {
    segment.(imagePath := Some(url), directImageUrl := Some(url))
  }

  /** The segments, the records pushed so far, and whether a job rejected (aborting the handler). */
  datatype Batch = Batch(segments: seq<Segment>, records: seq<ImageRecord>, aborted: bool)

  /** The segment loop entered at index `i`, with `segs` as updated so far and `records` pushed. */
  function BatchFrom(c: Config, segs: seq<Segment>, i: nat, records: seq<ImageRecord>): Batch
    requires Valid(c) && i <= |segs|
    decreases |segs| - i
  {
    if i == |segs| then Batch(segs, records, false)
    else match Job(c, i, segs[i].imageDescription)
      case Rejected => Batch(segs, records, true)
      case Resolved(result) =>
        if !Truthy(result.error) then
          BatchFrom(c, segs[i := Updated(segs[i], result.url)], i + 1,
                    records + [ImageRecord(i, result.url, result.url)])
        else BatchFrom(c, segs, i + 1, records)
  }

  /** The loop over `segments`, updating the array in place and returning the records. */
  method RunSegments(c: Config, segs: array<Segment>) returns (aborted: bool, records: seq<ImageRecord>)
    requires Valid(c)
    modifies segs
    ensures BatchFrom(c, old(segs[..]), 0, []) == Batch(segs[..], records, aborted)
  {
    records := [];
    var i := 0;
    ghost var outcome := BatchFrom(c, segs[..], 0, []);
    while i < segs.Length
      invariant 0 <= i <= segs.Length
      invariant BatchFrom(c, segs[..], i, records) == outcome
    {
      var stop;
      stop, records := ProcessSegment(c, segs, i, records);
      if stop {
        return true, records;
      }
      i := i + 1;
    }
    aborted := false;
  }

  /**
   * One pass of the loop body: run the job of segment `i`; stop on a rejection, otherwise write
   * the url into the segment and push its record when the job reports no error.
   */
  method ProcessSegment(c: Config, segs: array<Segment>, i: nat, records: seq<ImageRecord>)
    returns (stop: bool, recs: seq<ImageRecord>)
    requires Valid(c) && i < segs.Length
    modifies segs
    ensures stop <==> Job(c, i, old(segs[i]).imageDescription).Rejected?
    ensures stop ==> segs[..] == old(segs[..]) && recs == records
    ensures stop ==> BatchFrom(c, old(segs[..]), i, records) == Batch(segs[..], recs, true)
    ensures !stop ==> var s := Job(c, i, old(segs[i]).imageDescription);
      && segs[..] == (if Succeeded(s) then old(segs[..])[i := Updated(old(segs[i]), s.result.url)] else old(segs[..]))
      && recs == (if Succeeded(s) then records + [ImageRecord(i, s.result.url, s.result.url)] else records)
    ensures !stop ==> BatchFrom(c, old(segs[..]), i, records) == BatchFrom(c, segs[..], i + 1, recs)
  {
    var segment := segs[i];
    var settlement := RunJob(c, i, segment.imageDescription);
    ghost var before := segs[..];
    if settlement.Rejected? {
      BatchAborts(c, before, i, records, settlement);
      return true, records;
    }
    recs := records;
    if !Truthy(settlement.result.error) {
      segs[i] := Updated(segment, settlement.result.url);
      recs := records + [ImageRecord(i, settlement.result.url, settlement.result.url)];
    }
    BatchAdvance(c, before, segs[..], i, records, recs, settlement);
    stop := false;
  }

  /** `await generateImage(segment.image_description)` for segment `i`. */
  method RunJob(c: Config, i: nat, description: Option<string>) returns (settlement: Settlement)
    requires Valid(c)
    ensures settlement == Job(c, i, description)
  {
    var p := c.providers(i);
    var calls;
    settlement, calls := GenerateImage(description, DefaultWidth, DefaultHeight,
                                       c.keyConfigured, c.encode, p.submit, p.clock, p.polls);
  }

  /** A rejected job ends the loop at segment `i`. */
  lemma {:induction false} BatchAborts(c: Config, segs: seq<Segment>, i: nat, records: seq<ImageRecord>,
                                       settlement: Settlement)
    requires Valid(c) && i < |segs|
    requires settlement == Job(c, i, segs[i].imageDescription) && settlement.Rejected?
    ensures BatchFrom(c, segs, i, records) == Batch(segs, records, true)
  {
  }

  /** A resolved job moves the loop on to segment `i + 1` with the state the loop body leaves. */
  lemma {:induction false} BatchAdvance(c: Config, segs: seq<Segment>, next: seq<Segment>, i: nat,
                                        records: seq<ImageRecord>, recs: seq<ImageRecord>, settlement: Settlement)
    requires Valid(c) && i < |segs|
    requires settlement == Job(c, i, segs[i].imageDescription) && settlement.Resolved?
    requires next == if Succeeded(settlement) then segs[i := Updated(segs[i], settlement.result.url)] else segs
    requires recs == if Succeeded(settlement)
      then records + [ImageRecord(i, settlement.result.url, settlement.result.url)] else records
    ensures |next| == |segs|
    ensures BatchFrom(c, segs, i, records) == BatchFrom(c, next, i + 1, recs)
  {
  }

  datatype ImagesResponse =
    | ImagesOk(script: Script, imageResults: seq<ImageRecord>)   // status 200, `success: true`
    | ImagesFailed(status: nat, error: string)                  // `success: false`

  /** The response for a request whose `script` is `script` (`None`: unreadable body or no script). */
  function Respond(c: Config, script: Option<Script>): ImagesResponse
    requires Valid(c)
  {
    match script
    case None => ImagesFailed(500, InternalMessage)
    case Some(s) =>
      var b := BatchFrom(c, s.segments, 0, []);
      if b.aborted then ImagesFailed(500, InternalMessage) else ImagesOk(s.(segments := b.segments), b.records)
  }

  /** The handler: the segments are the array the loop updates in place. */
  method HandleGenerateImages(c: Config, script: Option<Script>) returns (response: ImagesResponse)
    requires Valid(c)
    ensures response == Respond(c, script)
  {
    if script.None? {
      return ImagesFailed(500, InternalMessage);
    }
    var s := script.value;
    var segs := new Segment[|s.segments|](k requires 0 <= k < |s.segments| => s.segments[k]);
    assert segs[..] == s.segments;
    var aborted, records := RunSegments(c, segs);
    if aborted {
      return ImagesFailed(500, InternalMessage);
    }
    response := ImagesOk(s.(segments := segs[..]), records);
  }

  /** Reference: what segment `j` becomes. */
  function Expected(c: Config, segs: seq<Segment>, j: nat): Segment
    requires Valid(c) && j < |segs|
  {
    var s := Job(c, j, segs[j].imageDescription);
    if Succeeded(s) then Updated(segs[j], s.result.url) else segs[j]
  }

  /** The settlement of every segment's job, in index order. */
  function Settlements(c: Config, segs: seq<Segment>): (r: seq<Settlement>)
    requires Valid(c)
    ensures |r| == |segs|
  {
    seq(|segs|, j requires 0 <= j < |segs| => Job(c, j, segs[j].imageDescription))
  }

  /** Reference: one record per success among the first `n` settlements, in index order. */
  function ExpectedRecords(jobs: seq<Settlement>, n: nat): seq<ImageRecord>
    requires n <= |jobs|
  {
    if n == 0 then []
    else
      var s := jobs[n - 1];
      ExpectedRecords(jobs, n - 1) + (if Succeeded(s) then [ImageRecord(n - 1, s.result.url, s.result.url)] else [])
  }

  ghost predicate NoneRejected(c: Config, segs: seq<Segment>, lo: nat)
    requires Valid(c) && lo <= |segs|
  {
    forall j :: lo <= j < |segs| ==> Job(c, j, segs[j].imageDescription).Resolved?
  }

  /** The loop state after the first `i` segments agrees with the reference. */
  ghost predicate Matches(c: Config, segs: seq<Segment>, cur: seq<Segment>, i: nat, records: seq<ImageRecord>)
    requires Valid(c)
  {
    && |cur| == |segs| && i <= |segs|
    && (forall j :: 0 <= j < i ==> cur[j] == Expected(c, segs, j))
    && (forall j :: i <= j < |segs| ==> cur[j] == segs[j])
    && records == ExpectedRecords(Settlements(c, segs), i)
  }

  lemma {:induction false} BatchStep(c: Config, segs: seq<Segment>, cur: seq<Segment>, i: nat, records: seq<ImageRecord>)
    requires Valid(c) && Matches(c, segs, cur, i, records) && i < |segs|
    requires Job(c, i, segs[i].imageDescription).Resolved?
    ensures var s := Job(c, i, segs[i].imageDescription);
      var next := if Succeeded(s) then cur[i := Updated(cur[i], s.result.url)] else cur;
      var recs := if Succeeded(s) then records + [ImageRecord(i, s.result.url, s.result.url)] else records;
      && Matches(c, segs, next, i + 1, recs)
      && BatchFrom(c, cur, i, records) == BatchFrom(c, next, i + 1, recs)
  {
    assert cur[i] == segs[i];
  }

  lemma {:induction false} BatchFromReference(c: Config, segs: seq<Segment>, cur: seq<Segment>, i: nat,
                                              records: seq<ImageRecord>)
    requires Valid(c) && Matches(c, segs, cur, i, records)
    ensures var b := BatchFrom(c, cur, i, records);
      && (b.aborted <==> !NoneRejected(c, segs, i))
      && (!b.aborted ==> Matches(c, segs, b.segments, |segs|, b.records))
    decreases |segs| - i
  {
    if i < |segs| {
      var s := Job(c, i, segs[i].imageDescription);
      assert cur[i] == segs[i];
      if s.Resolved? {
        BatchStep(c, segs, cur, i, records);
        var next := if Succeeded(s) then cur[i := Updated(cur[i], s.result.url)] else cur;
        var recs := if Succeeded(s) then records + [ImageRecord(i, s.result.url, s.result.url)] else records;
        BatchFromReference(c, segs, next, i + 1, recs);
        assert NoneRejected(c, segs, i + 1) <==> NoneRejected(c, segs, i);
      }
    }
  }

  /**
   * The loop aborts exactly when some segment's job rejects; otherwise every successful segment
   * carries its job's url under both names, every other segment is unchanged, and the records
   * are the reference list.
   */
  lemma {:induction false} BatchAgainstReference(c: Config, segs: seq<Segment>)
    requires Valid(c)
    ensures var b := BatchFrom(c, segs, 0, []);
      && (b.aborted <==> exists j :: 0 <= j < |segs| && Job(c, j, segs[j].imageDescription).Rejected?)
      && (!b.aborted ==>
            && |b.segments| == |segs|
            && (forall j :: 0 <= j < |segs| ==> b.segments[j] == Expected(c, segs, j))
            && b.records == ExpectedRecords(Settlements(c, segs), |segs|))
  {
    BatchFromReference(c, segs, segs, 0, []);
  }

  /** At most one record per segment, each with an index below `n`. */
  lemma {:induction false} RecordsBounded(jobs: seq<Settlement>, n: nat)
    requires n <= |jobs|
    ensures var r := ExpectedRecords(jobs, n);
      |r| <= n && forall k :: 0 <= k < |r| ==> r[k].index < n
  {
    if n > 0 {
      RecordsBounded(jobs, n - 1);
    }
  }

  /** The records are in strictly increasing index order. */
  lemma {:induction false} RecordsOrdered(jobs: seq<Settlement>, n: nat)
    requires n <= |jobs|
    ensures var r := ExpectedRecords(jobs, n);
      forall k, l :: 0 <= k < l < |r| ==> r[k].index < r[l].index
  {
    if n > 0 {
      RecordsOrdered(jobs, n - 1);
      RecordsBounded(jobs, n - 1);
    }
  }

  /** The record is for a job that succeeded, and holds that job's url under both names. */
  predicate CarriesJobUrl(jobs: seq<Settlement>, record: ImageRecord)
  {
    && record.index < |jobs|
    && var s := jobs[record.index];
       Succeeded(s) && record.imagePath == s.result.url && record.directImageUrl == s.result.url
  }

  /** Every record carries its job's url. */
  lemma {:induction false} RecordsCarryUrl(jobs: seq<Settlement>, n: nat)
    requires n <= |jobs|
    ensures forall k :: 0 <= k < |ExpectedRecords(jobs, n)| ==> CarriesJobUrl(jobs, ExpectedRecords(jobs, n)[k])
  {
    if n > 0 {
      RecordsCarryUrl(jobs, n - 1);
      var r0 := ExpectedRecords(jobs, n - 1);
      var r := ExpectedRecords(jobs, n);
      forall k | 0 <= k < |r| ensures CarriesJobUrl(jobs, r[k]) {
        if k < |r0| {
          assert r[k] == r0[k];
        }
      }
    }
  }

  predicate HasRecord(records: seq<ImageRecord>, j: nat)
  {
    exists k :: 0 <= k < |records| && records[k].index == j
  }

  /** A segment has a record exactly when its job succeeded. */
  lemma {:induction false} RecordExactlyOnSuccess(jobs: seq<Settlement>, n: nat)
    requires n <= |jobs|
    ensures forall j :: 0 <= j < n ==> (Succeeded(jobs[j]) <==> HasRecord(ExpectedRecords(jobs, n), j))
  {
    if n > 0 {
      RecordExactlyOnSuccess(jobs, n - 1);
      RecordsBounded(jobs, n - 1);
      var r0 := ExpectedRecords(jobs, n - 1);
      var r := ExpectedRecords(jobs, n);
      forall j | 0 <= j < n ensures Succeeded(jobs[j]) <==> HasRecord(r, j) {
        if j == n - 1 {
          if Succeeded(jobs[j]) {
            assert r[|r0|].index == n - 1;
          }
        } else if HasRecord(r0, j) {
          var k :| 0 <= k < |r0| && r0[k].index == j;
          assert r[k] == r0[k];
        }
      }
    }
  }

  lemma {:induction false} NoSuccessNoRecords(jobs: seq<Settlement>, n: nat)
    requires n <= |jobs|
    requires forall j :: 0 <= j < n ==> !Succeeded(jobs[j])
    ensures ExpectedRecords(jobs, n) == []
  {
    if n > 0 {
      NoSuccessNoRecords(jobs, n - 1);
    }
  }

  /** When every job fails without rejecting, the response is the script as sent, with no records. */
  lemma {:induction false} AllFailingKeepsScript(c: Config, s: Script)
    requires Valid(c)
    requires forall j :: 0 <= j < |s.segments| ==> FailedQuietly(Job(c, j, s.segments[j].imageDescription))
    ensures Respond(c, Some(s)) == ImagesOk(s, [])
  {
    BatchAgainstReference(c, s.segments);
    NoSuccessNoRecords(Settlements(c, s.segments), |s.segments|);
    var b := BatchFrom(c, s.segments, 0, []);
    assert !b.aborted;
    assert b.segments == s.segments;
  }

  /**
   * The response is a failure only where the handler throws: no readable script, or a job that
   * rejects, which happens only for a segment whose placeholder cannot be built (no
   * `image_description`, or one whose preview `encodeURIComponent` refuses). Every other request
   * gets status 200, however many segments failed.
   */
  lemma {:induction false} FailsOnlyOnException(c: Config, script: Option<Script>)
    requires Valid(c)
    ensures Respond(c, script).ImagesFailed? <==>
      || script.None?
      || exists j :: 0 <= j < |script.value.segments|
           && PlaceholderFails(script.value.segments[j].imageDescription, DefaultWidth, DefaultHeight, c.encode)
           && Job(c, j, script.value.segments[j].imageDescription).Rejected?
    ensures Respond(c, script).ImagesFailed? ==> Respond(c, script) == ImagesFailed(500, InternalMessage)
  {
    if script.Some? {
      var segs := script.value.segments;
      BatchAgainstReference(c, segs);
      forall j | 0 <= j < |segs| && Job(c, j, segs[j].imageDescription).Rejected?
        ensures PlaceholderFails(segs[j].imageDescription, DefaultWidth, DefaultHeight, c.encode)
      {
        var p := c.providers(j);
        AlwaysAUrl(segs[j].imageDescription, DefaultWidth, DefaultHeight, c.keyConfigured, c.encode,
                   p.submit, p.clock, p.polls);
      }
    }
  }
}
