/** The queued enrichment job: one attempt reads the current row, calls the
    fetcher once and writes either the success tuple or the failure tuple
    (and rethrows); the queue worker runs up to `Tries` attempts, `Backoff`
    time units apart, and calls the `failed` hook after the last failure. */
module FetchJob {
  import opened Wrappers
  import opened MetadataFetcher
  import opened BookmarkModel
  import opened PhpText

  /** The job's `$tries`. */
  const Tries: nat := 3

  /** The job's `$backoff`, in the clock's units. */
  const Backoff: nat := 60

  /** The fetcher service as the job calls it: on the n-th attempt at a url,
      a metadata array or an exception message. The service itself, or any
      stand-in for it, fits this shape. */
  type Fetcher = (nat, string) -> Result<Metadata, string>

  /** The real service over a network that answers the n-th GET of a url. */
  function ServiceFetcher(network: (nat, string) -> HttpResponse): Fetcher {
    (n: nat, url: string) => Fetch(network(n, url))
  }

  /** `$metadata[$key] ?? null`: a missing key reads as null. */
  function MetadataField(m: Metadata, key: string): Option<string> {
    if key in m then m[key] else None
  }

  /** The attribute array written after a successful fetch. */
  function SuccessPatch(m: Metadata, now: Timestamp): Patch {
    EmptyPatch.(title := Some(MetadataField(m, TitleKey)),
                description := Some(MetadataField(m, DescriptionKey)),
                metadataFetchedAt := Some(Some(now)),
                fetchFailed := Some(false),
                fetchError := Some(None))
  }

  /** The attribute array written after a failed fetch. */
  function FailurePatch(message: string): Patch {
    EmptyPatch.(fetchFailed := Some(true), fetchError := Some(Some(message)))
  }

  /** After a success the record holds the metadata (a missing key as null),
      is completed and not failed, has no error; url and id are kept. */
  lemma SuccessWrite(b: Bookmark, m: Metadata, now: Timestamp)
    ensures var r := Fill(b, SuccessPatch(m, now));
      && r.title == MetadataField(m, TitleKey)
      && r.description == MetadataField(m, DescriptionKey)
      && (TitleKey in m ==> r.title == m[TitleKey])
      && (TitleKey !in m ==> r.title.None?)
      && (DescriptionKey in m ==> r.description == m[DescriptionKey])
      && (DescriptionKey !in m ==> r.description.None?)
      && r.metadataFetchedAt == Some(now)
      && !r.fetchFailed && r.fetchError.None?
      && WithMetadata(r) && !FailedMetadata(r) && !PendingMetadata(r)
      && r.id == b.id && r.url == b.url && r.deletedAt == b.deletedAt
  {
  }

  /** Metadata with both fields null still makes the record completed. */
  lemma EmptyMetadataIsSuccess(b: Bookmark, now: Timestamp)
    ensures var r := Fill(b, SuccessPatch(map[TitleKey := None, DescriptionKey := None], now));
      r.title.None? && r.description.None? && WithMetadata(r) && !FailedMetadata(r)
  {
  }

  /** After a failure the record is failed with the message; title,
      description, fetch time, url and id are untouched. */
  lemma FailureWrite(b: Bookmark, message: string)
    ensures var r := Fill(b, FailurePatch(message));
      && r.fetchFailed && r.fetchError == Some(message) && FailedMetadata(r)
      && !PendingMetadata(r)
      && r == b.(fetchFailed := true, fetchError := Some(message))
  {
  }

  /** A later write decides the status fields: a success erases an earlier
      failure, and a later failure replaces an earlier one. */
  lemma LaterWriteWins(b: Bookmark, e: string, m: Metadata, now: Timestamp, e2: string)
    ensures Fill(Fill(b, FailurePatch(e)), SuccessPatch(m, now)) == Fill(b, SuccessPatch(m, now))
    ensures Fill(Fill(b, FailurePatch(e)), FailurePatch(e2)) == Fill(b, FailurePatch(e2))
  {
  }

  /** How one attempt ends: normally, or with an exception. */
  datatype Outcome = Completed | Threw(message: string)

  /** The record after an attempt whose fetch gave `result` at time `now`. */
  function AfterAttempt(b: Bookmark, result: Result<Metadata, string>, now: Timestamp): Bookmark {
    match result
    case Ok(m) => Fill(b, SuccessPatch(m, now))
    case Err(e) => Fill(b, FailurePatch(e))
  }

  /** An attempt completes when its fetch succeeded and otherwise rethrows
      the fetch's message. */
  function OutcomeOf(result: Result<Metadata, string>): Outcome {
    if result.Ok? then Completed else Threw(result.error)
  }

  /** The message the job ends with when `fresh()` no longer finds the row.
      Reading `url` on null is a warning, which Laravel's error handler
      turns into an `ErrorException`; the catch block then calls `update`
      on null, and that `Error` is what leaves the job. */
  const MissingRecordError: string := "Call to a member function update() on null"

  /** What the `failed` hook reports. */
  datatype FailureReport = FailureReport(bookmarkId: Id, error: string)

  /** The attempt number on which the job stops, counting from attempt `k`:
      the first attempt whose fetch succeeds, or the last one allowed. */
  function FinalAttempt(fetch: Fetcher, url: string, k: nat): (n: nat)
    requires 1 <= k <= Tries
    ensures k <= n <= Tries
    ensures fetch(n, url).Ok? || n == Tries
    ensures forall j :: k <= j < n ==> fetch(j, url).Err?
    decreases Tries - k
  {
    if fetch(k, url).Ok? || k == Tries then k else FinalAttempt(fetch, url, k + 1)
  }

  /** The stopping attempt is exactly the first success, if there is one. */
  lemma FinalAttemptIsFirstSuccess(fetch: Fetcher, url: string, s: nat)
    requires 1 <= s <= Tries && fetch(s, url).Ok?
    requires forall j :: 1 <= j < s ==> fetch(j, url).Err?
    ensures FinalAttempt(fetch, url, 1) == s
  {
  }

  /** The time of the n-th attempt of a job first run at `start`. */
  function AttemptTime(start: Timestamp, n: nat): Timestamp
    requires n >= 1
  {
    start + (n - 1) * Backoff
  }

  /** The record once the retries are over. */
  function FinalRecord(b: Bookmark, fetch: Fetcher, start: Timestamp): Bookmark {
    var n := FinalAttempt(fetch, b.url, 1);
    AfterAttempt(b, fetch(n, b.url), AttemptTime(start, n))
  }

  /** A fetcher that always fails uses up all three attempts and leaves the
      record failed with the last message and its earlier metadata intact. */
  lemma AlwaysFailingExhaustsRetries(b: Bookmark, fetch: Fetcher, start: Timestamp)
    requires forall n :: fetch(n, b.url).Err?
    ensures FinalAttempt(fetch, b.url, 1) == Tries
    ensures var r := FinalRecord(b, fetch, start);
      && r.fetchFailed && r.fetchError == Some(fetch(Tries, b.url).error)
      && r.metadataFetchedAt == b.metadataFetchedAt
      && r.title == b.title && r.description == b.description
  {
  }

  /** A terminal failure only ever follows three failed attempts. */
  lemma TerminalFailureNeedsThreeAttempts(b: Bookmark, fetch: Fetcher, start: Timestamp)
    requires FinalRecord(b, fetch, start).fetchFailed
    ensures FinalAttempt(fetch, b.url, 1) == Tries
    ensures forall j :: 1 <= j <= Tries ==> fetch(j, b.url).Err?
  {
    var n := FinalAttempt(fetch, b.url, 1);
    if fetch(n, b.url).Ok? {
      SuccessWrite(b, fetch(n, b.url).value, AttemptTime(start, n));
    }
  }

  /** A success on the second attempt, after a failed first one, leaves the
      record completed, not failed, without an error. */
  lemma SuccessAfterFailure(b: Bookmark, fetch: Fetcher, start: Timestamp)
    requires fetch(1, b.url).Err? && fetch(2, b.url).Ok?
    ensures FinalAttempt(fetch, b.url, 1) == 2
    ensures var r := FinalRecord(b, fetch, start);
      r.metadataFetchedAt == Some(start + Backoff) && !r.fetchFailed && r.fetchError.None?
      && WithMetadata(r) && !FailedMetadata(r)
  {
    FinalAttemptIsFirstSuccess(fetch, b.url, 2);
  }

  /** With the real service, a terminal failure's stored error carries the
      service's fixed prefix; for a page that always answers 404 it names
      the status. */
  lemma ServiceFailureIsPrefixed(b: Bookmark, network: (nat, string) -> HttpResponse, start: Timestamp)
    requires FinalRecord(b, ServiceFetcher(network), start).fetchFailed
    ensures var e := FinalRecord(b, ServiceFetcher(network), start).fetchError;
      e.Some? && |e.value| >= |FetchErrorPrefix| && e.value[..|FetchErrorPrefix|] == FetchErrorPrefix
  {
    var fetch := ServiceFetcher(network);
    TerminalFailureNeedsThreeAttempts(b, fetch, start);
    assert fetch(Tries, b.url) == Fetch(network(Tries, b.url));
  }

  lemma AlwaysNotFound(b: Bookmark, body: Document, start: Timestamp)
    ensures var r := FinalRecord(b, ServiceFetcher((n: nat, url: string) => Response(404, body)), start);
      r.fetchFailed && r.fetchError == Some(FetchErrorPrefix + "Failed to fetch URL: HTTP status 404")
  {
    var fetch := ServiceFetcher((n: nat, url: string) => Response(404, body));
    assert Decimal(404) == "404" by {
      assert Decimal(40) == "40" by { assert Decimal(4) == "4"; }
    }
    forall n: nat
      ensures fetch(n, b.url) == Err(FetchErrorPrefix + "Failed to fetch URL: HTTP status 404")
    {
      assert fetch(n, b.url) == Fetch(Response(404, body));
      assert StatusErrorText + Decimal(404) == "Failed to fetch URL: HTTP status 404";
      assert FetchErrorPrefix + StatusErrorText + Decimal(404)
          == FetchErrorPrefix + (StatusErrorText + Decimal(404));
    }
    AlwaysFailingExhaustsRetries(b, fetch, start);
  }

  /** The queue: the ids of the bookmarks with a job waiting, in order. */
  class JobQueue {
    var jobs: seq<Id>

    constructor ()
      ensures jobs == []
    {
      jobs := [];
    }

    /** `FetchBookmarkMetadata::dispatch($bookmark)`. */
    method Dispatch(id: Id)
      modifies this
      ensures jobs == old(jobs) + [id]
    {
      jobs := jobs + [id];
    }
  }

  /** One queued `FetchBookmarkMetadata` job. */
  class FetchBookmarkMetadata {
    /** The bookmark the job was created for. */
    const bookmarkId: Id
    /** The queue's attempt counter for this job. */
    var attempts: nat
    /** The urls the job has passed to the fetcher, one per call. */
    ghost var fetchCalls: seq<string>

    constructor (id: Id)
      ensures bookmarkId == id && attempts == 0 && fetchCalls == []
    {
      bookmarkId := id;
      attempts := 0;
      fetchCalls := [];
    }

    /** `handle`: re-read the row, call the fetcher exactly once with its
        url, write the success or the failure tuple, and rethrow on failure. */
    method Handle(table: BookmarkTable, fetch: Fetcher, now: Timestamp) returns (r: Outcome)
      requires table.Valid()
      modifies table, this`fetchCalls
      ensures table.Valid()
      ensures bookmarkId !in old(table.rows) ==>
        r == Threw(MissingRecordError) && table.rows == old(table.rows) && fetchCalls == old(fetchCalls)
      ensures bookmarkId in old(table.rows) ==>
        var b := old(table.rows)[bookmarkId];
        var result := fetch(attempts, b.url);
        && fetchCalls == old(fetchCalls) + [b.url]
        && r == OutcomeOf(result)
        && table.rows == old(table.rows)[bookmarkId := AfterAttempt(b, result, now)]
    {
      var found := table.Find(bookmarkId, true);
      if found.None? {
        return Threw(MissingRecordError);
      }
      var b := found.value;
      fetchCalls := fetchCalls + [b.url];
      var result := fetch(attempts, b.url);
      match result
      case Ok(m) =>
        table.Update(bookmarkId, SuccessPatch(m, now));
        r := Completed;
      case Err(e) =>
        table.Update(bookmarkId, FailurePatch(e));
        r := Threw(e);
    }

    /** The `failed` hook: it only logs the job's bookmark and the final
        message. That it changes no record is carried by the absence of a
        `modifies` clause; the `ensures` names what is reported, which the
        worker loop's contract relies on. */
    method Failed(message: string) returns (report: FailureReport)
      ensures report.bookmarkId == bookmarkId && report.error == message
    {
      report := FailureReport(bookmarkId, message);
    }
  }

  /** The record after the first `k` attempts of a job whose earlier
      attempts all failed: only the latest write shows. */
  function StateAfter(b: Bookmark, fetch: Fetcher, start: Timestamp, k: nat): Bookmark {
    if k == 0 then b else AfterAttempt(b, fetch(k, b.url), AttemptTime(start, k))
  }

  /** One more attempt against `StateAfter(k - 1)` gives `StateAfter(k)`;
      a failure does not change the url the next attempt reads. */
  lemma StateAfterStep(b: Bookmark, fetch: Fetcher, start: Timestamp, k: nat)
    requires k >= 1
    requires k > 1 ==> fetch(k - 1, b.url).Err?
    ensures StateAfter(b, fetch, start, k - 1).url == b.url
    ensures StateAfter(b, fetch, start, k - 1).id == b.id
    ensures AfterAttempt(StateAfter(b, fetch, start, k - 1), fetch(k, b.url), AttemptTime(start, k))
            == StateAfter(b, fetch, start, k)
  {
    if k > 1 {
      var e := fetch(k - 1, b.url).error;
      match fetch(k, b.url)
      case Ok(m) => LaterWriteWins(b, e, m, AttemptTime(start, k), "");
      case Err(e2) => LaterWriteWins(b, e, map[], AttemptTime(start, k), e2);
    }
  }

  /** The queue worker for one job: attempt, and after a failure wait
      `Backoff` and attempt again, until an attempt succeeds or `Tries`
      attempts are used; after the last failure the `failed` hook runs. */
  method RunWithRetries(job: FetchBookmarkMetadata, table: BookmarkTable, fetch: Fetcher, start: Timestamp)
    returns (outcome: Outcome, times: seq<Timestamp>, report: Option<FailureReport>)
    requires table.Valid()
    requires job.attempts == 0 && job.fetchCalls == []
    modifies table, job
    ensures table.Valid()
    ensures 1 <= job.attempts <= Tries && |times| == job.attempts
    ensures forall k :: 0 <= k < |times| ==> times[k] == AttemptTime(start, k + 1)
    ensures outcome.Threw? <==> report.Some?
    ensures outcome.Threw? ==> report == Some(FailureReport(job.bookmarkId, outcome.message))
    ensures outcome.Threw? ==> job.attempts == Tries
    ensures job.bookmarkId !in old(table.rows) ==>
      outcome == Threw(MissingRecordError) && table.rows == old(table.rows) && job.fetchCalls == []
    ensures job.bookmarkId in old(table.rows) ==>
      var b := old(table.rows)[job.bookmarkId];
      var n := FinalAttempt(fetch, b.url, 1);
      && job.attempts == n
      && |job.fetchCalls| == n && (forall k :: 0 <= k < n ==> job.fetchCalls[k] == b.url)
      && outcome == OutcomeOf(fetch(n, b.url))
      && table.rows == old(table.rows)[job.bookmarkId := FinalRecord(b, fetch, start)]
  {
    ghost var rows0 := table.rows;
    ghost var present := job.bookmarkId in rows0;
    ghost var b := if present then rows0[job.bookmarkId] else Bookmark("", "", None, None, None, false, None, None);
    times := [];
    outcome := Completed;
    var done := false;
    while !done
      invariant table.Valid()
      invariant 0 <= job.attempts <= Tries && |times| == job.attempts
      invariant forall k :: 0 <= k < |times| ==> times[k] == AttemptTime(start, k + 1)
      invariant done ==> job.attempts >= 1 && (outcome.Completed? || job.attempts == Tries)
      invariant !done ==> job.attempts < Tries && (job.attempts >= 1 ==> outcome.Threw?)
      invariant !present ==> table.rows == rows0 && job.fetchCalls == []
      invariant !present && job.attempts >= 1 ==> outcome == Threw(MissingRecordError)
      invariant present ==> |job.fetchCalls| == job.attempts
      invariant present ==> forall k :: 0 <= k < |job.fetchCalls| ==> job.fetchCalls[k] == b.url
      invariant present ==> forall j :: 1 <= j < job.attempts ==> fetch(j, b.url).Err?
      invariant present ==> table.rows == rows0[job.bookmarkId := StateAfter(b, fetch, start, job.attempts)]
      invariant present && job.attempts >= 1 ==> outcome == OutcomeOf(fetch(job.attempts, b.url))
      decreases Tries - job.attempts
    {
      job.attempts := job.attempts + 1;
      var now := AttemptTime(start, job.attempts);
      times := times + [now];
      if present {
        StateAfterStep(b, fetch, start, job.attempts);
      }
      outcome := job.Handle(table, fetch, now);
      if outcome.Completed? || job.attempts == Tries {
        done := true;
      }
    }
    if present {
      FinalAttemptIsFirstOrLast(fetch, b.url, job.attempts);
    }
    if outcome.Threw? {
      var r := job.Failed(outcome.message);
      report := Some(r);
    } else {
      report := None;
    }
  }

  /** If every attempt before `n` failed and attempt `n` succeeded or was
      the last, `n` is the stopping attempt. */
  lemma FinalAttemptIsFirstOrLast(fetch: Fetcher, url: string, n: nat)
    requires 1 <= n <= Tries
    requires forall j :: 1 <= j < n ==> fetch(j, url).Err?
    requires fetch(n, url).Ok? || n == Tries
    ensures FinalAttempt(fetch, url, 1) == n
  {
  }
}
