/** The bookmark HTTP actions that touch the core: `store` (create a pending
    record and queue its job), `retry` (clear the failure and queue a new
    job), `destroy` (soft delete) and the status filter of `index`. Route
    model binding resolves `{bookmark}` among the records that are not
    soft-deleted and answers 404 otherwise. */
module BookmarkController {
  import opened Wrappers
  import opened PhpText
  import opened BookmarkModel
  import opened FetchJob

  const HttpOk: nat := 200
  const HttpCreated: nat := 201
  const HttpNotFound: nat := 404
  const HttpServerError: nat := 500

  /** The record `store` inserts: the url, every other column at its
      default. */
  function PendingBookmark(id: Id, url: string): (b: Bookmark)
    ensures b.id == id && b.url == url && PendingMetadata(b)
    ensures !WithMetadata(b) && !FailedMetadata(b) && b.deletedAt.None?
    ensures b.title.None? && b.description.None? && b.fetchError.None?
  {
    Bookmark(id, url, None, None, None, false, None, None)
  }

  /** `store`: create the record from the url alone (the new id is the
      fresh UUID `freshId`) and dispatch its enrichment job. If the insert
      fails, nothing is queued. */
  method Store(table: BookmarkTable, queue: JobQueue, url: string, freshId: Id)
    returns (status: nat, created: Option<Bookmark>)
    requires table.Valid()
    modifies table, queue
    ensures table.Valid()
    ensures freshId in old(table.rows) ==>
      status == HttpServerError && created.None?
      && table.rows == old(table.rows) && queue.jobs == old(queue.jobs)
    ensures freshId !in old(table.rows) ==>
      status == HttpCreated && created == Some(PendingBookmark(freshId, url))
      && table.rows == old(table.rows)[freshId := PendingBookmark(freshId, url)]
      && queue.jobs == old(queue.jobs) + [freshId]
  {
    var r := table.Create(EmptyPatch.(url := Some(url)), false, freshId);
    if r.Err? {
      status, created := HttpServerError, None;
    } else {
      queue.Dispatch(r.value.id);
      status, created := HttpCreated, Some(r.value);
    }
  }

  /** The attribute array `retry` writes. */
  function ClearFailurePatch(): Patch {
    EmptyPatch.(fetchFailed := Some(false), fetchError := Some(None))
  }

  /** `retry`'s write clears the failure flag and the error and nothing
      else; a record never fetched becomes pending, a fetched one stays
      completed. */
  lemma ClearFailureWrite(b: Bookmark)
    ensures var r := Fill(b, ClearFailurePatch());
      && r == b.(fetchFailed := false, fetchError := None)
      && !FailedMetadata(r)
      && (PendingMetadata(r) <==> !WithMetadata(b))
      && (WithMetadata(r) <==> WithMetadata(b))
  {
  }

  /** `retry`: on a live record, clear the failure and dispatch a new job
      (whose attempt counter starts again from zero). */
  method Retry(table: BookmarkTable, queue: JobQueue, id: Id) returns (status: nat)
    requires table.Valid()
    modifies table, queue
    ensures table.Valid()
    ensures status == HttpNotFound <==> old(table.Find(id, false)).None?
    ensures status == HttpNotFound ==> table.rows == old(table.rows) && queue.jobs == old(queue.jobs)
    ensures status != HttpNotFound ==>
      status == HttpOk
      && table.rows == old(table.rows)[id := old(table.rows)[id].(fetchFailed := false, fetchError := None)]
      && queue.jobs == old(queue.jobs) + [id]
  {
    var found := table.Find(id, false);
    if found.None? {
      return HttpNotFound;
    }
    ClearFailureWrite(table.rows[id]);
    table.Update(id, ClearFailurePatch());
    queue.Dispatch(id);
    status := HttpOk;
  }

  /** `destroy`: soft-delete a live record; it stays in the table and is
      still found when trashed rows are included. */
  method Destroy(table: BookmarkTable, id: Id, now: Timestamp) returns (status: nat)
    requires table.Valid()
    modifies table
    ensures table.Valid()
    ensures status == HttpNotFound <==> old(table.Find(id, false)).None?
    ensures status == HttpNotFound ==> table.rows == old(table.rows)
    ensures status != HttpNotFound ==>
      status == HttpOk
      && table.rows == old(table.rows)[id := old(table.rows)[id].(deletedAt := Some(now))]
      && table.Find(id, true).Some? && table.Find(id, false).None?
  {
    var found := table.Find(id, false);
    if found.None? {
      return HttpNotFound;
    }
    table.SoftDelete(id, now);
    status := HttpOk;
  }

  /** The filter `index` applies for its `status` input. */
  datatype StatusFilter = Unfiltered | PendingOnly | FailedOnly | CompletedOnly

  /** The `when(filled('status'))` branch: an exact match on one of the
      three words picks its scope; a missing, blank or unknown status
      applies no filter. */
  function SelectFilter(status: Option<string>): (f: StatusFilter)
    ensures f.PendingOnly? <==> status == Some("pending")
    ensures f.FailedOnly? <==> status == Some("failed")
    ensures f.CompletedOnly? <==> status == Some("completed")
  {
    TrimUnchanged("pending");
    TrimUnchanged("failed");
    TrimUnchanged("completed");
    if !Filled(status) then Unfiltered
    else if status.value == "pending" then PendingOnly
    else if status.value == "failed" then FailedOnly
    else if status.value == "completed" then CompletedOnly
    else Unfiltered
  }

  predicate Admits(f: StatusFilter, b: Bookmark) {
    match f
    case Unfiltered => true
    case PendingOnly => PendingMetadata(b)
    case FailedOnly => FailedMetadata(b)
    case CompletedOnly => WithMetadata(b)
  }

  /** The ids `index` lists (before ordering and pagination): the live
      records the selected filter admits. */
  function Index(rows: map<Id, Bookmark>, status: Option<string>): (r: set<Id>)
    ensures r <= rows.Keys
    ensures forall id :: id in r ==> rows[id].deletedAt.None?
  {
    set id | id in rows && Lookup(rows, id, false).Some? && Admits(SelectFilter(status), rows[id])
  }

  lemma IndexPending(rows: map<Id, Bookmark>, id: Id)
    ensures id in Index(rows, Some("pending")) <==> Lookup(rows, id, false).Some? && PendingMetadata(rows[id])
  {
  }

  lemma IndexFailed(rows: map<Id, Bookmark>, id: Id)
    ensures id in Index(rows, Some("failed")) <==> Lookup(rows, id, false).Some? && FailedMetadata(rows[id])
  {
  }

  lemma IndexCompleted(rows: map<Id, Bookmark>, id: Id)
    ensures id in Index(rows, Some("completed")) <==> Lookup(rows, id, false).Some? && WithMetadata(rows[id])
  {
  }

  /** No status, or any other word, lists every live record. */
  lemma IndexUnfiltered(rows: map<Id, Bookmark>, status: Option<string>, id: Id)
    requires status != Some("pending") && status != Some("failed") && status != Some("completed")
    ensures id in Index(rows, status) <==> Lookup(rows, id, false).Some?
  {
  }
}
