/** The bookmark record, its three status scopes, mass assignment with a
    guarded id, the `creating` hook that assigns the id, and the table the
    records live in (soft deletes included). */
module BookmarkModel {
  import opened Wrappers
  import opened PhpText

  /** A bookmark id (a UUID string). */
  type Id = string

  /** An abstract clock reading, standing for `now()`. */
  type Timestamp = nat

  /** One row of the bookmarks table. `deletedAt` is the soft-delete
      column; the `created_at`/`updated_at` timestamps are not modelled. */
  datatype Bookmark = Bookmark(
    id: Id,
    url: string,
    title: Option<string>,
    description: Option<string>,
    metadataFetchedAt: Option<Timestamp>,
    fetchFailed: bool,
    fetchError: Option<string>,
    deletedAt: Option<Timestamp>)

  // ---------------------------------------------------------------------------
  // The three query scopes.

  /** `withMetadata`: the fetch time is set (the "completed" filter). */
  predicate WithMetadata(b: Bookmark) {
    b.metadataFetchedAt.Some?
  }

  /** `pendingMetadata`: no fetch time and not marked failed. */
  predicate PendingMetadata(b: Bookmark) {
    b.metadataFetchedAt.None? && !b.fetchFailed
  }

  /** `failedMetadata`: marked failed. */
  predicate FailedMetadata(b: Bookmark) {
    b.fetchFailed
  }

  /** Every record is in some scope; pending excludes the other two; a
      record is pending exactly when it is neither completed nor failed. */
  lemma ScopesCoverAndPendingIsExclusive(b: Bookmark)
    ensures WithMetadata(b) || PendingMetadata(b) || FailedMetadata(b)
    ensures PendingMetadata(b) <==> !WithMetadata(b) && !FailedMetadata(b)
  {
  }

  /** Completed and failed are not exclusive: a record fetched once and
      failing on a later attempt is in both scopes. */
  lemma CompletedAndFailedCanOverlap(id: Id, url: string)
    ensures var b := Bookmark(id, url, None, None, Some(0), true, Some("e"), None);
            WithMetadata(b) && FailedMetadata(b) && !PendingMetadata(b)
  {
  }

  // ---------------------------------------------------------------------------
  // Mass assignment.

  /** The attribute array passed to `create` or `update`: `None` leaves a
      column out of the array; `Some(v)` sets it to `v` (which may itself be
      null for a nullable column). `id` may be present in the array, but it
      is guarded. */
  datatype Patch = Patch(
    id: Option<Id>,
    url: Option<string>,
    title: Option<Option<string>>,
    description: Option<Option<string>>,
    metadataFetchedAt: Option<Option<Timestamp>>,
    fetchFailed: Option<bool>,
    fetchError: Option<Option<string>>)

  const EmptyPatch := Patch(None, None, None, None, None, None, None)

  function Pick<T>(given: Option<T>, current: T): T {
    if given.Some? then given.value else current
  }

  /** `fill`: every column named in the patch takes its value, every other
      keeps its current value, and the guarded id never changes. */
  function Fill(b: Bookmark, p: Patch): (r: Bookmark)
    ensures r.id == b.id && r.deletedAt == b.deletedAt
    ensures p.url.None? ==> r.url == b.url
    ensures p.title.None? ==> r.title == b.title
    ensures p.description.None? ==> r.description == b.description
    ensures p.metadataFetchedAt.None? ==> r.metadataFetchedAt == b.metadataFetchedAt
    ensures p.fetchFailed.None? ==> r.fetchFailed == b.fetchFailed
    ensures p.fetchError.None? ==> r.fetchError == b.fetchError
    ensures p.url.Some? ==> r.url == p.url.value
    ensures p.title.Some? ==> r.title == p.title.value
    ensures p.description.Some? ==> r.description == p.description.value
    ensures p.metadataFetchedAt.Some? ==> r.metadataFetchedAt == p.metadataFetchedAt.value
    ensures p.fetchFailed.Some? ==> r.fetchFailed == p.fetchFailed.value
    ensures p.fetchError.Some? ==> r.fetchError == p.fetchError.value
  {
    b.(url := Pick(p.url, b.url),
       title := Pick(p.title, b.title),
       description := Pick(p.description, b.description),
       metadataFetchedAt := Pick(p.metadataFetchedAt, b.metadataFetchedAt),
       fetchFailed := Pick(p.fetchFailed, b.fetchFailed),
       fetchError := Pick(p.fetchError, b.fetchError))
  }

  /** Filling with a patch that names nothing changes nothing. */
  lemma FillEmpty(b: Bookmark)
    ensures Fill(b, EmptyPatch) == b
  {
  }

  /** An attribute array never moves a record to another id, whatever id
      it carries. */
  lemma FillIgnoresId(b: Bookmark, p: Patch, other: Id)
    ensures Fill(b, p.(id := Some(other))) == Fill(b, p)
    ensures Fill(b, p).id == b.id
  {
  }

  // ---------------------------------------------------------------------------
  // Creation.

  /** The `creating` hook: a falsy id (null, "" or "0") is replaced by a
      fresh UUID; a truthy id is kept. */
  function AssignId(id: Option<Id>, freshId: Id): Id {
    if Falsy(id) then freshId else id.value
  }

  /** The id the hook settles on is never falsy when the fresh one is not. */
  lemma AssignedIdIsTruthy(id: Option<Id>, freshId: Id)
    requires !Falsy(Some(freshId))
    ensures !Falsy(Some(AssignId(id, freshId)))
  {
  }

  /** What a mass-assigning `create` sees of its array: the guarded id is
      dropped. */
  function Guarded(p: Patch): Patch {
    p.(id := None)
  }

  /** A mass-assigning `create` always gets the fresh UUID, whatever id
      its array carries; only an unguarded create can supply its own id,
      and a truthy supplied id is then kept. */
  lemma CreateIdSource(p: Patch, freshId: Id)
    ensures AssignId(Guarded(p).id, freshId) == freshId
    ensures !Falsy(p.id) ==> AssignId(p.id, freshId) == p.id.value
    ensures Falsy(p.id) ==> AssignId(p.id, freshId) == freshId
  {
  }

  /** A new row: the column defaults of the table (every nullable column
      null, `fetch_failed` false, not deleted), then the given attributes.
      `url` has no default. */
  function NewRecord(id: Id, url: string, p: Patch): (b: Bookmark)
    ensures b.id == id && b.url == url && b.deletedAt.None?
    ensures p == EmptyPatch.(url := Some(url)) ==> PendingMetadata(b) && !FailedMetadata(b) && !WithMetadata(b)
  {
    Fill(Bookmark(id, url, None, None, None, false, None, None), p.(url := None))
  }

  const DuplicateKeyError: string := "Integrity constraint violation: duplicate primary key"
  const MissingUrlError: string := "Integrity constraint violation: url cannot be null"

  /** The row stored under `id`, unless it is missing or, when trashed rows
      are not included, soft-deleted. */
  function Lookup(rows: map<Id, Bookmark>, id: Id, withTrashed: bool): Option<Bookmark> {
    if id in rows && (withTrashed || rows[id].deletedAt.None?) then Some(rows[id]) else None
  }

  /** The bookmarks table: rows by id, each row stored under its own id. */
  class BookmarkTable {
    var rows: map<Id, Bookmark>

    ghost predicate Valid()
      reads this
    {
      forall id :: id in rows ==> rows[id].id == id
    }

    constructor ()
      ensures Valid() && rows == map[]
    {
      rows := map[];
    }

    /** `find($id)` (without trashed rows) and `withTrashed()->find($id)`. */
    function Find(id: Id, withTrashed: bool): Option<Bookmark>
      reads this
    {
      Lookup(rows, id, withTrashed)
    }

    /** Model creation and insert: `create` (mass assignment, the id is
        guarded) or a factory's unguarded create (a supplied id is kept),
        then the `creating` hook, then the insert, which fails on a taken id
        or a missing url. */
    method Create(p: Patch, unguarded: bool, freshId: Id) returns (r: Result<Bookmark, string>)
      requires Valid()
      modifies this
      ensures Valid()
      ensures var attrs := if unguarded then p else Guarded(p);
              var id := AssignId(attrs.id, freshId);
              && (r.Err? <==> attrs.url.None? || id in old(rows))
              && (r.Ok? ==> r.value == NewRecord(id, attrs.url.value, attrs)
                            && rows == old(rows)[id := r.value])
              && (r.Err? ==> rows == old(rows))
    {
      var attrs := if unguarded then p else Guarded(p);
      var id := AssignId(attrs.id, freshId);
      if attrs.url.None? {
        r := Err(MissingUrlError);
      } else if id in rows {
        r := Err(DuplicateKeyError);
      } else {
        var b := NewRecord(id, attrs.url.value, attrs);
        rows := rows[id := b];
        r := Ok(b);
      }
    }

    /** `$model->update($attributes)` on a loaded model: fills and saves
        the row, under the same id. */
    method Update(id: Id, p: Patch)
      requires Valid()
      requires id in rows
      modifies this
      ensures Valid()
      ensures rows == old(rows)[id := Fill(old(rows)[id], p)]
    {
      rows := rows[id := Fill(rows[id], p)];
    }

    /** `$model->delete()` on a soft-deleting model: the row stays, with its
        deletion time set; every other column and row is unchanged. */
    method SoftDelete(id: Id, now: Timestamp)
      requires Valid()
      requires id in rows
      modifies this
      ensures Valid()
      ensures rows == old(rows)[id := old(rows)[id].(deletedAt := Some(now))]
      ensures Find(id, true) == Some(old(rows)[id].(deletedAt := Some(now)))
      ensures Find(id, false).None?
    {
      rows := rows[id := rows[id].(deletedAt := Some(now))];
    }
  }
}
