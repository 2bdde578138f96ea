/**
 The in-memory metadata store: one process-wide map from archive id to a
 record of optional fields, with create, get, update and remove.
 */
module Store {
  import opened Wrappers

  /** Archive ids are uuid4 strings. */
  type Id = string

  /** The status enum; each variant serialises to its string value. */
  datatype Status = Downloading | Unpacking | Failed | Completed {

    function Value(): string {
      match this
      case Downloading => "downloading"
      case Unpacking => "unpacking"
      case Failed => "failed"
      case Completed => "ok"
    }

    /** No pipeline step follows a write of one of these. */
    predicate Terminal() {
      this == Failed || this == Completed
    }
  }

  /** Reading a serialised status back, as the response model does. */
  function ParseStatus(s: string): (r: Option<Status>)
    ensures forall st: Status :: r == Some(st) <==> st.Value() == s
  {
    if s == "downloading" then Some(Downloading)
    else if s == "unpacking" then Some(Unpacking)
    else if s == "failed" then Some(Failed)
    else if s == "ok" then Some(Completed)
    else None
  }

  /**
   A stored record: each field is None while its key is absent from the
   record's dict (or holds None).
   */
  datatype Record = Record(
    url: Option<string>,
    status: Option<Status>,
    size: Option<nat>,
    files: Option<seq<string>>,
    detail: Option<string>)

  /** The `data` dict of an update: None marks a key that is not in it. */
  datatype Patch = Patch(
    status: Option<Status>,
    size: Option<nat>,
    files: Option<seq<string>>,
    detail: Option<string>)

  type Data = map<Id, Record>

  /** The record `create` stores: just the url. */
  function Initial(url: Option<string>): Record {
    Record(url, None, None, None, None)
  }

  /**
   `record.update(data)`: every key present in the patch takes the patch's
   value, every other key keeps its old one; the url is never written.
   */
  function Merge(r: Record, p: Patch): (m: Record)
    ensures m.url == r.url
    ensures p.status.Some? ==> m.status == p.status
    ensures p.status.None? ==> m.status == r.status
    ensures p.size.Some? ==> m.size == p.size
    ensures p.size.None? ==> m.size == r.size
    ensures p.files.Some? ==> m.files == p.files
    ensures p.files.None? ==> m.files == r.files
    ensures p.detail.Some? ==> m.detail == p.detail
    ensures p.detail.None? ==> m.detail == r.detail
  {
    Record(
      r.url,
      Override(r.status, p.status),
      Override(r.size, p.size),
      Override(r.files, p.files),
      Override(r.detail, p.detail))
  }

  /** One dict update standing for two in a row: later keys win. */
  function Combine(p: Patch, q: Patch): Patch {
    Patch(
      Override(p.status, q.status),
      Override(p.size, q.size),
      Override(p.files, q.files),
      Override(p.detail, q.detail))
  }

  /** Two updates in a row act like one update with the combined patch. */
  lemma MergeTwice(r: Record, p: Patch, q: Patch)
    ensures Merge(Merge(r, p), q) == Merge(r, Combine(p, q))
  {
  }

  /** Repeating an update changes nothing further. */
  lemma MergeIdempotent(r: Record, p: Patch)
    ensures Merge(Merge(r, p), p) == Merge(r, p)
  {
  }

  /** Applies a sequence of updates in order. */
  function MergeAll(r: Record, ps: seq<Patch>): Record
    decreases |ps|
  {
    if ps == [] then r else MergeAll(Merge(r, ps[0]), ps[1..])
  }

  /**
   `create`: stores `{"url": url}` under an id that was not in the map (the
   uuid4 freshness is assumed by the caller choosing `newId`).
   */
  function Create(d: Data, url: Option<string>, newId: Id): (r: Data)
    requires newId !in d
    ensures r.Keys == d.Keys + {newId}
    ensures r[newId] == Initial(url)
    ensures r[newId].status.None?
    ensures SameOutside(d, r, newId)
  {
    d[newId := Initial(url)]
  }

  /** `get`: the stored record, or None for an unknown id. */
  function Get(d: Data, id: Id): (r: Option<Record>)
    ensures r.Some? <==> id in d
    ensures r.Some? ==> r.value == d[id]
  {
    if id in d then Some(d[id]) else None
  }

  /**
   `update`: merges the patch into the record of a present id. The source
   indexes the map directly, so an unknown id is a `KeyError`, which this
   model excludes by its precondition.
   */
  function Update(d: Data, id: Id, p: Patch): (r: Data)
    requires id in d
    ensures r.Keys == d.Keys
    ensures r[id] == Merge(d[id], p)
    ensures SameOutside(d, r, id)
  {
    d[id := Merge(d[id], p)]
  }

  /**
   `remove`: drops the id if it is present (a stored record is a non-empty
   dict, so the truthiness test only fails for an absent id); an unknown id
   leaves the map as it was.
   */
  function Remove(d: Data, id: Id): (r: Data)
    ensures r.Keys == d.Keys - {id}
    ensures id !in d ==> r == d
    ensures SameOutside(d, r, id)
  {
    if id in d then d - {id} else d
  }

  /** A removed id reads back as absent. */
  lemma RemoveThenGet(d: Data, id: Id)
    ensures Get(Remove(d, id), id) == None
  {
  }

  /** A created id reads back as the url-only record. */
  lemma CreateThenGet(d: Data, url: Option<string>, newId: Id)
    requires newId !in d
    ensures Get(Create(d, url, newId), newId) == Some(Initial(url))
  {
  }

  /** Reading any other id is unaffected by create, update or remove. */
  lemma Isolation(d: Data, id: Id, other: Id, url: Option<string>, p: Patch)
    requires other != id
    ensures id !in d ==> Get(Create(d, url, id), other) == Get(d, other)
    ensures id in d ==> Get(Update(d, id, p), other) == Get(d, other)
    ensures Get(Remove(d, id), other) == Get(d, other)
  {
  }
}
