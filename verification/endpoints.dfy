/**
 The three archive routes over the pipeline state: submitting a url
 (create, then the background download run to its end), the status query
 and deletion.
 */
module Endpoints {
  import opened Wrappers
  import opened Store
  import opened Pipeline

  /** A uuid4 id: used by nothing in the store, the counters or on disk. */
  predicate Fresh(s: State, id: Id) {
    id !in s.store && id !in s.registry && ArchiveFile(id) !in s.disk && ExtractDir(id) !in s.disk
  }

  /**
   `download_archive_by_url`: the record `{url}` is created under a fresh id,
   then the scheduled download runs. Its first state is the one right after
   `create`; the background task is modelled as running to its end.
   */
  function Submit(s: State, url: string, newId: Id, out: Outcome, downloads: string): (r: Run)
    requires Fresh(s, newId)
    ensures |r.states| > 1
    ensures r.states[0] == s.(store := Create(s.store, Some(url), newId))
    ensures r.writes == Download(r.states[0], newId, url, out, downloads).writes
  {
    var s0 := s.(store := Create(s.store, Some(url), newId));
    var d := Download(s0, newId, url, out, downloads);
    Run([s0] + d.states, d.writes)
  }

  /** Why a status query ends in a server error instead of a response. */
  datatype Fault =
    | MissingKey(key: string)   // `archive["status"]` or `archive["size"]` on a record without that key
    | ZeroDivision              // a declared content length of 0

  /** `ArchiveInfo`. */
  datatype Info = Info(status: Status, progress: Option<nat>, files: Option<seq<string>>, detail: Option<string>)

  datatype Reply =
    | NotFound(detail: string)
    | ServerError(fault: Fault)
    | Found(info: Info)

  /**
   The progress percentage of `downloaded` bytes out of `size`: the float
   quotient `downloaded * 100 / size` truncated by `int()`, which for
   non-negative operands is the floor.
   */
  function Percent(downloaded: nat, size: nat): (p: nat)
    requires 0 < size
    ensures p * size <= downloaded * 100 < (p + 1) * size
  {
    downloaded * 100 / size
  }

  /**
   `get_archive_info`: 404 for an unknown id; otherwise the record's status,
   files and detail, and a progress only while a counter exists for the id,
   equal to the floor of `downloaded * 100 / size`.
   */
  function GetArchiveInfo(s: State, id: Id): (r: Reply)
    ensures r.NotFound? <==> id !in s.store
    ensures r.NotFound? ==> r.detail == "Archive " + id + " not found!"
    ensures r.ServerError? <==>
      id in s.store && (s.store[id].status.None? ||
        (id in s.registry && (s.store[id].size.None? || s.store[id].size.value == 0)))
    ensures r.Found? ==>
      && Some(r.info.status) == s.store[id].status
      && r.info.files == s.store[id].files
      && r.info.detail == s.store[id].detail
      && (r.info.progress.Some? <==> id in s.registry)
    ensures r.Found? && r.info.progress.Some? ==>
      var size := s.store[id].size.value;
      var p := r.info.progress.value;
      p * size <= s.registry[id] * 100 < (p + 1) * size
  {
    match Get(s.store, id)
    case None => NotFound("Archive " + id + " not found!")
    case Some(rec) =>
      if rec.status.None? then ServerError(MissingKey("status"))
      else if id !in s.registry then Found(Info(rec.status.value, None, rec.files, rec.detail))
      else if rec.size.None? then ServerError(MissingKey("size"))
      else if rec.size.value == 0 then ServerError(ZeroDivision)
      else Found(Info(rec.status.value, Some(Percent(s.registry[id], rec.size.value)), rec.files, rec.detail))
  }

  /** The reply body of `delete_archive`. */
  datatype Ack = Ack(ok: bool, message: string)

  /**
   `delete_archive`: drops the counter if there is one and the record if
   there is one, and acknowledges in every case, an unknown id included.
   The disk is left as it is.
   */
  function DeleteArchive(s: State, id: Id): (r: (State, Ack))
    ensures r.1.ok
    ensures id !in r.0.store && id !in r.0.registry
    ensures r.0.disk == s.disk
    ensures Untouched(s, r.0, id)
  {
    var registry := if id in s.registry then s.registry - {id} else s.registry;
    (State(Remove(s.store, id), registry, s.disk), Ack(true, "Archive " + id + " successfully removed!"))
  }

  /**
   With a positive size and no more downloaded than declared, the query
   answers with a progress between 0 and 100.
   */
  lemma ProgressBounds(s: State, id: Id)
    requires id in s.store && s.store[id].status.Some? && id in s.registry
    requires s.store[id].size.Some? && 0 < s.store[id].size.value
    requires s.registry[id] <= s.store[id].size.value
    ensures GetArchiveInfo(s, id).Found?
    ensures GetArchiveInfo(s, id).info.progress.Some?
    ensures 0 <= GetArchiveInfo(s, id).info.progress.value <= 100
  {
    PercentAtMostWhole(s.registry[id], s.store[id].size.value);
  }

  /** More bytes downloaded against the same size never lowers the reported progress. */
  lemma ProgressMonotone(a: nat, b: nat, size: nat)
    requires a <= b && 0 < size
    ensures Percent(a, size) <= Percent(b, size)
  {
    var p := Percent(a, size);
    var q := Percent(b, size);
    MulOrder(q + 1, p, size);
  }

  /** No more bytes than the size make at most 100 percent. */
  lemma PercentAtMostWhole(n: nat, size: nat)
    requires n <= size && 0 < size
    ensures Percent(n, size) <= 100
  {
    MulOrder(101, Percent(n, size), size);
  }

  /** Multiplying by a natural keeps the order of naturals. */
  lemma MulOrder(x: nat, y: nat, z: nat)
    ensures x <= y ==> x * z <= y * z
  {
    if x <= y {
      assert y * z == x * z + (y - x) * z;
    }
  }

  /** A query about one id gives the same answer in two states that agree on that id. */
  lemma QueryIsolation(s: State, s': State, id: Id, other: Id)
    requires Untouched(s, s', id) && other != id
    ensures GetArchiveInfo(s', other) == GetArchiveInfo(s, other)
  {
    assert other in s.store <==> other in s'.store;
    assert other in s.registry <==> other in s'.registry;
    if other in s.store {
      assert s.store[other] == s'.store[other];
    }
    if other in s.registry {
      assert s.registry[other] == s'.registry[other];
    }
  }

  /** After a delete the id is unknown to the status query, and every other id answers as before. */
  lemma DeleteThenQuery(s: State, id: Id, other: Id)
    ensures GetArchiveInfo(DeleteArchive(s, id).0, id) == NotFound("Archive " + id + " not found!")
    ensures other != id ==> GetArchiveInfo(DeleteArchive(s, id).0, other) == GetArchiveInfo(s, other)
  {
    if other != id {
      QueryIsolation(s, DeleteArchive(s, id).0, id, other);
    }
  }

  /** Deleting an unknown id changes nothing and is still acknowledged. */
  lemma DeleteUnknown(s: State, id: Id)
    requires id !in s.store && id !in s.registry
    ensures DeleteArchive(s, id).0 == s
    ensures DeleteArchive(s, id).1 == Ack(true, "Archive " + id + " successfully removed!")
  {
  }
}
