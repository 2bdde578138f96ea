/**
 The download-then-unpack pipeline of one archive id, with the network and
 the tar library replaced by an abstract outcome and the file system by a
 map from the two per-id paths to what is stored there.

 The pipeline is a composition of single-effect steps. A `Run` records every
 state it passes through, so that status queries can be asked of any of
 them, and every patch it writes to the store, in order.
 */
module Pipeline {
  import opened Wrappers
  import opened Store
  import opened Listing

  /** `{id}.tar.gz` and `{id}/` under the downloads directory. */
  datatype Path = ArchiveFile(id: Id) | ExtractDir(id: Id)

  /** A written archive file (its length in bytes) or an extracted tree. */
  datatype Node = File(length: nat) | Folder(tree: Tree)

  type Disk = map<Path, Node>

  /** The module-level `archives` dict: id to its `downloaded` counter. */
  type Registry = map<Id, nat>

  datatype State = State(store: Data, registry: Registry, disk: Disk)

  /**
   What opening the downloaded file as a tar archive and extracting it
   gives. `ReadError(None)`: `tarfile.open` rejects the file before anything
   is written. `ReadError(Some(t))`: `extractall` raises `ReadError` (a
   member whose data ends early) after it has written `t` under `{id}/`.
   `Extracted(tree)`: the whole archive lies under `{id}/`.
   */
  datatype TarOutcome = ReadError(partial: Option<Tree>) | Extracted(tree: Tree) {

    /** Something was written under `{id}/`. */
    predicate Extracts() {
      Extracted? || partial.Some?
    }

    /** The tree under `{id}/` once extraction stopped. */
    function Written(): Tree
      requires Extracts()
    {
      if Extracted? then tree else partial.value
    }
  }

  /**
   What the HTTP request gives: a connection failure, a connection timeout,
   or a response with its declared content length and the lengths of the
   body chunks, after which the archive is opened.
   */
  datatype Outcome =
    | ConnectError(message: string)
    | ConnectTimeout
    | Response(contentLength: nat, chunks: seq<nat>, tar: TarOutcome)

  /** Every state a run passes through, in order, and the patches it writes. */
  datatype Run = Run(states: seq<State>, writes: seq<Patch>)

  function Last(r: Run): State
    requires |r.states| > 0
  {
    r.states[|r.states| - 1]
  }

  const NotTarDetail: string := "File is not .tar.gz archive!"

  function ConnectErrorDetail(url: string, message: string): string {
    "Failed to connect " + url + ": " + message + "!"
  }

  function TimeoutDetail(url: string): string {
    "Connection to " + url + " timed out!"
  }

  /** `str(DOWNLOADS_DIR / id)`. */
  function Unpacked(downloads: string, id: Id): string {
    downloads + "/" + id
  }

  function DownloadingPatch(size: nat): Patch {
    Patch(Some(Downloading), Some(size), None, None)
  }

  const UnpackingPatch: Patch := Patch(Some(Unpacking), None, None, None)

  function CompletedPatch(files: seq<string>): Patch {
    Patch(Some(Completed), None, Some(files), None)
  }

  function FailedPatch(detail: string): Patch {
    Patch(Some(Failed), None, None, Some(detail))
  }

  /** Nothing that belongs to an id other than `id` differs between `s` and `s'`. */
  ghost predicate Untouched(s: State, s': State, id: Id) {
    && SameOutside(s.store, s'.store, id)
    && SameOutside(s.registry, s'.registry, id)
    && forall p: Path :: p.id != id ==> (p in s.disk <==> p in s'.disk) && (p in s.disk ==> s.disk[p] == s'.disk[p])
  }

  // ---------------------------------------------------------------------
  // Steps

  /** `archive_manager.update(id, p)`. */
  function Write(s: State, id: Id, p: Patch): State
    requires id in s.store
  {
    s.(store := Update(s.store, id, p))
  }

  /** `archives[id] = {"downloaded": 0}`. */
  function StartProgress(s: State, id: Id): State {
    s.(registry := s.registry[id := 0])
  }

  /** `open(DOWNLOADS_DIR / f"{id}.tar.gz", "wb")`: creates or truncates the file. */
  function OpenFile(s: State, id: Id): State {
    s.(disk := s.disk[ArchiveFile(id) := File(0)])
  }

  /** The counter exists and the archive file is open for writing. */
  predicate Streaming(s: State, id: Id) {
    id in s.registry && ArchiveFile(id) in s.disk && s.disk[ArchiveFile(id)].File?
  }

  /** One body chunk: the counter grows by its length, and so does the file. */
  function ReceiveChunk(s: State, id: Id, n: nat): State
    requires Streaming(s, id)
  {
    s.(registry := s.registry[id := s.registry[id] + n],
       disk := s.disk[ArchiveFile(id) := File(s.disk[ArchiveFile(id)].length + n)])
  }

  function Sum(cs: seq<nat>): nat
    decreases |cs|
  {
    if cs == [] then 0 else cs[0] + Sum(cs[1..])
  }

  /**
   The `async for chunk` loop: after the chunks `cs` the counter and the
   file length have both grown by exactly the sum of their lengths, and the
   store is as it was (`ReceiveChunksFrame` states that nothing else
   changes either).
   */
  function ReceiveChunks(s: State, id: Id, cs: seq<nat>): (r: State)
    requires Streaming(s, id)
    ensures Streaming(r, id)
    ensures r.registry[id] == s.registry[id] + Sum(cs)
    ensures r.disk[ArchiveFile(id)].length == s.disk[ArchiveFile(id)].length + Sum(cs)
    ensures r.store == s.store
    decreases |cs|
  {
    if cs == [] then s
    else ReceiveChunks(ReceiveChunk(s, id, cs[0]), id, cs[1..])
  }

  /**
   The chunk loop changes only the counter of `id` and its archive file:
   every other counter and every other path are as they were, and no key
   is added or dropped.
   */
  lemma {:induction false} ReceiveChunksFrame(s: State, id: Id, cs: seq<nat>)
    requires Streaming(s, id)
    ensures var r := ReceiveChunks(s, id, cs);
      && r.registry.Keys == s.registry.Keys && r.disk.Keys == s.disk.Keys
      && (forall p :: p in s.disk && p != ArchiveFile(id) ==> r.disk[p] == s.disk[p])
      && Untouched(s, r, id)
    decreases |cs|
  {
    if cs != [] {
      var s' := ReceiveChunk(s, id, cs[0]);
      ReceiveChunksFrame(s', id, cs[1..]);
    }
  }

  /** `archives.pop(id)`; the source's `pop` raises for an absent id, so it must be present. */
  function StopProgress(s: State, id: Id): State
    requires id in s.registry
  {
    s.(registry := s.registry - {id})
  }

  /** `extractall(DOWNLOADS_DIR / id)`: the archive's tree now lies under `{id}/`. */
  function ExtractAll(s: State, id: Id, t: Tree): State {
    s.(disk := s.disk[ExtractDir(id) := Folder(t)])
  }

  /** `shutil.rmtree`; the source raises if the directory is missing. */
  function RemoveTree(s: State, id: Id): State
    requires ExtractDir(id) in s.disk
  {
    s.(disk := s.disk - {ExtractDir(id)})
  }

  /** `os.remove`; the source raises if the file is missing. */
  function RemoveFile(s: State, id: Id): State
    requires ArchiveFile(id) in s.disk
  {
    s.(disk := s.disk - {ArchiveFile(id)})
  }

  // ---------------------------------------------------------------------
  // Stages

  /** The record's status after the `k`-th state of `unpack`. */
  function UnpackStatus(tar: TarOutcome, k: nat): Option<Status> {
    if k == 0 || (k == 1 && tar.Extracts()) then Some(Unpacking)
    else if tar.ReadError? then Some(Failed)
    else Some(Completed)
  }

  /**
   `unpack`: writes `unpacking`, then extracts. On a `ReadError` it writes
   the format failure and removes the archive file, leaving whatever
   `extractall` had already written. Otherwise the `ok` write carries
   `get_file_list` of the tree now under `{id}/`, and the tree and the
   archive file are removed.
   */
  function Unpack(s: State, id: Id, tar: TarOutcome, downloads: string): (r: Run)
    requires id in s.store && ArchiveFile(id) in s.disk
    ensures |r.states| > 0 && |r.writes| == 2
    ensures r.writes[0] == UnpackingPatch
    ensures tar.ReadError? ==> r.writes[1] == FailedPatch(NotTarDetail)
    ensures tar.Extracted? ==> r.writes[1] == CompletedPatch(FileListAsWritten(Unpacked(downloads, id), tar.tree))
    ensures tar.Extracts() ==>
      && |r.states| > 1
      && r.states[1].disk == s.disk[ExtractDir(id) := Folder(tar.Written())]
      && r.states[1].store == Update(s.store, id, r.writes[0])
    ensures ArchiveFile(id) !in Last(r).disk
    ensures tar.Extracted? || (tar == ReadError(None) && ExtractDir(id) !in s.disk) ==>
      ExtractDir(id) !in Last(r).disk
    ensures tar.ReadError? && tar.partial.Some? ==>
      ExtractDir(id) in Last(r).disk && Last(r).disk[ExtractDir(id)] == Folder(tar.partial.value)
    ensures Last(r).store == Update(Update(s.store, id, r.writes[0]), id, r.writes[1])
  {
    var s1 := Write(s, id, UnpackingPatch);
    match tar
    case ReadError(None) =>
      var s2 := Write(s1, id, FailedPatch(NotTarDetail));
      var s3 := RemoveFile(s2, id);
      Run([s1, s2, s3], [UnpackingPatch, FailedPatch(NotTarDetail)])
    case ReadError(Some(partial)) =>
      var s2 := ExtractAll(s1, id, partial);
      var s3 := Write(s2, id, FailedPatch(NotTarDetail));
      var s4 := RemoveFile(s3, id);
      Run([s1, s2, s3, s4], [UnpackingPatch, FailedPatch(NotTarDetail)])
    case Extracted(t) =>
      var s2 := ExtractAll(s1, id, t);
      var done := CompletedPatch(FileListAsWritten(Unpacked(downloads, id), s2.disk[ExtractDir(id)].tree));
      var s3 := Write(s2, id, done);
      var s4 := RemoveTree(s3, id);
      var s5 := RemoveFile(s4, id);
      Run([s1, s2, s3, s4, s5], [UnpackingPatch, done])
  }

  /** The state in which the body starts streaming: counter at 0, size and `downloading` written, file open. */
  function Opened(s: State, id: Id, size: nat): State
    requires id in s.store
  {
    OpenFile(Write(StartProgress(s, id), id, DownloadingPatch(size)), id)
  }

  /** The state once the whole body has been written and the counter popped. */
  function Fetched(s: State, id: Id, size: nat, cs: seq<nat>): State
    requires id in s.store
  {
    StopProgress(ReceiveChunks(Opened(s, id, size), id, cs), id)
  }

  /** The states of the chunk loop: after 0, 1, ..., |cs| chunks. */
  function Streamed(s: State, id: Id, cs: seq<nat>): (states: seq<State>)
    requires Streaming(s, id)
    ensures |states| == |cs| + 1
    ensures forall k :: 0 <= k <= |cs| ==> states[k] == ReceiveChunks(s, id, cs[..k])
  {
    seq(|cs| + 1, k requires 0 <= k <= |cs| => ReceiveChunks(s, id, cs[..k]))
  }

  /** One more chunk after the chunks `cs` is one more step of the loop. */
  lemma {:induction false} ReceiveChunksSnoc(s: State, id: Id, cs: seq<nat>, n: nat)
    requires Streaming(s, id)
    ensures ReceiveChunks(s, id, cs + [n]) == ReceiveChunk(ReceiveChunks(s, id, cs), id, n)
    decreases |cs|
  {
    if cs == [] {
      assert [] + [n] == [n];
      assert [n][1..] == [];
    } else {
      assert (cs + [n])[0] == cs[0];
      assert (cs + [n])[1..] == cs[1..] + [n];
      ReceiveChunksSnoc(ReceiveChunk(s, id, cs[0]), id, cs[1..], n);
    }
  }

  /**
   The chunk loop step by step: it starts in `s`, each state follows from
   the one before by receiving the next chunk, and it ends where
   `ReceiveChunks` ends.
   */
  lemma StreamedSteps(s: State, id: Id, cs: seq<nat>)
    requires Streaming(s, id)
    ensures var states := Streamed(s, id, cs);
      && states[0] == s
      && states[|cs|] == ReceiveChunks(s, id, cs)
      && forall k :: 0 <= k < |cs| ==> Streaming(states[k], id) && states[k + 1] == ReceiveChunk(states[k], id, cs[k])
  {
    var states := Streamed(s, id, cs);
    assert cs[..0] == [];
    assert cs[..|cs|] == cs;
    forall k | 0 <= k < |cs|
      ensures Streaming(states[k], id) && states[k + 1] == ReceiveChunk(states[k], id, cs[k])
    {
      assert cs[..k + 1] == cs[..k] + [cs[k]];
      ReceiveChunksSnoc(s, id, cs[..k], cs[k]);
    }
  }

  /**
   `download` followed, on a response, by `unpack`. A connection failure
   writes one failure patch and touches neither the counter nor the disk.
   On a response the counter is created, the size and `downloading` are
   written, the file is opened and filled chunk by chunk, the counter is
   popped and unpacking follows.
   */
  function Download(s: State, id: Id, url: string, out: Outcome, downloads: string): (r: Run)
    requires id in s.store
    ensures |r.states| > 0 && |r.writes| > 0
    ensures out.ConnectError? ==>
      r.writes == [FailedPatch(ConnectErrorDetail(url, out.message))] && r.states == [Write(s, id, r.writes[0])]
    ensures out.ConnectTimeout? ==>
      r.writes == [FailedPatch(TimeoutDetail(url))] && r.states == [Write(s, id, r.writes[0])]
    ensures out.Response? ==>
      && |r.writes| == 3
      && r.writes[0] == DownloadingPatch(out.contentLength)
      && r.writes[1] == UnpackingPatch
      && (out.tar.ReadError? ==> r.writes[2] == FailedPatch(NotTarDetail))
      && (out.tar.Extracted? ==> r.writes[2] == CompletedPatch(FileListAsWritten(Unpacked(downloads, id), out.tar.tree)))
  {
    match out
    case ConnectError(message) =>
      var p := FailedPatch(ConnectErrorDetail(url, message));
      Run([Write(s, id, p)], [p])
    case ConnectTimeout =>
      var p := FailedPatch(TimeoutDetail(url));
      Run([Write(s, id, p)], [p])
    case Response(size, cs, tar) =>
      var s1 := StartProgress(s, id);
      var s2 := Write(s1, id, DownloadingPatch(size));
      var s3 := Opened(s, id, size);
      var s5 := Fetched(s, id, size, cs);
      var u := Unpack(s5, id, tar, downloads);
      Run([s1, s2] + Streamed(s3, id, cs) + [s5] + u.states, [DownloadingPatch(size)] + u.writes)
  }
}
