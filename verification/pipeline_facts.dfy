/**
 Properties of whole pipeline runs: the order of the status writes, the
 terminal states, the cleanup of the two on-disk paths, the progress
 counter, the status query at every intermediate state, and the isolation
 of every other archive.
 */
module PipelineFacts {
  import opened Wrappers
  import opened Text
  import opened Store
  import opened Listing
  import opened Pipeline
  import opened Endpoints

  lemma UntouchedTrans(a: State, b: State, c: State, id: Id)
    requires Untouched(a, b, id) && Untouched(b, c, id)
    ensures Untouched(a, c, id)
  {
  }

  /**
   The `k`-th state `st` of `unpack` from `s`: the counters as they were,
   the status of its step, the other ids untouched; on a `ReadError` the
   files as they were, and the extraction directory as it was when
   `tarfile.open` rejected the file.
   */
  ghost predicate UnpackStep(s: State, id: Id, tar: TarOutcome, k: nat, st: State) {
    && id in s.store
    && st.registry == s.registry
    && id in st.store
    && st.store[id].status == UnpackStatus(tar, k)
    && (tar.ReadError? ==> st.store[id].files == s.store[id].files)
    && (tar == ReadError(None) ==> (ExtractDir(id) in st.disk <==> ExtractDir(id) in s.disk))
    && Untouched(s, st, id)
  }

  /** Each state of `unpack` is the state of its step. */
  lemma UnpackStates(s: State, id: Id, tar: TarOutcome, downloads: string)
    requires id in s.store && ArchiveFile(id) in s.disk
    ensures var r := Unpack(s, id, tar, downloads);
      forall k :: 0 <= k < |r.states| ==>
        && r.states[k].registry == s.registry
        && id in r.states[k].store
        && r.states[k].store[id].status == UnpackStatus(tar, k)
        && (tar.ReadError? ==> r.states[k].store[id].files == s.store[id].files)
        && (tar == ReadError(None) ==> (ExtractDir(id) in r.states[k].disk <==> ExtractDir(id) in s.disk))
        && Untouched(s, r.states[k], id)
  {
    var r := Unpack(s, id, tar, downloads);
    match tar
    case ReadError(None) => UnpackRejected(s, id, downloads);
    case ReadError(Some(partial)) => UnpackTruncated(s, id, partial, downloads);
    case Extracted(t) => UnpackExtracted(s, id, t, downloads);
    forall k | 0 <= k < |r.states|
      ensures UnpackStep(s, id, tar, k, r.states[k])
    {
    }
  }

  lemma UnpackRejected(s: State, id: Id, downloads: string)
    requires id in s.store && ArchiveFile(id) in s.disk
    ensures var r := Unpack(s, id, ReadError(None), downloads);
      forall k :: 0 <= k < |r.states| ==> UnpackStep(s, id, ReadError(None), k, r.states[k])
  {
    var r := Unpack(s, id, ReadError(None), downloads);
    var s1 := Write(s, id, UnpackingPatch);
    var s2 := Write(s1, id, FailedPatch(NotTarDetail));
    var s3 := RemoveFile(s2, id);
    assert r.states == [s1, s2, s3];
    assert Untouched(s, s1, id) && Untouched(s1, s2, id) && Untouched(s2, s3, id);
    UntouchedTrans(s, s1, s2, id);
    UntouchedTrans(s, s2, s3, id);
  }

  lemma UnpackTruncated(s: State, id: Id, partial: Tree, downloads: string)
    requires id in s.store && ArchiveFile(id) in s.disk
    ensures var r := Unpack(s, id, ReadError(Some(partial)), downloads);
      forall k :: 0 <= k < |r.states| ==> UnpackStep(s, id, ReadError(Some(partial)), k, r.states[k])
  {
    var r := Unpack(s, id, ReadError(Some(partial)), downloads);
    var s1 := Write(s, id, UnpackingPatch);
    var s2 := ExtractAll(s1, id, partial);
    var s3 := Write(s2, id, FailedPatch(NotTarDetail));
    var s4 := RemoveFile(s3, id);
    assert r.states == [s1, s2, s3, s4];
    assert Untouched(s, s1, id) && Untouched(s1, s2, id) && Untouched(s2, s3, id) && Untouched(s3, s4, id);
    UntouchedTrans(s, s1, s2, id);
    UntouchedTrans(s, s2, s3, id);
    UntouchedTrans(s, s3, s4, id);
  }

  lemma UnpackExtracted(s: State, id: Id, t: Tree, downloads: string)
    requires id in s.store && ArchiveFile(id) in s.disk
    ensures var r := Unpack(s, id, Extracted(t), downloads);
      forall k :: 0 <= k < |r.states| ==> UnpackStep(s, id, Extracted(t), k, r.states[k])
  {
    var r := Unpack(s, id, Extracted(t), downloads);
    var s1 := Write(s, id, UnpackingPatch);
    var s2 := ExtractAll(s1, id, t);
    var done := CompletedPatch(FileListAsWritten(Unpacked(downloads, id), s2.disk[ExtractDir(id)].tree));
    var s3 := Write(s2, id, done);
    var s4 := RemoveTree(s3, id);
    var s5 := RemoveFile(s4, id);
    assert r.states == [s1, s2, s3, s4, s5];
    assert Untouched(s, s1, id);
    assert Untouched(s, s2, id);
    assert Untouched(s, s3, id);
    assert Untouched(s, s4, id);
    assert Untouched(s, s5, id);
  }

  /**
   A download that got a response passes through: the new counter, the
   `downloading` write, the states after 0 to `n` chunks, the popped
   counter, and the states of `unpack`.
   */
  lemma DownloadShape(s: State, id: Id, url: string, out: Outcome, downloads: string)
    requires id in s.store && out.Response?
    ensures var s1 := StartProgress(s, id);
      var s3 := Opened(s, id, out.contentLength);
      var s5 := Fetched(s, id, out.contentLength, out.chunks);
      && Streaming(s3, id)
      && Download(s, id, url, out, downloads).states ==
           [s1, Write(s1, id, DownloadingPatch(out.contentLength))]
           + Streamed(s3, id, out.chunks)
           + [s5]
           + Unpack(s5, id, out.tar, downloads).states
  {
  }

  /** The number of states of a download that got a response. */
  lemma DownloadLength(s: State, id: Id, url: string, out: Outcome, downloads: string)
    requires id in s.store && out.Response?
    ensures var r := Download(s, id, url, out, downloads);
      var s5 := Fetched(s, id, out.contentLength, out.chunks);
      |r.states| == |out.chunks| + 4 + |Unpack(s5, id, out.tar, downloads).states|
  {
    DownloadShape(s, id, url, out, downloads);
  }

  /** The state at one index of a download that got a response, by the phase the index falls in. */
  lemma DownloadPhase(s: State, id: Id, url: string, out: Outcome, downloads: string, k: nat)
    requires id in s.store && out.Response?
    requires k < |Download(s, id, url, out, downloads).states|
    ensures var r := Download(s, id, url, out, downloads);
      var n := |out.chunks|;
      var s5 := Fetched(s, id, out.contentLength, out.chunks);
      var u := Unpack(s5, id, out.tar, downloads);
      && (k == 0 ==> r.states[k] == StartProgress(s, id))
      && (k == 1 ==> r.states[k] == Write(StartProgress(s, id), id, DownloadingPatch(out.contentLength)))
      && (2 <= k <= n + 2 ==> r.states[k] == ReceiveChunks(Opened(s, id, out.contentLength), id, out.chunks[..k - 2]))
      && (k == n + 3 ==> r.states[k] == s5)
      && (n + 4 <= k ==> k - (n + 4) < |u.states| && r.states[k] == u.states[k - (n + 4)])
  {
    var n := |out.chunks|;
    if k <= n + 2 {
      DownloadPhaseHead(s, id, url, out, downloads, k);
    } else {
      DownloadPhaseTail(s, id, url, out, downloads, k);
    }
  }

  /** The states up to the end of the body. */
  lemma DownloadPhaseHead(s: State, id: Id, url: string, out: Outcome, downloads: string, k: nat)
    requires id in s.store && out.Response? && k <= |out.chunks| + 2
    ensures var r := Download(s, id, url, out, downloads);
      && k < |r.states|
      && (k == 0 ==> r.states[k] == StartProgress(s, id))
      && (k == 1 ==> r.states[k] == Write(StartProgress(s, id), id, DownloadingPatch(out.contentLength)))
      && (2 <= k ==> r.states[k] == ReceiveChunks(Opened(s, id, out.contentLength), id, out.chunks[..k - 2]))
  {
    var r := Download(s, id, url, out, downloads);
    var s1 := StartProgress(s, id);
    var s3 := Opened(s, id, out.contentLength);
    var s5 := Fetched(s, id, out.contentLength, out.chunks);
    var u := Unpack(s5, id, out.tar, downloads);
    var head := [s1, Write(s1, id, DownloadingPatch(out.contentLength))] + Streamed(s3, id, out.chunks);
    DownloadShape(s, id, url, out, downloads);
    IndexLeft(head, [s5] + u.states, k);
    IndexLeft([s1, Write(s1, id, DownloadingPatch(out.contentLength))], Streamed(s3, id, out.chunks), k);
    if 2 <= k {
      IndexRight([s1, Write(s1, id, DownloadingPatch(out.contentLength))], Streamed(s3, id, out.chunks), k);
    }
  }

  /** An index into the left part of a concatenation. */
  lemma IndexLeft<T>(a: seq<T>, b: seq<T>, k: nat)
    ensures k < |a| ==> (a + b)[k] == a[k]
  {
  }

  /** An index into the right part of a concatenation. */
  lemma IndexRight<T>(a: seq<T>, b: seq<T>, k: nat)
    ensures |a| <= k < |a| + |b| ==> (a + b)[k] == b[k - |a|]
  {
  }

  /** The popped counter and the states of `unpack`. */
  lemma DownloadPhaseTail(s: State, id: Id, url: string, out: Outcome, downloads: string, k: nat)
    requires id in s.store && out.Response? && |out.chunks| + 3 <= k
    requires k < |Download(s, id, url, out, downloads).states|
    ensures var r := Download(s, id, url, out, downloads);
      var n := |out.chunks|;
      var s5 := Fetched(s, id, out.contentLength, out.chunks);
      var u := Unpack(s5, id, out.tar, downloads);
      && (k == n + 3 ==> r.states[k] == s5)
      && (n + 4 <= k ==> k - (n + 4) < |u.states| && r.states[k] == u.states[k - (n + 4)])
  {
    var r := Download(s, id, url, out, downloads);
    var s1 := StartProgress(s, id);
    var s3 := Opened(s, id, out.contentLength);
    var s5 := Fetched(s, id, out.contentLength, out.chunks);
    var u := Unpack(s5, id, out.tar, downloads);
    var head := [s1, Write(s1, id, DownloadingPatch(out.contentLength))] + Streamed(s3, id, out.chunks);
    var tail := [s5] + u.states;
    DownloadShape(s, id, url, out, downloads);
    IndexRight(head, tail, k);
    IndexLeft([s5], u.states, k - |head|);
    IndexRight([s5], u.states, k - |head|);
  }


  /** The opened state differs from the start only in `id`'s counter, record and archive file. */
  lemma OpenedFacts(s: State, id: Id, size: nat)
    requires id in s.store
    ensures var s3 := Opened(s, id, size);
      && Streaming(s3, id)
      && s3.registry[id] == 0
      && s3.disk[ArchiveFile(id)] == File(0)
      && s3.store == Update(s.store, id, DownloadingPatch(size))
      && s3.registry.Keys == s.registry.Keys + {id}
      && Untouched(s, s3, id)
  {
  }

  /** After the body: the counter is gone, the file holds the whole body, the record is as the `downloading` write left it. */
  lemma FetchedFacts(s: State, id: Id, size: nat, cs: seq<nat>)
    requires id in s.store
    ensures var s5 := Fetched(s, id, size, cs);
      && id !in s5.registry
      && ArchiveFile(id) in s5.disk
      && s5.disk[ArchiveFile(id)] == File(Sum(cs))
      && s5.store == Update(s.store, id, DownloadingPatch(size))
      && (ExtractDir(id) in s5.disk <==> ExtractDir(id) in s.disk)
      && Untouched(s, s5, id)
  {
    var s3 := Opened(s, id, size);
    OpenedFacts(s, id, size);
    var s4 := ReceiveChunks(s3, id, cs);
    ReceiveChunksFrame(s3, id, cs);
    UntouchedTrans(s, s3, s4, id);
    UntouchedTrans(s, s4, Fetched(s, id, size, cs), id);
  }

  /**
   The progress counter of a download that got a response: it exists from
   the response up to the end of the body and never after; after `k`
   chunks it and the archive file's length both equal the sum of the
   first `k` chunk lengths.
   */
  lemma DownloadCounter(s: State, id: Id, url: string, out: Outcome, downloads: string)
    requires id in s.store && out.Response?
    ensures var r := Download(s, id, url, out, downloads); var n := |out.chunks|;
      && |r.states| > n + 4
      && (forall k :: 0 <= k < |r.states| ==> (id in r.states[k].registry <==> k <= n + 2))
      && (forall k :: 0 <= k <= n ==>
            && r.states[k + 2].registry[id] == Sum(out.chunks[..k])
            && ArchiveFile(id) in r.states[k + 2].disk
            && r.states[k + 2].disk[ArchiveFile(id)] == File(Sum(out.chunks[..k])))
  {
    var r := Download(s, id, url, out, downloads);
    var n := |out.chunks|;
    var s3 := Opened(s, id, out.contentLength);
    var s5 := Fetched(s, id, out.contentLength, out.chunks);
    var u := Unpack(s5, id, out.tar, downloads);
    DownloadLength(s, id, url, out, downloads);
    OpenedFacts(s, id, out.contentLength);
    FetchedFacts(s, id, out.contentLength, out.chunks);
    UnpackStates(s5, id, out.tar, downloads);
    forall k | 0 <= k < |r.states|
      ensures id in r.states[k].registry <==> k <= n + 2
    {
      DownloadPhase(s, id, url, out, downloads, k);
    }
    forall k | 0 <= k <= n
      ensures && r.states[k + 2].registry[id] == Sum(out.chunks[..k])
              && ArchiveFile(id) in r.states[k + 2].disk
              && r.states[k + 2].disk[ArchiveFile(id)] == File(Sum(out.chunks[..k]))
    {
      DownloadPhase(s, id, url, out, downloads, k + 2);
    }
  }

  /**
   The record of `id` while a download that got a response streams: as it
   was before the first state, then as the `downloading` write left it
   until the counter is popped.
   */
  lemma DownloadRecordsStreaming(s: State, id: Id, url: string, out: Outcome, downloads: string)
    requires id in s.store && out.Response?
    ensures var r := Download(s, id, url, out, downloads); var n := |out.chunks|;
      && |r.states| > n + 4
      && id in r.states[0].store && r.states[0].store[id] == s.store[id]
      && (forall k :: 1 <= k <= n + 3 ==>
            id in r.states[k].store && r.states[k].store[id] == Merge(s.store[id], DownloadingPatch(out.contentLength)))
  {
    var r := Download(s, id, url, out, downloads);
    var n := |out.chunks|;
    DownloadLength(s, id, url, out, downloads);
    OpenedFacts(s, id, out.contentLength);
    FetchedFacts(s, id, out.contentLength, out.chunks);
    DownloadPhase(s, id, url, out, downloads, 0);
    forall k | 1 <= k <= n + 3
      ensures id in r.states[k].store && r.states[k].store[id] == Merge(s.store[id], DownloadingPatch(out.contentLength))
    {
      DownloadPhase(s, id, url, out, downloads, k);
    }
  }

  /** The record of `id` once unpacking starts: the status of each step of `unpack`. */
  lemma DownloadRecordsUnpacking(s: State, id: Id, url: string, out: Outcome, downloads: string)
    requires id in s.store && out.Response?
    ensures var r := Download(s, id, url, out, downloads); var n := |out.chunks|;
      && |r.states| > n + 4
      && (forall k :: n + 4 <= k < |r.states| ==>
            id in r.states[k].store && r.states[k].store[id].status == UnpackStatus(out.tar, k - (n + 4)))
  {
    var r := Download(s, id, url, out, downloads);
    var n := |out.chunks|;
    var s5 := Fetched(s, id, out.contentLength, out.chunks);
    DownloadLength(s, id, url, out, downloads);
    FetchedFacts(s, id, out.contentLength, out.chunks);
    UnpackStates(s5, id, out.tar, downloads);
    forall k | n + 4 <= k < |r.states|
      ensures id in r.states[k].store && r.states[k].store[id].status == UnpackStatus(out.tar, k - (n + 4))
    {
      DownloadPhase(s, id, url, out, downloads, k);
    }
  }

  /** No state of a download touches anything that belongs to another id. */
  lemma DownloadIsolation(s: State, id: Id, url: string, out: Outcome, downloads: string)
    requires id in s.store
    ensures var r := Download(s, id, url, out, downloads);
      forall k :: 0 <= k < |r.states| ==> Untouched(s, r.states[k], id)
  {
    var r := Download(s, id, url, out, downloads);
    if out.Response? {
      var n := |out.chunks|;
      var s3 := Opened(s, id, out.contentLength);
      var s5 := Fetched(s, id, out.contentLength, out.chunks);
      var u := Unpack(s5, id, out.tar, downloads);
      DownloadLength(s, id, url, out, downloads);
      OpenedFacts(s, id, out.contentLength);
      FetchedFacts(s, id, out.contentLength, out.chunks);
      UnpackStates(s5, id, out.tar, downloads);
      forall k | 0 <= k < |r.states|
        ensures Untouched(s, r.states[k], id)
      {
        DownloadPhase(s, id, url, out, downloads, k);
        if k == 1 {
          UntouchedTrans(s, StartProgress(s, id), r.states[1], id);
        } else if 2 <= k <= n + 2 {
          ReceiveChunksFrame(s3, id, out.chunks[..k - 2]);
          UntouchedTrans(s, s3, r.states[k], id);
        } else if n + 4 <= k {
          UntouchedTrans(s, s5, r.states[k], id);
        }
      }
    }
  }

  // ---------------------------------------------------------------------
  // Submitting a url: create, then the whole download

  lemma SubmitIndexing(s: State, url: string, id: Id, out: Outcome, downloads: string)
    requires Fresh(s, id)
    ensures var r := Submit(s, url, id, out, downloads);
      var d := Download(r.states[0], id, url, out, downloads);
      && |r.states| == |d.states| + 1
      && (forall k :: 0 <= k < |d.states| ==> r.states[k + 1] == d.states[k])
      && Last(r) == Last(d)
  {
    var r := Submit(s, url, id, out, downloads);
    var d := Download(r.states[0], id, url, out, downloads);
    assert r.states == [r.states[0]] + d.states;
  }

  /** One state of a submitted run is the state of the download one index earlier. */
  lemma SubmitStateAt(s: State, url: string, id: Id, out: Outcome, downloads: string, k: nat)
    requires Fresh(s, id)
    requires k < |Download(s.(store := Create(s.store, Some(url), id)), id, url, out, downloads).states|
    ensures var r := Submit(s, url, id, out, downloads);
      && r.states[0] == s.(store := Create(s.store, Some(url), id))
      && k + 1 < |r.states|
      && r.states[k + 1] == Download(r.states[0], id, url, out, downloads).states[k]
  {
    var r := Submit(s, url, id, out, downloads);
    var d := Download(r.states[0], id, url, out, downloads);
    assert r.states == [r.states[0]] + d.states;
  }

  lemma {:induction false} SumAppend(a: seq<nat>, b: seq<nat>)
    ensures Sum(a + b) == Sum(a) + Sum(b)
    decreases |a|
  {
    if a == [] {
      assert a + b == b;
    } else {
      assert (a + b)[1..] == a[1..] + b;
      SumAppend(a[1..], b);
    }
  }

  /** The bytes received so far never decrease as more chunks arrive. */
  lemma SumPrefixMonotone(cs: seq<nat>, j: nat, k: nat)
    requires j <= k <= |cs|
    ensures Sum(cs[..j]) <= Sum(cs[..k])
  {
    assert cs[..k] == cs[..j] + cs[j..k];
    SumAppend(cs[..j], cs[j..k]);
  }

  /**
   The end of a download that got a response: the record has taken the
   three writes in order, the counter is gone and the archive file is
   removed. After a full extraction the extraction directory is gone too;
   after a `ReadError` in the middle of `extractall` it holds what was
   written; when the file was no tar archive at all it is as it was.
   */
  lemma DownloadEnd(s: State, id: Id, url: string, out: Outcome, downloads: string)
    requires id in s.store && out.Response?
    ensures var r := Download(s, id, url, out, downloads);
      && |r.writes| == 3
      && id in Last(r).store
      && Last(r).store[id] == Merge(Merge(Merge(s.store[id], r.writes[0]), r.writes[1]), r.writes[2])
      && id !in Last(r).registry
      && ArchiveFile(id) !in Last(r).disk
      && (out.tar.Extracted? || (out.tar == ReadError(None) && ExtractDir(id) !in s.disk) ==>
            ExtractDir(id) !in Last(r).disk)
      && (out.tar.ReadError? && out.tar.partial.Some? ==>
            ExtractDir(id) in Last(r).disk && Last(r).disk[ExtractDir(id)] == Folder(out.tar.partial.value))
  {
    var r := Download(s, id, url, out, downloads);
    var n := |out.chunks|;
    var s5 := Fetched(s, id, out.contentLength, out.chunks);
    var u := Unpack(s5, id, out.tar, downloads);
    DownloadLength(s, id, url, out, downloads);
    DownloadPhase(s, id, url, out, downloads, |r.states| - 1);
    FetchedFacts(s, id, out.contentLength, out.chunks);
    assert Last(r) == u.states[|u.states| - 1] == Last(u);
    assert r.writes == [DownloadingPatch(out.contentLength)] + u.writes;
  }

  /**
   A download whose file `tarfile.open` rejects never sets `files` and never
   creates the extraction directory, in any of its states.
   */
  lemma NotTarNeverExtracts(s: State, id: Id, url: string, out: Outcome, downloads: string)
    requires id in s.store && out.Response? && out.tar == ReadError(None)
    requires s.store[id].files.None? && ExtractDir(id) !in s.disk
    ensures var r := Download(s, id, url, out, downloads);
      forall k :: 0 <= k < |r.states| ==>
        && id in r.states[k].store
        && r.states[k].store[id].files.None?
        && ExtractDir(id) !in r.states[k].disk
  {
    var r := Download(s, id, url, out, downloads);
    var s5 := Fetched(s, id, out.contentLength, out.chunks);
    DownloadLength(s, id, url, out, downloads);
    DownloadRecordsStreaming(s, id, url, out, downloads);
    OpenedFacts(s, id, out.contentLength);
    FetchedFacts(s, id, out.contentLength, out.chunks);
    UnpackStates(s5, id, out.tar, downloads);
    forall k | 0 <= k < |r.states|
      ensures id in r.states[k].store && r.states[k].store[id].files.None? && ExtractDir(id) !in r.states[k].disk
    {
      DownloadPhase(s, id, url, out, downloads, k);
      if 2 <= k <= |out.chunks| + 2 {
        ReceiveChunksFrame(Opened(s, id, out.contentLength), id, out.chunks[..k - 2]);
      }
    }
  }
}
