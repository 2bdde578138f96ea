/**
 Properties of a submitted archive's whole run, stated over every state the
 run passes through: the status schedule, the counter, what a status query
 answers at each point, the disk at the end, and isolation of other ids.
 */
module RunFacts {
  import opened Wrappers
  import opened Text
  import opened Store
  import opened Listing
  import opened Pipeline
  import opened Endpoints
  import opened PipelineFacts

  /**
   The status of the submitted id in the `k`-th state of its run: none
   after `create` and while the response is awaited, `downloading` from the
   size write until the counter is popped, then the statuses of `unpack`;
   on a connection failure straight from none to `failed`.
   */
  function ScheduledStatus(out: Outcome, k: nat): Option<Status> {
    match out
    case Response(_, cs, tar) =>
      if k <= 1 then None
      else if k <= |cs| + 4 then Some(Downloading)
      else UnpackStatus(tar, k - (|cs| + 5))
    case _ =>
      if k == 0 then None else Some(Failed)
  }

  /** The position of a status along `downloading`, `unpacking`, then a terminal one. */
  function Rank(st: Option<Status>): nat {
    match st
    case None => 0
    case Some(Downloading) => 1
    case Some(Unpacking) => 2
    case Some(_) => 3
  }

  /** The schedule only moves forward, and a terminal status is never left. */
  lemma ScheduleAdvances(out: Outcome, j: nat, k: nat)
    requires j <= k
    ensures Rank(ScheduledStatus(out, j)) <= Rank(ScheduledStatus(out, k))
    ensures ScheduledStatus(out, j).Some? && ScheduledStatus(out, j).value.Terminal() ==>
      ScheduledStatus(out, k) == ScheduledStatus(out, j)
  {
  }

  /** In every state of a submitted run, the record's status is the scheduled one. */
  lemma SubmitStatuses(s: State, url: string, id: Id, out: Outcome, downloads: string)
    requires Fresh(s, id)
    ensures var r := Submit(s, url, id, out, downloads);
      forall k :: 0 <= k < |r.states| ==>
        id in r.states[k].store && r.states[k].store[id].status == ScheduledStatus(out, k)
  {
    var r := Submit(s, url, id, out, downloads);
    forall k | 0 <= k < |r.states|
      ensures id in r.states[k].store && r.states[k].store[id].status == ScheduledStatus(out, k)
    {
      SubmitStatusAt(s, url, id, out, downloads, k);
    }
  }

  /** The status in one state of a submitted run. */
  lemma SubmitStatusAt(s: State, url: string, id: Id, out: Outcome, downloads: string, k: nat)
    requires Fresh(s, id) && k < |Submit(s, url, id, out, downloads).states|
    ensures var r := Submit(s, url, id, out, downloads);
      id in r.states[k].store && r.states[k].store[id].status == ScheduledStatus(out, k)
  {
    var r := Submit(s, url, id, out, downloads);
    var s0 := r.states[0];
    if k > 0 {
      SubmitStateAt(s, url, id, out, downloads, k - 1);
      if out.Response? {
        DownloadStatusAt(s0, id, url, out, downloads, k - 1);
      }
    }
  }

  /** The status in one state of a download that got a response. */
  lemma DownloadStatusAt(s: State, id: Id, url: string, out: Outcome, downloads: string, k: nat)
    requires id in s.store && out.Response? && k < |Download(s, id, url, out, downloads).states|
    ensures var r := Download(s, id, url, out, downloads);
      var n := |out.chunks|;
      && id in r.states[k].store
      && r.states[k].store[id].status ==
           if k == 0 then s.store[id].status
           else if k <= n + 3 then Some(Downloading)
           else UnpackStatus(out.tar, k - (n + 4))
  {
    var n := |out.chunks|;
    var s5 := Fetched(s, id, out.contentLength, out.chunks);
    DownloadPhase(s, id, url, out, downloads, k);
    if 2 <= k <= n + 2 {
      OpenedFacts(s, id, out.contentLength);
    } else if k == n + 3 {
      FetchedFacts(s, id, out.contentLength, out.chunks);
    } else if n + 4 <= k {
      FetchedFacts(s, id, out.contentLength, out.chunks);
      UnpackStates(s5, id, out.tar, downloads);
    }
  }

  /**
   Statuses observed along a submitted run only advance, and once `ok` or
   `failed` is observed it is observed in every later state.
   */
  lemma StatusOnlyAdvances(s: State, url: string, id: Id, out: Outcome, downloads: string, j: nat, k: nat)
    requires Fresh(s, id)
    requires j <= k < |Submit(s, url, id, out, downloads).states|
    ensures var r := Submit(s, url, id, out, downloads);
      && id in r.states[j].store && id in r.states[k].store
      && Rank(r.states[j].store[id].status) <= Rank(r.states[k].store[id].status)
      && (r.states[j].store[id].status.Some? && r.states[j].store[id].status.value.Terminal() ==>
            r.states[k].store[id].status == r.states[j].store[id].status)
  {
    var r := Submit(s, url, id, out, downloads);
    SubmitStatuses(s, url, id, out, downloads);
    var a := ScheduledStatus(out, j);
    var b := ScheduledStatus(out, k);
    ScheduleAdvances(out, j, k);
    assert r.states[j].store[id].status == a;
    assert r.states[k].store[id].status == b;
  }

  /**
   The counter of a submitted run exists exactly from the response to the
   end of the body; a run that fails to connect never creates one.
   */
  lemma SubmitCounter(s: State, url: string, id: Id, out: Outcome, downloads: string)
    requires Fresh(s, id)
    ensures var r := Submit(s, url, id, out, downloads);
      forall k :: 0 <= k < |r.states| ==>
        (id in r.states[k].registry <==> out.Response? && 1 <= k <= |out.chunks| + 3)
  {
    var r := Submit(s, url, id, out, downloads);
    var s0 := r.states[0];
    SubmitIndexing(s, url, id, out, downloads);
    if out.Response? {
      var d := Download(s0, id, url, out, downloads);
      DownloadCounter(s0, id, url, out, downloads);
      forall k | 0 <= k < |r.states|
        ensures id in r.states[k].registry <==> 1 <= k <= |out.chunks| + 3
      {
        if k > 0 {
          assert r.states[k] == d.states[k - 1];
        }
      }
    }
  }

  /**
   A counter only ever exists beside a record with no status yet or with
   `downloading`: an `unpacking`, `ok` or `failed` record never has one.
   */
  lemma CounterOnlyWhileDownloading(s: State, url: string, id: Id, out: Outcome, downloads: string)
    requires Fresh(s, id)
    ensures var r := Submit(s, url, id, out, downloads);
      forall k :: 0 <= k < |r.states| && id in r.states[k].registry ==>
        id in r.states[k].store &&
        (r.states[k].store[id].status.None? || r.states[k].store[id].status == Some(Downloading))
  {
    SubmitStatuses(s, url, id, out, downloads);
    SubmitCounter(s, url, id, out, downloads);
  }

  /**
   Whatever state of a submitted run a status query observes, it reports a
   progress only while the status is `downloading`.
   */
  lemma ProgressOnlyWhileDownloading(s: State, url: string, id: Id, out: Outcome, downloads: string)
    requires Fresh(s, id)
    ensures var r := Submit(s, url, id, out, downloads);
      forall k :: 0 <= k < |r.states| ==>
        var reply := GetArchiveInfo(r.states[k], id);
        reply.Found? && reply.info.progress.Some? ==> reply.info.status == Downloading
  {
    CounterOnlyWhileDownloading(s, url, id, out, downloads);
  }

  /** No state of a submitted run differs from the start in anything that belongs to another id. */
  lemma SubmitIsolation(s: State, url: string, id: Id, out: Outcome, downloads: string)
    requires Fresh(s, id)
    ensures var r := Submit(s, url, id, out, downloads);
      forall k :: 0 <= k < |r.states| ==> Untouched(s, r.states[k], id)
  {
    var r := Submit(s, url, id, out, downloads);
    var s0 := r.states[0];
    SubmitIndexing(s, url, id, out, downloads);
    DownloadIsolation(s0, id, url, out, downloads);
    assert Untouched(s, s0, id);
    forall k | 0 <= k < |r.states|
      ensures Untouched(s, r.states[k], id)
    {
      if k > 0 {
        UntouchedTrans(s, s0, r.states[k], id);
      }
    }
  }

  // ---------------------------------------------------------------------
  // How a submitted run ends, per outcome

  /**
   A url that downloads and extracts: the three writes in order, and at the
   end a record holding the url, `ok`, the declared size and `get_file_list`
   of the extracted tree, with no counter and nothing left on disk. When the
   downloads directory is named, the id is a plain name and the tree is at
   most one directory level deep, the listing is every file of the tree by
   its path relative to the extraction directory.
   */
  lemma SuccessfulRun(s: State, url: string, id: Id, size: nat, cs: seq<nat>, t: Tree, downloads: string)
    requires Fresh(s, id)
    ensures var r := Submit(s, url, id, Response(size, cs, Extracted(t)), downloads);
      var files := FileListAsWritten(Unpacked(downloads, id), t);
      && r.writes == [DownloadingPatch(size), UnpackingPatch, CompletedPatch(files)]
      && id in Last(r).store
      && Last(r).store[id] == Record(Some(url), Some(Completed), Some(size), Some(files), None)
      && id !in Last(r).registry
      && ArchiveFile(id) !in Last(r).disk && ExtractDir(id) !in Last(r).disk
      && GetArchiveInfo(Last(r), id) == Found(Info(Completed, None, Some(files), None))
      && (downloads != "" && IsName(id) && ValidTree(t) && Shallow(t) ==> files == Members("", t))
  {
    var out := Response(size, cs, Extracted(t));
    var r := Submit(s, url, id, out, downloads);
    SubmitIndexing(s, url, id, out, downloads);
    DownloadEnd(r.states[0], id, url, out, downloads);
    if downloads != "" && IsName(id) && ValidTree(t) && Shallow(t) {
      var u := Unpacked(downloads, id);
      UnpackedIsExtractionRoot(downloads, id);
      ShallowListingsAgree(u, t);
      FileListIsMembers(u, t);
    }
  }

  /** `downloads/id` for a named directory and a plain-name id is an extraction root. */
  lemma UnpackedIsExtractionRoot(downloads: string, id: Id)
    requires downloads != "" && IsName(id)
    ensures ExtractionRoot(Unpacked(downloads, id))
  {
    var u := Unpacked(downloads, id);
    assert u[|downloads|] == '/';
    assert u[|u| - 1] == id[|id| - 1];
    assert id[|id| - 1] in id;
  }

  /**
   The listing defect reaches the record: a submitted run whose archive
   holds `a/b/x` and `a/b/y`, downloaded to `d` under id `i`, ends with
   `files` holding `ab/y` for the second file, not its member path `a/b/y`.
   */
  lemma NestedRunLosesSlash(s: State, url: string, size: nat, cs: seq<nat>)
    requires Fresh(s, "i")
    ensures var r := Submit(s, url, "i", Response(size, cs, Extracted(NestedExample())), "d");
      && r.writes[2] == CompletedPatch(["a/b/x", "ab/y"])
      && r.writes[2].files.value != Members("", NestedExample())
      && Members("", NestedExample())[1] == "a/b/y"
  {
    assert Unpacked("d", "i") == "d/i";
    NestedExampleAsWritten();
    NestedExampleMembers();
    assert "ab/y"[1] != "a/b/y"[1];
  }

  /**
   A response whose body `tarfile.open` rejects: the three writes end in the
   format failure, the record never gets `files`, the extraction directory
   never exists, and the archive file is removed at the end.
   */
  lemma NotTarRun(s: State, url: string, id: Id, size: nat, cs: seq<nat>, downloads: string)
    requires Fresh(s, id)
    ensures var r := Submit(s, url, id, Response(size, cs, ReadError(None)), downloads);
      && r.writes == [DownloadingPatch(size), UnpackingPatch, FailedPatch(NotTarDetail)]
      && id in Last(r).store
      && Last(r).store[id] == Record(Some(url), Some(Failed), Some(size), None, Some(NotTarDetail))
      && id !in Last(r).registry && ArchiveFile(id) !in Last(r).disk
      && (forall k :: 0 <= k < |r.states| ==>
            id in r.states[k].store && r.states[k].store[id].files.None? && ExtractDir(id) !in r.states[k].disk)
      && GetArchiveInfo(Last(r), id) == Found(Info(Failed, None, None, Some(NotTarDetail)))
  {
    var out := Response(size, cs, ReadError(None));
    var r := Submit(s, url, id, out, downloads);
    var s0 := r.states[0];
    SubmitIndexing(s, url, id, out, downloads);
    DownloadEnd(s0, id, url, out, downloads);
    NotTarNeverExtracts(s0, id, url, out, downloads);
    forall k | 0 <= k < |r.states|
      ensures id in r.states[k].store && r.states[k].store[id].files.None? && ExtractDir(id) !in r.states[k].disk
    {
      if k > 0 {
        assert r.states[k] == Download(s0, id, url, out, downloads).states[k - 1];
      }
    }
  }

  /**
   An archive whose data ends inside a member: `extractall` raises `ReadError`
   after writing part of the tree, the same format failure is written and the
   archive file is removed, but the partly extracted directory stays on disk.
   */
  lemma TruncatedArchiveRun(s: State, url: string, id: Id, size: nat, cs: seq<nat>, partial: Tree, downloads: string)
    requires Fresh(s, id)
    ensures var r := Submit(s, url, id, Response(size, cs, ReadError(Some(partial))), downloads);
      && r.writes == [DownloadingPatch(size), UnpackingPatch, FailedPatch(NotTarDetail)]
      && id in Last(r).store
      && Last(r).store[id] == Record(Some(url), Some(Failed), Some(size), None, Some(NotTarDetail))
      && id !in Last(r).registry && ArchiveFile(id) !in Last(r).disk
      && ExtractDir(id) in Last(r).disk && Last(r).disk[ExtractDir(id)] == Folder(partial)
      && GetArchiveInfo(Last(r), id) == Found(Info(Failed, None, None, Some(NotTarDetail)))
  {
    var out := Response(size, cs, ReadError(Some(partial)));
    var r := Submit(s, url, id, out, downloads);
    SubmitIndexing(s, url, id, out, downloads);
    DownloadEnd(r.states[0], id, url, out, downloads);
  }

  /**
   The record a submitted run leaves behind is `{url}` with the run's writes
   applied in order, and nothing that belongs to another id has changed.
   */
  lemma SubmitRecord(s: State, url: string, id: Id, out: Outcome, downloads: string)
    requires Fresh(s, id)
    ensures var r := Submit(s, url, id, out, downloads);
      && id in Last(r).store
      && Last(r).store[id] == MergeAll(Initial(Some(url)), r.writes)
      && Untouched(s, Last(r), id)
  {
    var r := Submit(s, url, id, out, downloads);
    SubmitIsolation(s, url, id, out, downloads);
    if out.Response? {
      SubmitIndexing(s, url, id, out, downloads);
      DownloadEnd(r.states[0], id, url, out, downloads);
      MergeAllThree(Initial(Some(url)), r.writes);
    } else {
      ConnectFailureRun(s, url, id, out, downloads);
      assert r.writes[1..] == [];
    }
  }

  /** Three updates applied by `MergeAll` are three merges in a row. */
  lemma MergeAllThree(rec: Record, ps: seq<Patch>)
    requires |ps| == 3
    ensures MergeAll(rec, ps) == Merge(Merge(Merge(rec, ps[0]), ps[1]), ps[2])
  {
    var m1 := Merge(rec, ps[0]);
    var m2 := Merge(m1, ps[1]);
    assert MergeAll(rec, ps) == MergeAll(m1, ps[1..]);
    assert MergeAll(m1, ps[1..]) == MergeAll(m2, ps[2..]) by {
      assert ps[1..][0] == ps[1] && ps[1..][1..] == ps[2..];
    }
    assert MergeAll(m2, ps[2..]) == MergeAll(Merge(m2, ps[2]), []) by {
      assert ps[2..][0] == ps[2] && ps[2..][1..] == [];
    }
  }

  /**
   A connection failure or timeout: one failure write whose detail names the
   url, a record with the url, `failed` and that detail, and neither a
   counter nor anything on disk in any state.
   */
  lemma ConnectFailureRun(s: State, url: string, id: Id, out: Outcome, downloads: string)
    requires Fresh(s, id) && !out.Response?
    ensures var r := Submit(s, url, id, out, downloads);
      var detail := if out.ConnectError? then ConnectErrorDetail(url, out.message) else TimeoutDetail(url);
      && r.writes == [FailedPatch(detail)]
      && |r.states| == 2
      && id in Last(r).store
      && Last(r).store[id] == Record(Some(url), Some(Failed), None, None, Some(detail))
      && (forall k :: 0 <= k < |r.states| ==>
            id !in r.states[k].registry && ArchiveFile(id) !in r.states[k].disk && ExtractDir(id) !in r.states[k].disk)
      && GetArchiveInfo(Last(r), id) == Found(Info(Failed, None, None, Some(detail)))
      && Contains(detail, url)
  {
    var detail := if out.ConnectError? then ConnectErrorDetail(url, out.message) else TimeoutDetail(url);
    var prefix := if out.ConnectError? then "Failed to connect " else "Connection to ";
    assert detail[|prefix|..|prefix| + |url|] == url;
    assert OccursAt(detail, url, |prefix|);
  }

  /**
   Every write of a run carries a status, and exactly one carries `ok` or
   `failed`: the last, so nothing is written for the id after it.
   */
  lemma TerminalWriteIsLast(s: State, url: string, id: Id, out: Outcome, downloads: string)
    requires Fresh(s, id)
    ensures EndsTerminal(Submit(s, url, id, out, downloads).writes)
  {
    var s0 := s.(store := Create(s.store, Some(url), id));
    DownloadTerminalLast(s0, id, url, out, downloads);
  }


  /** Every write carries a status, and only the last a terminal one. */
  predicate EndsTerminal(w: seq<Patch>) {
    && |w| > 0
    && (forall i :: 0 <= i < |w| ==> w[i].status.Some?)
    && (forall i :: 0 <= i < |w| ==> (w[i].status.value.Terminal() <==> i == |w| - 1))
  }

  /** `downloading`, `unpacking`, then a terminal status. */
  lemma ThreeWritesEndTerminal(w: seq<Patch>)
    requires |w| == 3
    requires w[0].status == Some(Downloading) && w[1].status == Some(Unpacking)
    requires w[2].status.Some? && w[2].status.value.Terminal()
    ensures EndsTerminal(w)
  {
  }

  /** The writes of a download end with its only terminal status. */
  lemma DownloadTerminalLast(s: State, id: Id, url: string, out: Outcome, downloads: string)
    requires id in s.store
    ensures EndsTerminal(Download(s, id, url, out, downloads).writes)
  {
    var w := Download(s, id, url, out, downloads).writes;
    if out.Response? {
      ThreeWritesEndTerminal(w);
    } else {
      assert |w| == 1 && w[0].status == Some(Failed);
    }
  }

  /** Every run ends with a terminal status, no counter, and a query that reports no progress. */
  lemma QueryAtEnd(s: State, url: string, id: Id, out: Outcome, downloads: string)
    requires Fresh(s, id)
    ensures var r := Submit(s, url, id, out, downloads);
      var reply := GetArchiveInfo(Last(r), id);
      && id !in Last(r).registry
      && reply.Found? && reply.info.status.Terminal() && reply.info.progress.None?
  {
    var s0 := s.(store := Create(s.store, Some(url), id));
    DownloadTerminalLast(s0, id, url, out, downloads);
  }


  // ---------------------------------------------------------------------
  // What a status query answers while a run is under way

  /**
   Right after `create`, and until the size is written on a response, the
   record has no status, so the query fails with a missing key rather than
   reporting `downloading`.
   */
  lemma QueryBeforeResponse(s: State, url: string, id: Id, out: Outcome, downloads: string)
    requires Fresh(s, id)
    ensures var r := Submit(s, url, id, out, downloads);
      && GetArchiveInfo(r.states[0], id) == ServerError(MissingKey("status"))
      && (out.Response? ==> GetArchiveInfo(r.states[1], id) == ServerError(MissingKey("status")))
  {
    SubmitStatuses(s, url, id, out, downloads);
  }

  /**
   After `k` chunks of a response the counter and the archive file both hold
   the bytes received so far, and the record holds the url, `downloading`
   and the declared size.
   */
  lemma StreamingState(s: State, url: string, id: Id, size: nat, cs: seq<nat>, tar: TarOutcome, downloads: string, k: nat)
    requires Fresh(s, id) && k <= |cs|
    ensures var r := Submit(s, url, id, Response(size, cs, tar), downloads);
      && k + 3 < |r.states|
      && id in r.states[k + 3].registry && r.states[k + 3].registry[id] == Sum(cs[..k])
      && ArchiveFile(id) in r.states[k + 3].disk
      && r.states[k + 3].disk[ArchiveFile(id)] == File(Sum(cs[..k]))
      && id in r.states[k + 3].store
      && r.states[k + 3].store[id] == Record(Some(url), Some(Downloading), Some(size), None, None)
  {
    var out := Response(size, cs, tar);
    var r := Submit(s, url, id, out, downloads);
    var s0 := r.states[0];
    var d := Download(s0, id, url, out, downloads);
    SubmitIndexing(s, url, id, out, downloads);
    DownloadCounter(s0, id, url, out, downloads);
    DownloadRecordsStreaming(s0, id, url, out, downloads);
    assert r.states[k + 3] == d.states[k + 2];
  }

  /**
   A query after `k` chunks reports `downloading` with the floor of the bytes
   received times 100 over the declared size, or fails on a declared size
   of 0.
   */
  lemma QueryDuringDownload(s: State, url: string, id: Id, size: nat, cs: seq<nat>, tar: TarOutcome, downloads: string, k: nat)
    requires Fresh(s, id) && k <= |cs|
    ensures var r := Submit(s, url, id, Response(size, cs, tar), downloads);
      && k + 3 < |r.states|
      && GetArchiveInfo(r.states[k + 3], id) ==
           if size == 0 then ServerError(ZeroDivision)
           else Found(Info(Downloading, Some(Percent(Sum(cs[..k]), size)), None, None))
  {
    var r := Submit(s, url, id, Response(size, cs, tar), downloads);
    StreamingState(s, url, id, size, cs, tar, downloads, k);
    var st := r.states[k + 3];
    QueryDownloading(st, id, url, size);
  }

  /** The query on a record that is `downloading` with a counter. */
  lemma QueryDownloading(st: State, id: Id, url: string, size: nat)
    requires id in st.registry && id in st.store
    requires st.store[id] == Record(Some(url), Some(Downloading), Some(size), None, None)
    ensures GetArchiveInfo(st, id) ==
      if size == 0 then ServerError(ZeroDivision)
      else Found(Info(Downloading, Some(Percent(st.registry[id], size)), None, None))
  {
  }

  /** Successive queries during the body report a progress that never goes down. */
  lemma ProgressAdvances(s: State, url: string, id: Id, size: nat, cs: seq<nat>, tar: TarOutcome, downloads: string, j: nat, k: nat)
    requires Fresh(s, id) && j <= k <= |cs| && 0 < size
    ensures var r := Submit(s, url, id, Response(size, cs, tar), downloads);
      var a := GetArchiveInfo(r.states[j + 3], id);
      var b := GetArchiveInfo(r.states[k + 3], id);
      && a.Found? && a.info.progress.Some? && b.Found? && b.info.progress.Some?
      && a.info.progress.value <= b.info.progress.value
  {
    QueryDuringDownload(s, url, id, size, cs, tar, downloads, j);
    QueryDuringDownload(s, url, id, size, cs, tar, downloads, k);
    SumPrefixMonotone(cs, j, k);
    ProgressMonotone(Sum(cs[..j]), Sum(cs[..k]), size);
  }

  /** While no more than the declared size has arrived, the reported progress is at most 100. */
  lemma ProgressWithinWhole(s: State, url: string, id: Id, size: nat, cs: seq<nat>, tar: TarOutcome, downloads: string, k: nat)
    requires Fresh(s, id) && k <= |cs| && 0 < size && Sum(cs) <= size
    ensures var r := Submit(s, url, id, Response(size, cs, tar), downloads);
      var b := GetArchiveInfo(r.states[k + 3], id);
      && b.Found? && b.info.progress.Some? && b.info.progress.value <= 100
  {
    QueryDuringDownload(s, url, id, size, cs, tar, downloads, k);
    SumPrefixMonotone(cs, k, |cs|);
    assert cs[..|cs|] == cs;
    PercentAtMostWhole(Sum(cs[..k]), size);
  }
}
