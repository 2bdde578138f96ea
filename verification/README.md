# Archive download pipeline — a Dafny model

This project models the archive service's pipeline. A client submits a url. The service creates a metadata record under a fresh uuid and runs a background task. That task downloads the archive, counts the bytes received in a process-wide progress registry, opens the file as a `.tar.gz`, and extracts it. It then records the list of extracted files and removes both the archive file and the extraction directory. The client can query an id's status and progress, or delete the id. The metadata lives in the in-memory `DictProvider` store.

Modules:

- `Wrappers` holds `Option`, a field-wise override, and "same map except at one key".
- `Text` holds the Python string and path primitives the listing uses: `str.replace` with all occurrences and with a count of 1, and `os.path.join`.
- `Store` holds the `DictProvider` store: `create`, `get`, `update` and `remove` on a map from id to record. It also holds the status enum.
- `Listing` holds `get_file_list`. `os.walk` is modelled over an input tree. There are two listings: the source as written, which the pipeline uses, and a corrected one, which serves as the reference for the defect under Findings.
- `Pipeline` holds `download` and `unpack`. They are composed from single-effect steps over a state of store, registry and disk. They are driven by an abstract outcome of the HTTP request and of the tar open. A run records every intermediate state and every store write.
- `Endpoints` holds `download_archive_by_url` (create, then the whole background run), `get_archive_info` and `delete_archive`.
- `PipelineFacts` and `RunFacts` hold properties of whole runs. They cover the status schedule, the counter, what a query answers in each state, the end state of each outcome, and isolation of other ids.

## Model

| member | source | states |
|---|---|---|
| Store.ParseStatus | app/archive/schemas.py:14-18 | the four statuses serialise to distinct strings (`ok` for completed), and a string reads back as a status exactly when it is that status's value |
| Store.Create | app/archive/providers/dict.py:9-13 | a fresh id is added and no key is lost; its record holds only the url and has no status; every other entry is unchanged |
| Store.Get | app/archive/providers/dict.py:24-26 | the stored record for a present id, and None exactly when the id is absent |
| Store.Update | app/archive/providers/dict.py:20-22 | the id must be present (direct indexing raises otherwise); the key set is unchanged, the record becomes the merge of the patch, and other entries are unchanged |
| Store.Merge | app/archive/providers/dict.py:20-22 | `dict.update`: every key in the patch takes the patch's value, every other key keeps its value, and the url is never overwritten |
| Store.MergeTwice | app/archive/providers/dict.py:20-22 | two updates in a row equal one update whose patch lets the later keys win |
| Store.MergeIdempotent | app/archive/providers/dict.py:20-22 | repeating an update changes nothing further |
| Store.Remove | app/archive/providers/dict.py:15-18 | a present id is dropped, an absent id leaves the map identical, and other entries are unchanged |
| Store.RemoveThenGet | app/archive/providers/dict.py:15-26 | `get` after `remove(id)` gives None |
| Store.CreateThenGet | app/archive/providers/dict.py:9-26 | `get` after `create` gives the url-only record |
| Store.Isolation | app/archive/providers/dict.py:9-26 | `create`, `update` and `remove` on one id leave what `get` returns for every other id unchanged |
| Text.Replace | app/archive/router.py:27 | `str.replace(pat, "")` over all occurrences: a string in which the pattern does not occur is returned unchanged |
| Text.ReplaceFirst | app/archive/router.py:27 | `str.replace("/", "", 1)`: a string without the pattern is returned unchanged |
| Text.ReplaceAt | app/archive/router.py:27 | `str.replace` at the leftmost occurrence: the text before it is kept, the occurrence becomes the replacement, and the scan goes on right after it |
| Text.ReplaceFirstAt | app/archive/router.py:27 | `str.replace(pat, repl, 1)` at the leftmost occurrence: that occurrence becomes the replacement and everything else is kept |
| Text.PathJoin | app/archive/router.py:28 | `os.path.join` on POSIX; it carries no contract of its own, and its shape is the next row |
| Text.PathJoinShape | app/archive/router.py:28 | `os.path.join`: the result ends with the second part; an absolute second part replaces the first; otherwise the result starts with the first part |
| Listing.Walk | app/archive/router.py:25 | `os.walk` top-down: the root's own triple comes first, and each subdirectory is walked at `join(root, name)` |
| Listing.ListDirAsWritten | app/archive/router.py:26-28 | the inner loop as written, with `root` reassigned before every file; one name per file |
| Listing.ListAsWritten | app/archive/router.py:25-28 | the nested loops as written; one name per walked file |
| Listing.FileListAsWritten | app/archive/router.py:22-29 | `get_file_list` as written, over the walk of the extracted tree: one name for every file the walk visits |
| Listing.ListDir | app/archive/router.py:26-28 | the inner loop with the directory's relative path computed once; one name per file |
| Listing.List | app/archive/router.py:25-28 | the corrected nested loops; one name per walked file |
| Listing.FileListIsMembers | app/archive/router.py:22-29 | for a valid root and tree, the corrected listing is exactly every file of the tree, in walk order, by its path relative to the extraction root |
| Listing.ListWalk | app/archive/router.py:25-28 | the induction behind the previous row: listing the walk of a subtree rooted below the extraction root yields its members under the subtree's relative prefix |
| Listing.TopLevelBareNames | app/archive/router.py:26-28 | as written, a file directly under the extraction root is listed by its bare name |
| Listing.SubdirNames | app/archive/router.py:26-28 | as written, every file one level down, the first included, is listed as `subdir/name` |
| Listing.FirstFileRelative | app/archive/router.py:25-28 | as written, at any depth, the first file of a directory is listed by the directory's path relative to the extraction root, provided the extraction root does not occur again in that path |
| Listing.ShallowListingsAgree | app/archive/router.py:22-29 | on trees at most one level deep, the listing as written and the corrected listing are equal |
| Listing.ListingsSameLength | app/archive/router.py:25-28 | the listing as written and the corrected one have the same length on every tree |
| Listing.NestedExampleAsWritten | app/archive/router.py:22-29 | as written, the tree `a/b/{x,y}` extracted at `d/i` is listed as `["a/b/x", "ab/y"]` |
| Listing.NestedExampleCorrected | app/archive/router.py:22-29 | the corrected listing of the same tree is `["a/b/x", "a/b/y"]` |
| Listing.NestedSecondFileLosesSlash | app/archive/router.py:27 | the two listings differ on that tree: the second file loses a separator as written |
| Pipeline.ReceiveChunks | app/archive/router.py:72-74 | after a sequence of chunks, the counter and the file length have both grown by the chunks' total, and the store is unchanged |
| Pipeline.ReceiveChunksFrame | app/archive/router.py:72-74 | the chunk loop adds and drops no key, and changes no other counter and no other path |
| Pipeline.StreamedSteps | app/archive/router.py:72-74 | the states of the chunk loop start at the opened state; each follows from the one before by receiving the next chunk; the last is where the whole loop ends |
| Pipeline.Unpack | app/archive/router.py:32-55 | `unpacking` is written first. On a `ReadError` the format failure follows, the archive file is removed, and whatever `extractall` had written under `{id}/` stays. Otherwise the `ok` write carries `get_file_list` as written of the tree extracted in the second state, and both the archive file and the extraction directory are gone at the end |
| Pipeline.Download | app/archive/router.py:58-95 | a connection error or timeout gives one `failed` write whose detail names the url; a response gives `downloading` with the size, then `unpacking`, then the format failure or `ok` with `get_file_list` as written |
| PipelineFacts.UnpackStates | app/archive/router.py:32-55 | in every state of `unpack`: the registry is unchanged, the status follows the unpack schedule, and other ids are untouched; a `ReadError` leaves `files` as it was, and a file `tarfile.open` rejects leaves the extraction directory as it was |
| PipelineFacts.OpenedFacts | app/archive/router.py:62-71 | when the response arrives: the counter starts at 0, the size and `downloading` are written, and an empty archive file is opened |
| PipelineFacts.FetchedFacts | app/archive/router.py:62-94 | after the body: the counter is popped, the file holds exactly the body's bytes, and the record is as the `downloading` write left it |
| PipelineFacts.DownloadCounter | app/archive/router.py:62-94 | the counter exists exactly from the response until the pop; after k chunks, it and the file length both equal the sum of the first k chunk lengths |
| PipelineFacts.DownloadRecordsStreaming | app/archive/router.py:62-94 | the record is unchanged until the `downloading` write, then stays as that write left it until unpacking |
| PipelineFacts.DownloadRecordsUnpacking | app/archive/router.py:94-95 | once the counter is popped, the status follows the unpack schedule |
| PipelineFacts.DownloadIsolation | app/archive/router.py:58-95 | no state of a download changes the record, counter or files of another id |
| PipelineFacts.SumPrefixMonotone | app/archive/router.py:72-73 | the count of bytes received never decreases as chunks arrive |
| PipelineFacts.DownloadEnd | app/archive/router.py:58-95 | after a response, the final record has taken the three writes in order; there is no counter and no archive file; the extraction directory is gone after a full extraction and holds the partial tree after a `ReadError` inside `extractall` |
| PipelineFacts.NotTarNeverExtracts | app/archive/router.py:36-48 | a body that `tarfile.open` rejects never sets `files` and never creates the extraction directory, in any state |
| Endpoints.Percent | app/archive/router.py:116 | the truncated percentage is the floor: `p * size <= downloaded * 100 < (p + 1) * size` |
| Endpoints.GetArchiveInfo | app/archive/router.py:108-120 | 404 with the id in the message exactly for an unknown id; a server error exactly when the status key is missing, or a counter exists and the size is missing or 0; otherwise status, files and detail from the record, and a progress exactly when a counter exists, equal to the floor percentage |
| Endpoints.DeleteArchive | app/archive/router.py:123-130 | always acknowledged; the id has neither record nor counter afterwards; the disk and every other id are unchanged |
| Endpoints.ProgressBounds | app/archive/router.py:116-118 | with a positive size and no more received than declared, the query reports a progress between 0 and 100 |
| Endpoints.ProgressMonotone | app/archive/router.py:116 | more bytes against the same size never give a lower percentage |
| Endpoints.PercentAtMostWhole | app/archive/router.py:116 | no more bytes than the size give at most 100 percent |
| Endpoints.QueryIsolation | app/archive/router.py:108-120 | a query about one id answers the same in any two states that differ only in another id |
| Endpoints.DeleteThenQuery | app/archive/router.py:108-130 | after a delete, a query about the id is a 404, and every other id answers as before |
| Endpoints.DeleteUnknown | app/archive/router.py:123-130 | deleting an unknown id changes nothing and is still acknowledged |
| RunFacts.ScheduleAdvances | app/archive/router.py:58-95 | the scheduled status only moves forward, and a terminal status is never left |
| RunFacts.SubmitStatuses | app/archive/router.py:58-105 | in every state of a submitted run, the record's status is the scheduled one |
| RunFacts.DownloadStatusAt | app/archive/router.py:58-95 | in each state of a download that got a response, the status is the old one, then `downloading` until the counter is popped, then the unpack schedule |
| RunFacts.StatusOnlyAdvances | app/archive/router.py:58-105 | between any two states of a run, the observed status does not go back, and `ok` or `failed` once observed is observed from then on |
| RunFacts.SubmitCounter | app/archive/router.py:62-94 | the counter exists exactly from the response to the end of the body; a failed connection never creates one |
| RunFacts.CounterOnlyWhileDownloading | app/archive/router.py:62-94 | a record that is `unpacking`, `ok` or `failed` never has a counter |
| RunFacts.ProgressOnlyWhileDownloading | app/archive/router.py:94-118 | in any state of a run, a query reports a progress only while the status is `downloading` |
| RunFacts.SubmitIsolation | app/archive/router.py:58-105 | no state of a submitted run differs from the start in anything that belongs to another id |
| RunFacts.SubmitRecord | app/archive/router.py:58-105 | the record a submitted run leaves is `{url}` with the run's writes applied in order, and nothing of another id has changed |
| RunFacts.SuccessfulRun | app/archive/router.py:32-95 | on extraction the writes are exactly `downloading` with the size, `unpacking`, and `ok` with `get_file_list` as written; the final record holds all of it; no counter, archive file or extraction directory remains; with a named downloads directory, a plain-name id and a tree at most one level deep, the listing is every file by its relative path |
| RunFacts.NestedRunLosesSlash | app/archive/router.py:22-51 | the listing defect reaches the record: for `a/b/{x,y}` downloaded to `d` under id `i`, the `ok` write stores `["a/b/x", "ab/y"]`, which is not the member list `["a/b/x", "a/b/y"]` |
| RunFacts.TruncatedArchiveRun | app/archive/router.py:36-48 | when `extractall` raises `ReadError` part-way, the run ends `failed` with the format detail and no archive file, but the partly extracted directory stays on disk |
| RunFacts.NotTarRun | app/archive/router.py:36-48 | for a body that `tarfile.open` rejects, the writes end in the format failure; `files` is never set; the extraction directory never exists; the archive file is removed |
| RunFacts.ConnectFailureRun | app/archive/router.py:75-92 | a connection error or timeout writes one failure whose detail contains the url; no counter, archive file or extraction directory exists in any state |
| RunFacts.DownloadTerminalLast | app/archive/router.py:33-92 | every write of a download carries a status, and exactly one carries `ok` or `failed`: the last |
| RunFacts.TerminalWriteIsLast | app/archive/router.py:33-105 | the same for a submitted run: nothing is written for the id after `ok` or `failed` |
| RunFacts.QueryAtEnd | app/archive/router.py:94-120 | at the end of every run, the query reports a terminal status and no progress |
| RunFacts.QueryBeforeResponse | app/archive/router.py:102-114 | right after `create`, and until the response arrives, the query is a server error on the missing status key |
| RunFacts.StreamingState | app/archive/router.py:62-74 | after k chunks, the counter and the file both hold the bytes received so far, and the record is `downloading` with the declared size |
| RunFacts.QueryDuringDownload | app/archive/router.py:113-118 | after k chunks, the query reports `downloading` with the floor percentage of the bytes received, or a server error for a declared size of 0 |
| RunFacts.ProgressAdvances | app/archive/router.py:116 | successive queries during the body never report a lower progress |
| RunFacts.ProgressWithinWhole | app/archive/router.py:116-118 | while no more than the declared size has arrived, the reported progress is at most 100 |

## Behaviour of the code worth knowing

The model follows the code, including where it is surprising.

- `create` stores only the url, with no status. A query between submission and the response therefore raises a `KeyError` on `status` and the service answers with a server error (`RunFacts.QueryBeforeResponse`).
- `delete` acknowledges every id, an unknown one included, and removes nothing from disk (`Endpoints.DeleteUnknown`, `Endpoints.DeleteArchive`).
- The counter is popped before `unpack` starts, so no progress is reported while unpacking (`RunFacts.CounterOnlyWhileDownloading`).
- A declared content length of 0 makes the progress division raise, so the query is a server error (`Endpoints.GetArchiveInfo`, `Fault.ZeroDivision`).
- The completed status serialises as `ok` (`Store.ParseStatus`).
- A `ReadError` raised inside `extractall` leaves the partly extracted `{id}/` on disk (`RunFacts.TruncatedArchiveRun`).
- `get_file_list` mangles paths two or more levels deep, and that listing is what the record stores; see Findings.

## Left out

- Network, tar and file-system I/O. The HTTP request, the body and the tar open are an abstract `Outcome`, and the archive's member tree is an input. The disk is a map from the two per-id paths to a file length or a tree. File contents are not modelled.
- Background concurrency. A submitted run is modelled as running to its end, with every intermediate state recorded. Queries and deletes are stated against any chosen state, not interleaved with the run. The delete-during-download race is out: there, the next `update` on the removed id raises `KeyError`.
- Endpoints.GetArchiveInfo: the source divides as floats and truncates with `int()`; the model uses floor division on naturals. These agree for non-negative operands unless the float quotient rounds. Float rounding is not modelled.
- A missing content-length header, where `int(None)` raises, is not modelled: `Response` always carries a length.
- Exceptions the source does not catch are not modelled: a read error in the middle of the body, and any error from `tarfile.open` or `extractall` other than `ReadError` (a permission or disk-full `OSError`, say). `os.remove` and `shutil.rmtree` on a missing path are excluded by the preconditions of `Pipeline.RemoveFile` and `Pipeline.RemoveTree`; no run reaches them without the path.
- The text of the caught exception in `Failed to connect {url}: {e}!` is an abstract message string.
- The uuid is not generated. A fresh id is a parameter, and `Endpoints.Fresh` requires it to be unused.
- The downloads directory is a parameter. `app/config.py` is not part of this model.
- Extracting into an existing directory is modelled as replacing its tree, not as merging into it.
- `mongo_db.py` is an external document store. `base.py` and `archive_manager.py` only declare or forward the provider calls, so the model calls `Store` directly. The `author` field the tests expect is produced by no code here. Authentication, app wiring and url validation belong to libraries outside the core.

## Findings

| source | as written | input that shows it | evidently intended | confidence | as-written member | corrected member |
|---|---|---|---|---|---|---|
| app/archive/router.py:27 | `root` is reassigned to its stripped form inside the file loop. The strip then runs again for every further file of the same directory, removing one more `/` each time. | extraction root `d/i` holding directory `a/b` with files `x`, `y`: listed as `["a/b/x", "ab/y"]` | each file's path relative to the extraction root, `["a/b/x", "a/b/y"]`; strip the root once per directory | high (not executed) | RunFacts.NestedRunLosesSlash | Listing.FileListIsMembers |

The pipeline stores the listing as written, so the defect is part of the modelled behaviour (`RunFacts.NestedRunLosesSlash`). `Listing.FileList` is the corrected definition: `Listing.FileListIsMembers` proves that it names every file by its member path, on trees of any depth. The two listings agree on trees at most one directory level deep (`Listing.ShallowListingsAgree`).
