# gitdr, modelled and proved

gitdr backs up git repositories into a store that only ever takes new objects. A run copies a
repository, skips it as unchanged by relying on an older copy, skips it as already copied that day, or
fails it, and files a signed manifest that later runs, restores and drills read. This project models
that engine in Dafny and proves what its design rests on: what a whole history of runs keeps, what a
stream of bytes can and cannot become on the way to the store and back, and what a restore shows.

`dafny verify dfyconfig.toml` checks everything.

## How it is laid out

| file | what it holds |
|---|---|
| `Base`, `Order`, `Records` | options and results, folds over bytes, Go's string order, the records a run writes |
| `Runs`, `Histories` | runs as a transition system over one create-only store, and the theorems over every history |
| `Entries` | why each entry of a history is as it is, and what a signed manifest names |
| `Ledger`, `Reruns` | who wrote what in a history, and the rerun of a day: it stores nothing and records the same |
| `Schedule`, `Overdue` | how old the newest copy gets under regular runs, and the history in which it outlives the bound |
| `Mistakes` | the history in which another writer's object is taken for one's own |
| `Staging`, `Resume`, `Unchanged`, `Previous` | the parts of one run: upload order, the same-day check, the skip, the reading of older manifests |
| `Filing`, `Namespaces`, `Recorded` | where manifests are filed and searched, and the memoised search |
| `FanOut`, `Outcomes` | the bounded workers of a run, its deadline and grace period, as interleaved steps; and which entry a repository ends with |
| `Envelope`, `Layout` | the chunked AEAD envelope, and its bytes one by one |
| `Streams`, `ExactReaders`, `Parts`, `Races`, `StoreWrites` | readers of any behaviour, exact-length bodies, part plans and checksums, what a log of puts tells, the S3 write protocol |
| `Refs` | the comparison of a restore with its bundle and with its source |
| `Budget` | the rate-limit budget and the request loop |
| `Rechunk` | the proxy's aws-chunked re-framing |

A loop of the source is a method proved against a function or a predicate, and the lemmas are about
that function. An object whose methods update it is a class. The protocols with concurrency, a run
among runs and the workers of one run, are transition systems whose steps are small enough that a run
may stop between any two.

## What the model assumes

- Time is an integer of nanoseconds and never goes back within a history; a manifest's name holds the
  second it finished.
- The configured days, the period the destination holds objects for and which of the two does the holding
  are fixed for a history, and so are the keys its copies go to. `Accepted` says which of these gitdr takes:
  some days of retention, and keys that tell repositories, dates and kinds apart.
- Objects are not removed while a history lasts. A listing and a read of a manifest answer the same each time
  within one search: the code remembers a manifest whose read failed in passing, where a search begun anew
  might read it.
- Path segments are not empty and hold no slash, and no `.` or `..`, so `path.Join` only joins.
- The ideal cipher opens exactly what was sealed under it, for the sessions that were sealed; data keys
  differ from each other and from the wrapping keys. `IdealCipherExists` shows that there is one, and
  `HonestSession` one used honestly for any plaintext. A use of Encrypt whose writer gave out counts as
  the halted session of what it had sealed.
- A signature is either ours over exactly those bytes, or it counts for nothing. Foreign writers may put
  anything else, a copy of one of our signatures included.
- A reader is a script of pieces and an end: some of them empty, the end with the last piece or after
  it, a failure instead of an end, an end that is not io.EOF itself but wraps it. What a stream gives may
  differ each time it is read from the start.
- A file read at offsets answers each read as it likes, whatever it answered before; only from some time on
  it no longer gives nothing without a word. `Holds` and `Sound` name the files that do not change, and are
  used only where a write is said to succeed, or what it read to be what the file holds.
- What others put is a script: before each request to the store, which objects appear at which keys. A
  delayed request of ours counts among them.
- A store is calm where nobody else writes, every request arrives and every HEAD is answered with the
  checksum; a file is sound where no read of it fails. Only what is written, not what is kept safe, is
  said of these alone.
- On a store with conditional writes nobody changes or removes an object. HEAD answers truthfully where
  it answers, and may show neither checksum nor lock.

## What turned out false of the code, and the exact condition

- `internal/pipeline/previous.go:156-158` says that an entry without a `copiedAt` makes its repository
  refresh sooner. The code dates it by the manifest's finish, which is later than the copy, so the copy
  looks younger. The decision differs exactly while the finish is within the bound and the copy is not, and
  then it skips (`UndatedEntryLooksYounger`); a run that does so is `UndatedCopyOutlastsBound`.
- With runs at most g apart and at most one length long, the newest copy is not always younger than the
  refresh bound and both: a same-day skip is not held to the refresh bound. Of the configurations gitdr takes
  it always is exactly under a window of three days or more, which keeps the bound at a day or more
  (`BoundKeptIff`). Under any other a day takes the bound's place (`NewestCopyAge`), and there is a history of
  two runs in which the copy outlives the bound (`RerunOutlivesBound`).
- S3 settles a write it did not acknowledge by size and CRC32 (`internal/dest/s3/s3.go:362-383`), and the manifest
  records the hash computed here. So a copy can be signed for with a hash that is not stored: where another
  writer's object of the same size and CRC32 and of other bytes is at the key (`MistakenCopyIsSigned`). The
  recorded hash is the stored one exactly where no step of the history made that mistake (`HashIsSoIff`), and
  none does while no staged artifact shares size and CRC32 with an object of another hash at its key
  (`ChecksumsTellEnough`).
- Comparing ref maps reads a missing name as the empty id. The comparison is equality exactly when no
  empty id stands for a missing name (`SameRefsIsEquality`, `EmptyIdFoolsSameRefs`).
- The age cutoff of `loadPrevious` is measured on names cut to the second. It changes what a repository gets
  exactly when the manifest deciding it without the cutoff is named at least a bound ago
  (`CutoffChangesIff`). That can take a skip from a copy less than a second short of the bound
  (`CutoffCanTakeASkip`), and from no younger one (`CutoffKeepsYoungCopies`).
- A perfect clone of a bundle that declares refs under `refs/remotes/origin/` can compare as a mismatch.
  It compares good exactly when none of those refs lies where the clone put a branch at another object
  (`CloneComparesIff`, `TrackedNameClashes`).
- Without conditional writes, looking before putting is not create-only. A put of ours lands on another
  writer's object exactly when that writer put at the key after we last looked there or landed there
  (`WriteReplacesExactlyWhenOvertaken`), and one run of `PutWhole` does it (`LookingIsNotEnough`).
- The rate-limit budget is not always charged all the time something waited. It is exactly when no call
  begins in a gap that nothing charged covers, before an end already charged (`ChargesEveryInstantIff`). A
  clock that goes forward leaves no such gap (`ClockForwardLeavesNoGap`), nor do some orders off it; a call
  that began before the earliest one charged falls in one (`EarlierCallFallsInGap`). It is never charged more
  (`ChargesNoInstantTwice`).

## Model

| member | source | states |
|---|---|---|
| Histories.HistoryOk | internal/pipeline/backup.go:538-610 | Over any interleaving of any number of runs, each of which may stop after any step, and of foreign writers, nothing stored is ever changed and the invariant of histories holds |
| Histories.StepOk | internal/pipeline/backup.go:538-610 | Each single step keeps that invariant and takes nothing back |
| Histories.Provenance | internal/pipeline/backup.go:574-589 | A signed entry that did not fail and carries refs has exactly the refs and copiedAt of an earlier signed success entry of the same repository, whose artifacts were stored by then, each with the recorded hash exactly where no step mistook another's object for it; no skip invents refs or makes a copy look younger |
| Histories.ListedIsStored | internal/pipeline/backup.go:921-964 | Whatever any signed entry lists, a failed one's too, is in the store with that size and lock since before the manifest finished, and with that hash exactly where no step mistook another's object for it |
| Histories.HashIsSoIff | internal/dest/s3/s3.go:362-383 | A hash the histories speak for is the stored object's exactly where no settle took an artifact with it for an object of the same size and checksum and another hash |
| Histories.ChecksumsTellEnough | internal/dest/s3/s3.go:355-361 | No settle makes that mistake in a history in which no staged artifact shares size and checksum with an object of another hash at its key |
| Mistakes.MistakenCopyIsSigned | internal/pipeline/backup.go:949-964 | And one can: under a configuration gitdr takes, a history ends with a signed success entry whose bundle has another hash in the store |
| Histories.SidecarMeansWhole | internal/pipeline/backup.go:936-964 | A stored checksum sidecar stands beside every other artifact of its copy, wherever a run died, or beside what a step mistook for it, and only there |
| Histories.SkipNeverLapses | internal/pipeline/unchanged.go:58-114 | When a repository is skipped as unchanged, the copy relied on is a signed one, and every artifact of it that a run stored is locked for more than two thirds of the window still, less the time between fixing the lock date and recording the copy; an artifact settled on another writer's object has the lock that object shows |
| Histories.ResumeCarriesTheCopy | internal/pipeline/backup.go:626-726 | A same-day skip stores nothing, and carries the refs and copiedAt of a signed entry that lists exactly the objects under the date |
| Entries.EveryEntryHasReason | internal/pipeline/backup.go:538-610 | In every history each settled entry was settled by one step, while the repository was open, and says what that step met: a failed upload's and a stopped worker's entry is a failure that lists just the files put until then, a finished copy's lists all of its plan, and a skip's lists nothing and carries the relied-on copy's refs and date |
| Entries.ComparedSkipsIff | internal/pipeline/backup.go:561-589 | At the comparison a repository is skipped exactly when it was not named to be copied anew, a copy is known whose refs are the source's, and its age is in [0, bound); otherwise it goes on to be copied and nothing else changes |
| Entries.LoadedIsRelied | internal/pipeline/previous.go:69-142 | What a run of a history relies on is what its window of the filed manifests says of each selected repository |
| Entries.SignedNamesAll | internal/pipeline/backup.go:190-215 | In every history a signed manifest names all its run selected, each by the entry settled for it |
| Ledger.LedgerKept | internal/pipeline/backup.go:936-971 | In every history all a worker stored is named by its plan, what it recorded of its progress is exactly the part of the plan behind it, a finished copy's entry lists exactly its plan, and every signed manifest is one run's settled entries |
| Reruns.SecondRunSkips | internal/pipeline/backup.go:612-726 | After a run copied a repository, or found it empty, and filed that within the day, the check of a later run of that day skips it with the same refs and copiedAt |
| Reruns.RerunWritesNothing | internal/pipeline/backup.go:612-726 | Same-day idempotence over every history: such a rerun settles the skip, and however the history goes on, its worker stores nothing of the repository; runs of the day that signed for no copy of it do not matter |
| Reruns.FoundDateIsLeft | internal/pipeline/backup.go:612-726 | Whatever a listing shows under the date, a stranger's object included, the repository is settled, skipped or failed, and however the history goes on that run's worker stores nothing of it |
| Overdue.RerunIsReached | internal/pipeline/backup.go:626-726 | There is a history, under a configuration gitdr takes, with a first run and a rerun as RerunWritesNothing asks |
| Schedule.NewestCopyAge | internal/pipeline/unchanged.go:102-114 | With runs protecting a repository at most g apart and at most one length long, at every instant from the first one's finish there is a signed and stored copy younger than the refresh bound, or a day if that is more, and both |
| Overdue.RerunOutlivesBound | internal/pipeline/backup.go:626-726 | Under every window between none and three days a configuration gitdr takes has a history of two such runs that leads to an instant with no copy younger than the refresh bound and both |
| Overdue.BoundKeptIff | internal/pipeline/unchanged.go:102-114 | The bound holds over every history of every configuration gitdr takes exactly when the refresh bound is a day or more |
| Staging.Stage | internal/pipeline/backup.go:870-947 | What is staged is every artifact of the copy and no other, largest first, the sidecar last and only for a bundle |
| Staging.LargestFirstSorts | internal/pipeline/backup.go:933-935 | The sort loses nothing and leaves artifacts of one size in the order they came |
| Staging.CopyProgress.Written | internal/pipeline/backup.go:484-494 | The list is in manifest order, bundle, metadata, sidecar and LFS archive, whatever order things landed in |
| Staging.WrittenIsAll | internal/pipeline/backup.go:482-494 | Everything that landed is listed, and nothing else |
| Staging.UploadAll | internal/pipeline/backup.go:949-971 | The uploads stop at the first failure; the entry lists exactly what landed, each file with its size, hash, key and the retention its put reported; it is failed after a failed upload and after a copy without its metadata, and else a success with refs and date, or a skip for no commits |
| Staging.SidecarComesLast | internal/pipeline/backup.go:936-948 | Once the sidecar is recorded as landed, every artifact of the copy is |
| Resume.Resumed | internal/pipeline/backup.go:626-726 | One listing and one search give the verdict on the date |
| Resume.Complete | internal/pipeline/backup.go:669-710 | The copy is taken as complete only with nothing missing, nothing over and a date that can be believed |
| Resume.SkippedOnlyWhenRecorded | internal/pipeline/backup.go:612-726 | The date is skipped exactly when some manifest vouches for the copy, all under it was written that day, and the keys under it are the artifacts that manifest lists; anything else there fails the repository |
| Resume.SkipSays | internal/pipeline/backup.go:700-725 | A skip lists nothing and carries the recorded refs and date, the entry's own or, where it has refs and none, its manifest's finish |
| Unchanged.RefreshBound | internal/pipeline/unchanged.go:102-114 | The bound is never past thirty days, and three of it never past a positive retention |
| Unchanged.BoundIs | internal/pipeline/unchanged.go:102-114 | Thirty days without a retention; with one the greatest bound of which three fit, thirty days at most |
| Unchanged.RetentionWindow | internal/pipeline/backup.go:758-779 | The shorter of the configured days and the period the destination holds for, where each is set, and none exactly when neither is |
| Unchanged.WindowIs | internal/pipeline/backup.go:758-779 | And its value: the lesser of the two where both are set, else the one that is |
| Unchanged.SameRefs | internal/pipeline/unchanged.go:121-131 | The loop computes equality of two ref maps when the first has no empty id |
| Unchanged.SameRefsIsEquality | internal/pipeline/unchanged.go:116-131 | It is equality exactly when no empty id of one map stands for a name the other lacks |
| Unchanged.EmptyIdFoolsSameRefs | internal/pipeline/unchanged.go:126 | And otherwise it is not: two different maps that compare the same |
| Unchanged.DecideUnchanged | internal/pipeline/unchanged.go:58-100 | The branches decide as the plain rule does |
| Unchanged.SkipIff | internal/pipeline/unchanged.go:58-100 | A skip happens exactly on a known, unmoved, nonempty ref map and a copy whose age is in [0, bound) |
| Unchanged.DecideMeans | internal/pipeline/unchanged.go:58-100 | A copy exactly where nothing is known, something moved or the date is still to come; a refresh exactly from the bound on; a skip said to be since the day of the copy |
| Unchanged.LockOutlivesSkip | internal/pipeline/unchanged.go:102-114 | At a skip, a lock of the whole retention has more than two thirds of it left, less its lead |
| Unchanged.RefsToEntries | internal/pipeline/unchanged.go:137-144 | The list has every name once, in order, at its id |
| Unchanged.EntriesToRefs | internal/pipeline/unchanged.go:147-156 | Exactly the names of the list, each at the object its last entry gives |
| Unchanged.RefsRoundTrip | internal/pipeline/unchanged.go:133-156 | Writing a ref map down and reading it back loses nothing |
| Unchanged.CarriedListIsSame | internal/pipeline/backup.go:574-589 | Reading a list and writing it again gives the same list, so a skip carries refs as they were |
| Filing.FiledManifests | internal/pipeline/manifests.go:99-116 | Exactly the listed objects filed directly in the directory |
| Filing.FiledNewestFirst | internal/pipeline/manifests.go:99-116 | Newest first by name, the order every reader relies on |
| Filing.NewestManifest | internal/pipeline/manifests.go:118-138 | The newest whose name is not in the future |
| Previous.LoadPrevious | internal/pipeline/previous.go:69-142 | The loop with its per-repository filter, early exit and cutoffs gives, for each selected repository and no other, what the first entry in the window gives that is not a failure without artifacts, the newest manifest first: nothing for a failure, for no refs or for a date after the manifest's finish or still to come, and else its refs and its date |
| Previous.NewestEntryRules | internal/pipeline/previous.go:102-138 | With one entry in the newest usable manifest that names the repository: a failure that lists an artifact leaves it without a copy whatever older ones have, a failure that lists none leaves the answer to the other manifests, and any other entry gives its own copy |
| Previous.KeptEntries | internal/pipeline/previous.go:102-122 | What is kept while a manifest is decoded: exactly the entries of selected repositories still undecided that did not fail, or list an artifact |
| Previous.Settle | internal/pipeline/previous.go:123-138 | Those entries settle their repositories, first come first |
| Previous.CopyHasSource | internal/pipeline/previous.go:144-170 | A copy relied on comes from an entry, not failed and with refs, of a usable manifest that was read |
| Previous.WindowIsListed | internal/pipeline/previous.go:69-101 | The window read is the newest of the filed, non-future manifests younger than the bound, in that order, at most ten, and all of them when there are fewer |
| Previous.CutoffKeepsYoungCopies | internal/pipeline/previous.go:94-101 | The age cutoff takes no skip away but one whose copy is within a second of the bound |
| Previous.CutoffChangesIff | internal/pipeline/previous.go:94-101 | The cutoff takes a repository's decision exactly when the manifest that decides it without is named at least a bound ago, and its copy exactly when there was one |
| Previous.CutoffCanTakeASkip | internal/pipeline/previous.go:94-101 | And it does take a young copy: one the uncut read relies on within the bound, and the cut read does not find |
| Previous.UndatedEntryLooksYounger | internal/pipeline/previous.go:154-170 | An entry without copiedAt is dated by its manifest's finish; the decision is another than the copy's own date gives exactly while the finish is within the bound and the copy is not, and then it is a skip |
| Previous.UndatedCopyOutlastsBound | internal/pipeline/previous.go:154-170 | A run reads such an entry through its window and skips on a copy past the bound |
| Namespaces.ManifestAnchor | internal/pipeline/manifests.go:48-70 | The anchor is the longest path all owners share |
| Namespaces.AnchorIsUnique | internal/pipeline/manifests.go:48-70 | There is one, whatever the listing order |
| Namespaces.ManifestDir | internal/pipeline/manifests.go:72-79 | Where a run's manifest is filed |
| Namespaces.ManifestSearchDirs | internal/pipeline/manifests.go:81-97 | The directories searched, deepest first |
| Namespaces.SearchDirAt | internal/pipeline/manifests.go:81-97 | Which they are: one beside each depth of the namespace, and the host's own last |
| Namespaces.FiledWhereSearched | internal/pipeline/manifests.go:48-97 | A run's manifest is filed in a directory searched for every repository of the run |
| Namespaces.ArtifactKeyRoundTrip | internal/pipeline/drill.go:393-402 | An artifact key comes apart into what it was made of, for owners of any depth |
| Namespaces.KeysPlainly | internal/pipeline/restore.go:61-66 | The three keys, spelled out |
| Namespaces.KeyLocatesItsCopy | internal/pipeline/restore.go:61-66 | Each artifact key, taken alone, gives its repository and date back |
| Namespaces.KeysLocateTheirCopy | internal/pipeline/restore.go:61-66 | Two copies that share any key, of whatever kind, are the same copy |
| Recorded.CopySearch.Find | internal/pipeline/recorded.go:121-187 | The memoised search answers as a fresh one of the same destination does, whatever was asked before, in any order |
| Recorded.CopySearch.FindInDir | internal/pipeline/recorded.go:140-186 | The loop over the day and the day after gives the plain search of both |
| Recorded.CopySearch.FindFiled | internal/pipeline/recorded.go:150-184 | Newest first within the day, the first manifest that records the copy |
| Recorded.CopySearch.List | internal/pipeline/recorded.go:190-200 | The answer is the destination's, and it is asked only for a prefix not answered before |
| Recorded.CopySearch.LoadOnce | internal/pipeline/recorded.go:205-231 | A manifest is read only the first time, and what is kept of it answers every question asked |
| Recorded.CopySearch.NothingTwice | internal/pipeline/recorded.go:121-139 | Whatever was searched, no listing was asked for again once answered and no manifest was read twice |
| Records.LoadMeans | internal/pipeline/manifests.go:167-253 | The one loader lets through exactly a signed run-manifest of at most 128 MiB named for the second it says it finished in |
| Recorded.AnswersMeans | internal/pipeline/recorded.go:33-58 | A manifest answers exactly when it is usable and not named after the time asked for, and its first entry of the repository is a success, or a skip for no commits, that lists one of the keys |
| Recorded.SearchMeans | internal/pipeline/recorded.go:121-187 | With every listing answered, a copy is found exactly when some listed manifest records one |
| Recorded.FoundIsRecorded | internal/pipeline/recorded.go:31-44 | What is found is recorded, whatever listings failed |
| Recorded.KeepingMoreChangesNothing | internal/pipeline/recorded.go:205-231 | What else the search keeps changes no answer |
| Recorded.ReportMeans | internal/pipeline/recorded.go:140-187 | What a search that found nothing says: how many manifests it looked at, how many could not be used, how many of those were too large, and the first entry that names the artifact and is no copy of it |
| Recorded.SearchIsOneList | internal/pipeline/recorded.go:121-187 | With every listing answered, the search goes through the filed manifests of all its listings as through one list |
| Recorded.RecordedChecks | internal/pipeline/restore.go:366-388 | For the bundle and for the LFS archive the hash of the artifact listed at its key, and none exactly where none is listed there; of several at one key the last's |
| Recorded.FindRestoreChecks | internal/pipeline/restore.go:455-513 | What a restore is to check is what a listed, usable manifest records whose entry is a copy that lists the bundle: its key, and the hashes that entry lists for bundle and LFS archive |
| Recorded.FiledIsFound | internal/pipeline/restore.go:455-513 | Restore by date finds a manifest recording the bundle of a run that finished on its date or the day after |
| Recorded.FiledHashIsExpected | internal/pipeline/restore.go:455-513 | And the hash it is then to check is the one the manifest found lists for the bundle |
| FanOut.ReturnsEveryRepositoryOnce | internal/pipeline/backup.go:379-464 | Over every interleaving: one entry a repository, in input order, and exactly one finished event each, carrying that entry |
| Outcomes.WhichEntry | internal/pipeline/backup.go:379-464 | And which entry, told by the steps alone: where a stop came before the run's turn to start it, a failure with nothing written; where the repository's goroutine settled before the grace period was up, the very entry backupOne returned; and otherwise a failure that lists exactly the artifacts that had landed, the last of each kind, when the run came to record it |
| Outcomes.NeverStopped | internal/pipeline/backup.go:379-424 | A run that is not stopped returns for every repository what backupOne returned |
| Outcomes.LimitIsReached | internal/pipeline/backup.go:380-424 | max(1, concurrency) repositories do get to work at once, as far as there are so many |
| FanOut.AtMostLimitAtOnce | internal/pipeline/backup.go:380-424 | Never more repositories at work than max(1, concurrency) |
| FanOut.SettledForGood | internal/pipeline/backup.go:390-401 | An entry once settled stays, and what comes second is dropped |
| FanOut.LateChangesNothing | internal/pipeline/backup.go:387-401 | After the return, no late repository changes an entry or adds an event |
| FanOut.StopStartsNothing | internal/pipeline/backup.go:403-420 | Once the run is stopped nothing more is started |
| FanOut.NeverStartedIsNamed | internal/pipeline/backup.go:410-418 | A run that returns names every repository it never started, failed with nothing written |
| FanOut.CollectReadsStarted | internal/pipeline/backup.go:446-463 | Progress is read only of a repository that was started |
| FanOut.EveryStepGetsNearer | internal/pipeline/backup.go:425-464 | No history of steps inside the run goes on for ever |
| FanOut.NeverStuck | internal/pipeline/backup.go:403-445 | Until it has returned, the run or one of its workers can move without the outside: it never hangs on its own slots or lock |
| FanOut.StoppedRunReturns | internal/pipeline/backup.go:427-464 | From any state a stopped run returns by its own steps alone, with every worker left where it is, so a hung one cannot hold it |
| FanOut.AllExitedAllSettled | internal/pipeline/backup.go:431-445 | When all started workers are done, every repository has its entry, in the grace period as before it |
| FanOut.StepOk | internal/pipeline/backup.go:379-464 | Every step keeps what the theorems rest on |
| Envelope.ChunkNonce | internal/crypto/encrypt.go:234-244 | The nonce filled in place is prefix, low seven counter bytes and flag |
| Envelope.NonceEqualIff | internal/crypto/encrypt.go:234-244 | Two nonces agree exactly when prefix, flag and counter modulo 2^56 agree |
| Layout.NonceLayout | internal/crypto/encrypt.go:234-244 | Four bytes of prefix, the counter in seven, most significant first, and one byte of flag |
| Envelope.NoncesOfOneStream | internal/crypto/encrypt.go:97-120 | The nonces of one stream are pairwise distinct exactly up to 2^56 chunks |
| Envelope.Encrypt | internal/crypto/encrypt.go:69-120 | What is written, for any reader and any writer that may run out of room, is the session's stream cut there; and what was sealed on the way is exactly what the halted session seals, all of it unless the writer gave out |
| Envelope.MadeByHalted | internal/crypto/encrypt.go:94-120 | A stream given up after n chunks has sealed what a session of those n chunks with a failing source seals, so it never counts as finished |
| Envelope.EncryptChunks | internal/crypto/encrypt.go:94-120 | The read-ahead loop seals the session's chunks and marks exactly the last |
| Layout.HeaderLayout | internal/crypto/encrypt.go:69-93 | The 69 bytes every stream begins with |
| Layout.StreamLayout | internal/crypto/encrypt.go:94-120 | A finished stream is as long as the plaintext, 69 bytes and 16 a chunk, and has the i-th 64 KiB of the plaintext sealed at 69 + 65552 i, under the nonce of its number, flagged for the last alone |
| Layout.CutAtRoom | internal/crypto/encrypt.go:69-120 | A writer with too little room keeps just what fits, and the call fails |
| Envelope.Decrypt | internal/crypto/encrypt.go:123-174 | The loop gives what the plain description of opening gives, its errors included |
| Layout.RefusedFor | internal/crypto/encrypt.go:123-174 | Which stream is refused for which reason, with nothing written: a key of another length, a short header, another magic or version, a wrap that does not open, a data key of no AES length |
| Envelope.DecryptChunks | internal/crypto/encrypt.go:146-174 | Chunk by chunk, with the flag set only where nothing follows |
| Envelope.RoundTrip | internal/crypto/encrypt.go:69-174 | Decrypt undoes Encrypt for every plaintext, the empty one and exact multiples of 64 KiB included |
| Envelope.DecryptAuthentic | internal/crypto/encrypt.go:123-174 | Success only on a stream Encrypt finished, giving its plaintext; what was written before a failure is whole chunks from the front of one |
| Envelope.TamperedStreamFails | internal/crypto/encrypt.go:123-174 | Under a stream's header anything but the stream itself fails: every cut, extension, swap or drop |
| ExactReaders.S3Reader.Read | internal/dest/s3/exact.go:62-103 | Each read keeps: what is passed is a prefix of the source, the artifact's end is passed only where an exact stream was seen to end, and an error is given again until a seek |
| ExactReaders.S3Reader.Past | internal/dest/s3/exact.go:110-122 | One byte further: the end where the stream ends in time, an error otherwise |
| ExactReaders.S3Reader.Seek | internal/dest/s3/exact.go:124-131 | A seek counts from where it lands and clears the error |
| ExactReaders.PassedOnlyExact | internal/dest/s3/exact.go:18-45 | However reads are cut, all of a nonempty artifact is passed only when the stream is exactly the artifact |
| ExactReaders.ExactMeans | internal/dest/s3/exact.go:102-126 | Exact is so many bytes, an end and no failure, and before it at most 99 reads of nothing, or 100 when the last of them says the end |
| ExactReaders.Copy | internal/dest/s3/s3.go:402-405 | Reading through succeeds exactly on an exact stream, and sums it |
| ExactReaders.Crc32Of | internal/dest/s3/s3.go:385-410 | A checksum exactly for an exact stream, the sum of its bytes, and the body back where it stood |
| ExactReaders.Send | internal/dest/s3/exact.go:9-17 | A request of a nonempty artifact is whole exactly when the stream sent is exact |
| ExactReaders.PutOnce | internal/dest/s3/s3.go:275-294 | What one PUT commits carries the checksum computed before it, though the file may read differently the second time; an inexact stream commits nothing |
| ExactReaders.CloudReader.Read | internal/dest/gcs/gcs.go:216-248 | GCS's and Azure's reader: never past size, errors given again, the end only where the source holds exactly size bytes, and for GCS as io.EOF itself |
| ExactReaders.Upload | internal/dest/azure/azure.go:483-526 | The copy loop ends well exactly on an exact stream, with all of it sent |
| ExactReaders.PutGcs | internal/dest/gcs/gcs.go:175-198 | Close is reached exactly for an exact stream of a legal size |
| Parts.PlanIsValid | internal/dest/s3/multipart.go:70-80 | Every part begins inside the object, and together they reach its end |
| Parts.PartsTile | internal/dest/s3/multipart.go:76-80 | In order, no gap, no overlap, all full but the last, none empty |
| Parts.EveryByteInOnePart | internal/dest/s3/multipart.go:76-80 | Every byte is in exactly one part |
| Parts.PlanWithinBounds | internal/dest/s3/multipart.go:48-74 | Part sizes within S3's bounds, and at most 9000 parts exactly up to 9000 times 5 GiB |
| Parts.PartSizeIsLeast | internal/dest/s3/multipart.go:70-74 | No smaller legal part size keeps to 9000 parts |
| Parts.CopySection | internal/dest/s3/multipart.go:115-122 | One section of a file of any answers, read into two sums at once: what it passes on is bytes the file gave for their places in this reading, and short without an error only at io.EOF itself |
| Parts.EndsAt | internal/dest/s3/multipart.go:135-150 | No error exactly where the file just answered no byte and an end there |
| Parts.ChecksumPart | internal/dest/s3/multipart.go:111-126 | A part read whole gives its own sum and carries the whole's on, over the bytes the file gave for it |
| Parts.ChecksumParts | internal/dest/s3/multipart.go:107-133 | Sums only of bytes the file gave for all places of the object in this one reading, every part's over its own and the whole's over all, and only after a last look found the end; and always for a sound file of this length |
| Parts.UnchangedIsRead | internal/dest/s3/multipart.go:36-46 | Of a file that does not change, what was so read is what it holds, and it ends there |
| Parts.BlockSizeIsLeast | internal/dest/azure/azure.go:458-481 | The least legal whole number of MiB, and a refusal exactly when no legal size fits |
| Parts.PutAzure | internal/dest/azure/azure.go:416-456 | Committed exactly when a legal block size exists and the stream is exact, and the size recorded is the size |
| StoreWrites.Backend.PutWhole | internal/dest/s3/s3.go:244-318 | Create-only: on a store with conditional writes no landing replaces anything and no key takes two, and with nobody else writing only the key changes, to an object of this write's; a write reported done is at the key with this size and one of its CRC32s; what it says is locked is locked; a refusal means something is there; a write that landed on a store that shows checksums is never reported lost; a new key on a calm store gets its artifact; every landing, whoever else writes, is an object of this size and checksum under the lock that was asked for; and another object at the key is a refusal wherever the store says what it has |
| StoreWrites.Backend.PutObject | internal/dest/s3/s3.go:294-296 | Repeated sends of one PUT add at most an object of this write's at the key |
| StoreWrites.Backend.SendOnce | internal/dest/s3/s3.go:258-292 | One send lands only whole and with the checksum in its header |
| StoreWrites.Backend.SendAndSettle | internal/dest/s3/s3.go:294-318 | The sends of one PUT and the look that settles them: done, refused or failed, with what each says of the key |
| StoreWrites.Backend.PutSummed | internal/dest/s3/s3.go:275-318 | The sends carry a checksum computed before the first, over an exact stream or not at all |
| StoreWrites.Backend.Settle | internal/dest/s3/s3.go:362-383 | Ours only with this size and a shown CRC32 of this write's, and always then; absent only where nothing is |
| StoreWrites.MatchesMeans | internal/dest/s3/multipart.go:88-105 | A match is the size and the CRC32 the store has, of the bytes or, for an object of parts, of the parts' sums, four bytes each and the first the most significant |
| StoreWrites.Backend.Clear | internal/dest/s3/s3.go:412-426 | The key is clear only where nothing is, and a refusal means something is |
| StoreWrites.Backend.CreateUpload | internal/dest/s3/multipart.go:193-224 | Composite from the first refusal on, for every later upload |
| StoreWrites.Backend.SendPart | internal/dest/s3/multipart.go:290-310 | A part is read again at its offset for each of its sends, three before it is given up, and kept only whole and with the sum computed for it, whatever the file answers now; always from an intact file |
| StoreWrites.Backend.SendPartOnce | internal/dest/s3/multipart.go:290-310 | One send of it |
| StoreWrites.Backend.SendParts | internal/dest/s3/multipart.go:242-288 | Parts that together are bytes the file gave for all places of the object in this reading, each with the sum computed for it before |
| StoreWrites.Backend.SendAll | internal/dest/s3/multipart.go:174-191 | An upload gets to Complete only with every part sent and then, last of all, no byte and an end seen past the object |
| StoreWrites.Backend.Complete | internal/dest/s3/multipart.go:318-365 | Done only with the object at the key matching; what lands is the parts, and shows only CRC32s the write knows; another upload asked for only with nothing there and nothing landed |
| StoreWrites.Backend.RequestComplete | internal/dest/s3/multipart.go:318-347 | The one request: it lands the parts whole, a full-object CRC32 only where they have it |
| StoreWrites.Backend.SettleComplete | internal/dest/s3/multipart.go:351-365 | Done only with the sum this upload asked the store for; another upload asked for exactly on a 409 with nothing at the key |
| StoreWrites.Backend.Upload | internal/dest/s3/multipart.go:174-191 | What one upload lands is bytes the file gave in it, each part with its sum, and nothing lands or is reported done unless the file's last answer was no byte and an end past the object |
| StoreWrites.Backend.PutParts | internal/dest/s3/multipart.go:152-172 | For a file of any answers: nothing is sent before one reading of all of it, its sums and its end; what lands is bytes the file gave after that, cut into parts with the sums of that reading, and the end was seen again last of all; done means at the key with this size and a CRC32 of what was read; create-only as for one PUT; at most two uploads; a file that does not change and has another length leaves nothing; a sound one is written at a new key of a calm store; every landing has the lock that was asked for; and an object at the key is a refusal wherever the store says what it has |
| StoreWrites.Backend.SumFirst | internal/dest/s3/multipart.go:152-165 | The look at the key and the checksum pass, before anything is sent |
| StoreWrites.WriteReplacesExactlyWhenOvertaken | internal/dest/s3/s3.go:269-275 | Without conditional writes, each landing of a write replaced another's object exactly when another put at the key after this write last looked there or landed there; PutWhole and PutParts land nothing they have not looked for |
| Races.CreateOnlyLands | internal/dest/s3/s3.go:262-275 | A landing where nothing is keeps it so that no landing replaced anything, what landed is there as it landed, and no key took two |
| Races.ReplacedExactlyWhenOvertaken | internal/dest/s3/multipart.go:335-345 | The same of a log of looks, landings and other puts |
| Races.KnownMeans | internal/dest/s3/s3.go:412-426 | What the last look tells of the key is stale exactly when another put came after it |
| StoreWrites.LookingIsNotEnough | internal/dest/s3/s3.go:269-275 | And that happens: a run of PutWhole puts its object over another's |
| Refs.Locate | internal/pipeline/refs.go:211-223 | The inner loop finds a ref at its object under any name it may have, or the first object held there |
| Refs.Account | internal/pipeline/refs.go:193-234 | One declared ref judged: matched, a failure, or named apart |
| Refs.CompareRefs | internal/pipeline/refs.go:185-237 | Every declared ref is counted once: declared is matched plus named apart plus failures; and for ids without capitals what fails and what is named apart is as ComparisonPlainly says |
| Refs.ComparisonPlainly | internal/pipeline/refs.go:185-237 | For ids without capitals there is no failure exactly when HEAD, if declared, is there and equal, each branch is at its object under refs/heads/ or under refs/remotes/origin/, each tag under its own name, and every other ref is absent, empty or equal; each failure names its ref, the object it should be at and the one found; and named apart is every other ref that is absent |
| Refs.FoldsIff | internal/pipeline/refs.go:220 | Two ids fold equal exactly when their lower-case forms are equal |
| Refs.CloneComparesIff | internal/pipeline/refs.go:156-184 | A clone of a bundle compares good exactly when no declared ref lies where the clone put a branch at another object |
| Refs.CloneAlwaysCompares | internal/pipeline/refs.go:36-47 | Without refs under refs/remotes/origin/ it always does, and what it names apart is exactly what a clone creates no ref for |
| Refs.TrackedNameClashes | internal/pipeline/refs.go:244-258 | With one it need not |
| Refs.CloneHolds | internal/pipeline/copiedrefs.go:30-83 | The clone has all branches and tags advertised both before and after it, and there is a second listing exactly when one is lacking |
| Refs.BundleHolds | internal/pipeline/copiedrefs.go:85-138 | Declared and recorded refs agree in names and objects, none over on either side |
| Refs.NothingIsLost | internal/pipeline/copiedrefs.go:12-29 | Through both checks, the bundle and a clone of it, a branch or tag the source kept advertising is in the restored clone, a branch under refs/remotes/origin/, at the recorded object |
| Budget.WaitBudget.Reserve | internal/source/github/ratelimit.go:186-205 | Granted exactly when the charge fits, and a refusal changes nothing |
| Budget.ChargesNoInstantTwice | internal/source/github/ratelimit.go:174-205 | In any order of calls the budget spends no more than the time something was waiting |
| Budget.ChargesEveryInstantIff | internal/source/github/ratelimit.go:174-205 | It spends exactly that time exactly when no call begins in an idle gap before an end already charged |
| Budget.ClockForwardLeavesNoGap | internal/source/github/ratelimit.go:174-205 | A clock that goes forward leaves no such gap |
| Budget.EarlierCallFallsInGap | internal/source/github/ratelimit.go:189-205 | A call that began before the earliest one charged, and ends with it, falls in one, and is charged nothing |
| Budget.Attempt | internal/source/github/ratelimit.go:63-109 | One request, beside whatever others reserve meanwhile, and what its answer leads to: on, with one limit waited for and charged or one server error more, or an end for a reason that holds |
| Budget.BackOff | internal/source/github/ratelimit.go:96-108 | A server error is tried again unless it is the fourth or the sleep is cut short |
| Budget.WaitOut | internal/source/github/ratelimit.go:71-95 | A limit is waited for inside the deadline and the budget, at most five times; nothing else is charged, and the call goes on only when the wait was charged and not cut short |
| Budget.Call | internal/source/github/ratelimit.go:60-110 | At most nine requests, other requests reserving from the same budget between them; every answer but the last a limit or a server error; of all granted meanwhile what is not another request's is exactly, and in order, the waits for the limits this call met, each ending as EachWaitIsForALimit says and inside the deadline; and each way of ending exactly where its reason holds |
| Budget.EachWaitIsForALimit | internal/source/github/ratelimit.go:71-140 | Each limit has its wait, from its answer on and until a second past its end and less than a second more: of a dated reset on GitHub's own clock, whatever this host's is ahead by; of an undated one as it is; of a positive Retry-After from now; and where nothing is named a minute, and twice as long after each wait before |
| Budget.CountIfCounts | internal/source/github/ratelimit.go:60-110 | What is counted are the limits, or the server errors, among the answers |
| Rechunk.HexReadsBack | scale/s3limits/main.go:433-439 | A length written in hex reads back |
| Rechunk.DigitMeans | scale/s3limits/main.go:433-463 | Digits are written in lower case and read in either |
| Rechunk.HeadLineMeans | scale/s3limits/main.go:404-421 | The line a body must begin with ends at the first CRLF, inside the first 20 bytes, and reads as the whole object's size |
| Rechunk.FramedReadsBack | scale/s3limits/main.go:441-463 | The framing reads back to the data, in chunks of at most the limit, whatever follows it |
| Rechunk.CutAt | scale/s3limits/main.go:441-455 | All chunks are full but the last, which has what is left |
| Rechunk.FramingOfThree | scale/s3limits/main.go:441-463 | Three bytes framed, letter by letter |
| Rechunk.FramedLength | scale/s3limits/main.go:431-439 | The framing is as long as the data and what chunkFraming counts |
| Rechunk.ChunkFraming | scale/s3limits/main.go:433-439 | The loop counts that |
| Rechunk.WriteChunks | scale/s3limits/main.go:443-463 | The loop writes that framing and the rest as it came, and fails exactly where the chunk does not end as it says |
| Rechunk.Rechunk | scale/s3limits/main.go:395-429 | What goes on is as long as announced and decodes to what came, the first chunk cut to the limit; anything else goes on untouched |
| Rechunk.SameMeaning | scale/s3limits/main.go:404-463 | Cut anew, a body decodes to the same data and trailers |

## Left out

- Running git and git-lfs, HTTP and SDK clients, the file system, tar, JSON, regular expressions and time
  formatting: a manifest is a value, its name the second it finished, and a foreign call an answer.
- Real cryptography and hashes: an ideal cipher, a signature that is ours or not, a checksum that is any
  fold over bytes.
- Command line, configuration, logging, metrics, doctor, the WORM verdicts, forge metadata, error wording
  and the summaries: branch tables that one reading settles.
- Contexts and timeouts inside the streams, the part uploads' four slots and their deadlines: parts are
  sent one after another in the model, each up to three times, and each may fail.
- 64-bit overflow of sizes within 9000 bytes of 2^63 in planParts, and of the shifts of a wait.
- The dispatch of an S3 write to one PUT or to parts, and a reader that cannot seek, for which the SDK
  computes the checksum; nothing in gitdr passes one.
- checkManifestHead and the size caps of manifests: a document is usable or it is not.
- The wording of a failed search, and the largest manifest it passed over.
- The wording a failed repository gets when the run was stopped, which changes its entry's text only.
- The proxy's throttle, faults and upload bookkeeping.
- Schedule.NewestCopyAge: speaks of the runs that protect the repository, those that sign it as not failed and with refs; a run that fails it leaves the copy of the one before in force and widens the gap.
- Reruns.RerunWritesNothing: no other run of the day signs for a copy of the repository and nothing else is stored under its date, the first run begins and ends within the day, and the rerun's listings show what is stored; otherwise Resume.SkippedOnlyWhenRecorded says what happens, and Reruns.FoundDateIsLeft that nothing is stored.
- Histories.SkipNeverLapses: says nothing of the length of a lock another writer put on an object a run settled on, because gitdr records that lock and does not choose it.
- StoreWrites.Backend.PutWhole: create-only is stated for a store with conditional writes, or one nobody else writes to meanwhile, because the code's look before the put cannot give more; without them WriteReplacesExactlyWhenOvertaken says when an object is replaced.
- Recorded.CopySearch.Find: a manifest reads the same each time within a search, because the code keeps what its first read gave, a failure in passing included.
- StoreWrites.Backend.PutParts: the same, and a composite CRC32 is compared as the code compares it, with or without its count.
- Refs.CompareRefs: names are sorted as by an insertion sort, so refs of one name, which a bundle does not have, keep their order; ids are folded as ASCII.
- Rechunk.Rechunk: the settings, operation and header that make a body eligible are one condition.
- Envelope.Encrypt: the random draws are parameters.
