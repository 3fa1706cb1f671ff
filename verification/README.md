# A verified model of the cover art cache

The cache stores converted cover art pictures on the file system.  A key and a
priority lead to a source, a source has converted pictures in several formats,
and pictures live in a pool under the hash of their bytes.  All three are tied
together by hard links: the link count of a source's `.ref` file counts the
keys that refer to it, the link count of a pool object counts the sources that
use it.  Pictures are fetched and converted by a worker thread, and a garbage
collector removes old entries while other threads go on adding and looking up.

The model has four layers.

* **Disk.** `FileSystem` has inodes with content, access time and a *stored*
  link count, and the primitives unlink, link, create and `rm -r`.
  `CacheInvariant` says what the links mean: two entries share an inode exactly
  when they have the same owner, and the owner is there.
* **Manager.** `Operations` has one function per critical section, from the
  state before to the state after, with failing system calls as arguments.
  The class `Manager.Manager` does the same in place, one system call at a
  time, with the loops of the original, and each of its methods is proved to
  end in the state that the function gives.  The properties are proved about
  the functions: `Requests` and `Results` tell every answer and every effect of
  adding and filling from the entries on disk, `Isolation`, `Filling`,
  `Delivery`, `Keeping`, `Leftovers`, `Relinking` and `Accounting` are about
  single operations, `Runs` and `OtherKeys` about arbitrary interleavings of
  them, `Counting`, `Firing`, `Deletions` and `Shortfall` about the counters in
  such runs, `Lookup` and `Priority` about what a client can be told, and
  `Answers` about what it is told in any run.
* **Garbage collector.** `Threshold` has the arithmetic on ages, `Collection`
  one round of three passes, `Sweep` what exactly a round leaves, `Collector`
  the loops over entries, and `GarbageCollection` the whole loop with its
  incremental statistics when nobody disturbs it.  `Interference` bounds the
  loop when others do, with the count of idle rounds in `FailRounds`.
* **Threads.** `Protocol` is a transition system in which the D-Bus thread, the
  converter's worker and the collector interleave; while a script runs, any
  other command may come in between.  `Jobs` and `Converter` are the job, the
  queue and the worker in place, proved to take exactly the protocol's steps.
  `Notices` tells what becomes of jobs and keys in the end.  `Histories` shows
  that every execution is a run of the manager's steps, so that all theorems on
  runs apply.  `Background` is the background thread's list of actions.

`AddressMap` maps keys and hashes to paths, `Statistics` and `HotPath` are the
counters and the logical clock.

MD5 is an arbitrary function from bytes to hashes.  Directory listings come in
arbitrary order.  Exit codes, failing system calls, access times and the
interleaving of threads are arbitrary.

Where the code does not keep what its comments or assertions promise, the model
follows the code and says exactly when the promise holds:

* An existing key is said to stay as it is until its new source is filled
  (`src/artcache.hh:351-355`).  It is moved at once if the new source is known
  and empty and has a job waiting in the queue, unless the key's present source
  is pending itself: `Keeping.KeptIff`.  `Keeping.MovedTooEarly` is the family
  of cases in which a picture is lost, and `EarlyMove.PictureLost` an execution
  of the threads that ends so.
* The counters are asserted to be positive when they are decremented
  (`src/artcache.hh:195-202`).  Both the collector and `delete_key` count keys
  down, the one per key directory, the other per priority, while adding counts
  up per priority.
  - Collecting: a pass over a listing fails the assertion if and only if more
    listed keys are older than the threshold than are counted
    (`Firing.PassFires`).  No collection at thresholds up to a bound fails it
    if and only if the counter covers the key directories older than the bound
    (`Firing.SafeUpToIff`).  A collection that nobody disturbs never goes above
    the newest age (`Shortfall.ThresholdUpToNewest`), so that age is the bound
    for those.  `Firing.SafeIffCovered` is the same for arbitrary thresholds,
    which other threads can bring about when a lookup stamps the newest key with
    the logical clock after the threshold has been computed: then the counter
    has to cover all key directories.  It does so throughout a run if and only
    if no key is deleted, and no key directory left behind by a failing `mkdir`,
    without a surplus (`Counting.RunStreamsCovered`).
    `Shortfall.StreamsCanRunOut` is a run after which every round of collection
    with the usual thresholds fails.
  - Deleting: no sequence of deletions fails the assertion if and only if the
    counter covers the priorities (`Deletions.SafeIffSlotsCovered`).  Collecting
    a key directory without priorities and start-up, which counts key
    directories, uncover them (`Counting.StepKeepsSlots`);
    `Deletions.RestartUncovers` is a key with two priorities, a restart, and a
    second deletion that fails.
  - Sources: `Counting.StepKeepsSources` names the two events after which the
    counter falls behind, a `.ref` that cannot be created, and a visit of a
    source that was deleted after it was listed; `Shortfall.SourcesCanRunOut` is
    an example.  Deletions alone are safe if and only if the counter covers the
    sources that have keys and no outputs (`Deletions.SafeIffRemovableCovered`).
    Without the two events the assertions of sources and objects never fail,
    whatever happens to keys: `Firing.RunCountedNeverFires`.
* A source that would be left unreferenced is said to be removed with the
  pictures only it uses (`src/artcache.hh:414-425`).  The code hands file names
  that contain the format to `delete_object`, which therefore never finds a pool
  object.  The source is removed if and only if it has no output; a filled one
  loses its `.ref` and keeps its directory, its outputs and their objects:
  `Leftovers.DeleteKeyExact`, with an example in `Leftovers.FilledSourceStays`.
* A key/prio directory is said to hold a single link (`README.md:97-101`).  Moving
  a key keeps it so if and only if the unlink of the old link succeeds, whose
  result the code ignores, or no new link is made: `Relinking.OneLinkIff`.  Link
  counts are exact either way.
* A lookup of a key without any directory ends in an I/O error, not in "key
  unknown": `Manager.Manager.LookupHighest`.

## Model

| member | source | states |
|---|---|---|
| `FileSystem.RemoveKeeps` | src/artcache.cc:529-541 | After unlinking any set of entries each stored link count is again the number of entries for its inode, and an inode without entries is gone |
| `FileSystem.RemoveTwice` | src/artcache.cc:1595-1626 | Unlinking in two goes, one entry at a time, ends in the same disk as at once |
| `FileSystem.AddLinkKeeps` | src/artcache.cc:503-514 | A further hard link raises exactly one stored count, and all counts still agree with the entries |
| `FileSystem.CreateKeeps` | src/artcache.cc:484-501 | A new file starts with a link count of one and disturbs no other count |
| `CacheInvariant.RefCountsHolders` | README.md:93-105 | The link count of `.ref` is one plus the number of key/prio directories that hold a link to its source |
| `CacheInvariant.ObjectCountsOutputs` | README.md:107-117 | The link count of a pool object is one plus the number of outputs with its hash over all sources |
| `CacheInvariant.LinkedSourceExists` | src/artcache.cc:604-623 | A key's link shares its inode with the `.ref` of an existing source directory, whose count is then at least two |
| `Operations.MkSourceEntryInv` | src/artcache.cc:543-589 | Entering a source keeps the link invariant on every failure path |
| `Operations.LinkToSourceInv` | src/artcache.cc:625-666 | Replacing a key's link keeps the link invariant, including when the new link fails after the old one is gone |
| `Relinking.RelinkFine` | src/artcache.cc:644-652 | Relinking with an unlink that may fail is the above when it succeeds |
| `Relinking.RelinkKeepsCounts` | src/artcache.cc:644-666 | However often unlinking the old link fails, link counts stay exact and every link leads to an existing source |
| `Relinking.OneLinkIff` | src/artcache.cc:644-666 | The key keeps at most one link if and only if the unlink succeeds, or there is nothing to unlink, or the new link fails |
| `Operations.AddStreamKeyInv` | src/artcache.cc:668-750 | Adding a key keeps the link invariant whatever fails |
| `Requests.SourceEntered` | src/artcache.cc:543-589 | Exactly when a source is new, empty, filled or in error; one that lost its `.ref` has no outputs afterwards, and no other entry changes |
| `Requests.Linked` | src/artcache.cc:625-666 | After linking, the key's one link leads to the source, no other entry has changed, and the answer tells the link it had |
| `Requests.NotLinked` | src/artcache.cc:640-665 | When linking fails, the key has no link if it had another one, and the answer tells the cause |
| `Requests.NothingToLink` | src/artcache.cc:636-640 | Without a key/prio directory nothing is linked, and the answer is an internal error |
| `Requests.KnownSourceIsLinked` | src/artcache.cc:719-735 | A key that does not wait is linked to a known source, whether its directory is new, has no link or leads elsewhere; the answer is Inserted, Inserted, Replaced, or NotChanged if it led there |
| `Requests.HoldersFollow` | src/artcache.cc:719-735 | Then this key is one more holder of that source and of no other, and the count of `.ref` says so |
| `Requests.KnownSourceIsServed` | src/artcache.hh:339-346 | Right after that every format that the source has is found under the key |
| `Requests.WaitingKeyJoins` | src/artcache.cc:719-723 | A key whose present source has a job is handed to it, is told that it is pending, and nothing else changes |
| `Requests.OnlyWaitingKeysJoin` | src/artcache.cc:719-723 | No other key is handed to a job |
| `Requests.UnknownSourceIsAnnounced` | src/artcache.hh:346-356 | For a source that has to be filled the answer says so; an old key keeps its links, a new one is linked to the empty source |
| `Requests.FailuresAreTold` | src/artcache.cc:678-749 | What each failing system call before the link answers, and that no link and no stream count changes then |
| `Requests.LinkFailureIsTold` | src/artcache.cc:719-735 | A full disk or another error when the link is made is told apart, and leaves the key without a link |
| `Operations.MoveObjectsInv` | src/artcache.cc:831-917 | Importing any list of pictures keeps the link invariant, also when it stops half-way |
| `Operations.LinkKeysInv` | src/artcache.cc:919-983 | Linking the pending keys keeps the link invariant, also when it stops half-way |
| `Operations.UpdateSourceInv` | src/artcache.cc:985-1017 | Filling a source keeps the link invariant |
| `Results.MoveOneExact` | src/artcache.cc:840-917 | One imported file: what is added to the pool and counted, with which bytes and time, and which code each failure has |
| `Results.MoveObjectsExact` | src/artcache.cc:831-917 | The import gets through if and only if every file can be imported, tells whether the pool grew, and otherwise stops at the first file that cannot, with its cause |
| `Results.LinkOneExact` | src/artcache.cc:919-983 | One pending key, from the link it had: its result, its new link, and the code so far, in every case |
| `Results.LinkKeysExact` | src/artcache.cc:919-983 | The loop gets through if and only if every key can be linked, and then each key has the result of its former link; otherwise it stops at the first one that cannot, with its cause, and leaves the later ones alone |
| `Results.UpdateExact` | src/artcache.cc:985-1017 | An update succeeds if and only if every file can be imported and every key linked; its code tells whether the pool grew and a key was moved, and each key is told Replaced, Inserted or NotChanged accordingly |
| `Operations.DeleteSourceInv` | src/artcache.cc:1092-1115 | Deleting a source removes at most its `.ref`, never a key/prio directory, and keeps the link invariant |
| `Leftovers.DeleteSourceExact` | src/artcache.cc:1092-1115 | `.ref` goes if and only if nobody links to it, the directory if and only if there is no output either; no other entry and no object's count changes |
| `Leftovers.DeleteKeyExact` | src/artcache.cc:1019-1115 | Deleting a key removes its source if and only if it was the only key and the source was never filled; pool and outputs stay as they were |
| `Leftovers.DeleteObjectExact` | src/artcache.cc:1117-1138 | An object goes if and only if it is not shared, and is counted down if and only if it was the last one in its two-letter directory |
| `Leftovers.FilledSourceStays` | src/artcache.cc:1077-1115 | A run of three steps after which no key is left, but the source directory, its output and a pool object that counts as used are |
| `Operations.DeleteKeyInv` | src/artcache.cc:1019-1054 | Deleting a key keeps the link invariant |
| `Operations.RmKeysInv` | src/artcache.cc:1595-1626 | Removing any set of key directories with all they hold keeps the link invariant |
| `Operations.RmSourcesInv` | src/artcache.cc:1636-1669 | Removing sources nobody links to keeps the link invariant; no key is left dangling |
| `Operations.RmObjectsInv` | src/artcache.cc:1679-1709 | Removing pool objects with a count of one keeps the link invariant; no output loses its object |
| `Runs.LinkCountsConserved` | src/artcache.cc:543-1138 | After any interleaving of adding, filling, deleting, single-entry collection, stamping, counting and reset, every stored link count is one plus the number of its referrers |
| `Runs.ReferencesIntact` | src/artcache.cc:625-666 | In every reachable state, as long as unlinking works, each link of a key goes to an existing source, each output to an existing pool object, and a key/prio directory has at most one link |
| `Runs.RunAddressed` | src/artcache.cc:752-775 | In every run each pool object's bytes hash to its name |
| `Accounting.OutputsAddressed` | src/artcache.cc:876-908 | Then the bytes of each output hash to the hash in its file name |
| `Accounting.UpdateSourceAccounted` | src/artcache.cc:858-862 | Filling a source counts exactly the objects it adds to the pool, and only adds objects under their own hash |
| `Counting.RunCounted` | src/artcache.hh:179-202 | In runs without failed touches and without stale visits, the object counter is the pool size and the source counter is not below the number of sources |
| `Counting.DeleteNeedsSurplus` | src/artcache.cc:1043-1053 | Deleting a key keeps the stream counter at or above the number of key directories if and only if there is nothing to delete or a surplus |
| `Counting.AddKeepsStreams` | src/artcache.cc:472-482 | Adding a key keeps it there if and only if it leaves no key directory behind whose priority directory could not be made, or there is a surplus |
| `Counting.CollectKeepsStreams` | src/artcache.cc:1609-1623 | So does collecting a key, which then finds the counter positive |
| `Counting.StepKeepsStreams` | src/artcache.hh:179-202 | For every kind of step, exactly when the key directories stay covered |
| `Counting.RunStreamsCovered` | src/artcache.hh:179-202 | The stream counter covers the key directories throughout a run if and only if every deletion, and every key directory left behind, comes with a surplus |
| `Counting.StepKeepsSlots` | src/artcache.hh:179-202 | For every kind of step that finds its counter positive, exactly when the stream counter still covers the priorities; start-up does so if and only if there are no more priorities than key directories |
| `Firing.PassFires` | src/artcache.cc:1595-1626 | A pass over any listing without duplicates decrements the stream counter below zero if and only if more listed keys are older than the threshold than are counted |
| `Firing.SafeUpToIff` | src/artcache.cc:1595-1626 | No collection of keys at thresholds up to a bound does so if and only if the counter covers the key directories older than the bound |
| `Firing.SafeIffCovered` | src/artcache.cc:1595-1626 | No collection of keys at arbitrary thresholds does so if and only if the counter covers all key directories |
| `Shortfall.ThresholdUpToNewest` | src/artcache.cc:1456-1512 | The threshold of a round that nobody disturbs is at most the age of the newest key |
| `Shortfall.SomeRound` | src/artcache.cc:1764-1848 | Every cache has such a round, with its true extremes and the thresholds computed from them |
| `Shortfall.StreamsCanRunOut` | src/artcache.cc:1595-1626 | After two keys have been added and deleted and a third one is added later, every such round decrements the stream counter below zero, in whatever order the keys are listed |
| `Shortfall.CollectionMustFail` | src/artcache.cc:1764-1848 | There is such a round and such a listing, so the collection after that run fails |
| `Shortfall.SourcesCanRunOut` | src/artcache.cc:1636-1669 | After a key is added and its source listed, deleting the key and visiting the source decrements the source counter below zero |
| `Deletions.DeleteFiresOn` | src/artcache.hh:195-202 | What the manager's deletion of a key excludes is exactly that it decrements some counter below zero |
| `Deletions.SafeIffSlotsCovered` | src/artcache.cc:1043-1050 | No sequence of deletions decrements the stream counter below zero if and only if it covers the key/prio directories |
| `Deletions.SafeIffRemovableCovered` | src/artcache.cc:1092-1115 | No sequence of deletions decrements the source counter below zero if and only if it covers the sources with keys and without outputs |
| `Deletions.TakesSourceIff` | src/artcache.cc:1019-1041 | A deletion takes its source if and only if the key is its only one and it was never filled |
| `Deletions.SourcesAfter` | src/artcache.cc:1019-1054 | A deletion takes one off the stream counter, one off the sources exactly if it takes its source, nothing off the objects, and is noted as a change |
| `Deletions.RestartUncovers` | src/artcache.cc:395-403 | A run with one key at two priorities and a restart, after which the second deletion finds a zero counter |
| `Counting.StepKeepsSources` | src/artcache.hh:179-202 | For every kind of step that finds its counter positive, exactly when the source directories stay covered |
| `Firing.CoveredNeverFires` | src/artcache.hh:195-202 | A stream counter that covers the key directories is positive in every step that decrements it |
| `Firing.CountedNeverFires` | src/artcache.hh:195-202 | Source and object counters that cover what they count are positive in every orderly step that decrements them |
| `Firing.RunCountedNeverFires` | src/artcache.hh:195-202 | In runs without failed touches and stale visits the assertions of the source and object counters never fail, whatever happens to keys |
| `Firing.RunStreamsNeverFire` | src/artcache.hh:195-202 | In runs that keep the key directories covered the assertion of the stream counter never fails, whatever happens to sources |
| `Converter.CollectKeyDeletable` | src/artcache.cc:1609-1623 | Collecting a key leaves the counters sufficient for deletions if and only if it had a priority left or there was a surplus |
| `Counting.StaleSourceNeedsSurplus` | src/artcache.cc:1651-1666 | A visit of one source keeps the source counter large enough if and only if the source is still there or the counter had a surplus |
| `Counting.VisitsAreCounted` | src/artcache.cc:1595-1710 | A visit of the collector takes one off its own counter exactly if it removes something, and leaves the other counters and the change mark alone |
| `Counting.TouchFailureNeedsSurplus` | src/artcache.cc:563-589 | A new source whose `.ref` cannot be created keeps the counter large enough if and only if it had a surplus |
| `Isolation.AddStreamKeyIsolated` | src/artcache.cc:668-750 | Adding a key leaves the source, the outputs and the bytes of every other key as they were |
| `Isolation.DeleteKeyIsolated` | src/artcache.cc:1019-1054 | So does deleting a key, although source and pictures may be shared |
| `Isolation.UpdateSourceIsolated` | src/artcache.cc:985-1017 | So does filling a source, for each key that is not pending on it and not linked to it |
| `Isolation.RmSourcesView` | src/artcache.cc:1636-1669 | Removing unreferenced sources changes nothing that any key leads to |
| `Isolation.RmObjectsView` | src/artcache.cc:1679-1709 | Removing unreferenced pool objects changes nothing that any key leads to |
| `OtherKeys.ForeignStep` | src/artcache.cc:1587-1710 | Each single step about other keys, including each single removal of the collector, leaves what a key leads to as it was |
| `OtherKeys.ForeignRunPreservesAnswers` | src/artcache.cc:1284-1371 | After any interleaving of steps about other keys a lookup has exactly the same possible answers as before |
| `Keeping.KeptIff` | src/artcache.hh:339-356 | An existing key keeps its link while its new source is not filled if and only if that source is not taken for ready, or there is nothing to move |
| `Keeping.MovedTooEarly` | src/artcache.cc:668-749 | Whenever a key leads to a filled source and another one has put a new source into the queue, asking for that source takes the filled one away and gives the key an empty one |
| `EarlyMove.PictureLost` | src/artcache.cc:719-728 | An execution of the threads, with the key's job executed and reported, in which every lookup of the key finds its picture before the last request and none does after it |
| `Isolation.KeptUntilFilled` | src/artcache.cc:678-722 | For a new source the caller is told that it is unknown, and the key leads to the same pictures as before |
| `Isolation.AddAgainChangesNothing` | src/artcache.cc:724-749 | Adding a pair that is linked and filled, with no job pending, changes neither disk nor counters |
| `Filling.UpdateSettles` | src/artcache.cc:919-983 | A successful update has linked every pending key whose directory exists and given it a result; it never changes which keys are in the list |
| `Delivery.UpdateDelivers` | src/artcache.hh:360-377 | A source keeps what it held; a successful update of a source that is still there adds every converted file whose link succeeds, under its format and hash, and no output comes from anywhere else |
| `Delivery.UpdateNamesPlain` | src/artcache.cc:876-908 | Output file names stay of the form format, ':', digest, also when the source was collected during the job |
| `Delivery.PendingKeysAreServed` | src/artcache.cc:985-1017 | After a successful update a lookup of any key that waited for it finds a picture in the format of any converted and linked file, in every listing order |
| `Delivery.NeverUpToDate` | src/artcache.cc:890-897 | The name found for a format is never the path it is compared with, so no link counts as up to date |
| `Filling.FilledThenUnchanged` | src/artcache.cc:985-1017 | After a successful update that gave the source an output, adding any of its keys again reports no change and changes nothing |
| `Manager.Manager.constructor` | src/artcache.hh:325-335 | A new manager has an empty cache, and each lower limit is 60 percent of the upper one, rounded down |
| `Manager.Manager.Init` | src/artcache.cc:373-422 | Start-up takes over what is on disk with counters equal to the numbers of entries and the clock that stamped the pool, or ends with an empty cache; no key leads anywhere else, and a collection is scheduled if and only if a limit is exceeded |
| `Manager.Manager.ResetAllTimestamps` | src/artcache.cc:1942-1960 | All entries become equally old, and lookups are not affected |
| `Manager.Manager.HaveLinkedOutputs` | src/artcache.cc:516-527 | The directory scan answers true if and only if the source has an output |
| `Manager.Manager.DeleteFiles` | src/artcache.cc:529-541 | Unlinking one file after the other removes exactly the files of the source |
| `Manager.Manager.MakeSourceEntry` | src/artcache.cc:543-589 | The in-place steps end in the disk and the result of the specification |
| `Manager.Manager.Link` | src/artcache.cc:625-666 | The in-place steps end in the disk and the result of the specification |
| `Manager.Manager.AddStreamKeyForSource` | src/artcache.cc:668-750 | Disk, counters, result and the job that took the key are those of the specification; a collection is scheduled if and only if a new key directory exceeds the upper limits |
| `Manager.Manager.GcIfNeeded` | src/artcache.cc:1373-1381 | A collection is scheduled, and then pending, exactly when some counter is above its own upper limit |
| `Manager.Manager.MoveObjectsAndUpdateSource` | src/artcache.cc:831-917 | The loop over the files ends where the recursive specification does, including the early exits |
| `Manager.Manager.LinkPendingKeys` | src/artcache.cc:919-983 | The loop over the keys ends with the disk, the results and the code of the specification, up to the first failure |
| `Manager.Manager.UpdateSource` | src/artcache.cc:985-1017 | Disk, counters, key results and the combined code are those of the specification |
| `Manager.Manager.DeleteObject` | src/artcache.cc:1117-1138 | A shared object stays; the counter follows only if the object was the last one in its directory |
| `Manager.Manager.DeleteSource` | src/artcache.cc:1077-1115 | The scan over the outputs deletes nothing, then `.ref` goes, and the directory and its count go only if the source was empty |
| `Manager.Manager.DeleteKey` | src/artcache.cc:1019-1054 | The key/prio directory goes, its source as far as nobody else links to it, and the key directory stays |
| `Manager.AddressedPoolIsValid` | src/artcache.cc:752-775 | A pool whose bytes hash to their names has only names that are texts of digests |
| `Manager.OutputIsNoObject` | src/artcache.cc:1077-1090 | A file name with a format in it never names an object of the pool |
| `Manager.Manager.MarkHotPath` | src/artcache.cc:1258-1282 | Key, source, picture and the pool's directory get the clock's next time, nothing else gets another time, and what keys lead to does not change |
| `Manager.RestampMarks` | src/artcache.cc:1258-1282 | Stamping `.ref` and pool object stamps the same inodes under their other names, and only those |
| `Manager.FindPlainName` | src/artcache.cc:876-889 | The scan finds the part after the last slash, and fails exactly without a slash |
| `Manager.Manager.DoLookup` | src/artcache.cc:1284-1371 | The answer is one that the specification gives for some order of the source's directory; a hit marks its key, source and picture and the statistics, anything else changes nothing, and times are reset if and only if a picture was read and the clock has overflown |
| `Manager.Manager.LookupHighest` | src/artcache.cc:1238-1256 | The lookup is that of the highest stored priority; without one the key is unknown if it has a directory, else the answer is an I/O error |
| `Lookup.SourceNeverMissing` | src/artcache.cc:1296-1304 | A key's link always leads to an existing source directory, so that error branch is dead |
| `Lookup.RenderInjective` | src/artcache.cc:890-908 | Output file names without ':' in the hash determine format and hash |
| `Lookup.MatchesOutput` | src/artcache.cc:793-811 | For every requested format, when exactly a stored output's file name is taken for a match |
| `Lookup.MatchesExactly` | src/artcache.cc:793-811 | For formats without ':' other than ".re" a match is an output of just that format |
| `Lookup.FoundIsAddressed` | src/artcache.cc:1306-1357 | Returned bytes and confirmed hints belong to an output of the key's source in the requested format, whose bytes have the returned hash |
| `Lookup.HintConfirmed` | src/artcache.cc:1306-1322 | A client's hint is confirmed if and only if that very picture is stored for the source in that format, for all formats and hints |
| `Lookup.FoundIffStored` | src/artcache.cc:1324-1357 | A readable picture is found if and only if the key's source has an output in that format, in every listing order |
| `Lookup.UnlinkedAnswers` | src/artcache.cc:1289-1298 | The key is unknown if and only if it has no directory, and orphaned if and only if that has no link |
| `Lookup.MissAnswers` | src/artcache.cc:1338-1341 | For every format, a miss is answered as pending if the source is busy and as format not supported if it is not |
| `Lookup.LinkedAnswers` | src/artcache.cc:1306-1371 | For a linked key, exactly when each answer is given, by what the source stores, whether it is busy, and whether the picture can be read |
| `Answers.ApplyPlain` | src/artcache.cc:876-908 | Every step keeps output names of the form format, ':', digest, if converted files have plain names |
| `Answers.AnswersAreTrue` | src/artcache.cc:1306-1357 | After any interleaving of steps, what a lookup finds is stored for the key's source in the requested format under the hash of its bytes, whether the bytes or a hint are confirmed |
| `Answers.AnswersAreExact` | src/artcache.cc:1284-1371 | In every reachable state, exactly when a client is told each answer |
| `Answers.FormatsAreFound` | src/artcache.cc:1324-1357 | After any interleaving of steps, a readable picture is found if and only if the key's source has one in the format |
| `Histories.NextIsRun` | src/converterqueue.cc:60-231 | Each command of the threads does to the cache what at most two steps of the manager do |
| `Histories.ExecutionIsRun` | src/converterqueue.cc:60-231 | The cache after any execution is the cache after a run, so all theorems on runs apply |
| `Histories.ExecutionAnswersAreTrue` | src/artcache.cc:1306-1357 | Whatever the threads do, a lookup only returns pictures stored for the key under their own hash |
| `Lookup.RoundPreservesAnswers` | src/artcache.cc:1588-1728 | One round of collection at any thresholds leaves the set of possible answers of every surviving key unchanged |
| `Priority.FindHighest` | src/artcache.cc:1191-1216 | The early-exit parse accepts exactly the digit strings of value at most 255, of any length, and yields the larger of old maximum and value |
| `Priority.DirNameDenotes` | src/artcache.cc:431-442 | The parse inverts the three-digit directory name of every priority |
| `Priority.FindHighestPriority` | src/artcache.cc:1218-1236 | The fold over any listing yields the maximum of all valid names, zero without one |
| `Priority.HighestIsMaximum` | src/artcache.cc:1218-1256 | Over a key's listing that is the highest priority stored for the key |
| `Threshold.DeltaIsDifference` | src/artcache.cc:1405-1422 | The case analysis computes the difference in nanoseconds, and zero for a negative one |
| `Threshold.AddToTimespec` | src/artcache.cc:1424-1442 | The sum is exact and normalised for every number of microseconds |
| `Threshold.ComputeThreshold` | src/artcache.cc:1456-1512 | The exact threshold in nanoseconds, normalised and between minimum and maximum |
| `Threshold.ThresholdFitsInt64` | src/artcache.cc:1490-1498 | For ages at most 2^63 nanoseconds apart no intermediate result leaves 64 bits |
| `Threshold.CarriedOverIsAccurate` | src/artcache.cc:1712-1728 | The oldest entry that a pass kept and the old maximum are minimum and maximum of what remains |
| `Collector.CollectMinMax` | src/artcache.cc:177-216 | Collection over any listing finds the true minimum and maximum, also when started from correct older ones |
| `Collector.VisitKey` | src/artcache.cc:1595-1626 | One visit removes the key exactly if it is older than the threshold, else accounts for its age |
| `Collector.VisitSource` | src/artcache.cc:1636-1669 | One visit removes the source exactly if it has no `.ref`, or is unlinked and older than the threshold |
| `Collector.VisitObject` | src/artcache.cc:1679-1709 | One visit removes the object exactly if it is unlinked and older than the threshold; a vanished one is counted down too |
| `Collector.DecimateStreams` | src/artcache.cc:1595-1626 | The pass removes exactly the old keys in whatever order, counts them, and reports the oldest one kept |
| `Collector.DecimateSources` | src/artcache.cc:1636-1669 | The pass removes exactly the dead sources in whatever order, counts them, and reports the oldest one kept |
| `Collector.DecimateObjects` | src/artcache.cc:1679-1709 | The pass removes exactly the dead objects in whatever order, counts them, and reports the oldest one kept |
| `Collection.RoundPreservesViews` | src/artcache.cc:1828-1837 | Whatever thresholds and ages, a key that survives a round leads to the same source, outputs and bytes |
| `Collection.RoundComplete` | src/artcache.cc:1828-1837 | After a round no unreferenced source or object below its threshold is left, not even one orphaned by the same round |
| `Sweep.DeadIffUnused` | src/artcache.cc:1651-1666 | A source is removed by a visit if and only if it has no `.ref`, or no key leads to it and it is old |
| `Sweep.DeadIffHidden` | src/artcache.cc:1691-1706 | A picture is removed by a visit if and only if no source shows it and it is old |
| `Sweep.RoundSweeps` | src/artcache.cc:1828-1837 | A round leaves exactly the young keys, the sources that are young or that such a key leads to, the pictures that are young or that such a source shows, and all that belongs to them |
| `GarbageCollection.DoGc` | src/artcache.cc:1764-1867 | Run alone, the loop makes a legal run of rounds: each starts from true minima and maxima, uses the exact thresholds and carries out a full round; at most 3(N+1) rounds for N entries; at the end each counter is at most 60 percent of its upper limit or three rounds removed nothing; no round but the first is made unless some counter is above that; surviving keys lead where they did |
| `Interference.RoundPaid` | src/artcache.cc:1595-1710 | What a round counts as removed is gone at its end, with any steps of other threads between its visits that add no entries, also when they remove what was listed |
| `Interference.DisturbedRoundsBounded` | src/artcache.cc:1764-1867 | However others interfere, as long as they add no entries, there are at most 3(N+1) rounds, and giving up means that the last three counted no removal |
| `Interference.NeverAdds` | src/artcache.cc:1603-1605 | Deletions, stamps of lookups, recounting and resets are always such steps |
| `FailRounds.PaidFor` | src/artcache.cc:1850-1862 | Rounds are bounded by what they removed and by the failures used up |
| `GarbageCollection.RefreshAges` | src/artcache.cc:1787-1816 | Whether collected anew or carried over, the minima and maxima are the true ones when thresholds are computed |
| `GarbageCollection.RoundsPaidFor` | src/artcache.cc:1850-1862 | Each round is paid for by a removed entry or a used-up failure |
| `GarbageCollection.RoundsBounded` | src/artcache.cc:1779-1862 | Any run of rounds that the failure counter lets go on has at most 3(N+1) rounds |
| `GarbageCollection.GaveUp` | src/artcache.cc:1857-1862 | A used-up failure counter means that there were three rounds at least and the last three removed nothing |
| `GarbageCollection.RunPreservesViews` | src/artcache.cc:1764-1867 | A whole collection leaves what surviving keys lead to as it was |
| `GarbageCollection.OldestKeyGoes` | src/artcache.cc:1609-1623 | A round removes the oldest key if and only if the increment above the minimum is positive |
| `GarbageCollection.RoundKeepsNewest` | src/artcache.cc:1456-1512 | No round removes the newest key, source or object |
| `GarbageCollection.IdleRoundMeansSameAge` | src/artcache.cc:1490-1498 | A round removes no key only if all keys are less than two microseconds apart, or five after something was removed |
| `Statistics.UpperImpliesLower` | src/artcache.hh:125-176 | Whatever exceeds the upper limits exceeds the lower ones at every percentage, so a scheduled collection has work to do |
| `Statistics.SixtyPercent` | src/artcache.hh:125-137 | Each lower limit is 60 percent of its upper one, rounded down |
| `Statistics.WithinLimits` | src/artcache.hh:168-176 | The limits are kept if and only if none of the three counters is above its own |
| `Statistics.ChangesNoted` | src/artcache.hh:179-202 | Every change is noted but a removal by the collector |
| `Statistics.Statistics.MarkUnchanged` | src/artcache.hh:156-164 | Reports whether there was a change since the last time, and forgets it |
| `HotPath.Timestamp.Increment` | src/artcache.hh:229-251 | Until it overflows the clock strictly advances, by one microsecond, and stays normalised |
| `HotPath.Timestamp.Restart` | src/artcache.cc:347-361 | The clock continues less than a microsecond before the recorded time |
| `Jobs.Job.AddPendingKey` | src/converterjob.cc:38-60 | A key is appended as unprocessed unless the job is done |
| `Jobs.JobQueue.IsSourcePending` | src/converterqueue.cc:240-255 | True if and only if a waiting job has the source, or, unless left out, the running job or the add in progress |
| `Jobs.JobQueue.AddKeyToPendingSource` | src/converterqueue.cc:257-274 | True if and only if some job has the source; the key goes to the running job, else to the first waiting one, and to no other |
| `Jobs.JoinIsExact` | src/converterqueue.cc:257-274 | The running job for the source takes the key, else the first waiting one, else none |
| `Jobs.JoinsUnlessDone` | src/converterjob.cc:38-60 | A job takes an unprocessed key unless it is done |
| `Jobs.PendingIs` | src/converterqueue.cc:240-255 | The sources that the cache is told to be pending are those of waiting jobs and of the running one |
| `Jobs.JobStates` | src/converterjob.cc:321-350 | How a job starts out, and where preparing it leads |
| `Jobs.ExitCodes` | src/converterjob.cc:173-198 | What each exit code of a script means |
| `Protocol.NextInv` | src/converterqueue.cc:60-91 | Every command of every thread keeps link invariant, worker state, order of jobs and conservation of keys |
| `Protocol.PendingKeysConserved` | src/converterqueue.cc:60-91 | For every interleaving, keys stored in jobs are keys notified plus keys still held, with multiplicity, and jobs finish in the order in which they were queued |
| `Protocol.NoKeySlipsPast` | src/converterjob.cc:300-389 | When a job becomes successful, every key in its list whose directory exists is linked to its source and has a result, including keys that joined during the script |
| `Protocol.DoneJobIsFrozen` | src/converterjob.cc:50-53 | From then on, through any commands, the job does not change until it has been finalized |
| `Notices.AnyTime` | src/converterqueue.cc:60-91 | Requests are taken at any time but while a job is being finalized, visits of the collector always |
| `Notices.RequestIsAnswered` | src/converterqueue.cc:117-231 | After a request a key with a good answer is left as the cache left it, one with an error has no directory, and the queue changes only for a source that is unknown or a key that joins |
| `Notices.UnknownSourceIsQueued` | src/converterqueue.cc:152-163 | An unknown source gets a job with this key at the end of the queue; if its data cannot be put aside, the key is left alone or deleted, by the outcome of the working directory |
| `Notices.JobSucceedsIff` | src/converterjob.cc:300-389 | A job is done well if and only if its script ends with zero, every file can be imported and every key linked |
| `Notices.JobFails` | src/converterjob.cc:321-365 | A job whose preparation or script fails changes nothing in the cache and leaves its keys without a result |
| `Notices.KeysAreTold` | src/artcache.cc:919-983 | The results of the keys of a job that is done well, from the links they had before |
| `Notices.KeyIsNotified` | src/converterqueue.cc:276-342 | Reporting a key with a good result changes nothing; with an unknown source or an error its directory and link go, and no other key is affected |
| `Notices.JobIsFinalized` | src/converterjob.cc:391-397 | Finalizing a job deletes exactly its keys without a good result and leaves what all others lead to |
| `Notices.FailedKeysAreGone` | src/converterqueue.cc:320-342 | After a job whose preparation or script failed is finalized, none of its keys has a directory |
| `Notices.ServedKeysStay` | src/converterqueue.cc:276-305 | After a job that is done well is finalized, each of its keys that had a directory leads to its source |
| `Protocol.WorkerProceeds` | src/converterqueue.cc:64-90 | Until the queue is empty the worker's next command is always enabled and brings the queue closer to being empty |
| `Protocol.WorkerDrains` | src/converterjob.cc:391-397 | However scripts and imports turn out, the worker left alone empties the queue, and then every key ever stored has been notified exactly once |
| `Converter.Converter.AddToCache` | src/converterqueue.cc:117-231 | In place, adding by URI or by data takes exactly the protocol's step, including the clean-up after failures |
| `Converter.Converter.NotifyProcessed` | src/converterqueue.cc:276-342 | Keys with failures and unknown sources are deleted, all others are left alone |
| `Converter.Converter.TakeJob` | src/converterqueue.cc:78-81 | The first waiting job becomes the running one, as in the protocol |
| `Converter.Converter.Prepare` | src/converterjob.cc:321-350 | The part before the script takes the protocol's step |
| `Converter.Converter.Complete` | src/converterjob.cc:352-389 | The part after the script takes the protocol's step, for every exit code and every outcome of the import |
| `Converter.Converter.Finalize` | src/converterjob.cc:391-397 | Finalizing notifies each key of the job once, in order, and then drops the job: exactly that sequence of the protocol's commands |
| `Converter.DeletableAdds` | src/converterqueue.cc:129-136 | With counters that cover the directories, adding a key may fail in any way and its clean-up finds positive counters |
| `Converter.DeletableFinalizes` | src/converterjob.cc:391-397 | With such counters any job with any results can be finalized |
| `Converter.DeleteKeyDeletable` | src/artcache.hh:182-202 | Deleting a key takes no more off the counters than off the disk |
| `Background.BackgroundTask.AppendAction` | src/artcache_background.cc:98-111 | An action is queued unless it is already pending, and the caller is told which |
| `Background.BackgroundTask.TakeAction` | src/artcache_background.cc:35-49 | The worker starts the oldest pending action, if there is one |
| `Background.NeverDuplicates` | src/artcache_background.cc:98-111 | After any sequence of commands there are no duplicates among the pending actions, hence at most three |
| `Background.StartedInOrder` | src/artcache_background.cc:31-66 | Started actions followed by pending ones are the accepted ones in their order |
| `Background.RequestNeverLost` | src/artcache_background.cc:98-111 | Whether accepted or dropped as a duplicate, an action is pending until it is started after that call |
| `Background.StopsOnShutdown` | src/artcache_background.cc:51-56 | The worker stops exactly when it takes up a shutdown |
| `Background.StoppedForGood` | src/artcache_background.cc:51-56 | From then on nothing is started any more |
| `AddressMap.BinaryToHexString` | src/dbus_handlers.cc:56-69 | The loop appends two lower-case digits per byte |
| `AddressMap.HexStringToBinary` | src/dbus_handlers.cc:71-80 | The loop decodes such a text to the original bytes |
| `AddressMap.HexInjective` | src/dbus_handlers.cc:35-80 | No text encodes two different byte strings |
| `AddressMap.Path.AppendHash` | src/cachepath.cc:40-118 | The path grows by two letters and the rest, and its directory part stays the '/'-terminated prefix |
| `AddressMap.Path.AppendPart` | src/cachepath.cc:120-174 | The path grows by one component, and its directory part stays the '/'-terminated prefix |
| `AddressMap.Path.DirStr` | src/cachepath.cc:32-38 | Always the directory prefix of the path, ending in '/' |
| `AddressMap.HexIsKey` | src/dbus_handlers.cc:149-158 | The name of any key of at least two bytes can be split into a path |
| `AddressMap.LocateKeyLink` | src/artcache.cc:431-449 | The path of a key's link is root, two letters, rest, three-digit priority and link name, joined by '/' |
| `AddressMap.LocateSrcFile` | src/artcache.cc:451-470 | The path of a source's file is below `.src`, split in the same way |
| `AddressMap.LocateObject` | src/artcache.cc:832-874 | The path of a pool object is below `.obj`, split in the same way |
| `AddressMap.PathsInjective` | src/artcache.cc:431-470 | Different keys, sources, outputs and objects have different paths, within and across the three directories |

## Left out

* D-Bus registration, signals, command line, logging, daemonizing, shell script
  generation, download and conversion: plumbing.  A script is its exit code.
* MD5 itself: an arbitrary function from bytes to hashes; collisions are not excluded.
* Failing `rmdir`, `rm -r` and directory scans, and failing `unlink` except in
  `Relinking`: they succeed in the model, as the code ignores most of their
  results.  Failing `mkdir`, `open`, `link` and `rename` are modelled.
* The two-letter directories between the roots and the entries, apart from the
  one that decides whether `delete_object` counts, and with them the removal of
  the empty ones after a collection.
* Formats that contain '/' or NUL: file names are taken whole.
* The wrap-around of `size_t` counters: they are unbounded numbers.
* The overflow of 64-bit times for ages more than 2^63 nanoseconds apart, and
  for the start values of an empty category, whose threshold is arbitrary here;
  `Threshold.ThresholdFitsInt64` covers all other cases.
* Expected and found counts of entries during collection: only logged.
* The logical clock as an order of use: new key directories and imported
  objects carry the time of the kernel, so no LRU order holds and access times
  are arbitrary.
* A bound on rounds while other threads add entries: there is none.
* The number of stream keys as an exact count: it is not one, see
  `Shortfall.StreamsCanRunOut`.
* `BackgroundTask::sync`, and the high-priority shutdown that replaces the list
  of actions without its lock; shutdown of the converter's queue.
* Deadlock freedom: the manager's lock and the queue's lock are taken in both
  orders.
* The window between the job's lock and the manager's lock when a script has
  ended: both are taken in one step.
* That a pending source always ends in a signal: a key is refused by a job that
  is done although the caller is told that it was taken.
- Converter.Converter.AddToCache: excludes exactly the calls in which the original stops at the assertion of a counter; `Converter.DeletableAdds` and `Deletions` say when that cannot happen.
- Converter.Converter.Finalize: excludes exactly the jobs whose results make the original stop at such an assertion; see `Converter.DeletableFinalizes`.
- Manager.Manager.MoveObjectsAndUpdateSource: leaves out the deletion of the bare name found for a format, which acts in the working directory, outside the cache (`Delivery.NeverUpToDate`); no "one link per format" holds.
- GarbageCollection.DoGc: the collection runs alone, and needs counters not below the numbers of entries, which is what the assertions of the counters demand; `Interference.DisturbedRoundsBounded` has the bound on rounds without either, but no true minima and maxima, since others change ages.
- Lookup.MatchesExactly: leaves out formats that contain ':' and ".re"; `Lookup.MatchesOutput` says what happens for all formats.
- Manager.Manager.DoLookup: pictures are mapped into memory; the model returns their bytes or an error, as the environment decides.
