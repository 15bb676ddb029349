# Verified models of the bits-service

Dafny models of the parts of the bits-service and of its documentation site that have real state,
with proofs of what they promise. Every .dfy file is verified together with the others:

    dafny verify dfyconfig.toml

The project has four parts and two small ones.

* **Uploads** (`UploadProtocol`, `UploadWorld`, `ResourceHandler`, `UploadRuns`). One upload announces
  itself to the Cloud Controller, hashes and stores a temporary file with retries, and reports success or
  failure. `UploadProtocol` is that protocol as an automaton over events. `UploadWorld` interleaves
  any number of uploads with a blobstore and a Cloud Controller and proves that READY checksums are
  those of the stored bytes. `ResourceHandler` is the handler itself, with its retry loop, proved to
  make exactly the protocol's complete runs, and `UploadRuns` proves that the interleaved uploads are
  the handler's.
* **App stash and bundles** (`FileModes`, `PackageBundle`, `AppStash`). Archives go into a
  content-addressed stash and bundles come out of it, with retries and faults on every access.
* **Search index** (`JsStrings`, `SortedSet`, `TokenStore`, `Vector`, `Pipeline`, `TermFrequency`,
  `DocumentStore`, `IndexSpec`, `IdfCache`, `Index`, `TfIdf`). Sorted arrays, a trie of linked nodes, linked-list
  vectors and an index object, each a class proved against a specification; `IndexSpec` says what whole runs
  keep and what a search means, `IdfCache` when a change without an event leaves the cached idfs right,
  `TfIdf` what the entries of a document vector mean.
* **Callback lists and Deferred** (`CallbackLists`, `CallbackMachine`, `CallbackLedger`, `CallbackRounds`,
  `CallbackStatus`, `CallbackObject`, `Deferred`, `DeferredProgress`, `DeferredObject`). Lists whose callbacks may add,
  remove, empty, fire, lock and disable any list while it fires: a small-step machine with a stack of
  activations and a log, a ledger that says what the log of each list may be, list objects with their two loops, proved against the machine,
  and a Deferred as three lists wired together, on values and as objects.
* **Stores** (`Blobstores`, `PathDecorators`) and **Azure uploads** (`BlockIds`, `AzureBlobstore`).

## Assumptions

* The Cloud Controller takes an announcement for a guid only if it knows the guid and has never
  accepted one before, and says no with 404 or 422 (`UploadWorld.Honest`, `UploadWorld.Plain`). A call
  whose reply is lost may be taken at once, at any later moment, or never.
  `UploadWorld.ReadyRightIffRefusalsSeen` shows that no other status will do: `CCUpdater.update` looks at no
  other (`ccupdater/ccupdater.go:127-133`).
* `backoff.RetryNotify` stops on success, stops and unwraps on a permanent error, and otherwise sends
  the metric and tries again or gives up; how many retries there is time for is a parameter, and so is
  the outcome of each attempt. The library itself is not part of this model.
* SHA-1 and SHA-256 are any functions; archives are sequences of name, mode and bytes.
* A failed store into the app stash leaves the stash as it was. A failed store of an upload may leave
  anything.
* Callbacks do not throw. Index callers add only references that are not live and pass no empty tokens
  (`IndexSpec.Proper`); `IndexSpec.AddCoherentIff` says exactly when an add of a live reference is fine.

## Where the code differs from what one might expect

* The temporary file of an upload stays behind when the announcement is refused or fails, because only
  `uploadResource` removes it (`resource_handler.go:194-197`, `resource_handler.go:271`).
* In `CreateTempZipFileFrom` a buffer that cannot be opened again makes the next retry call a method of a
  nil file; the half-written bundle then stays behind, because the error result is still nil
  (`package_bundle.go:28-32`, `package_bundle.go:72-75`).
* A retry after a partial copy appends to the same zip entry (`package_bundle.go:104-118`), and a bundle
  whose archive could not be finished counts as a success, because nobody looks at the error of closing the
  zip writer (`package_bundle.go:129`).
* `PostBundles` answers a full store with a panic (`app_stash_handler.go:229-237`), unlike `PostEntries`.
* The signers of the buildpack cache are given the prefix `buildpack_cache`, the stores
  `buildpack_cache/` (`cmd/bitsgo/main.go:260-265`, and the same at lines 280, 295, 310 and 342); for WebDAV
  both are the same.
* `Vector.insert` never inserts before the head and keeps doubles, so that `dot` misses products of query
  vectors; `add` of a live reference leaves old postings behind; silent changes may leave the idf cache
  stale; callbacks added after `empty` in the middle of a firing may be skipped. The exact conditions are in `Vectors.DotIsRightIff` and `BuiltIsRightIff`,
  `IndexSpec.AddCoherentIff`, `IdfCaches.SilentAddIff`, `SilentRemoveIff` and `SilentUpdateIff`, and `CallbackLists.AddWhileFiring`.
* After a Deferred has settled, `progress` on a list that was notified before reopens it: later notifies call
  its callbacks (`DeferredProgress.NotifyIsAcceptedIff`, `ProgressReopens`).
* Term frequencies add up to the boosts even when two fields have the same name.

## Model

| member | source | states |
|---|---|---|
| UploadProtocol.AcceptedAreChains | resource_handler.go:270-304 | the protocol of one upload, given as an automaton, accepts a trace if and only if it begins with the announcement and every event may directly follow the one before |
| UploadProtocol.MetricsFollowAttempts | resource_handler.go:272-293 | at every moment after the announcement, retry metrics number as many as attempts if another attempt is due, else one fewer |
| UploadProtocol.TraceShape | resource_handler.go:194-219 | a finished upload is a refused announcement alone, or the announcement, at least one attempt, metrics = attempts - 1, and exactly one terminal call at the end, which reports success iff the last attempt stored the blob; nothing is attempted after success, no-space or an unreadable file |
| UploadProtocol.CreatedMeansAcknowledged | resource_handler.go:198-219 | 201 is answered iff the upload is synchronous, its last attempt stored the blob and the Cloud Controller acknowledged the report; 202 iff asynchronous and announced; 507 iff synchronous and the last attempt found no space |
| ResourceHandlers.ResponseByReplies | resource_handler.go:198-219 | what the client of a usable upload is told, by the Cloud Controller's replies: 400 iff the announcement got 422, 404 iff it got 404, a panic iff there was no reply or, in a synchronous call, the deciding attempt failed other than for space or the report was not acknowledged |
| UploadWorld.StepKeepsSafe | resource_handler.go:191-220 | one step of any upload or any other actor, and the late arrival of any call whose reply was lost, keeps: an accepted guid has one owner, an about-to-be-reported blob is its content, a READY guid has no owner and a blob with those checksums, and so will one whose success is still on its way |
| UploadWorld.ReadyMeansStored | resource_handler.go:191-304 | main result: in every reachable state of every interleaving of any number of uploads, with failed and half-done stores leaving anything and calls without a reply taken at once, later or never, READY(s1, s256) for a guid that nothing else touched implies that the blob exists and has exactly these checksums |
| UploadRuns.HappensIffTraced | resource_handler.go:270-304 | a complete trace is that of some upload of given bytes in some honest interleaving iff the handler, against some Cloud Controller, blobstore and clock, makes exactly it with the checksums of these bytes: the steps of the interleaved world let neither more nor less happen than the code |
| UploadRuns.EveryTraceHappens | resource_handler.go:191-304 | every trace that the protocol accepts, finished or not, is that of an upload in a run of the world |
| UploadWorld.TakenSuccessIsStored | ccupdater/ccupdater.go:97-105 | when the Cloud Controller takes the success of an upload, the guid is READY with the content's checksums and its blob is the content |
| UploadWorld.CreatedMeansReady | resource_handler.go:298-303 | at the moment a client is answered 201, if the Cloud Controller does what it acknowledges, the guid is READY with the checksums of the client's bytes and the blob is these bytes |
| UploadWorld.UnseenRefusalOverwrites | ccupdater/ccupdater.go:111-134 | a refusal with any status other than 404 and 422 passes for an acknowledgement: from every state in which another upload of the guid is about to report, three steps publish its checksums over the second upload's bytes |
| UploadWorld.UnseenRefusalBreaksReady | ccupdater/ccupdater.go:127-133 | such a state is reachable, so for every such status READY can be published with checksums that are not the blob's |
| UploadWorld.ReadyRightIffRefusalsSeen | ccupdater/ccupdater.go:111-134 | main result: whatever set of statuses the Cloud Controller refuses announcements with, READY is right in every state of every honest interleaving iff the set contains none but 404 and 422 |
| ResourceHandlers.LastExact | resource_handler.go:272-293 | the attempt that ends the retries is the first after which the policy does not retry |
| ResourceHandlers.TracedIsComplete | resource_handler.go:194-219 | whatever Cloud Controller, blobstore and clock do, what the handler does is a complete run of the protocol |
| ResourceHandlers.CompleteIsTraced | resource_handler.go:194-219 | and every complete run of the protocol is what the handler does in some surroundings |
| ResourceHandlers.ResourceHandler.TryOnce | resource_handler.go:272-290 | one attempt: it logs itself, stores the temporary file's bytes on success, may leave anything under the guid on failure, and touches no other key |
| ResourceHandlers.ResourceHandler.RetryNotify | resource_handler.go:272-293 | the retry loop, as it is: its events are all attempts up to the deciding one with a metric between any two; on success the blob is the file |
| ResourceHandlers.ResourceHandler.UploadResource | resource_handler.go:270-304 | the temporary file is removed on every path; the events are the upload's; the error is that of the last attempt, or of reporting a success |
| ResourceHandlers.ResourceHandler.Prepare | resource_handler.go:154-189 | size limits, form, completed package or copied file: 400, 413, 422 and 507 each iff its cause, else a temporary file |
| ResourceHandlers.ResourceHandler.AddOrReplace | resource_handler.go:154-220 | the events are a complete run whose report carries the checksums of the file; every status, 201, 202, 400, 404, 413, 422 and 507, is answered iff a condition on the request, the replies of the Cloud Controller and the deciding attempt; 201 implies that the blob is the uploaded file; the temporary file is left behind iff hashing failed or the announcement was not acknowledged; no other key changes |
| FileModes.MagnitudeOfOctal | app_stash_handler.go:117-117 | printing a number in octal and reading it gives the number |
| FileModes.ModeRoundTrip | package_bundle.go:133-139 | a 32-bit mode printed by the entries handler is read back as itself iff it is below 2^31 (otherwise it becomes 0744) |
| FileModes.RegularRoundTrip | package_bundle.go:133-139 | every regular file's mode is |
| FileModes.OddModesAreDefault | package_bundle.go:133-139 | a string that is no octal number, with or without a sign, or too large, gives 0744; any other unsigned one its value |
| FileModes.SignedModes | package_bundle.go:133-139 | a plus sign changes nothing; a negative number below -2^31 gives 0744 |
| FileModes.ThreeDigits | package_bundle.go:133-139 | three octal digits are three groups of permission bits |
| FileModes.LeadingZero | package_bundle.go:133-139 | zeros in front do not count |
| FileModes.SpecialsAreNotRegular | package_bundle.go:37-39 | permissions alone are a regular file's; with the bit of a directory, symbolic link, device, pipe or socket they are not |
| FileModes.RegularIff | package_bundle.go:37-39 | a mode is regular iff it has none of these bits |
| FileModes.NegativeModeWraps | package_bundle.go:133-139 | a negative octal string is accepted and becomes the two's complement |
| PackageBundles.CrashExact | package_bundle.go:71-90 | storing an entry crashes iff the buffer cannot be opened again on some attempt that the policy would still retry, all earlier attempts having failed to store |
| PackageBundles.PutExact | package_bundle.go:71-90 | it succeeds iff some attempt within the retries opens the buffer and stores the entry, or finds it outside the size bounds, and reports a full store iff some attempt is answered so; all earlier attempts having failed to store |
| PackageBundles.FetchExact | package_bundle.go:104-124 | fetching succeeds iff the blob is there and some attempt reads it smoothly before the policy gives up |
| PackageBundles.FetchedIsBlob | package_bundle.go:104-124 | a fetched entry always ends with the blob; it is the blob iff no failed attempt had copied any byte, because a retry appends |
| PackageBundles.Workspace.PutEntry | package_bundle.go:71-90 | the retry loop around the store: result by the retry rules, and the entry stored under its hash exactly on success within the size bounds |
| PackageBundles.Workspace.CopyEntry | package_bundle.go:38-94 | one regular entry: its buffer file is gone afterwards on every path |
| PackageBundles.Workspace.CopyInputs | package_bundle.go:36-96 | the loop over the archive: on success exactly the regular entries in order; the stash has gained those that went through before the first failure |
| PackageBundles.Workspace.FetchEntry | package_bundle.go:104-124 | the retry loop around the fetch, appending after partial copies |
| PackageBundles.Workspace.FetchAll | package_bundle.go:98-128 | the loop over the fingerprints, in order, up to the first that cannot be fetched |
| PackageBundles.Workspace.CreateTempZipFileFrom | package_bundle.go:18-131 | result, stash and temporary files of every call: one new file with the archive on success (or with no archive, if closing the zip writer fails, which nobody looks at), none on an error, a leaked one exactly on a crash |
| PackageBundles.SucceedsExactly | package_bundle.go:18-131 | a call succeeds iff the temporary file could be made, every regular entry can be buffered and has a first deciding attempt that stores it or need not, and every fingerprint is in the stash as the archive has left it and is read smoothly once within the retries |
| PackageBundles.FullExactly | package_bundle.go:82-84 | a call reports a full store iff some entry within the size bounds has an attempt answered so, with every earlier attempt failed and every earlier entry gone through |
| PackageBundles.FetchedExactly | package_bundle.go:98-128 | the fetched entries are, in order and byte for byte, what the fingerprints name iff no failed attempt on a non-empty blob copied bytes |
| PackageBundles.NotFoundNamesTheFirst | package_bundle.go:105-109 | a not-found error names the first fingerprint that the stash does not hold |
| PackageBundles.ReadsSucceed | package_bundle.go:104-124 | if some attempt reads smoothly before the policy gives up, a blob that is there is fetched and one that is not is reported |
| PackageBundles.MissingIsReported | package_bundle.go:105-109 | and unless the policy gives up on a blob, the first one missing is what is reported |
| PackageBundles.NoCrashWhenReopened | package_bundle.go:71-90 | if buffers can always be opened again no call crashes |
| PackageBundles.StashedExactly | package_bundle.go:77-86 | the stash gains exactly the hashes of the regular entries within [min, max], keeps all others unchanged, and stays content-addressed |
| PackageBundles.StashedWithinBounds | package_bundle.go:77-86 | with bounds min and max: a hash is gained iff some regular entry with that hash has min <= size <= max |
| PackageBundles.BundleInOrder | package_bundle.go:36-131 | a finished bundle holds first the regular files of the archive, then what the fingerprints name, each in order and with their names and modes; a fetched file ends with its blob, and is it iff no failed attempt copied any of it |
| PackageBundles.RegularConcat | package_bundle.go:36-39 | the regular entries of an archive, in order |
| PackageBundles.RegularOne | package_bundle.go:36-39 | an entry alone, iff it is regular |
| PackageBundles.NotFoundExactly | package_bundle.go:104-109 | a call reports a missing fingerprint iff the archive is copied, some fingerprint is not in the stash as it then is, an attempt for it reaches the store, and all before it are there and read smoothly once |
| AppStash.MatchingExactly | app_stash_handler.go:60-70 | a fingerprint is reported iff it was asked for, its size is within the bounds and the stash has it |
| AppStash.MatchingWithinBounds | app_stash_handler.go:61-63 | with bounds min and max: a fingerprint is reported iff it was asked for, min <= size, size <= max, and the stash has it |
| AppStash.MatchingKeepsOrder | app_stash_handler.go:60-70 | matches of a concatenation are the matches of its parts: order and repetitions are kept |
| AppStash.AnyKeyMissing | app_stash_handler.go:248-258 | true iff some fingerprint lacks its hash or name; the key named is that of the first, the hash before the name |
| AppStash.AppStashHandler.PostMatches | app_stash_handler.go:40-74 | 422 iff the body is no list or an empty one; a failing existence check panics iff it is one for a size within the bounds; otherwise exactly the matches |
| AppStash.AppStashHandler.CopyTo | app_stash_handler.go:127-161 | the entry is stored under its own hash, which is returned; no temporary file stays |
| AppStash.AppStashHandler.PostEntries | app_stash_handler.go:76-125 | the fingerprints of all regular entries, or 507 or a panic at the first that fails; everything before it is stashed, without size bounds; no temporary file stays |
| AppStash.EntriesStatuses | app_stash_handler.go:102-120 | 507 iff the first regular entry that cannot be copied finds the store full, a panic iff it fails otherwise, fingerprints iff there is none |
| AppStash.EntriesThenMatches | app_stash_handler.go:114-119 | a returned fingerprint has its file's name and hash, and asked of matches afterwards it is reported iff the file's own size is within the bounds |
| AppStash.AppStashHandler.PostBundles | app_stash_handler.go:181-246 | 400, 422, 404 for a missing fingerprint, a panic for other failures and when the finished file cannot be opened or sent, else the file; the temporary file is gone, except that a crash of the bundling leaves one |
| AppStash.BundlesStatuses | app_stash_handler.go:181-258 | 400, 422, 404 and a sent bundle, each iff a condition on the request, the stash as the archive leaves it, and the faults; an empty hash or name is 422 |
| AppStash.AppStashHandler.CompletePackage | resource_handler.go:226-253 | unreadable resources, an invalid archive and a missing fingerprint are input errors, a full store is told apart, everything else is fatal; on success one new file with the completed archive, on a crash one empty file stays, otherwise none |
| AppStash.NamedEntries | app_stash_handler.go:114-119 | the fingerprints of an archive name its regular files, in order, with names and modes, iff the stash has each file's bytes under its hash |
| AppStash.StashedBytes | app_stash_handler.go:102-120 | after entries the stash holds, under each regular entry's hash, the bytes of some entry with that hash |
| AppStash.NamedBack | app_stash_handler.go:102-120 | what entries stored is what its fingerprints name iff no two regular files of the archive collide |
| AppStash.EntriesThenBundle | app_stash_handler.go:102-246 | main result: entries followed by a bundle of the returned fingerprints, through any retries that leave no bytes behind, gives back every regular file, in order, with name, mode and bytes, iff no two of them collide |
| AppStash.StashOnlyGrows | app_stash_handler.go:40-246 | over any run of matches, entries, bundles and package uploads, with any faults, the stash loses nothing and stays content-addressed |
| AppStash.StashedIsPutAll | package_bundle.go:36-96 | what a call does to the stash is a sequence of single stores of blobs under their hashes, which blobs not depending on the stash |
| AppStash.AnyOrderOnlyGrows | app_stash_handler.go:102-172 | for any order of single stores, so for calls that overlap: at every moment nothing that was in the stash before is missing, and it is content-addressed |
| AppStash.MatchedIsFound | app_stash_handler.go:60-70 | a fingerprint once reported by matches is never the one a later bundle does not find |
| AppStash.MatchedIsFoundMeanwhile | package_bundle.go:104-124 | nor for a bundle that overlaps any other calls: whatever they store, and whenever after the match each of its attempts reads, a matched fingerprint is never the one not found, and a bundle of matched ones succeeds iff its entries go through and each blob is read smoothly once |
| AppStash.OverlapIsUnseen | package_bundle.go:98-128 | a bundle that overlaps others fetches the same bytes and ends the same way as one that has the stash to itself, if nobody changes the blobs that it asks for |
| AppStash.MatchedBundleSucceeds | package_bundle.go:98-131 | a later bundle of matched fingerprints, through any retries that leave no bytes behind, succeeds with exactly the stored blobs |
| Blobstores.Blobstore.DeleteDirectory | blobstores/inmemory/inmemory_blobstore.go:76-84 | the loop that deletes from the map it ranges over removes exactly the keys with the prefix |
| Blobstores.LastWriteWins | blobstores/inmemory/inmemory_blobstore.go:28-84 | after any sequence of operations a read, head or existence check answers what the last operation that wrote the path has put there, read off the operations alone: a copy gives what its source had at that moment, or an empty blob; a failed put writes nothing |
| Blobstores.Blobstore.DeleteBlob | blobstores/inmemory/inmemory_blobstore.go:67-74 | exactly the path disappears; an absent one is reported |
| PathDecorators.PathForInjective | blobstores/decorator/partitioning_path_blobstore_decorator.go:66-77 | no two identifiers share a partitioned path, whatever characters they contain |
| PathDecorators.PathForSegments | blobstores/decorator/partitioning_path_blobstore_decorator.go:66-77 | cut at its slashes, the path of an identifier without slashes is its first two bytes, its next two, and the identifier; of one of three bytes two, one and it; of a shorter one twice it |
| PathDecorators.DirExactIff | blobstores/decorator/partitioning_path_blobstore_decorator.go:58-64 | the directory of a prefix contains exactly the paths of the identifiers with that prefix iff the prefix is empty or has at least 4 bytes |
| PathDecorators.StepSimulates | blobstores/decorator/prefixing_path_blobstore_decorator.go:19-49 | one operation through both decorators replies as a plain map keyed by identifier does, and keeps the agreement |
| PathDecorators.DecoratedIsPlain | blobstores/decorator/partitioning_path_blobstore_decorator.go:30-64 | main result: so does every sequence of operations (with directory prefixes that are empty or at least 4 bytes long) |
| PathDecorators.ShortDirBreaks | blobstores/decorator/partitioning_path_blobstore_decorator.go:58-64 | for every directory prefix of 1 to 3 bytes there is a store for which deleting it differs from the plain map |
| PathDecorators.CacheApart | cmd/bitsgo/main.go:57-57 | no droplet path is a buildpack-cache path, and none but the empty droplet prefix is a prefix of one |
| PathDecorators.DropletsLeaveCache | cmd/bitsgo/main.go:57-57 | an operation on droplets leaves every cache blob in every store as it is iff it is not deleting all droplets, which empties the shared store |
| PathDecorators.CacheLeavesDroplets | cmd/bitsgo/main.go:250-250 | every operation on the cache leaves every droplet as it is |
| PathDecorators.SignedIsStored | blobstores/decorator/prefixing_path_blobstore_decorator.go:60-62 | a signed path is the path of the stored blob iff signer and store are given the same prefix |
| PathDecorators.CacheSignerMisses | cmd/bitsgo/main.go:260-265 | the cache's signer is given the prefix without its slash, so it never signs the path of a stored blob |
| BlockIds.PaddedInjective | blobstores/azure/azure_blobstore.go:100-100 | different block numbers have different zero-padded decimals, beyond five digits too |
| BlockIds.PaddedIsDecimal | blobstores/azure/azure_blobstore.go:100-100 | they are at least five decimal digits that stand for the number |
| BlockIds.SextetsAreBits | blobstores/azure/azure_blobstore.go:100-100 | the sextets that base64 encodes are the bits of the bytes, in order |
| BlockIds.FirstBlockIds | blobstores/azure/azure_blobstore.go:100-100 | the first two IDs, spelled out |
| BlockIds.Base64Injective | blobstores/azure/azure_blobstore.go:100-100 | base64 with padding is injective on byte strings |
| BlockIds.BlockIdsDiffer | blobstores/azure/azure_blobstore.go:100-100 | block IDs are pairwise distinct |
| BlockIds.BlockIdsAreEven | blobstores/azure/azure_blobstore.go:100-100 | the IDs of the first million blocks all have 8 characters, as the service demands of one blob |
| AzureBlobstores.Blobstore.PutBlocks | blobstores/azure/azure_blobstore.go:95-119 | the read loop: the listed blocks concatenate to the source for short, empty and data-with-EOF reads; IDs distinct, no block empty or larger than the block size; it fails iff a read errors or a sent block is refused |
| AzureBlobstores.Blobstore.Put | blobstores/azure/azure_blobstore.go:86-127 | success iff every call and read succeeds; then the blob is exactly the source; a failure after the creation leaves the blob empty |
| AzureBlobstores.SplittingDoesNotMatter | blobstores/azure/azure_blobstore.go:104-114 | however bytes are split into reads, with EOF along with the last or on its own, the content is the same |
| SortedSets.IndexOfExact | api-doc/source/javascripts/lib/_lunr.js:645-663 | on a sorted array the recursive search finds the position of a present element and nothing for an absent one; it terminates on any array |
| JsStrings.LtIsLexicographic | api-doc/source/javascripts/lib/_lunr.js:645-663 | strings are compared as JavaScript does: less is a proper prefix, or what has the smaller code unit where the two first differ |
| SortedSets.LocationForExact | api-doc/source/javascripts/lib/_lunr.js:680-694 | for an absent element of a non-empty sorted array the answer is the one position at which inserting keeps the array sorted |
| SortedSets.InsertedIsSorted | api-doc/source/javascripts/lib/_lunr.js:582-589 | the splice of add keeps the elements strictly increasing and adds exactly the element, on an empty array too |
| SortedSets.SortedSet.Add | api-doc/source/javascripts/lib/_lunr.js:582-589 | elements stay strictly increasing and become the union with the arguments |
| SortedSets.SortedSet.Intersect | api-doc/source/javascripts/lib/_lunr.js:704-731 | the merge loop gives a fresh set with exactly the common elements |
| SortedSets.SortedSet.Union | api-doc/source/javascripts/lib/_lunr.js:756-770 | a fresh set with exactly the elements of both |
| SortedSets.IncreasingUnique | api-doc/source/javascripts/lib/_lunr.js:645-663 | a set of strings has one sorted array, so equal members mean equal elements |
| TokenStores.AddPathRefines | api-doc/source/javascripts/lib/_lunr.js:1735-1749 | adding along the nodes of the trie adds the document under the token in the map from tokens to documents, and nothing else |
| TokenStores.RemovePathRefines | api-doc/source/javascripts/lib/_lunr.js:1832-1842 | removing takes exactly the reference out under the token |
| TokenStores.RunsRefine | api-doc/source/javascripts/lib/_lunr.js:1735-1842 | over every run of adds and removes the trie is the map, and its nodes are exactly the prefixes of tokens ever added |
| TokenStores.TokenStore.Add | api-doc/source/javascripts/lib/_lunr.js:1735-1749 | the recursive method on linked nodes: it makes missing nodes, places the document, counts it |
| TokenStores.TokenStore.Has | api-doc/source/javascripts/lib/_lunr.js:1761-1773 | true iff the token is non-empty and a node was ever made for it, that is, by RunsRefine, iff it is a prefix of some token ever added |
| TokenStores.TokenStore.Get | api-doc/source/javascripts/lib/_lunr.js:1787-1814 | the documents of a token, empty if there is none |
| TokenStores.TokenStore.Remove | api-doc/source/javascripts/lib/_lunr.js:1832-1842 | the document is taken out of its node; no node disappears and the counter stays |
| TokenStores.TokenStore.Expand | api-doc/source/javascripts/lib/_lunr.js:1852-1867 | the recursion appends, without duplicates, exactly the tokens with the given non-empty prefix that still have a document |
| Vectors.InsertKeepsAscending | api-doc/source/javascripts/lib/_lunr.js:459-481 | an insertion keeps the list ascending iff the list is empty or the index is not below the head's: insert never looks before the head |
| Vectors.InsertKeepsIncreasing | api-doc/source/javascripts/lib/_lunr.js:459-481 | it keeps a strictly increasing list strictly increasing iff the list is empty, or the index is not below the head's and not there yet |
| Vectors.BuiltIncreasing | api-doc/source/javascripts/lib/_lunr.js:1099-1099 | insertions one after the other build a strictly increasing vector iff the first index is the least and none is inserted twice |
| Vectors.Vector.Insert | api-doc/source/javascripts/lib/_lunr.js:459-481 | the linked list gets the entry at the specified place |
| Vectors.MergeIsDot | api-doc/source/javascripts/lib/_lunr.js:511-529 | on strictly increasing lists the merge, which moves both sides on after a match, adds up every product of values at equal indexes |
| Vectors.MergeNeverExceeds | api-doc/source/javascripts/lib/_lunr.js:511-529 | on any lists with weights that are not negative it adds up at most that |
| Vectors.DotIsRightIff | api-doc/source/javascripts/lib/_lunr.js:511-529 | main result: for positive values, against a strictly increasing list as document vectors are, the loop gives the dot product iff every index that the two share exceeds all indexes before it in the first list; otherwise it gives less |
| Vectors.MergeFindsFirsts | api-doc/source/javascripts/lib/_lunr.js:511-529 | for any values: at each index of a strictly increasing vector the loop finds the value of the first entry of the other that is not below it, if that is at the index, and nothing else |
| Vectors.AlwaysRightIff | api-doc/source/javascripts/lib/_lunr.js:511-529 | so a vector of positive values has the right dot product with every strictly increasing one iff it is strictly increasing itself |
| Vectors.BuiltIsRightIff | api-doc/source/javascripts/lib/_lunr.js:1083-1099 | and the query vector, which insertions in the order of expansion build, is right with every document vector iff the first index inserted was the least and none was inserted twice |
| Vectors.TwiceMisses | api-doc/source/javascripts/lib/_lunr.js:1099-1099 | instance: an index inserted twice, as by a query that names a word twice, counts once |
| Vectors.LateHeadMisses | api-doc/source/javascripts/lib/_lunr.js:459-481 | instance: an index inserted below the head's is missed, so for a value other than 0 the sum is too small by its square |
| Vectors.Vector.Dot | api-doc/source/javascripts/lib/_lunr.js:511-529 | the loop computes the merge of any two lists, and the sparse dot product of strictly increasing ones |
| Pipelines.Run | api-doc/source/javascripts/lib/_lunr.js:375-392 | the nested loops run each token, with its place and the whole list, through the stages until one drops it |
| Pipelines.StagesCompose | api-doc/source/javascripts/lib/_lunr.js:382-388 | running two stacks joined is running the first and giving what it lets through to the second |
| Pipelines.SurvivorsComeOut | api-doc/source/javascripts/lib/_lunr.js:375-392 | every token that all stages let through comes out, once and at its place among them, as what they make of it, and nothing else |
| Pipelines.FilterKeepsTheOthers | api-doc/source/javascripts/lib/_lunr.js:1533-1535 | the stop-word filter alone keeps exactly the tokens outside its list, unchanged and in order |
| Pipelines.NoStopWordPasses | api-doc/source/javascripts/lib/_lunr.js:1533-1535 | if the stop-word filter is the last stage no stop word comes out; the list contains the empty string, so no empty token reaches the index |
| TermFrequencies.ComputeTf | api-doc/source/javascripts/lib/_lunr.js:939-947 | the fold over the fields |
| TermFrequencies.TfIsConserved | api-doc/source/javascripts/lib/_lunr.js:939-947 | the frequencies of a document's distinct tokens add up to the boosts of its fields that have tokens, whether field names are distinct or not |
| TermFrequencies.TfPositive | api-doc/source/javascripts/lib/_lunr.js:939-947 | with positive boosts a frequency is positive iff the token occurs in some field |
| TermFrequencies.TfInRatio | api-doc/source/javascripts/lib/_lunr.js:939-947 | within one field, the frequencies of two tokens are in the ratio of the numbers of their occurrences |
| TermFrequencies.TfOfFields | api-doc/source/javascripts/lib/_lunr.js:939-947 | frequencies over several fields add up |
| IndexSpec.PostedTfIsConserved | api-doc/source/javascripts/lib/_lunr.js:937-950 | so do the frequencies that add posts |
| IndexSpec.AddCoherentIff | api-doc/source/javascripts/lib/_lunr.js:921-953 | add keeps the inverted index and the forward store in agreement iff the reference is not live or all its old tokens are among the new ones |
| IndexSpec.AddSound | api-doc/source/javascripts/lib/_lunr.js:921-953 | adding a reference that is not live keeps all invariants |
| IndexSpec.RemoveSound | api-doc/source/javascripts/lib/_lunr.js:973-988 | removing keeps them |
| IndexSpec.UpdateSound | api-doc/source/javascripts/lib/_lunr.js:1010-1017 | updating keeps them, live or not |
| IndexSpec.RunsStaySound | api-doc/source/javascripts/lib/_lunr.js:921-1017 | main result: over every run, d is posted under t iff d is stored and t is one of its tokens; every stored token is in the corpus; no token has more documents than the counter |
| IndexSpec.LogArgument | api-doc/source/javascripts/lib/_lunr.js:1034-1036 | the logarithm's argument is at least 1 |
| IndexSpec.CacheIsTransparent | api-doc/source/javascripts/lib/_lunr.js:1027-1039 | each cached idf equals the recomputed one in every state in which no silent change came after the last event |
| IndexSpec.EmittingRunsAreClean | api-doc/source/javascripts/lib/_lunr.js:802-806 | runs that emit every event are always in such a state |
| IndexSpec.SilentAddLeavesStaleIdf | api-doc/source/javascripts/lib/_lunr.js:952-952 | one silent add after a cached idf makes the cache wrong: a run that shows it |
| IdfCaches.CacheSurvivesIff | api-doc/source/javascripts/lib/_lunr.js:1027-1039 | any change that leaves the cache alone leaves it right iff the counters of every cached term keep their ratio (for a logarithm that is injective from 1 on and 0 at 1) |
| IdfCaches.SilentAddIff | api-doc/source/javascripts/lib/_lunr.js:921-953 | a silent add leaves the cache right iff that holds of the counters before it: with n tokens added, (length, d) and (length + n, d or d + 1) have one ratio for every cached term |
| IdfCaches.SilentRemoveIff | api-doc/source/javascripts/lib/_lunr.js:973-988 | a silent remove leaves it right iff no token of the document is cached or only one posting was ever made |
| IdfCaches.SilentUpdateIff | api-doc/source/javascripts/lib/_lunr.js:1010-1017 | a silent update leaves it right iff the counters of every cached term, after losing the old document and gaining the new one, keep their ratio |
| IndexSpec.MatchesMeaning | api-doc/source/javascripts/lib/_lunr.js:1082-1105 | expanding and joining finds exactly the live documents one of whose tokens has the query token as a prefix |
| IndexSpec.SearchMeaning | api-doc/source/javascripts/lib/_lunr.js:1065-1117 | main result: a document is found iff every query token is a non-empty prefix of one of its live tokens; nothing is found for an empty query |
| IndexSpec.LastOpDecides | api-doc/source/javascripts/lib/_lunr.js:921-1017 | after any run, a document is live iff the last operation on its reference added or updated it, with the tokens that this gave it |
| IndexSpec.SearchAfterRun | api-doc/source/javascripts/lib/_lunr.js:1065-1117 | main result: what a search finds after any proper run, said by the operations alone: the documents whose last operation gave them, for every query token, a token with that non-empty prefix |
| DocumentStores.Store.Set | api-doc/source/javascripts/lib/_lunr.js:1245-1248 | the tokens replace what was stored; the length counts the references |
| DocumentStores.Store.Remove | api-doc/source/javascripts/lib/_lunr.js:1278-1283 | exactly the reference disappears |
| Indexes.Index.Add | api-doc/source/javascripts/lib/_lunr.js:921-953 | the imperative add, with its stores, brings the object to the specified state |
| Indexes.Index.Remove | api-doc/source/javascripts/lib/_lunr.js:973-988 | so does remove; an absent reference changes nothing and emits nothing |
| Indexes.Index.Update | api-doc/source/javascripts/lib/_lunr.js:1010-1017 | so does update, one event for both halves |
| Indexes.Index.Idf | api-doc/source/javascripts/lib/_lunr.js:1027-1039 | the cached value, or the computed one, which is then cached |
| Indexes.Index.Coordinates | api-doc/source/javascripts/lib/_lunr.js:1142-1148 | the loop of documentVector reads no missing posting, and its places in the corpus strictly increase |
| Indexes.Index.DocumentVector | api-doc/source/javascripts/lib/_lunr.js:1137-1151 | a sorted vector with one entry per token of the live document: place in the corpus and tf-idf |
| TfIdfs.EntryIsTfIdf | api-doc/source/javascripts/lib/_lunr.js:1142-1148 | an entry is the posted frequency times 1 + log of all postings ever made by the documents of the token, whatever idfs were cached |
| TfIdfs.EntryIsTfIff | api-doc/source/javascripts/lib/_lunr.js:1034-1036 | it is the frequency itself iff that is 0 or the token has as many documents as postings were ever made; else, for a positive frequency, more |
| TfIdfs.RarerWeighsMore | api-doc/source/javascripts/lib/_lunr.js:1142-1148 | of two tokens of one document with equal positive frequencies the one in fewer documents has the larger entry, and only then |
| TfIdfs.WeightsInRatio | api-doc/source/javascripts/lib/_lunr.js:1142-1148 | the entries of one token in two documents are in the ratio of its frequencies there |
| Indexes.Index.ExpandDocs | api-doc/source/javascripts/lib/_lunr.js:1082-1106 | the fold by union over the expanded keys |
| Indexes.IntersectAll | api-doc/source/javascripts/lib/_lunr.js:1110-1112 | the fold by intersection, which starts from the first set |
| Indexes.Index.Search | api-doc/source/javascripts/lib/_lunr.js:1065-1121 | the early exit and both folds return, each once, exactly the documents of SearchMeaning; vectors of all of them can be built; only the idf cache changes |
| CallbackLists.RemoveFiltersToDo | api-doc/source/javascripts/lib/_jquery.js:3248-3261 | removing a callback at any moment of a firing filters it out of the list and of what is still to be called |
| CallbackLists.AddWhileFiring | api-doc/source/javascripts/lib/_jquery.js:3217-3245 | callbacks added during a firing join the round; all of them iff the firing index is inside the list (after empty it is not, and the first ones are skipped) |
| CallbackLedgers.AddedAfterEmptyIsSkipped | api-doc/source/javascripts/lib/_jquery.js:3271-3277 | a run in which a callback that empties the list and adds another ends with the other in the list and never called |
| CallbackLists.AddToIdleMemory | api-doc/source/javascripts/lib/_jquery.js:3217-3245 | adding to an idle list with memory aims the next round at the new callbacks only, with the remembered arguments |
| CallbackLists.UniqueStaysUnique | api-doc/source/javascripts/lib/_jquery.js:3226-3238 | with unique the list never gets duplicates and has every callback passed |
| CallbackMachine.StepKeepsInv | api-doc/source/javascripts/lib/_jquery.js:3169-3328 | one command, return or loop turn keeps: activations are of distinct lists, all but the innermost wait in a callback, a list fires iff it has one |
| CallbackMachine.InvHolds | api-doc/source/javascripts/lib/_jquery.js:3169-3328 | in every run of any number of lists whose callbacks issue any commands on any of them |
| CallbackLedgers.StepKeepsLedger | api-doc/source/javascripts/lib/_jquery.js:3169-3328 | every command, return or loop turn on any list keeps each list in step with its ledger: the fires it has accepted, and one round with what is still due in it |
| CallbackLedgers.ListsAreLedgers | api-doc/source/javascripts/lib/_jquery.js:3169-3328 | main result: in every run of any number of lists, whatever callbacks do, the history of each list is one a ledger allows: a round starts only when none is under way and with the oldest accepted fire, calls exactly what is due, in order, each with the round's arguments, takes in what is added and loses what is removed, and ends only when nothing is due |
| CallbackLedgers.CallsCarryTheirRound | api-doc/source/javascripts/lib/_jquery.js:3177-3190 | every callback is called with the arguments of the round that was started last, although disable and lock clear the memory in the middle of a round |
| CallbackLedgers.FiresAreFirstInFirstOut | api-doc/source/javascripts/lib/_jquery.js:3306-3316 | so in every run the rounds of a list are its accepted fires in order, and every call carries the arguments of its round |
| CallbackLedgers.ServedInTurn | api-doc/source/javascripts/lib/_jquery.js:3177-3190 | on a list that is only fired, however nested, the calls are the whole list for the first accepted fire, then for the second, and so on: a nested fire never cuts a round short |
| CallbackLedgers.StartsInOrder | api-doc/source/javascripts/lib/_jquery.js:3177-3197 | the fires whose rounds have started, followed by those that wait, are the accepted ones in order |
| CallbackLedgers.IdleListsHaveServedAll | api-doc/source/javascripts/lib/_jquery.js:3177-3197 | when a list is idle and was never disabled or locked, every fire it accepted has had its round; if it was only fired, each has called every callback, in turn |
| CallbackStatus.FireIsAcceptedIff | api-doc/source/javascripts/lib/_jquery.js:3306-3316 | main result: at any moment of any run a fire, nested or not, is accepted with its arguments iff the history of the list does not say that it is locked: by an earlier fire if it fires only once, otherwise by a disable or lock after which nothing has made it fire; else it does nothing |
| CallbackStatus.LockRefusesFires | api-doc/source/javascripts/lib/_jquery.js:3279-3304 | after a lock or disable at any moment, idle or in the middle of a round, and whatever follows, no fire of the list is accepted as long as no add makes it fire again |
| CallbackStatus.IdleListsRemember | api-doc/source/javascripts/lib/_jquery.js:3176-3197 | what an idle list remembers is, iff it was made with memory, the arguments of its last round, unless a callback stopped it or they were dropped since |
| CallbackStatus.AddRecalls | api-doc/source/javascripts/lib/_jquery.js:3217-3245 | on an idle list with memory, at any moment of any run, an add calls each callback that it appends, once and in order, with the remembered arguments |
| CallbackStatus.AddIsIgnoredIff | api-doc/source/javascripts/lib/_jquery.js:3203-3219 | an idle list takes no more callbacks iff it is locked and remembers nothing |
| CallbackStatus.FiredIff | api-doc/source/javascripts/lib/_jquery.js:3176-3177 | fired tells whether any fire was ever accepted |
| CallbackStatus.NextAfterReturn | api-doc/source/javascripts/lib/_jquery.js:3179-3189 | after a callback has returned the next one due is called, or the round ends; a false result ends it at once iff the list was made with stopOnFalse |
| CallbackStatus.EditsTakeEffect | api-doc/source/javascripts/lib/_jquery.js:3248-3301 | remove, empty, disable and lock change the list, what its round has still to call, its queue and its memory as they should, and no other list |
| CallbackRounds.AddReplaysOnlyNewCallbacks | api-doc/source/javascripts/lib/_jquery.js:3217-3245 | until the list starts another round, an add on an idle list with memory leads only to calls of callbacks passed to it or added meanwhile, all with the remembered arguments, whatever callbacks do |
| CallbackRounds.FireCallsTheList | api-doc/source/javascripts/lib/_jquery.js:3169-3211 | a fire on an idle list that nothing disturbs calls every callback once, in order, with its arguments, and then the round ends |
| CallbackRounds.AddCallsTheNewOnes | api-doc/source/javascripts/lib/_jquery.js:3217-3245 | an undisturbed add on an idle list with memory calls exactly the appended callbacks, once each, in order, with the remembered arguments, and then the round ends |
| CallbackObject.CallbackObject.Push | api-doc/source/javascripts/lib/_jquery.js:3226-3238 | the pushes of add |
| CallbackObject.CallbackObject.Append | api-doc/source/javascripts/lib/_jquery.js:3217-3245 | add up to its call of fire: aimed at the new callbacks exactly if the list is idle and remembers arguments |
| CallbackObject.CallbackObject.Remove | api-doc/source/javascripts/lib/_jquery.js:3248-3261 | the search-and-splice loop |
| CallbackObject.Page.Call | api-doc/source/javascripts/lib/_jquery.js:3179-3182 | the index advances and the callback is called: user code takes control, a function installed by a Deferred does its work on another list or the state; one move of the machine |
| CallbackObject.Page.Round | api-doc/source/javascripts/lib/_jquery.js:3179-3189 | the inner loop of one of several list objects, whose callbacks may edit or fire any of them, is a run of the machine; it ends at the end of the list, or is left inside a callback |
| CallbackObject.Page.Fire | api-doc/source/javascripts/lib/_jquery.js:3169-3211 | both loops and the clean-up, with fires of other lists nested in callbacks, are a run of the machine at whose end this activation is gone; if the behaviour of callbacks is cut off, so is the run, inside a callback |
| CallbackObject.Page.Invoke | api-doc/source/javascripts/lib/_jquery.js:3182-3183 | the body of a callback: any edits, additions and fires on any of the lists, each completed before the next |
| CallbackObject.Page.FireWith | api-doc/source/javascripts/lib/_jquery.js:3306-3316 | a fire, from outside or from inside a callback |
| CallbackObject.Page.Add | api-doc/source/javascripts/lib/_jquery.js:3217-3245 | an add, from outside or from inside a callback |
| CallbackObject.Page.ServesInOrder | api-doc/source/javascripts/lib/_jquery.js:3169-3316 | so the objects serve their fires in the order of acceptance, call with the arguments of the round, and have served every fire when idle |
| Deferred.NewIsReady | api-doc/source/javascripts/lib/_jquery.js:3336-3415 | the wiring of the three lists establishes the invariant |
| Deferred.StepKeepsDeferred | api-doc/source/javascripts/lib/_jquery.js:3336-3427 | every step of user code, inside or outside callbacks, keeps it |
| Deferred.SettlesOnce | api-doc/source/javascripts/lib/_jquery.js:3336-3427 | main result: in every run only one side is ever called, a prefix of its registrations in order, all with the accepted arguments; the state is that side's or not yet written; when nothing fires every registration has been called exactly once |
| Deferred.FirstDecisionWins | api-doc/source/javascripts/lib/_jquery.js:3410-3414 | a step settles iff nothing was settled and it resolves or rejects; later ones change nothing at all |
| Deferred.RegistrationsAreKept | api-doc/source/javascripts/lib/_jquery.js:3395-3396 | every callback passed to the side that can still win is recorded, early or late |
| DeferredProgress.ProgressRecalls | api-doc/source/javascripts/lib/_jquery.js:3342-3342 | as long as a Deferred has not settled, and nothing fires, progress calls each of its callbacks, once and in order, with the arguments of the last notify that was accepted |
| DeferredProgress.NotifyIsAcceptedIff | api-doc/source/javascripts/lib/_jquery.js:3395-3414 | before it settles every notify is accepted; once it has, and user code is in control, a notify does nothing, iff no progress has made the list fire since it was locked |
| DeferredProgress.ProgressReopens | api-doc/source/javascripts/lib/_jquery.js:3169-3174 | and a progress does so if the list remembers any arguments, because firing resets the lock of a list that may fire more than once |
| DeferredObjects.DeferredObject.constructor | api-doc/source/javascripts/lib/_jquery.js:3336-3415 | three list objects, the first two beginning with the functions that set the state, disable the other and lock the third |
| DeferredObjects.DeferredObject.Fire | api-doc/source/javascripts/lib/_jquery.js:3410-3414 | resolve, reject and notify on the objects, at top level or inside a callback: what SettlesOnce says holds afterwards, the first resolve or reject has decided, and no later one undoes it |
| DeferredObjects.DeferredObject.Register | api-doc/source/javascripts/lib/_jquery.js:3395-3396 | done, fail and progress on the objects: what SettlesOnce says holds afterwards, and on a side that can still win the callbacks are recorded for good |
| DeferredObjects.DeferredObject.Resolve | api-doc/source/javascripts/lib/_jquery.js:3332-3345 | at top level: if nothing had been decided the state is resolved when it returns, else it stays |
| DeferredObjects.DeferredObject.Reject | api-doc/source/javascripts/lib/_jquery.js:3332-3345 | and rejected |
| DeferredObjects.DeferredObject.StateIsTold | api-doc/source/javascripts/lib/_jquery.js:3398-3408 | when nothing fires the state is resolved iff a resolve was accepted first, rejected iff a reject was, pending iff neither |

## Left out

- ResourceHandlers.ResourceHandler.AddOrReplace: what completing a package comes to is given here and proved of AppStash.AppStashHandler.CompletePackage; temporary files that a failed completion leaves are counted there
- UploadWorld.ReadyMeansStored: speaks of guids that no delete, copy or digest upload touches, since those handlers never talk to the Cloud Controller
- PackageBundles.Workspace.CreateTempZipFileFrom: the archive is written to the file in one piece when the zip writer is closed; what a file holds whose zip writer could not be closed is not said; metrics are not counted
- AppStash.StashOnlyGrows: speaks of calls that follow one another; calls that overlap are AppStash.AnyOrderOnlyGrows, for their stores, and AppStash.MatchedIsFoundMeanwhile, for the reads of a bundle
- AppStash.AnyOrderOnlyGrows: speaks of stores, each of which reaches the stash in one piece
- PackageBundles.Workspace.FetchEntry: has the stash to itself; what its attempts see while others store is AppStash.FetchOver, on values
- AzureBlobstores.Blobstore.Put: the service keeps the uncommitted blocks of one upload apart from those of others and replaces a block that is sent again under the same ID
- Indexes.Index.Search: scores, the query vector, similarity, magnitude and the order of the results, which need Math.sqrt, Math.log and a sort by score
- Indexes.Index.DocumentVector: the loop that reads postings and the loop that inserts entries are two loops here, one in the code
- DocumentStores.Store.Set: stored token sets are kept by value; the code keeps the object, which nothing changes afterwards
- Deferred: `then`, `always`, `promise` and `when`
- CallbackObject.Page.Fire: what callbacks do is given as a sequence of behaviours in the order of the calls, and two of the lists are never the same object
- Callbacks that throw, and arrays of callbacks nested in the arguments of add
- EventEmitter beyond the listeners the index installs, and Index.off on them
- References and field names that are properties of every JavaScript object, such as `constructor`
- Loading and saving indexes, the tokenizer, the trimmer and the stemmer: tokens are given
- AddOrReplaceWithDigestInHeader, CopySourceGuid, Get, Delete and DeleteDir of the resource handler, and body size limits in the app stash handlers
- HTTP routing, JSON and multipart parsing, logging, metrics transport, configuration, signing of URLs beyond its path
- S3, GCP, OpenStack, Alibaba, WebDAV and local file stores, and the rest of the Azure store
