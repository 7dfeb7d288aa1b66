# Verification of the object store

A model in Dafny 4.11 of the hard parts of an S3-compatible object store, with proofs. Verify everything with
`dafny verify dfyconfig.toml`.

## What is modelled

**Blobs and metadata.** `Tables` holds the metadata tables and the database transactions on them; `Storage` and `Cipher`
hold the blob store and its seekable AES-256-CTR encryption. On top of these there are three views of the same system.

- `BlobProtocol` is a state machine in which every request and every garbage collection sweep is a small program of atomic
  steps - a blob write, a transaction or query, a blob delete - interleaved at will and free to crash between steps. The
  main results: no interleaving loses a committed blob, and the margin between a sweep's cutoff and the longest
  write-to-commit delay is not only sufficient but necessary (`SafeIffMargin`). `BlobSolo` says what each of these programs does
  when it runs alone.
- `Objects.ObjectsService` runs the requests one after the other, as a class over tables and blobs. `ObjectStore` says what
  its state stands for: a stack of versions per key and the bytes last uploaded per part. Each method is proved to be one
  operation on these (`VersionStacks` under the modes of `Modes`, `Multipart`, `FolderMove`) and one guarded change of the
  tables (`Changes`). Its invariant also says that the stacks are sound and that, with no request in flight, there is not
  one blob that no row claims.
- `Service` drives it with any list of requests. Every run is a run on version stacks, so: what clients read is what a plain
  map from key to bytes holds, in every versioning mode, and non-null versions are only removed by a delete naming them.
  The tables stay sound, and bucket and owner usage stay within quota (`Usage`) although completing an upload checks none.
  `Gc` is the sweep on its own.

**Listing.** `Listing` is the batch loop with its cursor, excluded folder and tokens; following the tokens delivers exactly
the one-pass collapse of the sorted keys. `LiveListing` connects it with the keys a client can read, `Text` is byte-ordered
collation and SQL `LIKE`.

**Chunked bodies.** `ChunkHeader`, `ChunkedStream` and `ChunkFraming` are the push-driven decoder, a one-shot parser it is
compared with under every fragmentation, and the framing it accepts and inverts. `ChunkStrict` says for which bodies the
fragmentation matters, `ChunkSigning` what the signatures in a body cover.

**Requests and signatures.** `UriCodec`, `Request`, `QueryOrder`, `Signature` and `Presigned`: percent-encoding over UTF-8,
ranges and paths, canonical requests, presigned URLs and their verification. `SignatureCover` says what a signature covers.

**Decisions.** `Policies` with `Wildcard` and `Cidr`, and `RateLimit` with `RateLimitDelay`. `Common`, `Bits` and `Numerals`
are shared vocabulary.

### Assumptions

- AES, HMAC, SHA-256, MD5, key wrapping and the multipart etag are uninterpreted functions; unwrapping undoes wrapping.
- What a signature covers is proved for texts on which hash and authentication code do not collide; the premise names those
  texts, since a digest of bounded length cannot be injective.
- Transactions are atomic. `createdAt` is the order of the rows, so it strictly increases across commits. Storage paths,
  guids and drawn ids are never drawn twice.
- Text is a sequence of code points; `COLLATE "C"` compares them in order. Policy text is a sequence of UTF-16 code units.
- Times, clock readings, `Date` formatting and parsing, lower-casing of non-ASCII text and `Number` of text that is not all
  digits are parameters. Sizes are unbounded integers; the source's are exact up to 2^53.
- In `BlobProtocol`, `maxDelay` bounds the time between two writes to a blob in flight and from the last one to its commit;
  `readDelay` bounds the time from the start of a sweep's reference read to its cutoff.

### Where the code and its promises differ

These things are only true under a condition, and each condition is proved exact.

- A sweep is safe if and only if `maxDelay + readDelay < blobMinAge` (`SafeIffMargin`).
- A folder move within a bucket that passes the guards replaces its prefix, whatever is stored, if and only if neither
  slash-terminated prefix starts with the other. The guards only reject targets below the source; `docs/` to `docs`, or
  `a/b/` to `a/`, pass them and lose keys (`MoveReplacesIffApart`, `MoveLoses`).
- A chunked body decodes alike under every fragmentation if and only if refusing each header of 1024 bytes or more outright
  would not change output and verdict (`IndependentIffStrict`). For an accepted body this means that no chunk has such a
  header (`IndependentIffShortHeaders`); a body that is refused as malformed there in any case does not depend on it.
- At most `max` requests charged to a window pass, in every run, if and only if no request is counted later than its window
  was chosen, or `max` is 0: a late request meets an expired counter and starts a fresh one (`WindowBoundIffPrompt`). At most
  twice `max` pass in any interval as long as a window under the same condition, save that a `max` of 1 also bears a delay of
  one millisecond (`IntervalBoundIffPrompt`).
- Two writes of new versions that were both checked before either was committed keep the bucket within quota if and only if
  they fit together (`CheckedApart`).

Elsewhere the code differs from what is said of it.

- A suffix range of an empty object resolves to the bounds 0 and -1 instead of an error (`RangeInBounds`, `EmptySuffix`).
- The policy service documents that an unknown operator never matches; with the `IfExists` suffix it does match a missing key
  (`UnknownOperator`).
- Deleting a fresh delete marker restores the key always in a versioned bucket, and in a suspended one exactly when the key
  had no `null` version (`UndoDelete`).

## Model

| member | source | states |
|---|---|---|
| BlobProtocol.StepInv | libs/domains/src/objects/objects.service.ts:201-237 | every atomic step of put, copy, delete, uploadPart, complete, abort and a sweep - the check that an upload is in progress being a step of its own - and every crash keeps: claimed blobs exist, no two rows share one, and each path held for deletion is unclaimed and cannot be claimed again once its row is dropped |
| BlobProtocol.BlobsSafe | libs/domains/src/gc/gc.service.ts:117-143 | the invariant holds after every interleaved run, given the margin |
| BlobProtocol.RunsAreSafe | libs/domains/src/objects/objects.service.ts:1062-1066 | from rest, no run loses a committed blob, and everything a request is about to delete is doomed: claimed by no row now or later |
| BlobProtocol.OrphanDoomed | libs/domains/src/gc/gc.service.ts:117-143 | what a sweep chooses - unclaimed when the references were read and old enough - is claimed by nothing and never will be |
| BlobProtocol.CommitPartKnows | libs/domains/src/objects/objects.service.ts:524-544 | the previous part blob read before the upsert is doomed after it, whoever else uploaded meanwhile |
| BlobProtocol.StoredUpload | libs/domains/src/objects/objects.service.ts:576-580 | the part blobs read before completing or aborting belong to that upload only |
| BlobProtocol.MarginNeeded | libs/domains/src/gc/gc.service.ts:117-121 | without the margin there is a run that loses a committed blob |
| BlobProtocol.SafeIffMargin | libs/domains/src/gc/gc.service.ts:117-143 | safe in every run if and only if the longest delay before a commit plus the reference read stays below the minimum age |
| BlobSolo.PutAlone | libs/domains/src/objects/objects.service.ts:201-237 | a put running alone makes exactly its change of the tables and ends with exactly the claimed blobs on disk |
| BlobSolo.MarkerAlone | libs/domains/src/objects/objects.service.ts:322-338 | the same for a delete marker |
| BlobSolo.PurgeAlone | libs/domains/src/objects/objects.service.ts:317-320 | for a purge |
| BlobSolo.DropAlone | libs/domains/src/objects/objects.service.ts:793-826 | for the deletion of a version |
| BlobSolo.PartAlone | libs/domains/src/objects/objects.service.ts:496-547 | for a part |
| BlobSolo.CompleteAlone | libs/domains/src/objects/objects.service.ts:567-618 | for the completion of an upload, whose three transactions alone amount to one change |
| BlobSolo.AbortAlone | libs/domains/src/objects/objects.service.ts:620-635 | for its abort |
| BlobSolo.SweepAlone | libs/domains/src/gc/gc.service.ts:117-143 | a sweep alone changes no table and deletes exactly the unclaimed blobs that are old enough |
| Tables.CommitHistory | libs/domains/src/objects/objects.service.ts:748-790 | a commit appends to its own key's history, dropping at most its `null` version, and leaves all other histories alone |
| Tables.NewRowSays | libs/domains/src/objects/objects.service.ts:762-784 | the row a commit adds belongs to the slot's object and holds the id, size, etag, path and encryption the writer gave |
| Tables.CommitConsistent | libs/domains/src/objects/objects.service.ts:748-790 | a commit keeps: every object has a version, the `latest` field names its newest one, version ids are unique per key |
| Tables.DropConsistent | libs/domains/src/objects/objects.service.ts:793-826 | deleting a version keeps the same, the key disappearing with its last version |
| Tables.DropHistory | libs/domains/src/objects/objects.service.ts:802-822 | every history loses exactly the deleted row |
| Tables.PurgeConsistent | libs/domains/src/objects/objects.service.ts:829-840 | purging an object keeps the same |
| Tables.PurgeHistory | libs/domains/src/objects/objects.service.ts:829-840 | it empties that object's history and no other |
| Tables.CommitClaims | libs/domains/src/objects/objects.service.ts:762-789 | after a commit the claimed blobs are the old ones and the new one, minus exactly the paths it reports for deletion |
| Tables.PurgeClaims | libs/domains/src/objects/objects.service.ts:829-840 | a purge releases exactly the paths it reports |
| Tables.UpsertPartClaims | libs/domains/src/objects/objects.service.ts:524-542 | replacing a part releases exactly its previous blob |
| Tables.DeletePartsClaims | libs/domains/src/objects/objects.service.ts:614-615 | dropping an upload's parts releases exactly their blobs |
| VersionStacks.StepLive | libs/domains/src/objects/objects.service.ts:301-339 | put is map update and delete is map removal, in all three modes |
| VersionStacks.RunRefinesMap | libs/domains/src/objects/objects.service.ts:201-339 | every run of puts, deletes and mode changes shows a client what the same run on a plain map shows |
| VersionStacks.RemoveLive | libs/domains/src/objects/objects.service.ts:793-826 | deleting a version below the top is invisible; deleting the top shows the one beneath |
| VersionStacks.RunSound | libs/domains/src/objects/objects.service.ts:748-790 | over every run: no empty stack, unique version ids, and only `null` ids where versioning was never on |
| VersionStacks.StepKeeps | libs/domains/src/objects/objects.service.ts:301-339 | one request removes or changes a non-null version if and only if it is a delete naming it |
| VersionStacks.OnlyNamedDeletesRemove | apps/s3/src/s3/s3.bucket.controller.ts:69-76 | over any run a non-null version stays, byte for byte, until a delete names it, because no bucket returns to disabled |
| VersionStacks.HistoryGrows | libs/domains/src/objects/objects.service.ts:999-1003 | the non-null history of a key only grows at its end until a delete names one of its versions |
| VersionStacks.UndoDelete | libs/domains/src/objects/objects.service.ts:322-338 | deleting a fresh delete marker restores everything if and only if the bucket is versioned or the key had no `null` version |
| ObjectStore.CommitPushes | libs/domains/src/objects/objects.service.ts:748-790 | the commit transaction is a push onto the key's version stack |
| ObjectStore.DropRemoves | libs/domains/src/objects/objects.service.ts:793-826 | deleteVersion's transaction removes that id from the stack |
| ObjectStore.PurgeRemoves | libs/domains/src/objects/objects.service.ts:829-840 | purgeObject's transaction removes the stack |
| ObjectStore.CommitSettles | libs/domains/src/objects/objects.service.ts:217-234 | write, commit, delete replaced: every row stays readable, no unclaimed blob is left, and only the pushed stack changed |
| ObjectStore.StorePartSettles | libs/domains/src/objects/objects.service.ts:524-544 | the same discipline for a part: its bytes are replaced, nothing else, and no blob leaks |
| ObjectStore.RetireSettles | libs/domains/src/objects/objects.service.ts:609-635 | retiring an upload forgets exactly its parts and leaves no blob of theirs |
| Changes.RunKeepsTablesSound | libs/domains/src/objects/objects.service.ts:748-840 | every sequential run of guarded changes keeps the tables sound, blobs unshared and part numbers unique |
| Changes.ChangeWithinQuota | libs/domains/src/usage/usage.service.ts:113-129 | each guarded change keeps every bucket and every owner within quota |
| Changes.RunKeepsQuota | libs/domains/src/usage/usage.service.ts:113-129 | every sequential run that starts within quota stays within it |
| Changes.CheckedApart | libs/domains/src/usage/usage.service.ts:113-129 | two writes checked against the same usage stay within the bucket's quota if and only if they fit together |
| Usage.VersionWeighs | libs/domains/src/usage/usage.service.ts:27-31 | a version with a blob weighs its size in its own bucket only, a marker nothing; so usage is the sum over the rows |
| Usage.PartWeighs | libs/domains/src/usage/usage.service.ts:39-46 | a part weighs its size in the bucket of its upload while that is in progress |
| Usage.QuotaKept | libs/domains/src/usage/usage.service.ts:113-129 | growth of one bucket that passed the check keeps all buckets and all owners within quota |
| Usage.UserGrows | libs/domains/src/usage/usage.service.ts:58-66 | a user's total grows with the growing bucket only if the user owns it, and then at most by as much |
| Usage.ReduceTotal | libs/domains/src/usage/usage.service.ts:64-65 | folding usages with `add` yields the sum of the buckets' bytes |
| Usage.AssertQuotaExact | libs/domains/src/usage/usage.service.ts:113-129 | a write is refused exactly when its bytes would push the bucket past its quota, or else its owner's buckets together past the owner's, each with its own error |
| Objects.UsageCountsLive | libs/domains/src/usage/usage.service.ts:24-55 | the objects a bucket's usage counts are exactly those a client sees in it |
| Usage.RetireReleases | libs/domains/src/usage/usage.service.ts:40-47 | retiring an upload lowers its bucket's multipart bytes by exactly its stored parts, and no other bucket's |
| Usage.SelectionWeighs | libs/domains/src/objects/objects.service.ts:576-594 | a strictly ascending selection of stored parts weighs at most all of them |
| Usage.CompleteGrows | libs/domains/src/objects/objects.service.ts:567-618 | completing an upload raises no bucket's usage |
| Multipart.MatchRequestedParts | libs/domains/src/objects/objects.service.ts:886-904 | accepts exactly the lists that select stored parts, strictly ascending, etags equal but for quotes, all but the last at least 5 MiB; otherwise reports the first entry's fault; more or fewer quotes change no answer |
| Multipart.QuotedEtag | libs/domains/src/objects/objects.service.ts:897 | an etag in quotes stands for the plain one and no other |
| Multipart.QuotesIrrelevant | libs/domains/src/objects/objects.service.ts:886-904 | neither what a list selects nor its first fault depends on quotes |
| Multipart.SelectionFaultless | libs/domains/src/objects/objects.service.ts:893-901 | a list that selects stored parts has no fault at any entry |
| Multipart.PartsConcatenate | libs/domains/src/storage/storage.service.ts:139-174 | readable parts, encrypted or not, concatenate to their contents and weigh what their rows say |
| Multipart.AssembledContents | libs/domains/src/objects/objects.service.ts:576-585 | the selected rows hold what was last uploaded under the requested numbers |
| Objects.ObjectsService.Put | libs/domains/src/objects/objects.service.ts:201-237 | refused in the order of the checks - key, announced size, quotas, real size, broken stream, digest, quotas again - leaving no trace, or the payload becomes the key's top version and the tables make one allowed commit; taken in exactly if complete, of the announced digest, below the ceiling and within the quotas |
| Objects.ObjectsService.Receive | libs/domains/src/objects/objects.service.ts:202-217 | a payload is taken in with its announced and real size, completeness, digest and quota checked; a refused one leaves no blob |
| Objects.RefusalExact | libs/domains/src/objects/objects.service.ts:202-217 | a payload is taken in exactly if it is complete, has the announced digest, and both sizes fit the ceiling and the quotas; else the error is true of it |
| Objects.ValidKeyExact | libs/domains/src/objects/objects.service.ts:862-868 | a key is valid exactly if its UTF-8 has 1 to 1024 bytes and no character is a control character |
| Objects.ObjectsService.Copy | libs/domains/src/objects/objects.service.ts:240-263 | the source version's bytes become the target key's top version, unless the source has no bytes, the key is invalid or a quota refuses them, which leaves no trace |
| Objects.ObjectsService.GetVersion | libs/domains/src/objects/objects.service.ts:266-286 | the named version or the top of the stack; not found exactly when there is none |
| Objects.ObjectsService.ReadPayload | libs/domains/src/objects/objects.service.ts:291-297 | every committed version can be read, whole or by range, with exactly its bytes |
| Objects.ObjectsService.Delete | libs/domains/src/objects/objects.service.ts:301-339 | purge, marker or named removal as the stacks demand, and the answer names the marker written or the version removed; deleting nothing changes nothing; fails exactly on an unknown id of a present key |
| Objects.ObjectsService.DeleteVersion | libs/domains/src/objects/objects.service.ts:793-826 | removes exactly the named version and its blob and says whether it was a delete marker |
| Objects.ObjectsService.CommitRow | libs/domains/src/objects/objects.service.ts:748-790 | the statements of the transaction amount to the commit function and the replaced paths |
| Objects.ObjectsService.PurgeKey | libs/domains/src/objects/objects.service.ts:317-320 | the key's stack and all its blobs go |
| Objects.ObjectsService.MarkDeleted | libs/domains/src/objects/objects.service.ts:322-338 | a delete marker goes on top, with the id the mode demands |
| Objects.ObjectsService.KeysUnder | libs/domains/src/objects/objects.service.ts:843-851 | exactly the stored keys with the prefix, in byte order |
| Objects.ObjectsService.LatestRows | libs/domains/src/objects/objects.service.ts:923-943 | the rows behind a listing are exactly the visible keys, in byte order |
| Objects.ObjectsService.CopyKeys | libs/domains/src/objects/objects.service.ts:429-468 | what a copy or move of a key or folder makes of the view; between prefixes apart every `source/rest` is found as `target/rest`, with one slash whether or not the target is written with it, and nothing else changes; it fails on its guards, with no key to copy, or at the first key that is not there or refused, with the keys before that copied and none removed; quotas hold |
| Objects.ObjectsService.CopyEach | libs/domains/src/objects/objects.service.ts:448-461 | the copying loop, key by key, delete-marked keys passed over; it stops exactly at the first key that cannot be copied, with that key's error |
| Objects.ObjectsService.CopyKey | libs/domains/src/objects/objects.service.ts:448-461 | one round fails if and only if the key is not stored, or readable but refused by the destination key's rules or a quota; else the view is updated |
| Objects.ObjectsService.CreateMultipartUpload | libs/domains/src/objects/objects.service.ts:470-493 | a new upload in progress without parts; nothing visible changes |
| Objects.ObjectsService.UploadPart | libs/domains/src/objects/objects.service.ts:496-547 | refused without a trace, or the part number's bytes are replaced and nothing else; taken in exactly for an upload in progress, a number of 1 to 10000 and an acceptable payload |
| Objects.ObjectsService.CompleteMultipartUpload | libs/domains/src/objects/objects.service.ts:567-618 | accepted exactly when the list selects stored parts, however their etags are quoted; the key's top is then the last uploads under the listed numbers in order; no part is left; its etag is made of the parts' etags in that order |
| Objects.ObjectsService.AbortMultipartUpload | libs/domains/src/objects/objects.service.ts:620-635 | the upload's parts and blobs go, nothing visible changes; fails exactly when it is not in progress |
| Objects.ObjectsService.DeleteBlobs | libs/domains/src/objects/objects.service.ts:1062-1066 | exactly the listed blobs go |
| Objects.ObjectsService.SetVersioning | apps/api/src/buckets/buckets.controller.v1.ts:97-103 | refuses `disabled`; otherwise changes that bucket's mode and nothing else in any table |
| Objects.RequestIsStep | libs/domains/src/objects/objects.service.ts:201-339 | every request of the service is a sound step of the version-stack runs under the modes of all buckets, its drawn id fresh |
| Service.Serve | apps/s3/src/s3/s3.object.controller.ts:33-250 | every run of requests is a run of the operations they ask for, fresh ids included, on the stacks; without named deletes the view is the plain map's; versions outlive all but deletes naming them; quotas hold; no key is nameless |
| Service.Handle | apps/s3/src/s3/s3.object.controller.ts:33-250 | one request is the operation it asks for or is refused without one; a read answers the newest version's bytes |
| Service.ReadsShowMap | apps/s3/src/s3/s3.object.controller.ts:112-150 | over every run without deletes by version id, each read answers what a plain map holds on which the same operations were performed |
| Service.VersionsOutlive | apps/s3/src/s3/s3.object.controller.ts:180-206 | a non-null version survives every list of requests in which none deletes it by name |
| FolderMove.ApartReplaces | libs/domains/src/objects/objects.service.ts:429-468 | between prefixes apart, copying or moving a folder replaces the prefix: same bytes, no source key left on a move, nothing else touched |
| FolderMove.TargetPrefixExact | libs/domains/src/objects/objects.service.ts:447 | a folder goes under the target with exactly one slash at its end, a lone key to the target itself |
| FolderMove.Reappears | libs/domains/src/objects/objects.service.ts:449-464 | every key under the source is found under the target by the same rest of its name, with its bytes, and on a move no longer under the source |
| FolderMove.MoveReplacesIffApart | libs/domains/src/objects/objects.service.ts:440-446 | for every source folder and target the guards let pass within a bucket, the move replaces the prefix for everything that may be stored if and only if neither prefix starts with the other |
| FolderMove.MoveLoses | libs/domains/src/objects/objects.service.ts:442-446 | for overlapping prefixes that pass the guards, a stored view, listed in byte order, that the move does not preserve |
| FolderMove.LoneKey | libs/domains/src/objects/objects.service.ts:444-449 | copying a lone key sets the target, or changes nothing if it reads as absent; a move also removes the source |
| Gc.GcService.ReferencedStoragePaths | libs/domains/src/gc/gc.service.ts:151-172 | exactly the paths that versions and parts claim |
| Gc.GcService.CollectOrphanedBlobs | libs/domains/src/gc/gc.service.ts:117-143 | exactly the listed, unclaimed, old blobs go, save those whose deletion fails; counters count them; every row stays readable; with nothing too young or stuck, no unclaimed blob is left |
| Storage.StorageService.Write | libs/domains/src/storage/storage.service.ts:52-91 | fails exactly above the ceiling or when the stream breaks off, leaving no blob; otherwise size, digest and blob are those of the payload, which reads back, for any chunking |
| Storage.StorageService.Read | libs/domains/src/storage/storage.service.ts:93-121 | exactly the plaintext, or the range of it, for any chunking and alignment; an in-bounds range is as long as announced |
| Storage.StorageService.Concat | libs/domains/src/storage/storage.service.ts:139-174 | one blob under one keystream holding the parts in order; a missing or unreadable part leaves none |
| Storage.LoadStore | libs/domains/src/storage/storage.cipher.ts:58-76 | what is stored under a fresh key reads back |
| Storage.RangeBytes | libs/domains/src/storage/storage.cipher.ts:79-87 | decrypting from an aligned position and dropping the surplus is slicing the full decryption |
| Cipher.AdvanceIv | libs/domains/src/storage/storage.cipher.ts:90-101 | the carry loop with its early exit is addition to the counter, for every block count |
| Cipher.CounterValue | libs/domains/src/storage/storage.cipher.ts:90-101 | the counter is the big-endian IV plus the blocks, modulo 2^128 |
| Cipher.CounterAdds | libs/domains/src/storage/storage.cipher.ts:90-101 | advancing by a and then by b is advancing by a + b |
| Cipher.CtrSeek | libs/domains/src/storage/storage.cipher.ts:79-87 | starting with an advanced counter is being that many blocks further in the keystream |
| Cipher.CtrExact | libs/domains/src/storage/storage.cipher.ts:69-76 | every byte is combined with the cipher of the block numbered IV plus position / 16, modulo 2^128 |
| Cipher.CtrTwice | libs/domains/src/storage/storage.cipher.ts:69-76 | decryption undoes encryption at every position |
| Cipher.DecryptStages | libs/domains/src/storage/storage.cipher.ts:79-87 | the stages decrypt from the aligned offset and skip exactly the rest |
| Cipher.SkipStage.Transform | libs/domains/src/storage/storage.cipher.ts:105-126 | drops the first bytes of a stream, however it is cut |
| Listing.List | libs/domains/src/objects/objects.service.ts:38-98 | the batch loop returns exactly the page of the one-pass result: its keys, its folders, each once, truncation and token |
| Listing.FollowDeliversAll | libs/domains/src/objects/objects.service.ts:38-98 | following the tokens ends and delivers the one-pass result, nothing lost, repeated or reordered, for any prefix, delimiter, start and page sizes |
| Listing.ResumeExact | libs/domains/src/objects/objects.service.ts:42-43 | resuming after any entry leaves exactly the entries behind it |
| Listing.CollapseAscending | libs/domains/src/objects/objects.service.ts:59-85 | keys and folders come out in strictly ascending order, so each once |
| Listing.CollapseExact | libs/domains/src/objects/objects.service.ts:947-952 | an entry is listed if and only if some key turns into it |
| Listing.CommonPrefixExact | libs/domains/src/objects/objects.service.ts:945-952 | a key has no folder if and only if the delimiter occurs nowhere behind the prefix; else its folder is the prefix, what stands before the first delimiter behind it, and that delimiter |
| Listing.CollapseShows | libs/domains/src/objects/objects.service.ts:59-85 | a key is listed as itself if and only if no delimiter follows the prefix in it; a folder is listed if and only if some key is in it |
| Listing.DecodeTokenExact | libs/domains/src/objects/objects.service.ts:991-997 | a token is read exactly if it is one character, a colon and the value, `p` marking a folder |
| Listing.FolderSwallows | libs/domains/src/objects/objects.service.ts:947-952 | every key below a folder's name collapses into that folder |
| Listing.TokenRoundTrip | libs/domains/src/objects/objects.service.ts:987-997 | a token decodes to the cursor it was made from |
| Listing.ResolveLimit | libs/domains/src/objects/objects.service.ts:954-957 | 1 to 1000 entries as asked, 1000 if more, nothing or less than one is asked |
| LiveListing.ListShowsLive | libs/domains/src/objects/objects.service.ts:38-98 | all pages together, in strictly ascending order: a key as itself exactly if it is readable, asked for and has no delimiter behind the prefix; a folder exactly if such a readable key is in it |
| Text.LikePrefixExact | libs/domains/src/objects/objects.service.ts:973-983 | `key LIKE escape(prefix)%` holds exactly when the key starts with the prefix |
| Text.LessExact | libs/domains/src/objects/objects.service.ts:959-971 | one key precedes another if and only if it is a proper prefix of it or has the smaller character at their first difference |
| Text.InOrder | libs/domains/src/objects/objects.service.ts:961-963 | the keys of a table in strictly ascending byte order, each once |
| ChunkedStream.S3ChunkedStream.Transform | libs/domains/src/s3/s3.chunked.stream.ts:45-53 | one call runs the machine to rest; at most 1024 bytes are retained |
| ChunkedStream.S3ChunkedStream.Flush | libs/domains/src/s3/s3.chunked.stream.ts:56-70 | the verdict at the end of the body |
| ChunkedStream.S3ChunkedStream.Consume | libs/domains/src/s3/s3.chunked.stream.ts:73-87 | the endless loop terminates at rest or with the error of the first failing step |
| ChunkedStream.S3ChunkedStream.VerifyChunk | libs/domains/src/s3/s3.chunked.stream.ts:143-154 | a chunk passes exactly if its signature chains from the previous one, and then becomes the previous one |
| ChunkedStream.RunRests | libs/domains/src/s3/s3.chunked.stream.ts:73-141 | the machine comes to rest with at most 1024 bytes pending |
| ChunkedStream.FragmentationIndependent | libs/domains/src/s3/s3.chunked.stream.ts:45-141 | for headers of at most 1023 bytes every cutting of a body gives the output and verdict of the one-shot parser |
| ChunkedStream.DecodeStream | libs/domains/src/s3/s3.chunked.stream.ts:45-70 | the same for the decoder object fed piece by piece |
| ChunkFraming.AcceptedIffFraming | libs/domains/src/s3/s3.chunked.stream.ts:89-154 | a body is accepted with an output if and only if it is a list of chunks with that payload |
| ChunkFraming.SignaturesChain | libs/domains/src/s3/s3.signature.service.ts:173-188 | in an accepted signed body each signature is computed from the previous one, the first from the seed |
| ChunkSigning.ChunkLines | libs/domains/src/s3/s3.signature.service.ts:173-188 | the text a chunk's signature is computed from has six lines: algorithm, date, scope, previous signature, hash of the empty text, hash of the chunk |
| ChunkSigning.SignatureCovers | libs/domains/src/s3/s3.chunked.stream.ts:143-154 | unless hash or authentication code collide on these texts, a signature verifies for one previous signature and one data only |
| ChunkSigning.SignaturesCover | libs/domains/src/s3/s3.chunked.stream.ts:89-154 | two accepted signed bodies with the same chunk signatures carry the same data chunk by chunk, from the same seed |
| ChunkSigning.AcceptedCover | libs/domains/src/s3/s3.chunked.stream.ts:45-154 | so the decoder delivers the same payload for both |
| ChunkFraming.RoundTrip | libs/domains/src/s3/s3.chunked.stream.ts:89-141 | framing any non-empty chunks, signed or not, and decoding gives the payload back |
| ChunkFraming.StreamRoundTrip | libs/domains/src/s3/s3.chunked.stream.ts:45-141 | also through the streaming decoder, however the framed body is cut |
| ChunkFraming.ProperPrefix | libs/domains/src/s3/s3.chunked.stream.ts:56-70 | a proper prefix of a framed body is accepted if and only if exactly the final CRLF is missing |
| ChunkStrict.StreamBetween | libs/domains/src/s3/s3.chunked.stream.ts:73-96 | however a body is cut, the decoder gives the one-shot parser's output and verdict, or gives up at a header with an output between the strict parser's and the one-shot parser's |
| ChunkStrict.IndependentIffStrict | libs/domains/src/s3/s3.chunked.stream.ts:89-96 | for every body, accepted or not: all cuttings agree with the one-shot parser if and only if the parser that refuses headers of 1024 bytes or more does |
| ChunkStrict.IndependentIffShortHeaders | libs/domains/src/s3/s3.chunked.stream.ts:89-96 | for an accepted body: if and only if none of its chunks' headers has 1024 bytes or more |
| ChunkHeader.ReadHeaderLine | libs/domains/src/s3/s3.chunked.stream.ts:98-114 | a header line as clients write it is read back |
| ChunkHeader.OddSizesRefused | libs/domains/src/s3/s3.chunked.stream.ts:99-101 | a size with a minus sign is refused, and so is a header that does not begin with a number |
| ChunkHeader.HeaderLineText | libs/domains/src/s3/s3.chunked.stream.ts:98-105 | the written header line is the hexadecimal size and, in a signed body, the `chunk-signature` extension |
| UriCodec.DecodeEncode | libs/domains/src/s3/s3.signature.service.ts:301-304 | decoding undoes encoding, for every text |
| UriCodec.DecodeExact | libs/domains/src/s3/s3.request.service.ts:350-356 | a text is decoded to another if and only if it spells it: each character itself, or its whole UTF-8 escaped |
| UriCodec.EscapeCapitals | libs/domains/src/s3/s3.signature.service.ts:301-304 | escapes are written in capitals |
| UriCodec.UriEncodeStep | libs/domains/src/s3/s3.signature.service.ts:301-304 | the two passes leave unreserved characters and escape everything else as UTF-8 |
| UriCodec.UriEncodeEncoded | libs/domains/src/s3/s3.signature.service.ts:301-304 | encoded text holds only unreserved characters and escapes |
| UriCodec.Utf8RoundTrip | libs/domains/src/s3/s3.request.service.ts:350-356 | every character is read back from its UTF-8, which is well-formed |
| QueryOrder.CompareTotal | libs/domains/src/s3/s3.signature.service.ts:293-298 | the comparison is a total order that separates different parameters |
| QueryOrder.CompareFirst | libs/domains/src/s3/s3.signature.service.ts:293-298 | the names decide, and between equal names the values |
| QueryOrder.SortPermuted | libs/domains/src/s3/s3.signature.service.ts:206-216 | sorting forgets the order the parameters came in |
| Signature.QueryOrderIrrelevant | libs/domains/src/s3/s3.signature.service.ts:206-216 | the canonical query is unchanged by permuting the parameters |
| Signature.Presign | libs/domains/src/s3/s3.signature.service.ts:115-169 | the loop that fills the parameter record and the URL it ends in, whose meaning `Presigned` and `SignatureCover` prove |
| Signature.ParseParamsExact | libs/domains/src/s3/s3.signature.service.ts:47-62 | another algorithm means no signature; what is read has every field, from the first parameter of its name; a refusal names a missing field |
| Signature.ParsePairExact | libs/domains/src/s3/s3.signature.service.ts:206-212 | the first `=` of a pair ends its name; a pair without one has the empty value |
| Presigned.PresignedRebuilds | libs/domains/src/s3/s3.signature.service.ts:191-230 | the server rebuilds exactly the canonical request that was signed |
| Presigned.PresignedReads | libs/domains/src/s3/s3.signature.service.ts:47-62 | the server reads from the URL exactly what was put into it |
| Presigned.PresignedAccepted | libs/domains/src/s3/s3.signature.service.ts:89-111 | on its host the URL is accepted exactly until its expiry instant for lifetimes of 1 to 604800 seconds, any other lifetime is refused, and path decoding yields the same bucket and key |
| Presigned.FilledHas | libs/domains/src/s3/s3.signature.service.ts:138-147 | every extra parameter with a value becomes part of the signed query, the last value of a name counting |
| SignatureCover.AcceptedCovers | libs/domains/src/s3/s3.signature.service.ts:89-111 | two requests accepted under one query signature and secret have the same verb, decoded path, parameters and signed headers, unless hash or authentication code collide on their texts |
| SignatureCover.AcceptedSigns | libs/domains/src/s3/s3.signature.service.ts:89-111 | a signature is accepted exactly when its date can be read, its lifetime is 1 to 604800 seconds or no number and not over, and it signs the canonical request |
| SignatureCover.CanonicalCovers | libs/domains/src/s3/s3.signature.service.ts:191-230 | the canonical request determines verb, decoded path segments, the multiset of decoded parameters and the value of every signed header |
| SignatureCover.PresignedOnlyFor | libs/domains/src/s3/s3.signature.service.ts:89-169 | the signature of a presigned URL is accepted for no other verb, host, bucket, key or parameters and not beyond its expiry |
| SignatureCover.CarriedRead | libs/domains/src/s3/s3.signature.service.ts:47-62 | that signature is what the server reads from the URL |
| SignatureCover.CanonicalLines | libs/domains/src/s3/s3.signature.service.ts:190-230 | the canonical request's lines: verb, encoded path, sorted encoded query, the header, an empty line, its name, the payload's hash |
| Numerals.CollapseExact | libs/domains/src/s3/s3.signature.service.ts:218-220 | behind a word, a run of white space in a header becomes one space and the rest is collapsed on its own |
| SignatureCover.StringLines | libs/domains/src/s3/s3.signature.service.ts:244-256 | the string to sign has four lines: algorithm, date, scope, hash of the canonical request |
| SignatureCover.KeyFollowsScope | libs/domains/src/s3/s3.signature.service.ts:232-242 | the signing key is the secret's taken through the parts of the scope in turn |
| Request.BucketAndKeyRecovers | libs/domains/src/s3/s3.request.service.ts:64-73 | bucket and key of an encoded path come back exactly, empty segments and trailing slashes included |
| Request.MalformedKept | libs/domains/src/s3/s3.request.service.ts:64-73 | a key whose escapes are malformed is taken as it stands |
| Request.RangeMeans | libs/domains/src/s3/s3.request.service.ts:117-138 | a resolved range is exactly the bytes asked for; it is refused exactly when there are none, save for suffixes of an empty object |
| Request.MatchRangeExact | libs/domains/src/s3/s3.request.service.ts:121 | a range header is `bytes=`, digits or nothing, a dash, and digits or nothing |
| Request.RangeInBounds | libs/domains/src/s3/s3.request.service.ts:117-138 | a resolved range is in bounds if and only if the object is not empty |
| Request.RangeReads | libs/domains/src/storage/storage.service.ts:93-121 | reading a resolved range delivers as many bytes as announced |
| Request.EmptySuffix | libs/domains/src/s3/s3.request.service.ts:127-131 | the header that resolves to 0 and -1 |
| Request.CopySourceRangeInBounds | libs/domains/src/s3/s3.request.service.ts:210-222 | an accepted copy range means what the same `Range` header means and is never empty |
| Request.CopySourceRangeExact | libs/domains/src/s3/s3.request.service.ts:210-222 | a copy range must give both bounds and is refused exactly when no byte of the object lies within them |
| Policies.Evaluate | libs/domains/src/policies/policies.service.ts:54-70 | the loop computes the set meaning: a Deny that admits the request wins, then an Allow decides; which statements admit a request is said independently of the matching code |
| Policies.StatementExact | libs/domains/src/policies/policies.service.ts:92-125 | a statement matches exactly if its principal admits the request, some action and some resource pattern covers it, no excluded one does, and every clause holds |
| Policies.ConditionExact | libs/domains/src/policies/policies.service.ts:129-219 | each operator, with or without `IfExists`, on missing, empty, single and multi-valued keys means what its name says |
| Policies.OrderedExact | libs/domains/src/policies/policies.service.ts:187-219 | the six relations of numbers and dates: some bound above, below or equal, or none equal among the readable ones |
| Policies.PermutationIrrelevant | libs/domains/src/policies/policies.service.ts:54-70 | permuting the statements changes no decision |
| Policies.Joined | libs/domains/src/policies/policies.service.ts:54-70 | of two policies put together the stricter decision wins |
| Policies.NegatedIsComplement | libs/domains/src/policies/policies.service.ts:129-167 | each negated string, ARN and IP operator is the exact complement of its positive one, for missing, empty and multi-valued keys too |
| Policies.IfExistsComplement | libs/domains/src/policies/policies.service.ts:134-143 | with `IfExists` that holds if and only if the key has a value |
| Policies.OrderedComplement | libs/domains/src/policies/policies.service.ts:187-219 | numeric and date operators, with or without `IfExists`, on missing, single and multi-valued keys: `NotEquals` is the complement of `Equals` if and only if some bound and some value can be read and the readable values all agree on being among the bounds |
| Policies.UnknownOperator | libs/domains/src/policies/policies.service.ts:126-183 | an unknown operator matches exactly with `IfExists` and a missing value |
| Wildcard.WildcardMatchExact | libs/domains/src/policies/policies.service.ts:263-267 | a value matches if and only if it can be cut into pieces that fit the pattern's characters |
| Wildcard.PrefixStarMatches | libs/domains/src/policies/policies.service.ts:263-267 | a literal followed by a star matches exactly the values that start with it |
| Wildcard.QuestionMatches | libs/domains/src/policies/policies.service.ts:263-267 | `?` matches exactly the texts of one character that is no line terminator |
| Wildcard.LiteralMatches | libs/domains/src/policies/policies.service.ts:263-267 | without wildcards only the pattern itself matches |
| Cidr.ToIpv4Number | libs/domains/src/policies/policies.service.ts:247-260 | the shifting loop reads a dotted quad as its number, most significant octet first, or refuses it |
| Cidr.IpMatchesExact | libs/domains/src/policies/policies.service.ts:232-245 | matching by mask holds if and only if both addresses agree after division by 2^(32 - bits) |
| Cidr.ShorterMatches | libs/domains/src/policies/policies.service.ts:232-245 | what a pattern matches, its network matches at every shorter prefix length, and at length 0 it matches every address |
| Cidr.BareMatches | libs/domains/src/policies/policies.service.ts:232-241 | a bare address matches only itself |
| Cidr.AddressDotted | libs/domains/src/policies/policies.service.ts:247-260 | every 32-bit number is read back from its dotted quad, IPv4-mapped or not |
| RateLimit.RateLimitService.Bootstrap | libs/domains/src/rate-limit/rate-limit.service.ts:28-48 | disabled, it changes nothing; enabled, there is a client, available exactly when the first connection is ready |
| RateLimit.RateLimitService.Consume | libs/domains/src/rate-limit/rate-limit.service.ts:55-76 | counts and decides; passes everything and counts nothing while the store is off or unreachable |
| RateLimit.RateLimitService.MarkUnavailable | libs/domains/src/rate-limit/rate-limit.service.ts:100-109 | one log line per outage |
| RateLimitDelay.WindowBoundIffPrompt | libs/domains/src/rate-limit/rate-limit.service.ts:55-76 | with a bound on how late requests are counted, at most max of those charged to a subject's window pass in every run if and only if the bound is 0 or max is 0 |
| RateLimitDelay.IntervalBoundIffPrompt | libs/domains/src/rate-limit/rate-limit.service.ts:55-82 | at most twice max pass in every interval as long as a window, in every run, if and only if the bound is 0, max is 0, or both are 1 |
| RateLimitDelay.LateForWindow | libs/domains/src/rate-limit/rate-limit.service.ts:58-64 | for every limit above 0 and every delay a run in which one request too many passes |
| RateLimitDelay.LateForInterval | libs/domains/src/rate-limit/rate-limit.service.ts:58-64 | for every limit above 1 and every delay an interval in which 3 * max - 1 requests pass |
| RateLimitDelay.ThreeWindows | libs/domains/src/rate-limit/rate-limit.service.ts:58-64 | for a limit of 1 and delays above 1 an interval in which 3 requests pass |
| RateLimit.CounterOutlivesWindow | libs/domains/src/rate-limit/rate-limit.service.ts:58-64 | no counter expires inside its own window |
| RateLimit.RetryReachesNextWindow | libs/domains/src/rate-limit/rate-limit.service.ts:84-87 | the current second plus the delay is the start of the next window |

## Left out

- Changes.RunKeepsQuota: sequential runs only; how far two concurrent writes can go is `CheckedApart`. Quotas do not change during the run.
- Service.Serve: which bytes a completed upload puts is said by `CompleteMultipartUpload`; moves of keys are runs of copies and deletes.
- LiveListing.ListShowsLive: assumes that no visible key is empty, which `Service.Serve` proves of every run of requests that routes deliver.
- Presigned.PresignedAccepted: assumes that the client sends the URL as it was made; clients that normalise `.` and `..` segments change the path.
- Signature.Presign: the record lists its properties in insertion order; the order does not matter, since they are sorted.
- Objects.ObjectsService.CreateMultipartUpload: does not model the stored headers.
- The base64url layer of continuation tokens, base64 of `Content-MD5` (the digest is compared in hexadecimal) and UTF-8 decoding of non-ASCII chunk headers (such bytes read as the replacement character).
- Object headers, storage classes, metadata directives and timestamps on rows; they are carried along and decide nothing.
- Aborting abandoned uploads before a sweep, a loop over `AbortMultipartUpload`; its steps are in `BlobProtocol`.
- `uploadPartCopy`, `deleteMany`, `deleteByPrefix` and `createFolder`: thin combinations of modelled requests.
- `listAllVersions`, `listMultipartUploads`, `listParts` and V1 markers: their paging is not complete in general.
- Header-signed requests, `parseAuthorizationHeader` and clock skew; HTTP preconditions; copy-source paths; AWS trailers directly after the zero-length chunk header.
- `validate` and storage of policies, users, sessions, access keys, CORS, canned ACLs, controllers, wiring and logging.
- Fractional lifetimes of presigned URLs: the expiry is an integer or not a number.
