# JSONVault storage engine: a verified model

JSONVault keeps JSON documents in bbolt files, one per database. Every write maintains, besides the
document itself, a count, secondary indexes, a forward and a reverse text index, two TTL tables, a
bounded event log with its sequence counter, and a webhook outbox. Index builds and text backfills
run in small batches beside the writers; subscribers replay the log and then follow a live channel;
open handles are cached, evicted and closed under two locks; a rate limiter guards the operational
endpoints. This project models that engine and proves what it promises, over all inputs, all states
a run can reach and all interleavings.

`dafny verify dfyconfig.toml` checks everything.

## How the model is built

The abstract database (`Storage.Db`) is a value; each operation is a function on it. The source
works in place, so `Bolt.Tx` is a class whose fields are the buckets as they are stored (nested
value buckets, legacy and bucket postings, byte keys of the TTL index), and the methods of
`IndexTx`, `TextTx`, `TablesTx`, `StoreTx`, `TextSearch`, `QueryPaths` and `Outbox` follow the source
statement by statement. Each of them is proved to perform exactly the step of the specification;
the theorems are about the steps, and so hold of the methods.

| module | what it holds |
|---|---|
| ByteOrder, Keys, ETagHeader, Tokens, Utf8 | byte order and cursors, key encodings, tag texts and precondition headers, word splitting, tokens as bytes |
| Documents, Storage | values, preconditions, the abstract tables |
| SecondaryIndex, FullText, TtlTables, EventLog | one derived structure each: its steps and the invariant they keep |
| Writes, Invariants, PurgeProofs | create, put, patch, delete, transactions, purge, collections; the database invariant |
| Effects, MaintenanceEffects, Progress | what every operation leaves behind and what it refuses, told without naming how it is computed; that undisturbed builds and configurations succeed |
| Maintenance, Engine, WriterProofs, BuildProofs, BackfillProofs, Configurations, Runs | index builds and text backfills, the system of interleaved steps, its invariant, and what holds in every run |
| IndexHazards | exactly what goes wrong when bucket names collide or builds of one pair overlap |
| Laws, Increments | compare-and-swap, transactions against single calls, what erasing a collection erases; no lost update |
| Bolt, IndexTx, TextTx, TablesTx, StoreTx | the stored tables and the methods that work on them in place |
| Sorting, Query, QueryPaths, TextSearch, Snapshots | the listing specification, the paths that meet it, and reading while the engine runs |
| Outbox | the leased at-least-once delivery of webhooks, alone and as steps of the engine |
| Feed, FeedProofs, FeedLocking, WriteLocks | subscribe, replay, then live; why writers publish in order; the write lock |
| HandleGate, HandleCache | the two-lock gate and the bounded handle cache |
| RateLimiter | the fixed-window limiter |

## What is assumed

* An update transaction is serialised with all others and atomic: an error restores every table
  (`Bolt.Tx.Rollback`). A read transaction sees one snapshot.
* A bucket is a map ordered by key bytes; after a cursor deletes the entry it stands on, `Next`
  yields the least larger key. The same holds of a cursor when `DeleteBucket` removes the nested
  posting it stands on (`fts.go:534-562`). `Stats().KeyN` is the number of live keys.
* SHA-256 tells the contents that are stored or sent back as tags apart (`ETagHeader.TellsApart`), so a
  tag stands for the content it was computed from; `ETagHeader.HeaderMeansMatches` and
  `Laws.HeaderDecidesWrites` connect the header text with that reading. No digest tells all contents
  apart; up to 16^64 of them some digest does (`ETagHeader.CanBeToldApartIff`).
* In the text tables tokens survive the JSON list of a reverse entry; `Utf8` says exactly which do.
  Words are split and lower-cased by two functions the model is given.
* The engine's own sequence numbers and the expiry seconds stay below the width of their encodings.
  A client's Last-Event-ID may be any 64-bit number.
* In the feed theorems the database is not deleted while a subscription lasts;
  `Feed.RenumberedFeedIsCompleteIff` says what a client sees otherwise.
* Times are whole seconds, rounded down as the source rounds an expiry; a positive lifetime below a
  second is one that may last 0 seconds.

The index theorems over runs (`Runs`) take a set of (collection, field) pairs whose bucket names
differ, and start a build of a pair only when no other build of it is running. Concurrent deletions
of the index or of the collection are unrestricted, and so is a builder that gives up at any step.
The gap-freedom of the live feed is about publishers that publish while they hold the write lock
(`FeedLocking` runs the lock protocol, the writers and the subscriber as one machine), and about replays that hand over what is owed (`FeedProofs.CleanReplay`, whose necessity is
`FeedProofs.ReplayKeepsFeedIff`).

## What the proofs brought to light

* Bucket names are not injective once names contain underscores (`Keys.IndexBucketNameCollision`):
  starting a build of (`a`, `b_c`) empties an index on (`a_b`, `c`)
  (`IndexHazards.CollidingBuildEmptiesTheOther`).
* The build marker carries no owner. After a deletion and a second `CreateIndex`, the first builder
  can list an incomplete index (`IndexHazards.OvertakenBuildListsAnEmptyIndex`) or remove the bucket
  of a finished one (`IndexHazards.LateAbortRemovesAFinishedIndex`).
* `PutDocument` accepts an expected tag `*` on a missing id and inserts; the same put inside a
  transaction is refused. That is the only difference between a one-operation transaction and the
  single call (`Laws.OneOpPutTransaction`).
* If-Match calls for strong comparison (section 13.1.1 of RFC 9110); the code drops a `W/` prefix,
  and a `w/` after it (`ETagHeader.ParsesExactlyTheWritings`).
* `DeleteCollection` records no events, so the history stops folding to the documents exactly when
  the collection was not empty (`Invariants.DeleteCollectionKeepsInv`).
* The TTL purge publishes after it has released the write lock. An offer out of turn is what breaks the
  feed, and nothing else does (`FeedProofs.OfferKeepsFeedIff`): an event jumped over is lost to the
  client for good (`FeedProofs.UnlockedPublisherLeavesGap`), since a number passed over is never sent
  (`FeedProofs.PassedOverIsNeverSent`). The numbers sent still increase strictly.
* A Last-Event-ID of 2^64-1 makes the replay seek key 0: the client is sent everything the log retains
  and then no live event at all (`FeedProofs.WrappedResumeReplaysAllThenNothing`). No other resume
  point does that (`Feed.ReplayIsWanted`).
* A subscription survives the deletion of its database. When it is created again its numbers start
  from 1, and the client skips new events up to the last number it was sent
  (`Feed.RenumberedEventsAreSkipped`).
* A token is cut at 64 bytes even inside a rune. Such a token comes back from the reverse entry
  altered, and unindexing leaves its posting behind (`Utf8.TokenValidIff`,
  `Utf8.UnindexLeavesNothingIffValid`).
* Search results are in id order exactly when the common ids are in order in the posting that is
  filtered (`TextSearch.SearchAscendsIff`): a legacy list keeps its stored order until a write
  migrates it (`TextSearch.LegacyOrderShowsThrough`).
* `DeleteDatabase` removes the cache entry by name at its end. If the name was evicted and reopened
  while the deletion ran, the new handle is dropped unclosed (`HandleCache.AHandleGoesAstray`);
  `HandleCache.HandlesGoAstrayExactlyWhenDropped` shows this is the only way to lose one.
* `DeleteDatabase` also forgets the write lock of the name while others may wait for it; a waiter
  then runs beside a later caller (`WriteLocks.StrandedWaiterOverlaps`), and only then
  (`WriteLocks.StepKeepsInvIff`). It does so even when it could not remove the file, and the two can
  then publish out of turn (`FeedLocking.TwoInsideCanPublishOutOfTurn`).
* An interval of one window length holds at most one grant less than twice the limit, because the
  earlier of the two windows it can meet opened before it (`RateLimiter.AtMostTwiceTheLimit`);
  that many do occur (`RateLimiter.IntervalBoundIsMet`).

## Model

| member | source | states |
|---|---|---|
| Keys.BigEndianRoundTrip | jsonvault-core/internal/store/event_log.go:216-220 | Decoding a fixed-width big-endian key gives the number back, for every number that fits |
| Keys.BigEndianOrder | jsonvault-core/internal/store/event_log.go:216-220 | Byte order of the keys is numeric order, both directions |
| Keys.Uint64KeyOrder | jsonvault-core/internal/store/event_log.go:216-220 | The eight-byte keys of the log, the outbox and the TTL index sort as uint64 numbers do |
| Keys.ParseTtlDocKeySplits | jsonvault-core/internal/store/ttl.go:24-38 | A document key splits back into collection and id when the collection is NUL-free, and never yields a collection with a NUL |
| Keys.TtlIndexKeyRoundTrip | jsonvault-core/internal/store/ttl.go:40-57 | Parsing undoes encoding if and only if the collection is NUL-free and collection and id are not both empty (the length test rejects the nine-byte key) |
| Keys.TtlIndexKeyChronological | jsonvault-core/internal/store/ttl.go:40-46 | A key that sorts first expires first, so a cursor walk is chronological |
| Keys.ColonPrefixExact | jsonvault-core/internal/store/fts.go:534-562 | The prefix scan `collection + ":"` meets exactly the keys of that collection |
| Keys.ColonKeyInjective | jsonvault-core/internal/store/fts.go:304-343 | The `collection:suffix` keys of the text tables determine both parts |
| Keys.IndexBucketNameCollision | jsonvault-core/internal/store/index.go:58-60 | Two pairs share a bucket name if and only if they are equal or one collection is the other, an underscore and a piece the field of the other starts with |
| Keys.IndexBucketNameInjective | jsonvault-core/internal/store/index.go:58-60 | Underscore-free collections never collide |
| Keys.ValidateSegment | jsonvault-core/internal/store/validation.go:56-82 | Accepts exactly the names of 1 to 128 letters, digits, `_`, `-` and `.` that start with a letter or digit and hold no `..` |
| Keys.ValidateFieldName | jsonvault-core/internal/store/validation.go:35-54 | Accepts exactly the non-empty field names of at most 128 such characters |
| Keys.SegmentsGrowByOne | jsonvault-core/internal/store/validation.go:56-82 | Character by character: a name starts with a letter or digit and goes on with letters, digits, `_`, `-` and single dots, up to 128 |
| Keys.FieldsGrowByOne | jsonvault-core/internal/store/validation.go:35-54 | A field name is a non-empty text of at most 128 such characters |
| Keys.CollectionsIsReserved | jsonvault-core/internal/store/validation.go:21-29 | In any letter case `collections` names no collection |
| Keys.ValidSegmentHasNoSeparators | jsonvault-core/internal/store/validation.go:56-82 | Validated names hold neither NUL nor colon and do not start with an underscore |
| ETagHeader.ParsesExactlyTheWritings | jsonvault-core/internal/store/store.go:136-155 | A token reads as a hash if and only if, spaces aside, it is that hash in some letter case, bare or quoted, with `W/`, `w/`, both in that order, or neither |
| ETagHeader.OwnTagRoundTrip | jsonvault-core/internal/store/store.go:112-115 | A tag the engine hands out reads back as its digest |
| ETagHeader.SplitUndoesJoin | jsonvault-core/internal/store/store.go:123-123 | Splitting a comma-joined list of comma-free tokens gives the list |
| ETagHeader.JoinUndoesSplit | jsonvault-core/internal/store/store.go:123-123 | Joining the split pieces gives the header text back, and no piece holds a comma |
| ETagHeader.MatchETags | jsonvault-core/internal/store/store.go:117-134 | The loop answers true exactly when the computed tag parses and some piece of the header is `*` or names its hash |
| ETagHeader.HeaderMeansMatches | jsonvault-core/internal/store/store.go:117-134 | Whenever the digest tells the contents that may be stored apart, the header text decides exactly what the preconditions of the model decide |
| ETagHeader.EveryHeaderDenotes | jsonvault-core/internal/store/store.go:117-134 | Every header text, malformed pieces and hashes of nothing stored included, stands for some precondition of the model |
| ETagHeader.OwnTagGuardsUnlessDigestsCollide | jsonvault-core/internal/store/store.go:112-134 | For every digest: a returned tag admits exactly the contents of that digest, so it guards as the model says if and only if what was seen and what is stored do not share a digest while they differ |
| ETagHeader.CanBeToldApartIff | jsonvault-core/internal/store/store.go:112-115 | Some digest of 64 hexadecimal digits tells a set of contents apart if and only if it has at most 16^64 members |
| Tokens.TokenizeLimited | jsonvault-core/internal/store/fts.go:258-287 | The capped loop returns the tokens of the shortest word prefix that reaches the cap, or of all words, and never more than the cap |
| Tokens.TokenizeBelowCap | jsonvault-core/internal/store/fts.go:258-287 | Below the cap no word is missed |
| Tokens.TokensAreClippedWords | jsonvault-core/internal/store/fts.go:258-287 | Tokens are words of more than one byte from the first 262144 bytes, in lower case and cut at 64 bytes |
| Tokens.ExtractText | jsonvault-core/internal/store/fts.go:290-301 | Concatenates exactly the configured string fields, in configuration order |
| Tokens.TextOfFields | jsonvault-core/internal/store/fts.go:290-301 | A field contributes its string and a space, or nothing; fields contribute one after the other |
| Tokens.StandardTokens | jsonvault-core/internal/store/fts.go:250-287 | At most 2048 tokens per document and 16 per query, clipped words of the configured text and of the query, and all of them below those caps |
| Utf8.PrefixValidIff | jsonvault-core/internal/store/fts.go:273-276 | Cut anywhere, valid UTF-8 stays valid if and only if the cut falls between two runes |
| Utf8.TokenValidIff | jsonvault-core/internal/store/fts.go:264-286 | A token is valid if and only if its lower-cased word is no longer than 64 bytes or has no rune across that mark |
| Utf8.JsonIsLosslessIff | jsonvault-core/internal/store/fts.go:336-342 | A token survives being written to and read from a JSON list if and only if it is valid UTF-8 |
| Utf8.UnindexLeavesNothingIffValid | jsonvault-core/internal/store/fts.go:346-398 | Unindexing takes every posting of a document out if and only if all its tokens are valid |
| SecondaryIndex.ReindexBucket | jsonvault-core/internal/store/index.go:519-635 | A document step changes exactly the buckets of its own collection, by taking the old entry out and putting the new one in |
| SecondaryIndex.ReindexKeepsInv | jsonvault-core/internal/store/index.go:546-635 | Every document step keeps ready indexes exact and indexes under construction free of stale entries |
| SecondaryIndex.StartBuildKeepsInv | jsonvault-core/internal/store/index.go:171-218 | Starting a build keeps the index invariant when the name is not used by another pair |
| SecondaryIndex.PromoteKeepsInv | jsonvault-core/internal/store/index.go:326-366 | Listing a build whose bucket misses nothing keeps the index invariant |
| SecondaryIndex.DropKeepsInv | jsonvault-core/internal/store/index.go:407-485 | Deleting a ready index or a build keeps the index invariant |
| SecondaryIndex.DropCollectionKeepsInv | jsonvault-core/internal/store/collection.go:121-136 | Dropping the indexes of a collection keeps the invariant and leaves every other index as it was |
| IndexTx.GetWritableIndexFields | jsonvault-core/internal/store/index.go:490-543 | The merged list holds exactly the ready and building fields, each once |
| IndexTx.IndexDocument | jsonvault-core/internal/store/index.go:557-582 | The loop over fields and buckets performs exactly the indexing step on the tables |
| IndexTx.UnindexDocument | jsonvault-core/internal/store/index.go:600-634 | The loop performs exactly the unindexing step and leaves no empty value bucket |
| IndexTx.StartIndexBuildTx | jsonvault-core/internal/store/index.go:171-218 | Performs exactly the start step: each refusal, the fresh bucket and the marker |
| IndexTx.CollectIndexBatch | jsonvault-core/internal/store/index.go:220-279 | A batch holds every document with the field among the ids it passes, tagged and encoded as in the snapshot, and nothing else; an unfinished scan moves on; at most `limit` entries |
| IndexTx.ApplyIndexBatchTx | jsonvault-core/internal/store/index.go:281-324 | Adds exactly the entries whose document still has the content that was read, or refuses without a change |
| IndexTx.FinishIndexBuildTx | jsonvault-core/internal/store/index.go:326-366 | Performs exactly the finishing step, including the case of a field already listed |
| IndexTx.DeleteIndexTx | jsonvault-core/internal/store/index.go:407-485 | Removes a ready index, or a build, or reports neither |
| IndexTx.DeleteIndexesForCollection | jsonvault-core/internal/store/collection.go:121-136 | Drops exactly the buckets, list and markers of the collection |
| MaintenanceEffects.StartIndexBuildStarts | jsonvault-core/internal/store/index.go:171-218 | A build starts exactly on an unused pair of an existing collection, with an empty bucket, and touches no other pair |
| MaintenanceEffects.ApplyIndexBatchAdds | jsonvault-core/internal/store/index.go:281-324 | A batch adds to the bucket exactly the entries whose document still is what was read |
| MaintenanceEffects.FinishIndexBuildLists | jsonvault-core/internal/store/index.go:326-366 | Finishing lists the field after those listed before and removes the marker; no entry and no other pair changes |
| MaintenanceEffects.AbortIndexBuildErases | jsonvault-core/internal/store/index.go:368-372 | Giving up leaves neither marker nor bucket, and touches no listing and no other pair |
| MaintenanceEffects.DeleteIndexErases | jsonvault-core/internal/store/index.go:407-485 | Deleting succeeds if and only if the pair is ready or under construction; afterwards it is neither and has no bucket, every other pair keeps its use and its bucket, and no other table changes |
| MaintenanceEffects.EncodesAlikeIff | jsonvault-core/internal/store/index.go:30-47 | Two values share an index key exactly when they are of one kind and print alike |
| WriterProofs.WriteKeepsInv | jsonvault-core/internal/store/index.go:546-635 | Every kind of write keeps the database invariant and leaves a running build or backfill nothing newly missing |
| WriterProofs.MutateConsiderate | jsonvault-core/internal/store/index.go:519-635 | One document step never makes a document version missing from an index or text backfill under construction |
| BuildProofs.CollectStepKeepsInv | jsonvault-core/internal/store/index.go:220-279 | After a snapshot batch is read, everything the scan has passed is indexed or waits unchanged in the batch |
| BuildProofs.ApplyStepKeepsInv | jsonvault-core/internal/store/index.go:281-324 | After the batch is applied under its ETag check everything passed is indexed, and nothing stale came in |
| BuildProofs.FinishStepKeepsInv | jsonvault-core/internal/store/index.go:326-366 | A build that has scanned to the end is promoted to an exact index |
| BuildProofs.AbortStepKeepsInv | jsonvault-core/internal/store/index.go:136-141 | A build may give up at any step |
| Runs.StepKeepsInv | jsonvault-core/internal/store/index.go:109-635 | Any enabled step of any writer, builder, backfill or administrator keeps the invariant of the whole engine |
| Runs.IndexesAgreeInEveryRun | jsonvault-core/internal/store/index.go:143-366 | In every run no index holds a stale entry at any step, and a listed one holds exactly the (encoded value, id) pairs of the current documents having the field |
| Progress.UndisturbedBuildSucceeds | jsonvault-core/internal/store/index.go:109-366 | A `CreateIndex` nobody disturbs ends with the index listed and holding exactly what it should |
| Progress.CallsTakeEffect | jsonvault-core/internal/store/document_write.go:17-413 | Every call the engine makes and that succeeds achieves what it was made for |
| Progress.DropIndexTakesEffect | jsonvault-core/internal/store/index.go:407-485 | A deletion step of a run ends the use of that index and of no other |
| Runs.BooksBalanceInEveryRun | jsonvault-core/internal/store/metadata.go:20-52 | In every run, webhook workers included, the numbering, the log and the outbox records, the exact count, the TTL bijection and the text tables hold, and no index bucket is without an owner |
| IndexHazards.NamesCollide | jsonvault-core/internal/store/index.go:58-60 | For all names: collection `c` with field `d_f` and collection `c_d` with field `f` are distinct pairs with one bucket name |
| IndexHazards.ValidNamesCollide | jsonvault-core/internal/store/index.go:58-60 | Four names that pass every check and collide |
| IndexHazards.CollidingBuildEmptiesTheOther | jsonvault-core/internal/store/index.go:207-215 | After a build of a colliding pair starts, the other index stays exact if and only if no document of its collection has its field |
| IndexHazards.OvertakenBuildListsAnEmptyIndex | jsonvault-core/internal/store/index.go:326-366 | A build overtaken by a deletion and a second build finishes on the marker of the second; the listed index is exact if and only if no document has the field |
| IndexHazards.AbortIsSafeIffNotListed | jsonvault-core/internal/store/index.go:368-372 | The cleanup of a failing build keeps the index invariant if and only if the pair is not listed as ready |
| IndexHazards.LateAbortRemovesAFinishedIndex | jsonvault-core/internal/store/index.go:136-141 | A first build that fails late leaves the finished index of a second one listed without a bucket |
| FullText.RetextKeepsInv | jsonvault-core/internal/store/fts.go:304-398 | Every document step keeps postings and reverse entries mirrored and current, and leaves the document indexed exactly when it has tokens |
| FullText.BackfillKeepsInv | jsonvault-core/internal/store/fts.go:200-224 | Re-indexing an unchanged document keeps the text tables right, forgets nobody and indexes the document if it has tokens |
| FullText.DropTextKeepsInv | jsonvault-core/internal/store/fts.go:534-562 | Erasing and reconfiguring the text tables of a collection keeps them mirrored and current |
| TextTx.GetOrCreateTokenBucket | jsonvault-core/internal/store/fts.go:456-483 | Migrating a legacy posting to a bucket keeps its members |
| TextTx.CompactInPlace | jsonvault-core/internal/store/fts.go:500-510 | The filter that overwrites the array it reads keeps exactly the good elements, in order |
| TextTx.RemoveFromList | jsonvault-core/internal/store/fts.go:500-510 | Exactly one id leaves a legacy list |
| TextTx.IndexTextTx | jsonvault-core/internal/store/fts.go:304-343 | Performs exactly the text indexing step, on legacy lists and buckets alike |
| TextTx.UnindexTextTx | jsonvault-core/internal/store/fts.go:346-398 | Performs exactly the text unindexing step; no posting is left empty |
| TextTx.ConfigureTextTx | jsonvault-core/internal/store/fts.go:61-90 | Replaces the configuration and erases the old tables of the collection, nothing else |
| MaintenanceEffects.ConfigureTextStores | jsonvault-core/internal/store/fts.go:34-90 | Configuring stores exactly the requested fields and starts over for the collection; every other collection keeps its configuration, postings and reverse entries |
| TextTx.DeleteTextForCollection | jsonvault-core/internal/store/fts.go:534-562 | The two prefix scans erase exactly the collection |
| StoreTx.CollectTextBatch | jsonvault-core/internal/store/fts.go:153-198 | A batch holds every document among the ids it passes with its content and tag, and nothing else |
| StoreTx.ApplyTextBatchTx | jsonvault-core/internal/store/fts.go:200-224 | Indexes exactly the documents of the batch whose content has not changed |
| MaintenanceEffects.ApplyTextBatchIndexes | jsonvault-core/internal/store/fts.go:200-224 | A batch adds exactly the documents that are still what was read and have tokens in the configured fields |
| BackfillProofs.ApplyTextKeepsInv | jsonvault-core/internal/store/fts.go:200-224 | Applying a batch keeps the tables in step, forgets nobody and indexes every entry still current |
| Runs.BackfilledTextIsComplete | jsonvault-core/internal/store/fts.go:61-111 | Once a `SetFTSConfig` has scanned to its end and nothing has overtaken it, a posting exists if and only if the current document has the token in the fields that call asked for |
| Runs.ConfigInEveryRun | jsonvault-core/internal/store/fts.go:61-90 | In every run the stored configuration of a collection is that of the latest call for it |
| Progress.UndisturbedConfigurationSucceeds | jsonvault-core/internal/store/fts.go:34-111 | A `SetFTSConfig` nobody disturbs ends with a posting for exactly every token the documents have in the fields asked for |
| TextSearch.SearchFts | jsonvault-core/internal/store/fts.go:401-454 | The result is a shortest posting of the query, filtered in its own order down to the ids posted under every token; nothing without tokens or with one posted nowhere |
| TextSearch.SearchFindsExactlyTheHits | jsonvault-core/internal/store/fts.go:401-454 | The ids found are exactly those posted under every query token, none without tokens, whatever the token order |
| TextSearch.IntersectInPlace | jsonvault-core/internal/store/fts.go:436-453 | The in-place intersection returns the first list filtered, in its own order and with its own repetitions, down to the ids of every list |
| TextSearch.SearchAscendsIff | jsonvault-core/internal/store/fts.go:401-454 | The ids come back ascending without repetition if and only if the ids common to all postings stand that way in the posting they are filtered from |
| TextSearch.AscendingPostingsSuffice | jsonvault-core/internal/store/fts.go:485-498 | So they do when every posting read ascends, as bucket postings do |
| TextSearch.PostedUnderAllIffTokensIncluded | jsonvault-core/internal/store/fts.go:401-454 | Posted under all query tokens means indexed, alive, and having them all among its tokens |
| TextSearch.LegacyOrderShowsThrough | jsonvault-core/internal/store/fts.go:485-498 | For every legacy list a one-token search returns the list itself, ascending if and only if the list is |
| TextSearch.LegacyOrderExample | jsonvault-core/internal/store/fts.go:485-498 | An instance: ids stored in descending order are found in descending order |
| TtlTables.SetTtlKeepsInv | jsonvault-core/internal/store/ttl.go:71-96 | Setting an expiry keeps the two tables in exact bijection over live documents |
| TtlTables.ClearTtlKeepsInv | jsonvault-core/internal/store/ttl.go:98-115 | Clearing keeps the bijection, also when the document goes |
| TtlTables.DropTtlKeepsInv | jsonvault-core/internal/store/ttl.go:125-152 | Erasing the entries of a collection keeps the bijection for the rest |
| TtlTables.DueKeyInjective | jsonvault-core/internal/store/ttl.go:40-57 | A purge key determines document and expiry |
| TablesTx.SetDocumentTtl | jsonvault-core/internal/store/ttl.go:71-96 | The previous purge key goes, the new pair is stored |
| TablesTx.ClearDocumentTtl | jsonvault-core/internal/store/ttl.go:98-115 | Both entries go, or nothing if there was none |
| TablesTx.DeleteTtlForCollection | jsonvault-core/internal/store/ttl.go:125-152 | Two cursor walks erase exactly the entries of the collection |
| PurgeProofs.PurgeRemovesExactlyTheExpired | jsonvault-core/internal/store/store.go:297-362 | A purge at `now` deletes exactly the documents with expiry at or before `now` and leaves every other document and expiry untouched |
| PurgeProofs.PurgeLogsInExpiryOrder | jsonvault-core/internal/store/store.go:342-351 | The history gains exactly one delete per expired document, in expiry order |
| PurgeProofs.PurgeKeepsInv | jsonvault-core/internal/store/store.go:297-362 | A purge keeps indexes, text, counts, TTL tables and log right |
| PurgeProofs.PurgeTurn | jsonvault-core/internal/store/store.go:305-361 | One turn equals an ordinary delete of the document due first; stopping at the first key in the future misses nothing |
| StoreTx.PurgeExpired | jsonvault-core/internal/store/store.go:298-362 | The cursor loop performs exactly the purge and terminates |
| Effects.PurgeKeepsDefinitions | jsonvault-core/internal/store/store.go:298-362 | A purge adds, lists, drops and changes no index and no search configuration |
| TablesTx.GetCollectionCount | jsonvault-core/internal/store/metadata.go:20-32 | The stored count, or the number of live keys when none is stored |
| TablesTx.IncrementCollectionCount | jsonvault-core/internal/store/metadata.go:34-52 | Adds the change to the effective count, clamped at zero |
| Invariants.CountIsExact | jsonvault-core/internal/store/metadata.go:20-32 | In every consistent state the effective count is the number of documents |
| Invariants.CountedKeepsInv | jsonvault-core/internal/store/metadata.go:34-52 | Every document step keeps stored counts exact, and a removal never meets the clamp at zero |
| EventLog.RecordKeepsLog | jsonvault-core/internal/store/event_log.go:37-110 | Numbers stay 1..n without gaps and the log the contiguous suffix of the newest min(n, 1000) |
| EventLog.HistoryStep | jsonvault-core/internal/store/event_log.go:37-78 | Folding the history gives exactly the documents after any step; inserts only of absent, updates and deletes only of present ones |
| TablesTx.NextEventSequence | jsonvault-core/internal/store/event_log.go:80-94 | The counter and the returned number advance by one |
| TablesTx.TrimEventLog | jsonvault-core/internal/store/event_log.go:96-110 | Deletes oldest entries until at most 1000 remain |
| TablesTx.RecordEvent | jsonvault-core/internal/store/event_log.go:37-78 | Number, log entry, trim and pending outbox record in one step |
| Runs.HistoryFoldsInEveryRun | jsonvault-core/internal/store/event_log.go:37-78 | In every run without a collection deletion the full history folds to exactly the stored documents |
| Runs.RunsAreOutboxHistories | jsonvault-core/internal/store/event_log.go:61-77 | Seen from the outbox, every run of the whole engine is a run of committing writers and webhook workers |
| Runs.EveryEventIsKeptOrDelivered | jsonvault-core/internal/store/webhook.go:351-462 | In every run of writers, purges, builders and webhook workers a committed event stands in the outbox under its number, unchanged, or was delivered |
| Feed.ReplayEvents | jsonvault-core/internal/store/event_log.go:112-147 | Seeks to the resume point plus one in 64 bits and returns the first events of the collection from there in key order, none skipped, and all of them on a bounded log with the full limit |
| Feed.ReplayIsSeek | jsonvault-core/internal/store/event_log.go:112-147 | Over the log the engine keeps, a full replay is exactly the retained events of the collection from the seek key on, whatever 64-bit number the client sent |
| Feed.ReplayIsWanted | jsonvault-core/internal/store/event_log.go:112-147 | These are exactly the retained events above the resume point if and only if that point is not 2^64-1, where the successor wraps to key zero, or the log retains nothing of the collection |
| Invariants.MutateKeepsInv | jsonvault-core/internal/store/document_write.go:110-221 | One document step keeps every derived table right and the history folding to the documents |
| Writes.FreshIdIsCandidate | jsonvault-core/internal/store/document_write.go:45-65 | A generated id is new; creation fails only when all sixteen candidates are taken |
| StoreTx.CreateDocument | jsonvault-core/internal/store/document_write.go:17-104 | Performs exactly the create step: each error, or the new document in every table |
| StoreTx.PutDocument | jsonvault-core/internal/store/document_write.go:110-221 | Performs exactly the put step, preconditions and TTL included |
| StoreTx.PatchDocument | jsonvault-core/internal/store/document_write.go:223-338 | Performs exactly the merge step, a `null` body merging nothing; the TTL stays |
| StoreTx.DeleteDocument | jsonvault-core/internal/store/document_write.go:340-413 | Performs exactly the delete step |
| Effects.PutWrites | jsonvault-core/internal/store/document_write.go:110-221 | A put that succeeds leaves exactly the body under the id, its index entries, its tokens, one event and one untried delivery, and the expiry now plus its lifetime or none; every other document, entry and expiry is as it was |
| Effects.PutLivesItsLifetime | jsonvault-core/internal/store/ttl.go:71-96 | A document that was put is there until a purge at or after its last second, and for good without a lifetime |
| Effects.PutRefuses | jsonvault-core/internal/store/document_write.go:110-168 | Which error a put reports for which request, and that it reports none otherwise |
| Effects.CreateWrites | jsonvault-core/internal/store/document_write.go:17-104 | A create that succeeds does the same under the first of the sixteen candidates that was free |
| Effects.CreateRefuses | jsonvault-core/internal/store/document_write.go:17-104 | Which error a create reports, a rejected body and sixteen taken ids among them |
| Effects.PatchWrites | jsonvault-core/internal/store/document_write.go:223-338 | A patch that succeeds leaves every patched field with its new value, every other field and the expiry as they were |
| Effects.PatchRefuses | jsonvault-core/internal/store/document_write.go:223-300 | Which error a patch reports for which request |
| Effects.RemoveWrites | jsonvault-core/internal/store/document_write.go:340-413 | A delete that succeeds leaves neither document, entries, tokens nor expiry, and one delete event |
| Effects.RemoveRefuses | jsonvault-core/internal/store/document_write.go:340-380 | Which error a delete reports for which request |
| Laws.GuardedPutIsCompareAndSwap | jsonvault-core/internal/store/document_write.go:152-168 | A put carrying one concrete tag succeeds if and only if the stored content is what the tag was computed from |
| Laws.GuardedPatchIsCompareAndSwap | jsonvault-core/internal/store/document_write.go:265-267 | The same for a patch, and the result is the merge over exactly that content |
| Laws.GuardedRemoveIsCompareAndSwap | jsonvault-core/internal/store/document_write.go:375-377 | The same for a delete |
| Laws.GuardedTxOpIsCompareAndSwap | jsonvault-core/internal/store/transaction.go:88-98 | A guarded operation of a transaction succeeds if and only if it finds exactly that content in the state its predecessors left |
| Laws.HeaderDecidesWrites | jsonvault-core/internal/store/document_write.go:152-377 | For every header text: a put, a patch and a delete succeed exactly when the text is empty or names the digest of the stored document, and a put of a missing document exactly when the text is empty or a star |
| Increments.IncrementsAddUp | jsonvault-core/internal/store/document_write.go:152-168 | Clients that raise a counter by guarded puts, guarded patches, and transactions with any number of guarded put and patch operations among others, each from whatever it last read and at its own time, among any writes, creations and purges beside: n successes add exactly n |
| Increments.TransactionRaises | jsonvault-core/internal/store/transaction.go:52-258 | A committed transaction raises the counter by the number of its raising operations, whatever else it does to other documents |
| StoreTx.CheckTransaction | jsonvault-core/internal/store/transaction.go:19-50 | Accepts exactly 1 to 100 known operations of at most 4 MiB together |
| StoreTx.ExecuteOp | jsonvault-core/internal/store/transaction.go:61-258 | One turn of the loop performs exactly the operation on the tables its predecessors left |
| StoreTx.ExecuteTransaction | jsonvault-core/internal/store/transaction.go:19-269 | Equals the left fold of the operations, or leaves every stored table as it was |
| Laws.TxFoldSplits | jsonvault-core/internal/store/transaction.go:52-258 | A transaction may be cut anywhere: the second part runs on the tables the first left |
| Laws.TxFoldEvents | jsonvault-core/internal/store/transaction.go:121-249 | A committed transaction records one event per operation, in order, numbered consecutively |
| Effects.TxStepWrites | jsonvault-core/internal/store/transaction.go:61-258 | One operation leaves the body, the merge or nothing under its id with everything derived from it; a put and a delete end the expiry, a patch keeps it |
| Effects.TxStepRefuses | jsonvault-core/internal/store/transaction.go:61-258 | Which error one operation reports on the tables its predecessors left, and that it reports none otherwise |
| Effects.TransactRuns | jsonvault-core/internal/store/transaction.go:19-50 | The operations run if and only if there are 1 to 100 known ones of at most 4 MiB together |
| Effects.LastOperationWins | jsonvault-core/internal/store/transaction.go:52-258 | What a committed transaction leaves under an id is the result of the last operation that addressed it, and what was there before if none did |
| Effects.FirstFailureIsReported | jsonvault-core/internal/store/transaction.go:52-268 | A transaction that fails reports the error of its first failing operation |
| Laws.OneOpPutTransaction | jsonvault-core/internal/store/transaction.go:88-136 | A one-put transaction equals the single call if and only if it is not an otherwise acceptable put expecting `*` of a missing document |
| Laws.OneOpPatchTransaction | jsonvault-core/internal/store/transaction.go:138-210 | A one-patch transaction equals the single call |
| Laws.OneOpDeleteTransaction | jsonvault-core/internal/store/transaction.go:212-249 | A one-delete transaction equals the single call |
| Invariants.TransactKeepsInv | jsonvault-core/internal/store/transaction.go:52-268 | A transaction keeps every invariant whether it commits or aborts |
| Bolt.Tx.Rollback | jsonvault-core/internal/store/transaction.go:52-268 | Rolling back restores every stored table (assumed of bbolt) |
| StoreTx.CreateCollectionTx | jsonvault-core/internal/store/collection.go:13-49 | Creates an empty collection with count zero, or nothing if it exists |
| StoreTx.DeleteCollectionTx | jsonvault-core/internal/store/collection.go:88-166 | Performs exactly the erasing step |
| Effects.CreateCollectionMakes | jsonvault-core/internal/store/collection.go:13-49 | Creating is refused only for its name, makes an empty collection unless there is one, and changes nothing else |
| Effects.DeleteCollectionRefuses | jsonvault-core/internal/store/collection.go:88-120 | Deleting is refused for a bad name and a missing collection, and for nothing else |
| Laws.ErasesEveryTrace | jsonvault-core/internal/store/collection.go:112-156 | After deletion no table mentions the collection |
| Laws.ErasesNothingElse | jsonvault-core/internal/store/collection.go:112-156 | Nothing that belongs to another collection, and no event, changes |
| Invariants.DeleteCollectionKeepsInv | jsonvault-core/internal/store/collection.go:88-166 | Deletion keeps every table right; the history still folds to the documents if and only if the collection was empty |
| Query.EvaluateFilter | jsonvault-core/internal/store/document_read.go:151-165 | True exactly when every filtered field is present and encodes as the filter value, in any iteration order |
| Query.QueryBudget.Scan | jsonvault-core/internal/store/document_read.go:356-366 | Counts the document and its bytes; fails exactly when a positive limit is exceeded |
| Query.QueryBudget.ReturnDocument | jsonvault-core/internal/store/document_read.go:368-374 | Counts id, content and 96 bytes; fails exactly when the response limit is exceeded |
| QueryPaths.FilterLoop | jsonvault-core/internal/store/document_read.go:226-273 | The evaluating loop returns the wanted matches and their number, and succeeds if and only if they fit the budgets |
| QueryPaths.PlainScan | jsonvault-core/internal/store/document_read.go:277-327 | The unfiltered scan returns the page and reads no further than its end |
| QueryPaths.SingleFilterPath | jsonvault-core/internal/store/document_read.go:191-224 | The single-filter path returns the page of the bucket, paying for what it returns only |
| QueryPaths.ChooseIndex | jsonvault-core/internal/store/document_read.go:118-129 | Picks the first listed field that is filtered on, or none if none is |
| QueryPaths.IndexSelectsTheSame | jsonvault-core/internal/store/document_read.go:182-273 | Inside the value bucket of an exact index the remaining filters find the same ids, in the same order, as a full scan |
| QueryPaths.IndexReadsLess | jsonvault-core/internal/store/document_read.go:182-276 | Whatever document, byte and response budgets the scan keeps, the index path keeps |
| QueryPaths.FindIds | jsonvault-core/internal/store/document_read.go:118-328 | Scan, single-filter and multi-filter path find the same ids in the same order with the same number of matches, whichever index is picked |
| QueryPaths.ListDocuments | jsonvault-core/internal/store/document_read.go:42-349 | Every listing without search equals the one specification: matches, order, page, total; it is refused only when the scan would be |
| Query.CorrectMeans | jsonvault-core/internal/store/document_read.go:42-349 | A correct answer is one page of a list that holds exactly the documents that pass the filter, each once, in id order or the requested one, and their number |
| QueryPaths.SearchDocuments | jsonvault-core/internal/store/document_read.go:107-181 | A search returns the page of exactly the documents whose tokens include every query token and that pass the filter, and is refused if and only if the candidates or what is read and returned exceed a budget |
| Snapshots.EverySnapshotIsConsistent | jsonvault-core/internal/store/document_read.go:61-130 | Every state of every run of the engine has exact listed indexes, text tables in step with the documents, and the exact number of documents as its count |
| Snapshots.ListInARun | jsonvault-core/internal/store/document_read.go:42-349 | A listing at any moment of any run is the requested page, of 100 without a limit, of a list that holds exactly the documents of that moment that pass the filter, each once, sorted the way that was asked for, and their number |
| Snapshots.SearchInARun | jsonvault-core/internal/store/document_read.go:107-181 | A search at any moment of any run, over the postings as they are stored, hits exactly the indexed documents of that moment that have every query token and pass the filter, and pages them in the order asked for as far as the postings read stand in key order |
| Sorting.BeforeIsStrictTotalOrder | jsonvault-core/internal/store/document_read.go:398-513 | In both directions the comparator is a strict total order on documents of distinct ids |
| Sorting.MissingComesLast | jsonvault-core/internal/store/document_read.go:420-440 | Documents without a sortable value come last, ascending or descending |
| Sorting.SortRunsTheRightWay | jsonvault-core/internal/store/document_read.go:398-513 | Ascending the smaller value stands first, descending last: false before true, lesser numbers, text by bytes, truth values before numbers before text before nested values; equal values in id order, missing ones at the end |
| Sorting.NumbersAreInOrder | jsonvault-core/internal/store/document_read.go:430-433 | Ascending numbers never fall, descending they never rise, and equal ones stand in id order |
| Sorting.SortIsSortedPermutation | jsonvault-core/internal/store/document_read.go:398-450 | Sorting orders its input and neither loses nor invents a document |
| Sorting.SortedIsUnique | jsonvault-core/internal/store/document_read.go:398-450 | Two sorted arrangements of the same documents are equal, so the path and the library sort do not matter |
| Sorting.SortAndPageDocuments | jsonvault-core/internal/store/document_read.go:398-450 | Returns the requested slice of the sorted documents, which `SortRunsTheRightWay` says run upwards or, descending, downwards |
| Sorting.PagesCoverEverythingOnce | jsonvault-core/internal/store/document_read.go:441-450 | Consecutive pages concatenate to the whole list |
| Outbox.ClaimWebhookDelivery | jsonvault-core/internal/store/webhook.go:377-418 | Takes the oldest record that is neither waiting, leased nor failed and leases it, or finds none to take |
| Outbox.FailWebhookDelivery | jsonvault-core/internal/store/webhook.go:420-452 | Counts the attempt: the third fails the record, an earlier one delays it by the square of the attempts |
| Outbox.DeleteWebhookDelivery | jsonvault-core/internal/store/webhook.go:454-462 | Removes exactly that record |
| Outbox.RetryWebhookDelivery | jsonvault-core/internal/store/event_log.go:182-214 | Makes the record pending at once, keeping its attempts, or reports that there is none |
| Outbox.RetryMakesDue | jsonvault-core/internal/store/event_log.go:182-214 | After a retry the record, whatever it was, is pending with its event and attempts and due from then on: the next claim takes it or an older one; no other record changes |
| Outbox.FailureDelays | jsonvault-core/internal/store/webhook.go:420-452 | After its first failed attempt a record is due one second later and after its second four seconds later, not before; after the third never |
| Outbox.ClaimLeases | jsonvault-core/internal/store/webhook.go:377-418 | A claimed record is not due for sixty seconds and due from then on |
| Outbox.FreshIsDue | jsonvault-core/internal/store/event_log.go:61-77 | The record of a new event is due at once |
| Outbox.SuccessRemoves | jsonvault-core/internal/store/webhook.go:351-375 | A delivery that succeeded leads to the deletion of its record and of no other |
| Outbox.ProcessOutbox | jsonvault-core/internal/store/webhook.go:351-375 | One undisturbed round is a sequence of at most 100 turns, each a claim of the oldest claimable record and its outcome; it ends early only when nothing can be claimed |
| Outbox.CommittedUntilDelivered | jsonvault-core/internal/store/webhook.go:351-462 | In every run the record under a committed number holds exactly the event of that number, or that event was delivered; without a retry, failed means three attempts |
| Outbox.MoveKeepsInv | jsonvault-core/internal/store/webhook.go:377-462 | Every commit, claim, delivery, deletion, failure, crash and retry keeps each committed event recorded under its number or delivered |
| Outbox.GoneForGood | jsonvault-core/internal/store/webhook.go:454-462 | A record that has left the outbox never comes back |
| Outbox.ClaimsAreALeaseApart | jsonvault-core/internal/store/webhook.go:386-412 | Two claims of one record with no failure, deletion or retry between them are at least 60 seconds apart |
| Outbox.DrainsWithinThreeTurnsEach | jsonvault-core/internal/store/webhook.go:351-375 | Without new events, retries and overlap at most 3n claims of n records can be resolved |
| Outbox.OnlyFailedRemain | jsonvault-core/internal/store/webhook.go:386-412 | When delays and leases have run out and nothing can be claimed, only failed records remain |
| Outbox.DrainsUntilOnlyFailedRemain | jsonvault-core/internal/store/webhook.go:351-412 | One run of turns is at most three times as long as the outbox it began with, and once delays and leases have run out it cannot go on if and only if only failed records remain |
| Feed.Handler.OnMessage | jsonvault-core/internal/httpapi/handlers_subscribe.go:83-95 | A numbered event at or below the last one sent is skipped, any other is written |
| Feed.Handler.Replay | jsonvault-core/internal/httpapi/handlers_subscribe.go:43-56 | Every replayed event is written, in order, without a look at the last one sent |
| Feed.WrittenAllSendsAll | jsonvault-core/internal/httpapi/handlers_subscribe.go:43-56 | What the replay sends is the replayed list itself, and the last one sent becomes the larger of the resume point and the last of the list |
| Feed.RenumberedEventsAreSkipped | jsonvault-core/internal/httpapi/handlers_subscribe.go:83-95 | A client still subscribed when its database is deleted and created again is sent exactly the new events numbered above the last it was sent before |
| Feed.RenumberedFeedIsCompleteIff | jsonvault-core/internal/store/database.go:49-101 | It misses none if and only if no new event of the collection has a number up to that one |
| FeedProofs.SentStrictlyIncreases | jsonvault-core/internal/httpapi/handlers_subscribe.go:39-97 | In every run, from every resume point and with any publishers in any order, the numbers sent to one client strictly increase |
| FeedProofs.SentIsGapFreePrefix | jsonvault-core/internal/httpapi/handlers_subscribe.go:39-97 | With publishers under the write lock and a clean replay, what was sent is always a gap-free, duplicate-free prefix of the events owed, overflow included |
| FeedProofs.DrainedClientHasEverything | jsonvault-core/internal/httpapi/handlers_subscribe.go:39-97 | A live client whose channel is drained, whose subscription was not dropped and whose events have all been published has been sent everything it is owed |
| FeedProofs.ClientCanGoOn | jsonvault-core/internal/httpapi/handlers_subscribe.go:39-97 | A subscriber is never stuck: it replays, sends the replayed events one by one in order, goes live and takes its messages one by one in order |
| FeedProofs.ReplayCompleteIffClean | jsonvault-core/internal/store/event_log.go:112-147 | For every resume point the replayed list is what the client is owed if and only if nothing wanted has left the log or, at 2^64-1, the log retains nothing of the collection |
| FeedProofs.ReplayKeepsFeedIff | jsonvault-core/internal/httpapi/handlers_subscribe.go:43-56 | In every consistent state the replay keeps the feed right if and only if it is clean in that sense |
| FeedProofs.WrappedResumeReplaysAllThenNothing | jsonvault-core/internal/httpapi/handlers_subscribe.go:39-97 | In every run a client resuming from 2^64-1 is sent everything the log retained of the collection, and no event ever after |
| FeedProofs.ClosedIsUnregistered | jsonvault-core/internal/store/events.go:143-158 | A subscription stays registered until a publisher that found its channel full takes it out, and is out before its channel is closed, so nothing is sent on a closed channel |
| FeedProofs.OfferKeepsFeedIff | jsonvault-core/internal/store/events.go:55-84 | In every state with the feed in order an offer keeps it so if and only if it is the next event of the collection with no drop pending, or does not concern the subscription, or finds the channel full |
| FeedProofs.PassedOverIsNeverSent | jsonvault-core/internal/httpapi/handlers_subscribe.go:83-95 | In every run a number not sent when a larger one has been is never sent later |
| FeedProofs.UnlockedPublisherLeavesGap | jsonvault-core/internal/store/store.go:363-371 | In every run an offer that jumps over an event the subscriber is owed, and that no replay brings, loses that event for good while it stays owed |
| FeedProofs.GapStateIsReached | jsonvault-core/internal/store/store.go:363-371 | A run reaches a state in which such an offer can be made |
| FeedLocking.LockedPublishersLeaveNoGap | jsonvault-core/internal/store/document_write.go:44-102 | In every run of the lock protocol, its writers and the subscriber together, with writers that commit and publish between taking and releasing the lock, the feed is gap-free, duplicate-free and strictly increasing, as long as no deletion strands a waiter and the replay is clean |
| FeedLocking.DrainedClientIsUpToDate | jsonvault-core/internal/httpapi/handlers_subscribe.go:39-97 | When no writer owes an event any more, a live client with an empty channel has been sent everything it is owed and nothing else |
| FeedLocking.DeedKeepsLockedIff | jsonvault-core/internal/store/transaction.go:46-267 | Every step of that machine keeps lock, debts and feed in order if and only if it neither forgets a waited-for mutex nor is an unclean replay |
| FeedLocking.TwoInsideCanPublishOutOfTurn | jsonvault-core/internal/store/database.go:93-95 | Two threads inside the lock together can always commit and publish an event out of turn, which breaks the feed |
| WriteLocks.StepKeepsInvIff | jsonvault-core/internal/store/store.go:251-262 | A step keeps the lock protocol if and only if it does not forget the mutex while another thread waits for it |
| WriteLocks.LockExcludes | jsonvault-core/internal/store/store.go:251-262 | In every run in which no deletion strands a waiter, at most one thread is inside the write lock |
| WriteLocks.ReleaseLetsWaitersIn | jsonvault-core/internal/store/store.go:251-262 | Whoever releases the lock is outside, and any thread that waits for it can take it |
| WriteLocks.StrandedWaiterOverlaps | jsonvault-core/internal/store/database.go:93-95 | A stranded waiter can always end up inside together with a later caller |
| HandleGate.AdvanceKeepsInv | jsonvault-core/internal/store/dbhandle.go:25-49 | Each lock operation of each thread keeps the gate invariant |
| HandleGate.NoCallbackAfterClose | jsonvault-core/internal/store/dbhandle.go:25-49 | In every interleaving a thread past the state check has an open database, and a closer holding the gate excludes every callback |
| HandleGate.AdmittedNeverWaits | jsonvault-core/internal/store/dbhandle.go:31-32 | A caller that saw the handle active gets the gate at once |
| HandleGate.ReturnedHasRun | jsonvault-core/internal/store/dbhandle.go:25-49 | A call that returned has run its callback, on an open database |
| HandleGate.UndisturbedCallsReturn | jsonvault-core/internal/store/dbhandle.go:25-49 | While nobody closes the handle every call runs its callback and returns |
| HandleGate.StateDecides | jsonvault-core/internal/store/dbhandle.go:25-49 | Whoever gets on with a handle found it active, whoever is turned away found it closing |
| HandleGate.SomeoneCanAct | jsonvault-core/internal/store/store.go:396-408 | No deadlock: while a thread is unfinished some thread can act |
| HandleGate.EveryMaximalRunFinishes | jsonvault-core/internal/store/store.go:396-408 | Every run is bounded, and one that cannot go on has finished every thread |
| HandleGate.CloserEventuallyCloses | jsonvault-core/internal/store/database.go:75-86 | A run with a closer that cannot go on has closed the database |
| HandleCache.Store.FindOldest | jsonvault-core/internal/store/store.go:453-463 | Finds a least recently used name whatever the iteration order |
| HandleCache.Store.GetDB | jsonvault-core/internal/store/store.go:416-554 | A hit only touches the handle, a closing one is refused, a miss opens a new one within the limit and keeps the most recently used |
| HandleCache.SectionsAreTheCalls | jsonvault-core/internal/store/store.go:416-554 | The interleaved sections are those of the undisturbed calls: a hit only touches, a miss ends by opening |
| HandleCache.EvictionIsEvictAndShut | jsonvault-core/internal/store/store.go:453-480 | An eviction followed by its shutting marks, closes and removes exactly the oldest handle |
| HandleCache.ClosingSections | jsonvault-core/internal/store/database.go:70-93 | A name being deleted is refused at once and out of the cache in the end; closing empties the cache and marks every handle it held |
| HandleCache.NextIsBounded | jsonvault-core/internal/store/store.go:486-554 | Each insertion by `getDB` leaves at most the limit; the cache exceeds it at most by the deletions in progress |
| HandleCache.CacheStaysBounded | jsonvault-core/internal/store/store.go:447-553 | The same bound in every run of interleaved critical sections |
| HandleCache.OneHandlePerFile | jsonvault-core/internal/store/store.go:416-554 | Two handles in use never share a file unless `Close` is about to mark one |
| HandleCache.HandlesGoAstrayExactlyWhenDropped | jsonvault-core/internal/store/database.go:90-92 | A step loses track of a live handle if and only if it is the last section of a deletion whose name was reopened meanwhile |
| HandleCache.CalmRunsLoseNothing | jsonvault-core/internal/store/database.go:70-93 | In every run where names being deleted are not evicted, swapped out or deleted twice no handle goes astray, and after `Close` none is in use |
| HandleCache.AHandleGoesAstray | jsonvault-core/internal/store/database.go:70-93 | A five-step run in which an active, open handle is dropped from the cache |
| RateLimiter.Limiter.PruneExpired | jsonvault-core/internal/httpapi/rate_limit.go:62-68 | Removes exactly the windows that are over |
| RateLimiter.Limiter.AllowRequest | jsonvault-core/internal/httpapi/rate_limit.go:40-60 | Performs exactly the decision step |
| RateLimiter.PruneForgetsNothingLive | jsonvault-core/internal/httpapi/rate_limit.go:62-68 | A window is forgotten if and only if it is over |
| RateLimiter.AtMostLimitPerWindow | jsonvault-core/internal/httpapi/rate_limit.go:40-60 | In every trace of non-decreasing times a window holds at most `limit` grants, windows of a key are a window length apart, and at most `maxKeys` keys are tracked |
| RateLimiter.AtMostTwiceTheLimit | jsonvault-core/internal/httpapi/rate_limit.go:40-60 | Any half-open interval of one window length holds at most 2*limit - 1 grants of a key, one less than twice the limit |
| RateLimiter.IntervalBoundIsMet | jsonvault-core/internal/httpapi/rate_limit.go:40-60 | For every limit and every window of at least two time units some trace meets that bound |
| RateLimiter.RefusedOnlyWhenFull | jsonvault-core/internal/httpapi/rate_limit.go:40-60 | A request is refused if and only if its current window is used up, or it has none and the table is full |

## Left out

- Encryption, JSON parsing and printing, JSON Schema, HMAC and SHA-256: libraries. A document is a map from field to value; acceptance by size limit and schema is a predicate the model is given, so schema conformance is not an invariant (the source checks it before taking the lock).
- Number texts in index values: a number carries the text Go prints for it, and both sides of every comparison use that text. Array and object values appear through their printed form.
- ETagHeader.ParsesExactlyTheWritings: white space is the ASCII kind; Go also trims other Unicode spaces.
- Patch bodies: the size check of the raw body is part of the acceptance predicate, applied to the merged document.
- bbolt's limits on key and bucket-name lengths, which make a write with a very long indexed string fail as a whole.
- The name checks of the index calls, made before their first step, which takes any pair.
- Absent metadata buckets are empty maps; reads of undecodable metadata, and the errors they raise, are not modelled.
- QueryPaths.SearchDocuments: no claim about the total of a search without a filter, where the code reports the collection count.
- TextSearch.SearchFts: the library sort is replaced by an insertion sort; ties between equally long postings may fall otherwise, which the contract does not depend on.
- Sorting.SortAndPageDocuments: the library sort is replaced by insertion; `Sorting.SortedIsUnique` shows that the choice does not matter.
- Context timeouts and cancellation appear only as a builder that may give up at any step; a query that is cancelled returns nothing.
- A process that dies during a build leaves its marker behind; no restart is modelled.
- Outbox.ProcessOutbox: the delivery over the network is an answer the model is given; other workers between its transactions appear in the runs of `Outbox.IsHistory` and of the engine. The text of the last error is not kept.
- The webhook, presence and schema records, whose erasure with the collection is a single key deletion each.
- Feed: the channel carries presence and publish messages without numbers; their order among themselves is not claimed.
- Feed runs in which the database is deleted under a subscription; only what the client makes of the new numbers is stated (`Feed.RenumberedEventsAreSkipped`).
- FullText.RetextKeepsInv: tokens are what the reverse entry returns; for a token cut inside a rune `Utf8.UnindexLeavesNothingIffValid` says what happens instead.
- FeedProofs.SentIsGapFreePrefix: the order of publishing is a hypothesis there; `FeedLocking.LockedPublishersLeaveNoGap` derives it from the steps of the write lock.
- HandleCache: handles are numbers in a table instead of objects, since several critical sections share them. Failures of closing or opening a file are left out.
- HandleGate: one handle at a time; the store's own mutex is not part of this protocol, its critical sections are in HandleCache.
- Backup and restore, statistics, the operation tracker, target concurrency limits, presence and free-space checks: simple state.
- HTTP routing, authentication and capability checks, configuration, metrics, audit, URL safety and network delivery.
- The user interface and the client libraries.
