# Harnex backend: verified models

Six parts of the Harnex backend hold state, arithmetic or a transformation that has to preserve meaning. This
project models them in Dafny and proves what they promise.

| part | files | kind |
|---|---|---|
| cookie sessions | `WebSession.dfy`, `SessionProtocol.dfy`, `SessionTheorems.dfy` | a class over the session table; a state machine of concurrent requests on one row and a single-use refresh-token family |
| shared spec catalog | `Catalog.dfy`, `CatalogTheorems.dfy`, `Connections.dfy`, `Chunker.dfy`, `StoredOperations.dfy`, `CatalogSearch.dfy` | a database session with transactions, runs of transactions, chunking, search over what they leave |
| documents | `Json.dfy`, `Texts.dfy`, `Fetcher.dfy`, `Enricher.dfy`, `EnricherTheorems.dfy`, `SwaggerPreservation.dfy`, `Execution.dfy`, `PathTemplate.dfy` | Swagger 2 to OpenAPI 3, operations, requests, path templates |
| hybrid search | `RankFusion.dfy` | reciprocal rank fusion over exact rationals |
| rate limiter | `RateLimit.dfy` | in-process deque, Redis script, fallback |
| summary cache | `SummaryCache.dfy`, `SummaryCacheHistory.dfy` | bounded LRU map with a lifetime, against its history |

Where the program changes something step by step, the model has a class or a method with a loop. Each such method is
proved against a specification, mostly a function from the old state to the new one, and the theorems are about that
function and about runs of it. What the main ones of these functions mean is in turn stated by theorems that do not
mention them, in terms of the inputs and of the program's own constants. `Wrappers.dfy` holds `Option`, `Result` and a few
facts on sequences.

## Results that need saying

* **The row lock protects token rotation only if the locking re-read is fresh.** The re-read under `FOR UPDATE`
  (`src/harnex_api/services/web_session.py:400-403`) is documented to return what the winner committed (lines 391-395). The
  statement does not ask for `populate_existing`, and the row is already loaded in the same ORM session, so whether
  it does so is a hypothesis here, `Config.freshRead`. `SessionTheorems.ReuseSafeExactlyWithFreshReads` proves that
  the hypothesis is exactly what is needed: with it, no interleaving ends a session for token reuse without a cause;
  without it, two queued requests do.
* **Reindexing an unchanged document can lose the row.** When a connection is the only one on a row and its document
  has not changed, `_gc_orphan` is called with the row that was just taken over and leaves this very connection out
  of its check (`src/harnex_api/services/ingestion/pipeline.py:105-118`, `210-219`). The row is deleted and the foreign
  key nulled, while the connection reads `ready` with the document's operation count.
  `CatalogTheorems.BoundExactlyUnlessSoleOwner` and `Connections.ReadyHasARowExactlyUnlessSoleOwner` give the exact
  condition; `Connections.SoleOwnerLosesItsRow` is a concrete run; `CatalogTheorems.NextIndexingRestores` shows that
  one more reindex brings a row back. In between, a tenant with no other row finds nothing
  (`CatalogSearch.NoRowNoHits`).
* **Search does not look at a connection's status.** What a client without connections is told says that search
  returns operations of `ready` connections only (`src/harnex_api/mcp/server.py:141-145`). The query has no such filter
  (`src/harnex_api/services/search/vector_search.py:126-178`), and a failed reindex leaves the connection on its row.
  `CatalogSearch.ReadyOnlyExactly` gives the exact condition, `CatalogSearch.FailedConnectionIsSearched` a run.
* **Execution reads the document anew.** An operation id is looked up in the document that the connector loads at
  that time (`src/harnex_api/services/execute/runner.py:196-204`), not in the stored one. A stored chunk is certain to be
  found only while the document is unchanged; `StoredOperations.ExecutedEndpoint` says what is executed otherwise, and
  `StoredOperations.ChangedDocumentMovesTheCall` shows that it can be another endpoint.
* **Being pushed out of the summary cache is not the same as 256 other keys being touched.** An entry found too old
  leaves room. `SummaryCacheHistory.MissExactlyWhenPushedOut` has the exact condition,
  `SummaryCacheHistory.ManyTouchedYetThere` a log that tells the two apart.
* **Both answers that end a session are recorded as `refresh_reuse`**: `invalid_grant` and also
  `unauthorized_client` (`src/harnex_api/services/web_session.py:420-421`). The theorems on causes therefore count a
  rejected client as a cause.
* **`revoke_all_for_user` tells Keycloak before it marks the rows** (lines 496-515), so a row can be live while its family is
  dead. This is one of the causes too.
* **Idle expiry can exceed absolute expiry only before the first touch**, and only when the idle lifetime is the
  longer one (lines 324-327 against 365-368).

## Hypotheses

Clocks do not run backwards, and in `RateLimit` the deque and the script read the same clock (the program reads a
monotonic clock for one and the wall clock for the other). Random identifiers are new: a session id is not in the table, a
sorted-set member is not in the set. Each catalog transaction is atomic. Where
a result says that a loaded document is the one a row was made of, it rests on equal hashes meaning equal documents.
`SpecRow.rawSpec` and the list of chunks stand for the document as it was indexed, in its order: the JSONB column does
not keep the order of keys, and the chunk table has none. Keycloak is reduced to a family of refresh
tokens of which one is current: exchanging it makes the next one current (section 6 of RFC 6749), exchanging any
other is answered `invalid_grant` (section 5.2). Times in `WebSession` are integers of microseconds, those in the rate
limiter and the cache reals of seconds.

## Model

| member | source | states |
|---|---|---|
| WebSession.PostTokenMeaning | src/harnex_api/services/web_session.py:223-253 | tokens come back exactly from a successful reply that carries a refresh token; each stored expiry is 60 seconds before the granted end for long grants (90 and 120 seconds on) and the fixed 30 and 60 seconds from now for shorter or missing ones |
| WebSession.UnexchangedTokenOutlivesTwoMinutes | src/harnex_api/services/web_session.py:239-243 | skew arithmetic: a stored token that passes the check for reuse has more than 120 seconds of its granted life left, so one granted at most 120 seconds never passes |
| WebSession.PurgeNeverChangesLookup | src/harnex_api/services/web_session.py:527-536 | with a non-negative grace a purged row was dead to every lookup from then on anyway |
| WebSession.RefreshWithoutKeycloak | src/harnex_api/services/web_session.py:394-415 | where the token is not presented: the caller's or the locked copy is handed back while it has more than 60 seconds left, a missing or revoked row is an error and stays, an unreadable token ends the session as such |
| WebSession.RefreshAtKeycloak | src/harnex_api/services/web_session.py:416-444 | where it is: the row ends revoked for reuse if and only if the reply is invalid_grant or unauthorized_client, takes the new tokens if and only if the reply brings a refresh token, and is otherwise left alone, whatever the failure |
| WebSession.TouchMeaning | src/harnex_api/services/web_session.py:357-386 | a session not touched again is live exactly until its idle lifetime after the touch or its absolute end, whichever comes first; the touch changes nothing else |
| WebSession.NewRowMeaning | src/harnex_api/services/web_session.py:302-334 | a new session is live exactly for the shorter of its two lifetimes, and holds the tokens given |
| WebSession.PurgeMeaning | src/harnex_api/services/web_session.py:527-536 | a row is purged exactly when its absolute end or its revocation is more than the grace ago |
| WebSession.SessionTable.Create | src/harnex_api/services/web_session.py:302-334 | adds one row with both expiries counted from now and leaves every other row alone |
| WebSession.SessionTable.Lookup | src/harnex_api/services/web_session.py:336-355 | finds a row exactly when it exists, is not revoked and neither expiry has been reached |
| WebSession.SessionTable.Touch | src/harnex_api/services/web_session.py:357-386 | sets last-seen and the idle end, capped by the absolute end, in the named row only; a purged row is not brought back |
| WebSession.SessionTable.SilentlyRefreshIfNeeded | src/harnex_api/services/web_session.py:388-444 | the uncontended refresh: the row and the result for every combination of checks and replies (what they are, the two rows on RefreshOutcome above say); a token is sent to logout if and only if an expiring, readable, unrevoked row was refused with invalid_grant or unauthorized_client, and it is that row's |
| WebSession.SessionTable.Revoke | src/harnex_api/services/web_session.py:469-478 | revokes the row once, tells Keycloak about a readable token, and does nothing on a revoked copy |
| WebSession.SessionTable.RevokeAllForUser | src/harnex_api/services/web_session.py:480-518 | revokes exactly the user's unrevoked rows, counts them, and tells Keycloak exactly their readable tokens |
| WebSession.SessionTable.DeleteExpired | src/harnex_api/services/web_session.py:520-537 | removes exactly the rows past the cutoff, counts them, and changes no lookup answer from then on |
| SessionProtocol.ActKeepsLock | src/harnex_api/services/web_session.py:400-408 | whoever is between locking and committing holds the lock of an existing row and, with a fresh re-read, has the committed row in hand; and every action is exclusive: it changes nothing that another holds the lock for, clears no revocation, brings no purged row back and exchanges no token for such a row |
| SessionProtocol.ExclusiveGuarantees | src/harnex_api/services/web_session.py:391-395 | so no step of another request changes the row, its tokens or the ledger while a request holds the lock, and none takes the lock away |
| SessionProtocol.ActKeepsInvariants | src/harnex_api/services/web_session.py:388-444 | every action, including a crash, keeps all that is said of the row and of the request that takes it: lock, dates, token, causes and spacing |
| SessionProtocol.EndingKeepsRotation | src/harnex_api/services/web_session.py:427-444 | ending a transaction keeps the row's token in step with Keycloak's: the new one committed, or behind for good when the exchange was lost |
| SessionProtocol.KeycloakKeepsTokens | src/harnex_api/services/web_session.py:416-425 | an exchange moves Keycloak one token ahead of the locked row, and a refusal of the row's token or a dead family has a cause |
| SessionProtocol.EndingKeepsTime | src/harnex_api/services/web_session.py:357-386 | what is written to the row keeps the absolute end fixed, the idle end within it after the first touch, and the stored token expiry equal to the skew formula |
| SessionProtocol.RotateKeepsSpacing | src/harnex_api/services/web_session.py:396-408 | an exchange takes place only as long after the one before as the granted lifetime demands |
| SessionTheorems.RunInv | src/harnex_api/api/dependencies/auth.py:196-216 | all of these invariants hold in every state of every interleaving of any number of requests |
| SessionTheorems.RotationSafety | src/harnex_api/services/web_session.py:388-444 | in every run, whenever the row lock is free the row holds Keycloak's current refresh token, exactly unless the tokens of some exchange were lost before they were committed |
| SessionTheorems.PresentedTokenIsCurrent | src/harnex_api/services/web_session.py:277-280 | in every run, a presented token can be exchanged exactly unless there was such a loss or Keycloak ended the family |
| SessionTheorems.FreshReadsAreReuseSafe | src/harnex_api/services/web_session.py:391-395 | with a fresh re-read, refresh_reuse is recorded only after a loss, an ended family or a rejected client |
| SessionTheorems.StaleReadsBreakReuseSafety | src/harnex_api/services/web_session.py:400-403 | without it, for all settings under which a session can live, a run of two requests on a session made from a reply of the token endpoint records refresh_reuse with no such cause |
| SessionTheorems.ReuseSafeExactlyWithFreshReads | src/harnex_api/services/web_session.py:388-425 | that safety holds if and only if the locking re-read is fresh |
| SessionTheorems.UndisturbedRequestIsServed | src/harnex_api/services/web_session.py:427-444 | any run in which a request waits for the free lock of an undisturbed row extends to one where it is served with the next token and the row holds it |
| SessionTheorems.GoneStaysGone | src/harnex_api/services/web_session.py:404-405 | along any run a revoked row stays revoked, a purged one purged, and with a fresh re-read no further exchange takes place |
| SessionTheorems.RevocationIsPermanent | src/harnex_api/services/web_session.py:446-478 | hence every later lookup finds nothing, and nobody is exchanging for the row |
| SessionTheorems.SessionEndsAbsolutely | src/harnex_api/services/web_session.py:324-327 | no run of requests keeps a session live past creation plus absolute lifetime; the idle end stays within it from the first touch, and from the start if the idle lifetime is not the longer one |
| SessionTheorems.PurgeIsInvisible | src/harnex_api/services/web_session.py:520-537 | a purge step of the running system changes no lookup answer |
| SessionTheorems.ServedTokenIsFresh | src/harnex_api/services/web_session.py:396-408 | in every run, a request served without an exchange got a token with more than 120 seconds of granted life left |
| SessionTheorems.RotationsAreSpaced | src/harnex_api/services/web_session.py:239-243 | in every run, exchanges are more than w seconds apart when tokens are granted more than 120 + w seconds |
| SessionTheorems.QueuedRequestsShareOneExchange | src/harnex_api/services/web_session.py:399-408 | in every run, any number of requests queued on a row that needs a refresh cause exactly one exchange by the time one of them is served, if that takes at most w seconds and tokens are granted more than 120 + w |
| SessionTheorems.UncontendedRefreshIsARun | src/harnex_api/services/web_session.py:388-444 | what the class method computes for a lone request, whenever it reads the clock, is a run of the state machine, for every reply Keycloak can give; where Keycloak refuses, the run ends in the refused state followed by the revocation for reuse |
| SessionTheorems.LookupIsARun | src/harnex_api/services/web_session.py:336-355 | a request goes on with the committed row exactly when it is unrevoked and before both its ends |
| SessionTheorems.DecideIsARun | src/harnex_api/services/web_session.py:396-397 | and is served at once exactly when its token has more than 60 seconds left, else it queues for the lock |
| SessionTheorems.RefusalIsARun | src/harnex_api/services/web_session.py:277-280 | Keycloak can refuse any token but the current one of a live family, and may end the family with it |
| SessionTheorems.PurgeIsARun | src/harnex_api/services/web_session.py:520-537 | a row past the cutoff can be purged at any time that nobody holds its lock |
| SessionTheorems.TouchIsARun | src/harnex_api/services/web_session.py:357-386 | an uncontended touch of a served request is a run too, and writes last-seen and the capped idle end |
| SessionTheorems.LogoutIsARun | src/harnex_api/services/web_session.py:446-478 | so is a logout: the live row ends as logged out, and the family ends if the token could be read and Keycloak heard of it |
| SessionTheorems.LogoutAllIsARun | src/harnex_api/services/web_session.py:480-518 | and a logout from everywhere: Keycloak is told, then the unrevoked row is marked |
| Catalog.Session.FindSpec | src/harnex_api/services/ingestion/pipeline.py:95-104 | finds the one row with this identity, or none |
| Catalog.Session.GcOrphan | src/harnex_api/services/ingestion/pipeline.py:195-223 | the row goes, its chunks with it and every reference to it nulled, exactly when it exists and no connection but the excluded one refers to it |
| Catalog.Session.IndexSpec | src/harnex_api/services/ingestion/pipeline.py:78-192 | the tables and the result of both paths and of every failure, including what a failed embedding leaves for the rollback |
| Catalog.Session.IndexAnew | src/harnex_api/services/ingestion/pipeline.py:126-192 | the fresh path alone |
| Catalog.ResolveSourceMeaning | src/harnex_api/services/ingestion/pipeline.py:58-75 | mode by mode, the kind of source and its key, with the fallback where the mode's own setting is missing |
| Catalog.RowsAreSharedExactly | src/harnex_api/services/ingestion/pipeline.py:95-104 | two indexings meet on one row if and only if source, document hash and embedding space agree: the same builtin connector, the same URL, any two uploads of the same bytes |
| Catalog.IndexingSucceedsExactly | src/harnex_api/services/ingestion/pipeline.py:91-192 | indexing succeeds if and only if the row exists, or every operation can be read and has a mapping of responses, there is a vector for each, and the id is free; a failure changes no connection and no earlier row |
| Catalog.Embedded | src/harnex_api/services/ingestion/pipeline.py:147-171 | rows are made exactly when there is nothing to embed or one vector per chunk, and carry the chunks in order, each with its own vector |
| Catalog.IndexingKeepsConsistent | src/harnex_api/services/ingestion/pipeline.py:91-192 | successful indexing keeps identities unique, references valid, and every row's chunks those of its document, counted right |
| CatalogTheorems.CollectingIsExact | src/harnex_api/services/ingestion/pipeline.py:208-219 | collection removes the given row exactly when no other connection refers to it, and touches no other row or connection |
| CatalogTheorems.RebindingIsLocal | src/harnex_api/services/ingestion/pipeline.py:107-108 | before collection, indexing has added at most the row it binds to and changed no other connection |
| CatalogTheorems.CollectionIsSafeAndComplete | src/harnex_api/services/ingestion/pipeline.py:105-124 | indexing never rebinds another connection; of the earlier rows it removes exactly the one this connection was on, exactly when no other is on it; the rest keep row and chunks |
| CatalogTheorems.BoundExactlyUnlessSoleOwner | src/harnex_api/services/ingestion/pipeline.py:105-118 | after success the connection is on a row of this source, document and embedding space, if and only if it was not already the only one on that very row |
| CatalogTheorems.NextIndexingRestores | src/harnex_api/services/ingestion/pipeline.py:126-186 | a row lost that way is back after the next successful indexing |
| CatalogTheorems.IndexingLeavesNoOrphan | src/harnex_api/services/ingestion/pipeline.py:186-223 | indexing leaves no row that nobody refers to |
| CatalogTheorems.ReuseEqualsRecompute | src/harnex_api/services/ingestion/pipeline.py:107-131 | if the equal hash means an equal document, taking over a row returns the counts of indexing afresh (given one vector per chunk), and its chunks are the fresh ones up to the connector line, entirely so for builtin sources |
| CatalogTheorems.FreshIsStored | src/harnex_api/services/ingestion/pipeline.py:126-192 | the fresh path stores the document, the count, and chunk by chunk what was computed with its own vector |
| Chunker.MakeChunks | src/harnex_api/services/ingestion/chunker.py:78-105 | the loop computes the chunk list of the operations, or fails as its first failing element does |
| Chunker.ChunksFollowOperations | src/harnex_api/services/ingestion/chunker.py:84-105 | one chunk per operation, in order |
| Chunker.ChunkMeaning | src/harnex_api/services/ingestion/chunker.py:36-105 | a chunk carries the operation's fields, the id of hash, operation id, method and path, an embedding text with a labelled line for each thing that is not empty, the named parameters in order, and a digest of method, path, each parameter's name, place and requiredness, body and response keys |
| Chunker.ChunksSucceedExactly | src/harnex_api/services/ingestion/chunker.py:84-105 | chunks can be made if and only if every operation's responses are a mapping |
| Chunker.ConnectorIsOnlyAPrefix | src/harnex_api/services/ingestion/chunker.py:36-54 | the connector appears in the embedding text only as a first line of its own |
| Chunker.ChunksDifferOnlyInConnector | src/harnex_api/services/ingestion/chunker.py:78-105 | chunks of one document for two connectors agree in everything but that line |
| Connections.ReindexConnection | src/harnex_api/services/connections.py:132-172 | the tables and the result for a foreign or missing connection, a load error, a crash, a missing document in bare and other modes, and a loaded document |
| Connections.ReindexWithoutDocument | src/harnex_api/services/connections.py:132-163 | without a document a bare URL is ready and any other mode is told that it has no source; a refused document is the connection's error; another tenant's connection is not found; anything else is raised |
| Connections.UploadIsRecorded | src/harnex_api/services/connections.py:175-203 | an upload that does not parse is the connection's error; one that is indexed stays with the connection, which is ready with count and hash |
| Connections.AcceptedExactly | src/harnex_api/services/connections.py:48-58 | the inputs that are accepted, mode by mode, and the message for each that is not |
| Connections.IndexAndRecord | src/harnex_api/services/connections.py:165-172 | the connection goes through indexing to ready with count, hash and time recorded, or the failure is passed on |
| Connections.IngestUploadedSpec | src/harnex_api/services/connections.py:175-203 | as for reindexing, with the uploaded bytes kept only when they parse |
| Connections.CreateConnection | src/harnex_api/services/connections.py:61-84 | a pending connection with the given settings and on no row is added when the input is valid and its id new, and the call succeeds exactly when the vault also takes the credentials; every other end has its own error |
| Connections.DeleteConnection | src/harnex_api/services/connections.py:105-113 | removes the tenant's own connection and nothing else, and reports whether there was one |
| Connections.ReindexInNewSession | src/harnex_api/services/connections.py:206-247 | commits, or rolls back and then records the failure in a second transaction that may fail as well; returns a result exactly in the first case |
| Connections.EventKeepsInv | src/harnex_api/services/connections.py:132-247 | each transaction, however it ends, keeps the catalog consistent and every connection's status settled |
| Connections.EveryRunIsConsistent | src/harnex_api/services/ingestion/pipeline.py:91-192 | over all runs: unique identities, valid references, chunks exactly those of the indexed document with the right count; no committed connection is `indexing`, ready means no error and a time, error means a message; a connection on a row has recorded its hash and count, and the row's source is its own |
| Connections.RunsWithoutDeletionLeaveNoOrphan | src/harnex_api/services/ingestion/pipeline.py:195-223 | over all runs without delete_connection every row is referred to by some connection |
| Connections.DeletionOrphansExactlyItsOwnRow | src/harnex_api/services/connections.py:105-113 | deleting a connection removes no row and leaves one without referrers exactly when it was the last on it |
| Connections.FailedBackgroundRunIsIsolated | src/harnex_api/services/connections.py:232-247 | a background run that does not get through changes at most its own connection's status and error |
| Connections.BackgroundRunStays | src/harnex_api/services/connections.py:220-231 | a background run that gets through leaves what the reindex did |
| Connections.ReadyHasARowExactlyUnlessSoleOwner | src/harnex_api/services/connections.py:165-172 | after a successful reindex the connection reads ready with hash and count, and is on a row if and only if it was not alone on the row of this very document |
| Connections.SoleOwnerLosesItsRow | src/harnex_api/services/ingestion/pipeline.py:105-118 | a concrete run: created, an OpenAPI 3 document uploaded, reindexed unchanged; the connection reads ready and the catalog is empty |
| StoredOperations.StoredChunksAreExecutable | src/harnex_api/services/execute/runner.py:196-204 | after any run, if the document loaded at execution is the one the chunk's row was made of, the chunk's id is found in it, and what is executed is the chunk's own endpoint if and only if no chunk of an earlier operation has the id |
| StoredOperations.ExecutedEndpoint | src/harnex_api/services/execute/runner.py:203-221 | whatever document is loaded: the id is found if and only if the document has an operation with it, and the chunk's endpoint is executed if and only if that is the first such operation |
| StoredOperations.ChangedDocumentMovesTheCall | src/harnex_api/services/execute/runner.py:203-204 | two OpenAPI 3 documents: a chunk of the one, executed on the other, goes to another path |
| Json.Get | src/harnex_api/services/ingestion/enricher.py:107-109 | looking a key up in a decoded mapping finds one of its fields, or says that there is none |
| Json.Put | src/harnex_api/services/ingestion/fetcher.py:122-131 | assigning a key changes what that key reads and no other |
| Json.Omit | src/harnex_api/services/ingestion/fetcher.py:106-108 | copying all but some keys changes what those keys read and no other |
| Texts.SlugIsNormalForm | src/harnex_api/services/ingestion/enricher.py:29-30 | a slug is made of lower-case letters and digits with single inner underscores, and slugging is idempotent and the identity on slugs |
| Texts.SlugMeaning | src/harnex_api/services/ingestion/enricher.py:29-30 | a slug is the lower-cased text's maximal runs of a to z and 0 to 9, in order, joined by single underscores |
| Texts.TrimMeaning | src/harnex_api/services/ingestion/enricher.py:81-88 | stripping takes exactly the white space at the ends |
| Enricher.SegmentsMeaning | src/harnex_api/services/ingestion/enricher.py:35-37 | the segments of a path are its maximal runs of characters other than the slash |
| Enricher.WordsMeaning | src/harnex_api/services/ingestion/enricher.py:69-71 | the words of a summary are its maximal runs of letters, in lower case |
| Enricher.ComputeOperationId | src/harnex_api/services/ingestion/enricher.py:33-43 | the loop over the path's segments computes the generated id, which the next row describes |
| Enricher.GeneratedIdIsExact | src/harnex_api/services/ingestion/enricher.py:33-43 | the id is the method's slug and one part per non-empty segment, in order: a literal's slug, or by_ and the name's slug for a segment that starts with a placeholder; empty parts are left out, the rest separated by single underscores, and if nothing is left it is the slug of the method and _root |
| Enricher.GeneratedIdIsUsable | src/harnex_api/services/ingestion/enricher.py:33-43 | a generated id is not empty and has only slug characters and underscores |
| Enricher.Deduplicate | src/harnex_api/services/ingestion/enricher.py:72-78 | the loop with its seen set keeps each non-empty tag at its first occurrence |
| Enricher.DedupIsExact | src/harnex_api/services/ingestion/enricher.py:72-78 | semantic tags are the non-empty raw tags, each once |
| Enricher.DedupKeepsFirsts | src/harnex_api/services/ingestion/enricher.py:72-78 | in the order of their first occurrences |
| Enricher.ComputeSemanticTags | src/harnex_api/services/ingestion/enricher.py:59-78 | the loops over declared tags and segments, and the deduplication, compute the semantic tags |
| Enricher.SemanticTagsAreExact | src/harnex_api/services/ingestion/enricher.py:59-78 | the semantic tags are each once and all non-empty slugs, the verb's first; they are exactly those of the verb, the declared tags, the path segments that are no placeholders, and the words of the summary |
| Enricher.SemanticTagsInOrder | src/harnex_api/services/ingestion/enricher.py:59-78 | and they stand in the order of their origins: the verb, the declared tags' slugs, the slugs of literal segments, the words of the summary, each at its first place |
| Enricher.Enrich | src/harnex_api/services/ingestion/enricher.py:91-147 | the walk over paths and methods computes the operation list of the document, or the first error on the way |
| Enricher.EnrichMethods | src/harnex_api/services/ingestion/enricher.py:106-146 | the inner loop over the seven methods of one path |
| EnricherTheorems.SummaryMeaning | src/harnex_api/services/ingestion/enricher.py:81-88 | the given summary stripped, or the first line of the description stripped where the summary is blank or no text, or the method in capitals and the path |
| EnricherTheorems.OperationMeaning | src/harnex_api/services/ingestion/enricher.py:106-146 | an operation can be read if and only if its tags and both parameter lists can be iterated over; its id, texts, tags, parameters, body, responses and semantic tags then come each from its own key, with the defaults stated |
| EnricherTheorems.EnrichReadsInOrder | src/harnex_api/services/ingestion/enricher.py:91-147 | the list of operations is the document's: path by path in its order and, within a path, in the order of the seven methods, exactly the declared mappings, each read as above |
| EnricherTheorems.EnrichSucceedsExactly | src/harnex_api/services/ingestion/enricher.py:91-147 | a document is read if and only if each of its operations can be |
| EnricherTheorems.EnrichIsExact | src/harnex_api/services/ingestion/enricher.py:102-147 | each path and method is emitted at most once, and exactly those that the document declares as mappings |
| Fetcher.LastBodyIsLast | src/harnex_api/services/ingestion/fetcher.py:110-115 | the body parameter that counts is a body parameter after which there is no other |
| Fetcher.DetectFormatMeaning | src/harnex_api/services/ingestion/fetcher.py:52-57 | which documents count as OpenAPI 3 and which as Swagger 2 |
| Fetcher.ConvertParamMeaning | src/harnex_api/services/ingestion/fetcher.py:117-121 | a converted parameter has no type and no format; its schema is the declared one, or else, if a type is given, exactly what the parameter has for type, format and enum, or else none; every other key is kept |
| Fetcher.UpconvertSucceedsExactly | src/harnex_api/services/ingestion/fetcher.py:60-134 | a document converts if and only if its paths, if given, are a mapping and everything under a method's name, in any case, is a mapping with iterable parameters and, if a body is among them, texts for content types |
| Fetcher.SplitParams | src/harnex_api/services/ingestion/fetcher.py:109-121 | the loop separates the converted parameters from the last body parameter; what the two are, ConvertParamsIsFilter and LastBodyIsLast say |
| Fetcher.ConvertOneOperation | src/harnex_api/services/ingestion/fetcher.py:106-130 | the conversion of one operation |
| Fetcher.ConvertOneField | src/harnex_api/services/ingestion/fetcher.py:102-131 | one entry of a path: a method is converted, anything else, the parameters of the path among them, is carried over as it is |
| Fetcher.ConvertOneItem | src/harnex_api/services/ingestion/fetcher.py:101-132 | the conversion of one path, entry by entry, with its first error |
| Fetcher.UpconvertSwagger2 | src/harnex_api/services/ingestion/fetcher.py:60-134 | the conversion of a document, or the first error on the way |
| SwaggerPreservation.OperationKeeps | src/harnex_api/services/ingestion/fetcher.py:106-108 | a converted operation keeps every key but consumes and produces, which go, and its parameters and body |
| SwaggerPreservation.ConvertParamsIsFilter | src/harnex_api/services/ingestion/fetcher.py:109-121 | the converted list holds, in order, one entry for each parameter that is a mapping and no body, converted as ConvertParamMeaning says |
| SwaggerPreservation.ContentIsExact | src/harnex_api/services/ingestion/fetcher.py:125-126 | the content of a request body holds exactly the consumed types, each with the schema |
| SwaggerPreservation.OperationPreserved | src/harnex_api/services/ingestion/fetcher.py:106-130 | one converted operation is read as the original: same id, texts, tags and responses, the path's parameters first and unchanged, its own ones with their types as schemas, and its own last body parameter as the request body: required as it was, with its schema for each type the operation or the document consumes |
| SwaggerPreservation.ConversionPreservesOperations | src/harnex_api/services/ingestion/fetcher.py:60-134 | reading the converted document gives the original's operations one for one in order, preserved as above, parameter by parameter, with the parameters that the document declares for the operation's own path; the converted document passes as OpenAPI 3 |
| SwaggerPreservation.ConvertedDocument | src/harnex_api/services/ingestion/fetcher.py:69-72 | it says version 3.0.3 and carries the original's info, or a default one |
| Execution.Find | src/harnex_api/services/execute/operation.py:38-42 | finds the first operation with the id, or says that there is none |
| Execution.IndexedIsExecutable | src/harnex_api/services/ingestion/chunker.py:78-105 | for each chunk of a document, find_operation returns the first operation with its id, the chunk's own endpoint exactly when no earlier operation has the id |
| Execution.Split | src/harnex_api/services/execute/operation.py:61-67 | the loop sorts the parameters into the four locations |
| Execution.SplitSucceedsExactly | src/harnex_api/services/execute/operation.py:61-67 | it fails if and only if some parameter is no mapping or has a list or a mapping for its location |
| Execution.SplitIsExact | src/harnex_api/services/execute/operation.py:61-67 | each location holds the mappings that name it, in order |
| Execution.CollectRequired | src/harnex_api/services/execute/operation.py:70-78 | the loop collects the required names |
| Execution.RequiredNamesMeaning | src/harnex_api/services/execute/operation.py:70-78 | a name is required exactly when some parameter with that text name is marked required |
| Execution.BuildRequestExactly | src/harnex_api/services/execute/operation.py:81-105 | every answer under its exact condition: a malformed parameter, the required query names that are not given, a required body that is not, the first placeholder without a value, or a request with the operation's method and id, the headers and body supplied, each query value and each placeholder's value as it is sent (a flag as true or false, a text as it is, anything else as shown) |
| Execution.ConversionKeepsRequired | src/harnex_api/services/ingestion/fetcher.py:109-121 | a query name is required after conversion if and only if it was before |
| Execution.ConvertedDocumentIsEnforcedAlike | src/harnex_api/services/execute/operation.py:81-105 | for every operation of a converted document, a missing body is refused if and only if the query is complete and the last body parameter that the operation itself declares is required (where it declares none, the original asked for a body); the same query names are required as in the original |
| Execution.ConvertedOperationIsEnforcedAlike | src/harnex_api/services/execute/operation.py:81-105 | the same of one operation and the parameters of its path |
| PathTemplate.PrintOfPieces | src/harnex_api/services/execute/operation.py:17 | reading a template into literals and placeholders and printing it again gives it back |
| PathTemplate.PiecesOfPrint | src/harnex_api/services/execute/operation.py:17 | that reading is the only canonical one |
| PathTemplate.SubstituteFills | src/harnex_api/services/execute/operation.py:51-58 | substitution succeeds exactly when every placeholder has a value, and puts the values between the literals without reading them again |
| PathTemplate.FillIsPartByPart | src/harnex_api/services/execute/operation.py:51-58 | so the filled template is, piece by piece, the literal's character or the placeholder's value |
| PathTemplate.FirstMissingIsNamed | src/harnex_api/services/execute/operation.py:52-56 | a failed substitution names the first placeholder without a value |
| PathTemplate.IdentityOnOwnNames | src/harnex_api/services/execute/operation.py:51-58 | giving each placeholder its own braced name gives the template back |
| PathTemplate.NoPlaceholderRemains | src/harnex_api/services/execute/operation.py:51-58 | if only placeholders have braces and no value does, none is left in the result |
| RankFusion.Newest | src/harnex_api/services/search/vector_search.py:126-143 | the connection chosen for a chunk is a most recently created one of the tenant and filter that shares its spec, and there is one exactly when any qualifies |
| RankFusion.CandidatesAreExact | src/harnex_api/services/search/vector_search.py:126-143 | the candidates are exactly the reachable chunks, each once, with such a connection |
| RankFusion.ScoreBounds | src/harnex_api/services/search/vector_search.py:162-170 | a fused score lies in (0, 2/61] |
| RankFusion.ScoreMonotone | src/harnex_api/services/search/vector_search.py:162-170 | a better rank in either channel is a strictly better score |
| RankFusion.DominanceExactlyUpToLimit | src/harnex_api/services/search/vector_search.py:25-30 | being found by both channels beats being found by one at any ranks, if and only if the channel limit is at most k + 1; so with 60 and 50 |
| RankFusion.SortKeeps | src/harnex_api/services/search/vector_search.py:171-178 | ordering by score is descending and a permutation |
| RankFusion.SearchIsCorrect | src/harnex_api/services/search/vector_search.py:126-178 | each chunk at most once, with a newest of the tenant's connections on its row; found exactly when it is among the first 50 of one ranking, and scored with the sum of one over 60 and its place in each; descending; of length top_k or all there are; whatever is left out scores no better than what is listed |
| RankFusion.HitsAreFound | src/harnex_api/services/search/vector_search.py:144-170 | the same of the hits before they are ordered, by places in the rankings alone |
| RankFusion.SemanticAloneKeepsItsOrder | src/harnex_api/services/search/vector_search.py:144-178 | when no text matches, the answer is the head of the semantic ranking in its own order, as long as asked for, at most 50 |
| RankFusion.BothChannelsComeFirst | src/harnex_api/services/search/vector_search.py:144-178 | in any answer, what is among the first 50 of both rankings stands before what is among those of one |
| RankFusion.AnswerIsFilled | src/harnex_api/services/search/vector_search.py:144-151 | as the semantic channel ranks every candidate, the answer has top_k entries or as many as there are candidates, up to 50 |
| CatalogSearch.HitsComeFromTheCatalog | src/harnex_api/services/search/vector_search.py:126-178 | after any run of catalog transactions, a hit is a stored chunk reached through a newest of the tenant's connections on its row; that connection has recorded the row's hash, and is ready, or failed exactly when it has an error |
| CatalogSearch.HitsAreExecutable | src/harnex_api/services/execute/runner.py:196-204 | if the document loaded at execution is the one the row was made of, the operation id of a hit is found in it |
| CatalogSearch.ReadyOnlyExactly | src/harnex_api/mcp/server.py:141-145 | after any run, a tenant's searches return operations of ready connections only, if and only if every newest connection on a row with chunks is ready |
| CatalogSearch.FailedConnectionIsSearched | src/harnex_api/services/search/vector_search.py:137-142 | a run after which that is not so: a document uploaded, a later reindex rejected |
| CatalogSearch.ReachableIsCandidate | src/harnex_api/services/search/vector_search.py:137-142 | every chunk of a row that one of the tenant's connections is on is a candidate |
| CatalogSearch.NoRowNoHits | src/harnex_api/services/search/vector_search.py:137-142 | a tenant none of whose connections is on a row finds nothing |
| CatalogSearch.ListingExists | src/harnex_api/services/search/vector_search.py:137-138 | the tables can be listed, whatever they hold, so the results on search are about every catalog |
| RateLimit.SpreadBoundsEveryWindow | src/harnex_api/api/dependencies/rate_limit.py:46-62 | times of which no 21 consecutive ones fit in a window leave at most 20 in any window |
| RateLimit.Limiter.Prune | src/harnex_api/api/dependencies/rate_limit.py:46-50 | the loop drops exactly the stale front of one host's deque |
| RateLimit.Limiter.EnforceInMemory | src/harnex_api/api/dependencies/rate_limit.py:53-62 | admits exactly when fewer than 20 are left after pruning, and then appends |
| RateLimit.RemoveOld | src/harnex_api/api/dependencies/rate_limit.py:29 | the removal by score drops exactly the stale front |
| RateLimit.Limiter.Script | src/harnex_api/api/dependencies/rate_limit.py:28-37 | the script's answer, the scores it leaves in order, and the key's expiry; other hosts are untouched |
| RateLimit.Limiter.Enforce | src/harnex_api/api/dependencies/rate_limit.py:78-125 | Redis decides when it answers, the deque when it is not configured or fails, whether or not the script had run before the failure |
| RateLimit.EveryWindowIsBounded | src/harnex_api/api/dependencies/rate_limit.py:46-62 | in any run every 60-second window, closed for the deque and half-open for the script, holds at most 20 admitted requests |
| RateLimit.RefusedExactlyWhenFull | src/harnex_api/api/dependencies/rate_limit.py:55-62 | a request is refused if and only if 20 were admitted in the window that ends now |
| RateLimit.RefusedByTheTwentieth | src/harnex_api/api/dependencies/rate_limit.py:55-62 | in other words, exactly when the 20th last admission is within 60 seconds, the far end counted by the deque and not by the script |
| RateLimit.PrunedIsTheWindow | src/harnex_api/api/dependencies/rate_limit.py:46-50 | after pruning the queue is exactly the sorted end of the admitted times that lies in the window |
| RateLimit.ExpiryIsInvisible | src/harnex_api/api/dependencies/rate_limit.py:34-35 | the 65-second key expiry never changes what the script keeps or answers |
| RateLimit.EachServesItsOwn | src/harnex_api/api/dependencies/rate_limit.py:78-125 | in a mixed run each limiter goes through a run of its own on the requests it was asked about |
| RateLimit.ThroughIsBoth | src/harnex_api/api/dependencies/rate_limit.py:104-118 | requests let through in a window are the two limiters' admissions there, less those whose answer was lost |
| RateLimit.SwitchingAtMostDoubles | src/harnex_api/api/dependencies/rate_limit.py:104-118 | however a run switches between Redis and the deque, at most 40 get through in any half-open 60 seconds |
| RateLimit.CallsServeBoth | src/harnex_api/api/dependencies/rate_limit.py:78-125 | any sequence of Enforce calls for a host, key expiry included, keeps and admits what that run says |
| RateLimit.RepliesExactly | src/harnex_api/api/dependencies/rate_limit.py:78-125 | each single reply of such a sequence: admitted unless 20 admissions of the limiter that answers lie within 60 seconds |
| RateLimit.LimiterIsBounded | src/harnex_api/api/dependencies/rate_limit.py:78-125 | so no sequence of calls on a limiter admits more than 40 in any half-open 60 seconds |
| RateLimit.DoublingIsReached | src/harnex_api/api/dependencies/rate_limit.py:104-118 | and some run reaches 40 |
| SummaryCache.Cache.Get | src/harnex_api/mcp/server.py:90-100 | the answer and the new order: nothing, an expired entry deleted, or a hit moved to the end with its age kept |
| SummaryCache.Cache.Set | src/harnex_api/mcp/server.py:103-108 | the entry goes last with a new age, and the front is evicted down to 256 |
| SummaryCache.Cache.ConnectionSummary | src/harnex_api/mcp/server.py:164-172 | a cached answer is returned as it is; otherwise the loaded text is returned and set under the caller's tenant and scope, with the effect of a get and a set on all entries |
| SummaryCache.CallersShareExactly | src/harnex_api/mcp/server.py:76-81 | two callers share an answer if and only if tenant, scope type and the connections in scope agree |
| SummaryCacheHistory.Bounded | src/harnex_api/mcp/server.py:103-108 | after any calls at most 256 entries, one per key |
| SummaryCacheHistory.HitIsLatestAndFresh | src/harnex_api/mcp/server.py:90-100 | a hit returns the value set last for the key, at most 30 seconds ago: reading does not renew |
| SummaryCacheHistory.MissExactlyWhenPushedOut | src/harnex_api/mcp/server.py:90-108 | a key set at most 30 seconds ago is missing if and only if, since its last touch, 256 other keys have stood behind it at once, those that a get found too old not counted any more |
| SummaryCacheHistory.MissMeansManyTouched | src/harnex_api/mcp/server.py:103-108 | so it is missing only if at least 256 other keys were touched since its last touch |
| SummaryCacheHistory.ManyTouchedYetThere | src/harnex_api/mcp/server.py:96-98 | and 256 touched keys do not suffice: a log with that many, in which the key is still answered |
| SummaryCacheHistory.LogAgrees | src/harnex_api/mcp/server.py:90-108 | the map, its order included, agrees with the history of calls, and every absence has a reason |

## Left out

- SessionProtocol: one row and its token family; rows do not interact, except through `revoke_all_for_user`, which is modelled for all rows in `WebSession`.
- Session fields that nothing here decides on: id token, claims, CSRF token, IP address and user agent; ciphertext is modelled as readable or not.
- A token endpoint reply that lacks an access token, or whose lifetimes are no integers, and a missing client secret: they raise before anything is written, as no reply does.
- RateLimit.Limiter.Script: the random member is taken as not in the set.
- RateLimit.Limiter.Enforce: an exception from the Redis client that is no RedisError is raised to the caller and decides nothing.
- RankFusion.SearchIsCorrect: the vector and full-text rankings are inputs, each listing a chunk once, the first one a ranking of all candidates where `AnswerIsFilled` and `SemanticAloneKeepsItsOrder` say so; chunks that tie in score, and connections created at the same instant, may come in any order in SQL, here in one.
- Fetcher.UpconvertSwagger2: `servers`, `components` and security schemes of the converted document; nothing that is read into an operation here comes from them.
- Enricher.Enrich: `security` and `auth_scheme_keys` of an operation; the conversion does not keep them.
- Fetcher.ConvertOneOperation: a content type in `consumes` that is no text is an error here, where a mapping with another hashable key would be built.
- Chunker.MakeChunks: a parameter name that is no text is not listed in the embedding text; a digest is represented by what is digested, keys in document order.
- Texts.SlugIsNormalForm: letters, case and white space are ASCII.
- Json: numbers are integers; decoding, validation and the fetch of a document are not part of this model. Validation comes after the up-conversion (`src/harnex_api/services/ingestion/fetcher.py:148-155`) and admits fewer documents than the results here speak of: one whose paths still hold a body parameter is rejected there.
- Catalog.Session.IndexSpec: a vector's length against the column's dimension; the spec URL is held in normal form, so `_normalize_url` is not part of this model.
- Catalog.Session: two transactions at once; the unique constraint that a race would hit is the invariant here.
- Connections.CreateConnection: the connection's name, base URL and auth settings after validation; what the connector registry knows is a parameter.
- Connections.ReindexConnection: which loader was asked and what it did; its outcome is a parameter.
- Connections.DeleteConnection: the best-effort deletion of the vault secret and the cascade to executions.
- Routes, middleware, settings, connectors, auth strategies, the sandbox, skills and the web interface.
