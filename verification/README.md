# Verification of kapi's stateful parts

This project models the parts of Kopano API that keep state or do exact
arithmetic, and proves what they keep, over every input, every run and every
interleaving of their steps:

| file | what it models |
|---|---|
| `Text.dfy` | splitting keys at the first slash |
| `Base64.dfy` | base64 (section 4 of RFC 4648): streaming encoder, decoder into a sized buffer |
| `KvTable.dfy`, `KvRuns.dfy` | the kv table as a relation and as a map, the writes of the HTTP API, and what holds after every run of them |
| `KvRecord.dfy`, `KvStore.dfy` | records and their JSON envelope, the store class |
| `KvRequests.dfy`, `KvHandlers.dfy` | what requests mean, including what parsing a form leaves of a body; the HTTP handlers as methods on the store |
| `KvLifecycle.dfy` | initialization with retries, closing, and waiting callers of a store |
| `PubsModel.dfy` | the pubs protocol: commands, dispatcher, channels, forwarders, acks |
| `PubsDelivery.dfy`, `PubsChannels.dfy`, `PubsStall.dfy` | conservation of events and effective acks; channels stay open; how far a dispatcher can get past dead connections |
| `PubsPlugin.dfy` | the callbacks, the dispatcher and its publish loop as code on shared fields, with what holds of every such object |
| `ConnectKeys.dfy` | one-time connect keys and their purge |
| `Sticky.dfy` | sticky rules (scanner, parser, printer) and sticky sessions |
| `ServeShutdown.dfy` | the error accounting of the server's shutdown |

Run `dafny verify dfyconfig.toml` to check everything.

## How the parts fit together

*Store.* `KvStore.Store` holds the rows and implements the four statements with
loops; each method's contract says what the table is afterwards as a map from
(key, owner, realm) to the other columns. The handlers' contracts say which
operation (`KvTable.Op`) a request amounts to, and `KvHandlers.Plugin.Serve` that
any sequence of requests is the run of these operations, each request being answered
by the table as it is at that point, recursive GETs by what a key scan of it finds.
`KvRuns` proves the properties of runs. A SELECT with LIMIT 500 may return any 500 of the matching
rows in any order; contracts say no more than that.

*Protocols.* A protocol is a state, an action type and a total `Step`; an action
that is not enabled changes nothing, so every sequence of actions is a run and a
lemma about all sequences is a lemma about all interleavings. Random keys and
identifiers, clocks, the outcome of sends and of database calls are parameters of
the actions. The classes `KvLifecycle.KV`, `PubsPlugin.Hub` and
`ConnectKeys.KeyTable` hold the code; each keeps the run of the model it has gone
through as a ghost field, which its `Valid()` ties to the real fields and every method
extends, so that what is proved of runs holds of the objects. The pubs protocol keeps the log of executed commands in its state;
`Replay` and `Expected` read subscriptions and deliveries off that log and are the
reference the concurrent machinery is compared with.

*The pub/sub library.* cskr/pubsub is not part of this model; its assumed contract
is: one dispatcher executes commands in order; a publish sends once per listed
topic a channel is in and blocks while that channel is full; removing the last
topic closes the channel; unsubscribing without topics removes all of them;
sending on or closing a closed channel panics (`Crashed`).

## Where code and documentation or intent differ

The model follows the code in each of these.

- `plugins/kvs/handlers.go:219` drops the decoded length, so a batch stores the
  whole decode buffer: values whose length is not a multiple of three get zero
  bytes appended (`BatchStoresPadded`, `GetThenBatch`).
- `plugins/kvs/kv/record.go:53-54` emits no content type for JSON records, so what
  GET returns for them is not what a batch PUT takes (`GetThenBatch`).
- `plugins/kvs/README.md:131-132` promises prefix matching; a key without slash
  matches on the collection only (`PrefixPromise`, with the missed PUT in
  `PrefixMissed`).
- `plugins/kvs/kv/kv.go:341-343` rolls back and reports success when no affected row
  was counted (`BatchVanishes`); with counts available that is the empty batch only.
- `plugins/kvs/kv/kv.go:302-309`, `plugins/kvs/kv/kv.go:361-364` and a commit at
  `plugins/kvs/kv/kv.go:346` can report errors after the statements took effect
  (`Fault.Unreported`).
- `plugins/kvs/handlers.go:43` parses the form of every request, and ParseForm of
  net/http reads the body of a PUT with media type application/x-www-form-urlencoded
  itself. Of such a body up to 10 MiB nothing is left: the PUT is answered 200 and stores
  the empty value (`FormPutStoresNothing`), or becomes a batch when the body says so. A PUT
  is read back as sent if and only if it fits the size limit and is no such form, or an
  empty one (`PutReadBackExactly`).
- `plugins/kvs/kv/statements.go:108` reads the statements without the lock that
  `plugins/kvs/kv/kv.go:222` holds, and Close drops them only after it has closed them one by
  one. A caller released before the end of Close can be handed a closed statement
  (`ClosedStatementHandedOut`), exactly when it reads between the closing of that
  statement and the end of Close (`ReadDuringClose`).
- `plugins/kvs/kv/kv.go:317` uses the database without waiting for initialization; the
  batch operation is modelled on an initialized store only. That
  `plugins/kvs/kv/kv.go:322-325` returns without rollback is not visible in the table.
- `plugins/kvs/handlers.go:209` dereferences every batch record and its key. The handler
  panics exactly when the first element that cannot be stored is `null` or has no key
  (`PanicsExactly`, inputs in `PanickingBodies`); after a malformed record it answers 400
  and does not get that far.
- `proxy/httpproxy/sticky.go:55-60` accepts any word as the name of the cookie, but
  net/http neither sets nor finds cookies whose name is not a token (section 3.2.6 of
  RFC 7230). Under such a name no client ever gets the cookie and every request draws a new
  header value (`NoTokenNoSession`, a rule in `RuleWithoutToken`); sessions stick if and only
  if the name is a token (`SticksExactly`).
- `plugins/pubs/plugin.go:157` can wait for a dispatcher that stands before a full channel
  for good (`PubsStall.StuckForGood`); a plugin's Close that does not return keeps Serve from
  returning even on a second signal (`HungForGood`).
- `plugins/pubs/README.md:111-113` puts topics into `data`; the code reads `info`
  (`plugins/pubs/pubsub.go:94-95`). The topics of a message are those the code reads.

## Model

| member | source | states |
|---|---|---|
| `Text.SplitSlash` | plugins/kvs/handlers.go:69 | one or two parts, the first without slash, and the text is put back together from them |
| `Text.SplitSlashUnique` | plugins/kvs/handlers.go:157-160 | the first part is the only slash-free text that can stand before the first slash |
| `Base64.Encoder.Write` | plugins/kvs/kv/record.go:56-58 | whatever is written in however many pieces, output and held bytes together account for all of it |
| `Base64.Encoder.Close` | plugins/kvs/kv/record.go:62 | the streamed output is the start followed by the one-shot encoding of everything written |
| `Base64.DecodeInto` | plugins/kvs/handlers.go:218-219 | fills exactly the decoded bytes into a buffer no larger than its sizing rule, leaves the rest alone, reports malformed text |
| `Base64.DecodeFits` | plugins/kvs/handlers.go:218-219 | no text, malformed or not, decodes to more bytes than the buffer sized from it holds |
| `Base64.DecodeAccepts` | plugins/kvs/handlers.go:219-224 | decoding succeeds exactly on well-formed groups with padding at the very end only, and how many bytes it then yields |
| `Base64.DecodeEncode` | plugins/kvs/handlers.go:219 | decoding undoes encoding for every byte string |
| `Base64.TrimQuoted` | plugins/kvs/handlers.go:219 | trimming quotes undoes quoting of encoded text |
| `Base64.StandardAlphabet` | plugins/kvs/kv/record.go:57 | the symbols, the padding, the quote and the skipped characters, as characters |
| `Base64.GroupDigits` | plugins/kvs/kv/record.go:57 | the four symbols of a full group are the base 64 digits of its three bytes read in base 256 |
| `Base64.NewlinesIgnored` | plugins/kvs/handlers.go:219 | carriage returns and line feeds anywhere in a text change nothing |
| `Base64.TrimExactly` | plugins/kvs/handlers.go:219 | trimming takes away quotes only, and all of them at both ends |
| `KvRecord.EncodeToJSON` | plugins/kvs/kv/record.go:48-69 | the document holds the record's key and, for types beginning with application/json, the value as it is and no content type, otherwise the content type and in double quotes text that decodes to the value; fails exactly on such types with invalid JSON |
| `KvRecord.BatchStoresPadded` | plugins/kvs/handlers.go:216-219 | of the quoted text for v a batch stores v followed by zero bytes up to the next multiple of three |
| `KvRecord.BufferSize` | plugins/kvs/handlers.go:218 | the buffer sized from the quoted text of v is as long as v rounded up to a multiple of three, which is enough |
| `KvRecord.GetThenBatch` | plugins/kvs/kv/record.go:48-69 | sending back what GET returned restores value and content type if and only if the record is not JSON and its length is a multiple of three |
| `KvRuns.BatchCollectionAgrees` | plugins/kvs/handlers.go:199-209 | the collection a batch stores is the one a single PUT of the same key would store |
| `KvRuns.IndexAlwaysDerived` | plugins/kvs/handlers.go:156-163 | after every run every row's collection is the text before the first slash of its key, or empty |
| `KvRuns.IndexAgreesWithScan` | plugins/kvs/handlers.go:68-104 | selecting by collection and filtering by prefix finds exactly what a scan of the caller's keys finds |
| `KvRuns.RecursiveGet` | plugins/kvs/handlers.go:94-104 | whatever rows LIMIT lets through, nothing wrong is listed, and with at most 500 candidates nothing is missed |
| `KvRuns.ExactUnderLimit` | plugins/kvs/kv/statements.go:51-62 | the listing is exact for every choice of LIMIT if and only if the collection fits the limit or nothing is to be found |
| `KvRuns.PrefixMissed` | plugins/kvs/handlers.go:100-104 | for every key without slash, a single PUT that the documented prefix match would list and the code does not |
| `KvRuns.PrefixPromise` | plugins/kvs/README.md:131-134 | the documented prefix match holds on every table if and only if the key has a slash |
| `KvRuns.ExactGetIsSingle` | plugins/kvs/kv/statements.go:38-49 | a GET by key finds one record at most, so LIMIT and the array branch never apply to it |
| `KvRuns.PutIsReadBack` | plugins/kvs/handlers.go:146-179 | a PUT is what its client reads back after any operations that do not touch the key |
| `KvRuns.UntouchedStays` | plugins/kvs/kv/statements.go:64-81 | operations change nothing at slots they do not touch |
| `KvRuns.KeyMatches` | plugins/kvs/kv/statements.go:38-49 | a query by key selects the row in that slot if it is the client's, and nothing else |
| `KvRuns.DeleteExactly` | plugins/kvs/kv/statements.go:76-81 | a DELETE takes away exactly the client's record with that key, all other rows keep their cells |
| `KvRuns.DeletedIsGone` | plugins/kvs/kv/kv.go:350-368 | until somebody touches the key again it is found neither by GET nor by another DELETE |
| `KvRuns.BatchIsPuts` | plugins/kvs/handlers.go:199-228 | a batch at a prefix equals the single PUTs below it, in order, derived collections included |
| `KvRuns.LastDuplicateWins` | plugins/kvs/kv/kv.go:328-338 | of several records under one key the last one is stored |
| `KvRuns.BatchTouchesItsKeysOnly` | plugins/kvs/kv/kv.go:328-338 | slots no record of the batch names stay as they were |
| `KvRuns.OwnerIndependence` | plugins/kvs/kv/statements.go:64-81 | an owner's rows after a run are those of the run without everybody else's operations |
| `KvRuns.SelectIndependence` | plugins/kvs/kv/statements.go:38-62 | so are the rows every SELECT of a user can return, cells included |
| `KvRuns.ClientTakesOver` | plugins/kvs/kv/statements.go:38-81 | a PUT moves the key to its client: until somebody touches it again, another client of the owner neither finds nor deletes it |
| `KvStore.Store.Replace` | plugins/kvs/kv/statements.go:64-74 | at most one row per unique key remains, and the table as a map is updated at that key |
| `KvStore.Store.DeleteWhere` | plugins/kvs/kv/statements.go:76-81 | exactly the caller's row with that key goes, and the number of rows removed is reported |
| `KvStore.Store.SelectWhere` | plugins/kvs/kv/statements.go:51-62 | distinct rows with their contents, all matching, as many as LIMIT allows |
| `KvStore.Store.Get` | plugins/kvs/kv/kv.go:251-288 | one record per selected row, in the order received, or an error |
| `KvStore.Store.CreateOrUpdate` | plugins/kvs/kv/kv.go:291-313 | stores unless refused; an unreported result is an error although the record is stored |
| `KvStore.Store.BatchCreateOrUpdate` | plugins/kvs/kv/kv.go:316-347 | all records in order or none, under failures of every call; success without storing exactly when nothing was counted, an error in spite of storing exactly when the commit went unreported |
| `KvStore.Store.Delete` | plugins/kvs/kv/kv.go:350-368 | found means the caller had the key before and the call succeeded |
| `KvStore.SilentRollbackOnlyWhenEmpty` | plugins/kvs/kv/kv.go:341-344 | with affected rows always counted, only the empty batch takes the silent rollback |
| `KvRequests.RenderedShape` | plugins/kvs/handlers.go:98-117 | an array response is bracketed, has the documents in order and one comma between neighbours |
| `KvRequests.ListedIsKept` | plugins/kvs/handlers.go:101-116 | listed are the envelopes of exactly the kept rows that can be encoded |
| `KvRequests.ListingAfterRun` | plugins/kvs/handlers.go:64-117 | after any run and under the limit, a recursive GET lists exactly the encodable rows of a key scan |
| `KvRequests.DocumentsHold` | plugins/kvs/handlers.go:101-116 | listed is for each encodable row a document that holds its key, value and content type, and no other |
| `KvRequests.PreparedExactly` | plugins/kvs/handlers.go:205-226 | a batch body goes through if and only if each record has a key and a storable value, and then record by record |
| `KvRequests.PanicsExactly` | plugins/kvs/handlers.go:206-225 | a batch body panics, or is malformed, if and only if its first element that cannot be stored has no key, or has one |
| `KvRequests.BatchFlag` | plugins/kvs/handlers.go:43-49 | a PUT is a batch if its form says batch=1 or, where no form says anything, its URL does |
| `KvRequests.WhatIsLeft` | plugins/kvs/handlers.go:43 | handlers read what was sent, of a form only what follows its first 10 MiB and one byte |
| `KvRequests.WhatIsDecoded` | plugins/kvs/handlers.go:182-186 | a batch decodes the body, or its first 8,192,000 bytes as a text that breaks off |
| `KvRequests.IncompleteBatchRefused` | plugins/kvs/handlers.go:182-191 | a batch body whose array is not complete within 8,192,000 bytes is answered 400, however it goes on, and stores nothing |
| `KvRequests.BeyondLimitIgnored` | plugins/kvs/handlers.go:182-191 | of a batch body that exceeds the limit, what lies beyond it matters neither for the answer nor for the table |
| `KvRequests.RequestPanicsExactly` | plugins/kvs/handlers.go:181-213 | a request panics exactly if it is a batch whose body decodes, within the size limit, to such an array, and then stores nothing |
| `KvRequests.FormPutStoresNothing` | plugins/kvs/handlers.go:43 | a non-empty form body is answered 200, stored as the empty value and not read back |
| `KvRequests.PutReadBackExactly` | plugins/kvs/handlers.go:43-179 | the raw GET after a PUT (without database failure or batch flag in its URL) returns the body as sent, on every table, if and only if the body can be read, fits the limit and is no form, or an empty one |
| `KvRequests.PutThenGet` | plugins/kvs/handlers.go:64-179 | after a PUT and any requests that leave the key alone, GET returns the body sent: raw as it is, else in a document, a JSON body as it is |
| `KvRequests.BatchThenGet` | plugins/kvs/handlers.go:181-236 | after a batch, GET of path, slash and key returns what the last entry with that key sent: a JSON value as it is, other values decoded and then zeros |
| `KvRequests.DeleteThenNotFound` | plugins/kvs/handlers.go:238-257 | after a DELETE and any requests that leave the key alone, GET and DELETE of it are answered 404 |
| `KvRequests.PrepareStops` | plugins/kvs/handlers.go:206-225 | the first record that cannot be stored decides the outcome, whatever follows |
| `KvHandlers.Plugin.BatchRecords` | plugins/kvs/handlers.go:205-226 | the array filled in place holds the records of the prepared items |
| `KvHandlers.Plugin.HandleGet` | plugins/kvs/handlers.go:64-144 | the response to every kind of GET, in terms of the table and the rows LIMIT let through |
| `KvHandlers.Plugin.HandleCreateOrUpdate` | plugins/kvs/handlers.go:146-179 | status and new table for readable and unreadable bodies, the size limit and database failures |
| `KvHandlers.Plugin.HandleBatchCreateOrUpdate` | plugins/kvs/handlers.go:181-236 | status and new table for every batch body, size limit and broken reads included, and every database failure |
| `KvHandlers.Plugin.HandleDelete` | plugins/kvs/handlers.go:238-257 | 200 exactly when the caller's record was there and is gone, 404 when it was not there |
| `KvRequests.Effect` | plugins/kvs/handlers.go:34-62 | a request is at most one operation, and one of its own caller in realm user |
| `KvHandlers.Plugin.HandleUserKV` | plugins/kvs/handlers.go:34-62 | the table changes by the request's effect, and the answer is determined by the table and, for a recursive GET, by the rows LIMIT let through; 403 without user, 501 for other methods |
| `KvHandlers.Plugin.Serve` | plugins/kvs/handlers.go:34-62 | any sequence of requests is the run of their effects, each answered by the table at that point, recursive GETs from the empty table on by distinct envelopes of what a key scan finds, all of it under the limit; the index is right after it |
| `KvLifecycle.KV.PrepareStmts` | plugins/kvs/kv/statements.go:84-95 | all four statements or none, whatever the order they are prepared in |
| `KvLifecycle.KV.FinishInitialize` | plugins/kvs/kv/kv.go:196-217 | the last locked step: database, statements and the one closing of `initializing`, or none of it; the attempt is over exactly if it succeeds |
| `KvLifecycle.KV.Close` | plugins/kvs/kv/kv.go:221-248 | exactly the statements there were are closed one by one, in any order, then nothing is left and Close has ended |
| `KvLifecycle.KV.Lookup` | plugins/kvs/kv/statements.go:108-112 | a released caller gets nothing exactly if Close has ended, else the statement asked for, closed exactly if Close has closed it |
| `KvLifecycle.InitializedOnce` | plugins/kvs/kv/kv.go:196-217 | `initializing` is closed at most once, and until Close that means having database and all four statements |
| `KvLifecycle.OnlyFinishInitializes` | plugins/kvs/kv/kv.go:208-215 | only the finishing step of an attempt on an open store closes `initializing` |
| `KvLifecycle.ClosedForGood` | plugins/kvs/kv/kv.go:221-248 | from the beginning of Close no interleaving closes `initializing`, from its end none brings back a database or statement |
| `KvLifecycle.LateCallersFail` | plugins/kvs/kv/statements.go:98-113 | in any continuation of a run in which Close has ended, callers that were not there yet never get a statement |
| `KvLifecycle.ReadDuringClose` | plugins/kvs/kv/statements.go:108-112 | in every run, a released caller fails if and only if Close has ended, and is handed a closed statement if and only if it reads between the closing of that statement and the end of Close |
| `KvLifecycle.ClosedStatementHandedOut` | plugins/kvs/kv/kv.go:233-245 | for every caller and statement, a run in which this happens to a caller that called before Close |
| `KvLifecycle.CloseLeavesNoneOpen` | plugins/kvs/kv/kv.go:233-245 | when Close has ended on an initialized store it has closed each of the four statements |
| `KvLifecycle.FailuresAreRetried` | plugins/kvs/plugin.go:81-99 | in every run the retry goroutine has ended only if the store is initialized, Close has begun, the plugin was closed or its context cancelled |
| `KvLifecycle.CanInitialize` | plugins/kvs/plugin.go:81-99 | as long as none of the latter three has happened, every reachable state has a continuation in which the store gets initialized |
| `KvLifecycle.OneAttemptPerRetry` | plugins/kvs/plugin.go:81-99 | there is one attempt at first and one more for every wait that was over |
| `KvLifecycle.AfterFailure` | plugins/kvs/plugin.go:81-99 | a failed step leads to the wait, the wait to another attempt, or to the end when the plugin is closed or its context cancelled |
| `KvLifecycle.MigrationKnown` | plugins/kvs/kv/kv.go:177-196 | Close finds a migration to stop during every migration, none before the first attempt or after the successful one |
| `KvLifecycle.WaitingCallers` | plugins/kvs/kv/statements.go:98-106 | who waits is released exactly once the store is initialized, and can give up at any time |
| `KvLifecycle.CloseProgresses` | plugins/kvs/kv/kv.go:233-245 | while it holds the lock Close always has a next step, and each brings it closer to its end |
| `KvLifecycle.DrainStep` | plugins/kvs/plugin.go:81-99 | with both quit channels closed neither the retry goroutine nor a Close it waits for gets stuck, and no step takes them away from their end |
| `KvLifecycle.RetryDrains` | plugins/kvs/plugin.go:81-127 | it then takes at most three more steps, at most one of them another call of Initialize, under any interleaving |
| `PubsPlugin.Hub.OnText` | plugins/pubs/events.go:50-89 | dispatch, then ack: one command and one ack owed per accepted message, an error and neither without topics |
| `PubsPlugin.Hub.ForwarderTurn` | plugins/pubs/pubsub.go:68-83 | one turn of the forwarder loop makes progress, and no event of its connection is lost, repeated or overtaken by it |
| `PubsPlugin.Hub.RemoveTopics` | plugins/pubs/pubsub.go:147-163 | removing topics one by one removes the set and closes the channel with the last; when a second close happens |
| `PubsPlugin.Hub.ExecuteNext` | plugins/pubs/pubsub.go:118-163 | the dispatcher's loops over topics leave every registry entry as the log replays it: the listed topics are added, or taken away, and nothing else |
| `PubsPlugin.Hub.Publish` | plugins/pubs/pubsub.go:194 | the publish loop over topics and channels ends with everybody having exactly what the log published to them, or before the full channel of a forwarder that does not run; it never panics if no client unsubscribed from broadcast |
| `PubsPlugin.Hub.Conservation` | plugins/pubs/pubsub.go:34-84 | at every hub, after any calls of its methods, events are conserved and channels within their capacity |
| `PubsPlugin.Hub.NeverPanics` | plugins/pubs/pubsub.go:118-196 | a hub whose clients keep broadcast out of their unsubs has not panicked and has no closed channel of a connection that lasts |
| `PubsDelivery.DeliveryConserved` | plugins/pubs/pubsub.go:34-84 | in every run: sent after hello, held, queued and under way is exactly, in order, what was published to the connection's subscriptions, once per matching listed topic |
| `PubsDelivery.HelloPrecedesAll` | plugins/pubs/pubsub.go:42-60 | there is one hello, before everything else, and channels never exceed 256 |
| `PubsDelivery.HistoryGrows` | plugins/pubs/pubsub.go:131-194 | commands once issued keep their place in the order of execution |
| `PubsDelivery.SubscribedExactly` | plugins/pubs/pubsub.go:118-163 | a connection is in a topic exactly if some sub of it lists the topic and no unsub of the topic and no end came after |
| `PubsDelivery.ClosedExactly` | plugins/pubs/pubsub.go:136-163 | a channel is closed exactly if its connection has once lost the last of its topics |
| `PubsDelivery.ClosingTwicePanics` | plugins/pubs/pubsub.go:136-163 | losing the last topic closes the channel, and panics exactly if it is closed already |
| `PubsDelivery.MatchesCounts` | plugins/pubs/pubsub.go:194 | an event counts once for every place in its list with a subscribed topic |
| `PubsDelivery.AckFollowsCommand` | plugins/pubs/events.go:59-86 | an ack is owed only for the last accepted message, and its command has been issued |
| `PubsDelivery.AckEchoesState` | plugins/pubs/events.go:76-86 | a sent ack carries the state of the last accepted message, once, and one that fails is not sent again |
| `PubsDelivery.AcknowledgedSubEffective` | plugins/pubs/events.go:59-86 | after an acknowledged sub every later publish on its topic reaches the connection with its own copies, at least one, right after all that was published to it before, unless an unsub or its end stands between them |
| `PubsDelivery.AcknowledgedUnsubEffective` | plugins/pubs/events.go:59-86 | after an acknowledged unsub a later publish that lists only its topics adds nothing to what the connection is sent, unless a sub stands between them |
| `PubsDelivery.SendErrorSilences` | plugins/pubs/pubsub.go:57-80 | after the first send error no event is sent to the connection in any continuation, and nothing at all if the hello failed |
| `PubsChannels.ChannelStaysOpen` | plugins/pubs/pubsub.go:118-163 | if nobody names the broadcast topic in an unsub, a connection stays registered under it and its channel open until its end is executed |
| `PubsChannels.NamingBroadcastCloses` | plugins/pubs/pubsub.go:160 | a run that shows the condition is needed: an unsub of broadcast closes the channel of the one connection, which is up |
| `PubsChannels.CrashExactly` | plugins/pubs/pubsub.go:118-196 | when unsubs name topics of a set only, no run sends on a closed channel or closes one twice if and only if broadcast is not in the set |
| `PubsChannels.NeverCrashes` | plugins/pubs/pubsub.go:118-196 | then nothing is ever sent on a closed channel and no channel is closed twice |
| `PubsChannels.EndClosesChannel` | plugins/pubs/pubsub.go:136-145 | once its end is executed the connection is in no topic and its channel is closed |
| `PubsStall.LoadConstant` | plugins/pubs/pubsub.go:69-82 | for a connection nobody drains, the events queued, current and published ahead of a waiting command stay the same in number under every step |
| `PubsStall.OverloadNeverEnds` | plugins/pubs/pubsub.go:136-145 | with more than 256 of them that command and all issued after it are never executed |
| `PubsStall.StuckForGood` | plugins/pubs/plugin.go:129 | a dispatcher before the full channel of a dead connection executes nothing any more, for anybody |
| `PubsStall.LightLoadEnds` | plugins/pubs/pubsub.go:136-145 | with at most 256 for every dead connection a run gets to the command, whatever the others are doing |
| `PubsStall.ReachableExactly` | plugins/pubs/plugin.go:129 | in polite runs a waiting command can still be executed if and only if these events number at most 256 for each of the dead connections |
| `PubsStall.StallBound` | plugins/pubs/plugin.go:129 | with one stopped forwarder, its connection's end can still be executed if and only if the events ahead of it number at most 256 |
| `ConnectKeys.KeyTable.Connect` | plugins/pubs/handlers.go:173-197 | a key can be redeemed after it exactly if it was issued to a named user, for that user, and no other key is affected |
| `ConnectKeys.KeyTable.Redeem` | plugins/pubs/handlers.go:199-210 | succeeds exactly for keys issued and neither redeemed nor purged since, for the user they were issued to, and in no later run again; 403 never occurs, and the key is no older than 90 seconds and the delay of the passes |
| `ConnectKeys.KeyTable.PurgeExpiredKeys` | plugins/pubs/plugin.go:174-187 | collecting and then removing leaves exactly the keys that are not expired, and is a pass of the model that does all its work |
| `ConnectKeys.UndisturbedPass` | plugins/pubs/plugin.go:174-187 | the steps of a pass that nobody disturbs amount to what the purge leaves when it runs alone |
| `ConnectKeys.RedeemedOnce` | plugins/pubs/handlers.go:199-210 | under every interleaving with purging, a key is redeemed at most once, after being issued, for its own named user |
| `ConnectKeys.GoneForGood` | plugins/pubs/handlers.go:199-210 | an issued key that cannot be redeemed any more never can again |
| `ConnectKeys.KeyTable.AtMostOnce` | plugins/pubs/handlers.go:199-210 | at every table, after any calls of its methods, no key was redeemed twice and the keys in it are those that can be redeemed |
| `ConnectKeys.PurgeSparesYoungKeys` | plugins/pubs/plugin.go:174-187 | a purged key was older than 30 seconds when it was removed |
| `ConnectKeys.KeysConserved` | plugins/pubs/plugin.go:174-187 | every issued key is waiting, redeemed or purged, and only one of these |
| `ConnectKeys.RedeemableAge` | plugins/pubs/plugin.go:135-146 | in every run whose purge passes are late by at most d, no key older than 90 seconds and d can be redeemed |
| `ConnectKeys.AgeBoundIsSharp` | plugins/pubs/plugin.go:46-47 | for every d, a run, punctual up to d throughout, in which a key of exactly that age can |
| `ConnectKeys.SweptAway` | plugins/pubs/plugin.go:174-187 | no key in the table is older than the deadline of the last pass that did all its work |
| `Sticky.Scanner.Scan` | proxy/httpproxy/sticky.go:41-42 | yields the words of the text one by one, then the empty token |
| `Sticky.TakeToken` | proxy/httpproxy/sticky.go:49-82 | one token with its argument, the set-cookie fallthrough included, is one step of the parse |
| `Sticky.NewStickyProxyHandler` | proxy/httpproxy/sticky.go:40-86 | the scanner loop computes the parse of the rule's words, and terminates |
| `Sticky.PrintThenParse` | proxy/httpproxy/sticky.go:40-86 | printing any well-formed configuration and reading it gives it back |
| `Sticky.RulesAreWellFormed` | proxy/httpproxy/sticky.go:40-86 | rules describe exactly the well-formed configurations |
| `Sticky.RuleMeans` | proxy/httpproxy/sticky.go:40-86 | a rule is accepted exactly if its words spell directives, and means what they say, the last of each kind counting |
| `Sticky.UnknownRejected` | proxy/httpproxy/sticky.go:80-81 | a rule with a word that is neither a directive nor the argument of one is rejected |
| `Sticky.MissingArgumentStops` | proxy/httpproxy/sticky.go:55-78 | so is one that ends in a directive without its argument |
| `Sticky.ParsePrintParse` | proxy/httpproxy/sticky.go:40-86 | for every accepted rule, parsing, printing and parsing again is parsing |
| `Sticky.Handle` | proxy/httpproxy/sticky.go:88-127 | upstream header, cookie and cache header a request gets, all else unchanged; cookies only under names that are tokens, with the path net/http makes of it |
| `Sticky.RespondExactly` | proxy/httpproxy/sticky.go:88-127 | header and cookie in every case: no name, a cookie sent or not, allowed to set or not |
| `Sticky.SessionsStick` | proxy/httpproxy/sticky.go:92-124 | under a token, for any interleaving of clients, a client starting without cookie gets one header value throughout and one cookie, with that value, at its first request |
| `Sticky.NoTokenNoSession` | proxy/httpproxy/sticky.go:92-124 | under any other name no request gets a cookie and each carries a value of its own |
| `Sticky.SticksExactly` | proxy/httpproxy/sticky.go:88-127 | with set-cookie and set-upstream-header fresh clients stick in all runs if and only if the cookie's name is a token |
| `Sticky.RuleWithoutToken` | proxy/httpproxy/sticky.go:49-61 | an accepted rule under which two requests of one client carry different values |
| `Sticky.BroughtCookieStays` | proxy/httpproxy/sticky.go:93-102 | a client that brings the cookie keeps it, is never given another, and under a token all its requests carry its value |
| `ServeShutdown.RunAccounts` | server/server.go:179-228 | every error is still to come, about to be sent, buffered or received, and none is lost |
| `ServeShutdown.BlockingNeedsErrors` | server/server.go:232-238 | during shutdown a sender blocks only after three plugin errors on the error path, two on the signal path |
| `ServeShutdown.CapacitySuffices` | plugins/grapi/plugin.go:103-134 | the capacity of two suffices for all runs if and only if fewer plugin goroutines than that can fail |
| `ServeShutdown.BlockedForGood` | server/server.go:254-272 | a blocked listener stays blocked and Serve returns on a second signal or not at all |
| `ServeShutdown.ShutdownProgresses` | server/server.go:240-272 | while no plugin's Close hangs, a shutdown that cannot block always has a next step and each one brings it closer to its end |
| `ServeShutdown.HungForGood` | server/server.go:247-252 | once a plugin's Close does not return Serve never does, whatever signals arrive |
| `ServeShutdown.ReturnMeansExit` | server/server.go:256-272 | without a second signal Serve returns only after exitCh was closed |
| `ServeShutdown.ServeReturns` | server/server.go:240-275 | from every shutdown that cannot block and does not hang, a run makes Serve return without a second signal |
| `ServeShutdown.ReturnsUnlessHung` | server/server.go:240-275 | a shutdown that cannot block can still end without a second signal if and only if no plugin's Close hangs |
| `ServeShutdown.SecondSignalReturns` | server/server.go:266-268 | a second signal makes Serve return from every shutdown that does not hang, blocked senders or not |

## Left out

- KvStore.Store.BatchCreateOrUpdate: what happens before initialization and after Close, where the nil database would be dereferenced.
- KvRecord.StoredValue: an absent value is not told from an empty one; that a driver may bind the nil slice of a JSON record without value as NULL, which the column refuses, is left to the fault parameters.
- KvStore.Store.Get: failing scans of a row, which cannot happen for rows written through the handlers.
- PubsPlugin.Hub.Publish: what others do meanwhile, except that the forwarder of a full channel takes turns; all interleavings are in the model's steps.
- PubsPlugin.Hub.OnSubInit: failures to marshal the hello, which has fixed fields.
- PubsPlugin.Hub.HandleWebhookPublish: token decoding, the validation handshake, the size limit and unmarshalable data, which all answer without publishing.
- KvLifecycle.KV.Close: the graceful stop of a migration, the cancelled context and the handles of attempts that end early (`plugins/kvs/kv/kv.go:169-176`, `plugins/kvs/kv/kv.go:200-203`), which are never closed.
- KvLifecycle.KV.Lookup: data races on the unlocked read of the statements; the read is one step, and what happens to a statement between reading and using it is not followed.
- KvRequests.BodyLeft: how ParseForm recognizes media types and splits forms, and how JSON arrays are decoded, which are parameters (`Library`); reading a body is assumed to fail again when it failed once.
- ConnectKeys.KeyTable.PurgeExpiredKeys: requests between its removals; those interleavings are in the model's steps.
- Sticky.Scanner.Scan: the scanner's limit on token length, at which it stops silently.
- Sticky.SessionsStick: clients for which the cookie path does not cover a request, and overlapping first requests of one client, which each draw a value: a request and the receipt of its cookie are one step.
- Sticky.Handle: random values and cookie values that were sent are taken to consist of characters cookies can carry; what the transport does with header names that are no tokens.
- Base64.DecodeInto: zero bytes that Go's decoder may write past the decoded ones in a longer buffer, which holds zeros there already.
- Serve and the grapi goroutines as imperative code: their steps interleave, so they are a state machine; the order of initialization and its early returns are not modelled.
- SQL drivers, migrations, collation and column widths: keys are compared exactly, each statement is atomic and may fail.
- JSON syntax and indentation: an envelope is written as it is, and which values are valid JSON is a parameter.
- Token validation, cookies with HMAC, scopes, CORS, routing, WebSocket transport and the reverse proxy itself.
- Plugin registry, health check, command line, logging and metrics, which would only add easy members.
