# LLM gateway: metering, keys and prices

A Dafny model of the gateway's metering protocol, key lifecycle and pricing, with its
properties proved. `dafny verify dfyconfig.toml` checks the whole project.

- **Usage ids and ledgers** (`UsageIds`, `Ledger`, `Rows`, `Machines`): UUIDv7 ids (RFC 9562,
  section 5.7 and section 6.2, Method 1), the cursor codec on their printed form, and each proxy
  machine's generator, floor and table.
- **Reading usage** (`ReadPromises`, `MergedUsage`, `LivePaging`, `ApiUsage`, `ApiPaging`, `FreshReads`): the proxy's
  watermark merge, paging while every machine keeps writing, the api's page over ingested rows, paging
  it while rows are ingested, and all of it end to end from the machines to the api's reader.
- **Replication** (`Gateway`, `UsagePoller`, `Replication`): the api's tables and transactions, the
  poll loop, and any number of passes on any number of api machines interleaving with writes, key
  changes and failures.
- **Keys** (`KeyLifecycle`, `KeyRoutes`, `DeriveLimits`, `KeyCache`, `Auth`): mint, derive, revoke and
  budgets as a state machine and as handlers on one table, the derive transaction statement by
  statement, the proxy's cache and both admissions.
- **Money and bodies** (`Pricing`, `Prices`, `PriceLoads`, `Extraction`, `UsageShapes`, `CutStreams`, `BodyRewrite`,
  `KeyOrder`): the two cost functions, the price list and its copies in memory, usage out of a response
  and out of a stream that ends early, and the rewrite of the request body with its key order.

Stored costs and budgets are integer micro-dollars; rates and reported token counts are reals. A
clock reading is any integer unless a contract bounds it, so clocks may step back. A usage id is
(ms, counter, 64 bits after the version group); its printed string is modelled too. One machine is
one process lifetime. Signature checks, hashing and I/O are inputs. A class method called `Others`
stands for whatever other requests do to the object between two of a method's own steps: callers
know of it only that the class invariant holds afterwards.

## Where the code and its words differ

The model follows the code. For each difference a lemma says exactly when the words hold; where that
is a matter of runs, another gives a run in which they do not.

- `api/src/lib/usage-poller.ts:311-312` says the interval loop and readers never poll concurrently on
  one api machine. A call between a pass's end and its queue's start makes two passes run at once
  (`Replication.PassesCanOverlap`). Over a run an api's passes stay apart exactly when its queue never
  fires over an unfinished pass (`Replication.PassesStayApartIff`), which needs a pass started while a
  queue waits (`Replication.ExposedIffStartedOverQueue`). The barrier holds regardless.
- `api/src/routes/keys.ts:521-532` caps active children, but budget raises can reactivate siblings
  between the count and the commit, by any number (`DeriveLimits.CapCanBeExceeded`).
  `DeriveLimits.CapHoldsAtCommit` says exactly when the cap holds.
- Revoking a root does not revoke a child whose derive had already read the parent
  (`KeyLifecycle.LateChildIsPossible`); no live child is left exactly when no derive inserts under a
  parent revoked by then (`KeyLifecycle.CascadeHoldsIff`). Admission denies such a child
  (`Auth.RevokedRootAdmitsNobody`).
- The proxy's lookup by id does not check the key's type, the api's does: `Auth.AdmissionsAgree` names
  exactly the tokens on which they part. The api signs none of them.
- `usageIDAtLeast` prints a thirteenth digit for times past 48 bits and then selects too much
  (`UsageIds.AtLeastIsExact`), where the api's query fails instead (`ApiUsage.KeyHolderPage`).
- A usage block without a completion count reads differently from a stream and from a body
  (`Extraction.OpenAiBlockReadsTheSame`).
- `api/src/routes/usage.ts:131-134` says an answer has every row written before the request. It has
  those past its `since` (`FreshReads.AnswersAreFresh`), but a row can be ingested behind a cursor
  already handed out (`ApiPaging.RowCanComeLate`): only one recorded after the call, on a machine whose
  clock was behind (`FreshReads.LateRowsAreNew`). Pages are exactly-once if and only if none does
  (`ApiPaging.ExactlyOnceIffNoneCameLate`).
- A stream cut inside a line that is no JSON, but has a beginning that is, can report usage the whole one
  does not (`CutStreams.CutCanReportMore`); `CutStreams.CutLineIsSafeIff` says which lines.
- With two latest applying price rows the query's row order decides the price (`Prices.TiesAreAmbiguous`),
  and only then (`Prices.PriceIsDetermined`); nothing in the schema forbids them.
- `api/src/lib/pricing.ts:101-105` says a cleared cache uses a new row at once; a load answered before
  the insert can still store the older list (`PriceLoads.OldListComesBack`). It holds exactly when none
  does (`PriceLoads.ClearedCacheUsesRow`).
- `proxy/catalog.go:156-157` compares its key order with a JavaScript spread, which moves integer-like
  keys to the front (`KeyOrder.OrderCanDiffer`). The orders are the same exactly when such keys are an
  ascending prefix (`KeyOrder.OrderIsJavaScripts`).

## Model

| member | source | states |
|---|---|---|
| UsageIds.StringOrderIsIdOrder | proxy/ledger.go:144-147 | Sorting printed ids sorts by time, then counter, then the rest; printing is injective; string order refines cursor order |
| UsageIds.CursorRoundTrip | proxy/usage.go:121-128 | Reading the cursor back from the printed id gives its (ms, counter); below 2^53 for 2^41 ms after the epoch, so a float carries it exactly |
| UsageIds.AtLeastIsExact | proxy/usage.go:130-138 | For every cursor a 64-bit `since` can hold, the string filter selects exactly the ids at or above the cursor if and only if the cursor's time fits 48 bits |
| UsageIds.OverlapReachesBack | api/src/lib/usage-poller.ts:117-124 | Polling after the overlap of the newest stored id asks for exactly the ids from ten seconds before it on |
| UsageIds.ZeroIsFirst | api/src/lib/usage-poller.ts:100-101 | With nothing stored the poll starts before every possible id |
| Rows.PageIsShortestCut | proxy/usage.go:377-384 | A page is the shortest prefix with enough rows that splits no group of equal cursors |
| Rows.PageIsCursorPrefix | proxy/usage.go:377-384 | A page holds exactly the rows up to its last cursor |
| Ledger.TickIsOneNumber | proxy/ledger.go:148-160 | An id's (ms, counter), as one number, is the larger of the lowest unused one and the clock; the counter stays within 12 bits |
| Ledger.FloorIsOneNumber | proxy/ledger.go:182-194 | The floor is that same number, and the state after it can make nothing lower |
| Ledger.RunIsMonotone | proxy/ledger.go:144-194 | Over any mix of id and floor calls with any clock readings: ids strictly increase, a floor is above every earlier id, at most every later one, never falls, and is at least the time passed in |
| Ledger.FloorIsTight | proxy/ledger.go:176-181 | No larger floor would be right: the next id can be exactly at it |
| Ledger.FillBytes | proxy/ledger.go:162-171 | The in-place byte loop writes the 48-bit time, version and counter, and the variant, and keeps the other random bits |
| Ledger.FormatId | proxy/ledger.go:162-174 | The sixteen bytes print as the id's string |
| Ledger.UsageLedger.constructor | proxy/ledger.go:54-58 | A new ledger is empty with its clock at zero |
| Ledger.UsageLedger.Uuidv7 | proxy/ledger.go:148-174 | The method moves the clock as the one-number clock does and returns the printed id of the new state |
| Ledger.UsageLedger.UsageFloor | proxy/ledger.go:182-194 | Answers the lowest (ms, counter) any later id can have and keeps every stored row below it |
| Ledger.UsageLedger.RecordUsage | proxy/ledger.go:214-231 | Id and insert are one step: a stored row carries the id made for it, above all before and below all after; a failed insert changes only the clock |
| Machines.RecordingKeepsMachines | proxy/ledger.go:214-231 | A recorded row is the only new one, at or above everything its machine could have handed out before |
| MergedUsage.WantedIsAfterSince | proxy/usage.go:233-251 | The WHERE clause of a share keeps exactly the rows of the caller's tree or key that equal every filter given, lie past `after` and have a cursor above the `since` sent |
| MergedUsage.LocalPage | proxy/usage.go:233-260 | A share holds only stored rows of the caller's tree or key that pass every filter, lie past `after` and above the `since` sent, in id order, each with its cursor as id; it holds all of them, or as many as the limit sent and ends before the missing ones; the floor is one no stored row reaches |
| MergedUsage.Page | proxy/usage.go:202-221 | Each total is the sum of its own field over exactly the rows of the page, a missing cost adding none; max_id is the last row's id |
| MergedUsage.PageTotalsAdd | proxy/usage.go:202-221 | Totals of consecutive pages add up to the totals of all their rows |
| MergedUsage.LowestFloor | proxy/usage.go:353-359 | The loop finds a floor of some answer that no answer's is below |
| MergedUsage.CollectFrom | proxy/usage.go:363-368 | The inner loop keeps each row below the floor once, first copy first |
| MergedUsage.CollectRows | proxy/usage.go:360-369 | So do the nested loops over all answers |
| MergedUsage.PageEnd | proxy/usage.go:377-383 | The loop on `end` stops at the end of the ties of the limit-th row |
| MergedUsage.MergedPage | proxy/usage.go:307-385 | The merged page holds exactly the reported rows below every answer's floor, each id once and in order, up to the limit sent and the ties there; its totals are theirs, field by field; it is the merge the lemmas below are about |
| MergedUsage.TruncatedMergeIsExact | proxy/usage.go:353-384 | Although each machine sends only its first `limit` rows, the merged page is the page of the sorted union below the lowest floor; rests on no machine repeating a cursor |
| MergedUsage.FullListIsUnion | proxy/usage.go:353-375 | That union holds exactly the listed rows below the floor, in order |
| MergedUsage.MergedPageIsComplete | proxy/usage.go:353-384 | A nonempty page is every listed row up to its last cursor, which is below every floor; an empty one means nothing is below the floor |
| LivePaging.LocalPageIsShare | proxy/usage.go:233-260 | What a machine's `localPage` sends is the share the paging steps read: the first `limit` in-scope rows past `since` |
| LivePaging.StepKeepsInv | proxy/usage.go:230-384 | Every interleaving step of writes, floors, selects and merges keeps: rows handed out are exactly the in-scope rows up to the cursor, and no machine can write at or below it |
| LivePaging.FinishedPage | proxy/usage.go:353-384 | A page assembled from shares taken at different moments is complete with respect to the tables as they are when it is handed out |
| LivePaging.ExactlyOncePaging | proxy/usage.go:233-385 | Over every run: concatenated pages are strictly ordered, contain every in-scope row up to the cursor once, never change, and nothing is ever written at or below a cursor handed out |
| LivePaging.ShortPageReachesTheClock | proxy/ledger.go:176-187 | An idle machine does not hold readers back: a page that is not full has every pending row stamped before the time its floors were asked at |
| ApiUsage.IdAtLeastMeansCursor | api/src/routes/usage.ts:152-161 | The padded bound compared as a UUID selects exactly the cursors at or above it |
| ApiUsage.KeyHolderPage | api/src/routes/usage.ts:214-291 | The handler returns the first rows after `since` with the ties of the last, their totals and max_id; it fails exactly when the bound of one of its two reads is no UUID |
| ApiUsage.GetUsage | api/src/routes/usage.ts:205-291 | The api's answer holds exactly the rows of the caller's tree or key that pass every filter and lie above the `since` sent, in id order, up to the limit sent and its ties, with their totals field by field; it is refused when `since` has no 48-bit time, and otherwise only when a row it asks for has the last stamp there is |
| ApiUsage.TailFailsAtTheEnd | api/src/routes/usage.ts:254-261 | The second read's bound is no UUID for exactly one stamp: the last counter of the last 48-bit millisecond |
| ApiUsage.ApiPageIsThePage | api/src/routes/usage.ts:247-264 | The api's page is the specified page if and only if the ties it has to add fit its second read |
| ApiUsage.TiesBoundedByMachines | api/src/routes/usage.ts:251-253 | A group of equal cursors has at most one row a machine |
| ApiUsage.TwoReadersAgree | api/src/routes/usage.ts:247-264 | On the same rows, all ingested and below every floor, the proxy's page and the api's are the same rows in the same order for every start, limit and scope |
| ApiUsage.PagingEnumerates | api/src/routes/usage.ts:205-264 | Over a fixed table, feeding max_id back reads everything after the start exactly once, in order |
| ApiPaging.PagesOfAGrowingTable | api/src/routes/usage.ts:205-264 | Over any run of ingests and reads, the pages handed out are strictly ordered and exactly the in-scope rows up to the cursor, but for those ingested after a cursor at or past them was handed out |
| ApiPaging.ExactlyOnceIffNoneCameLate | api/src/routes/usage.ts:205-264 | So reading is exactly-once up to the cursor if and only if no in-scope row came late |
| ApiPaging.RowCanComeLate | api/src/routes/usage.ts:205-264 | A run in which a row is ingested behind the cursor handed out |
| FreshReads.AnswersAreFresh | api/src/routes/usage.ts:131-137 | A read's answer has every in-scope row with a key that any machine recorded before the call it waited on, past `since`, unless the page is full and ends before it |
| FreshReads.LateRowsAreNew | api/src/routes/usage.ts:131-137 | A row that is ingested after a cursor at or past it was handed out was recorded after the call that read waited on, on a machine whose clock at that call was still at or below it |
| FreshReads.FreshReadsAreExact | api/src/routes/usage.ts:131-137 | Over any run of machines, passes, callers and reads: when no read hands out a cursor some machine had not passed at the call it waited on, the pages are strictly ordered and exactly the in-scope rows with a key recorded on any machine up to the cursor |
| Gateway.SpendIsConserved | api/src/lib/usage-poller.ts:181-248 | In every reachable state each key's spend and request count are the sum and number of the positive-cost log rows of the key or rooted at it, each row once |
| Gateway.ReingestIsIdle | api/src/lib/usage-poller.ts:190-209 | Ingesting a page again, at whatever prices, changes nothing |
| KeyLifecycle.RootSpendRollsUpOverRuns | api/src/lib/usage-poller.ts:221-248 | In every state of every run that ingests rows with their keys' lineage, a root's spend is what its own requests cost plus its derived keys' spend |
| Gateway.IngestLeavesNoChargedKeyOver | api/src/lib/usage-poller.ts:250-260 | Right after an ingest no key it charged is active at or past its budget |
| Gateway.EditBudgetKeepsNoActiveOver | database/migrations/20261016150000_budget_reactivation.up.sql:11-26 | A budget edit leaves no active spender at or past its budget if and only if it does not lower an active key's budget to its spend or below |
| Gateway.NoActiveOverIff | database/migrations/20261016150000_budget_reactivation.up.sql:2-9 | Over any run no active key that has spent anything is ever at or past its budget if and only if no edit lowers an active key's budget to its spend or below |
| Gateway.BudgetsOverRuns | database/migrations/20261016150000_budget_reactivation.up.sql:2-9 | Over all runs: over_budget implies a budget that is spent, revoked is final, and with budgets never lowered no active key with spend is at or past its budget |
| UsagePoller.GatewayDb.ChargeSpend | api/src/lib/usage-poller.ts:227-264 | Key by key: spend and count grow by the inserted rows that count for the key, and it becomes over budget exactly when it is active, some row counts for it and its spend is then at its budget; nothing else of it changes |
| UsagePoller.FetchedRows | api/src/lib/usage-poller.ts:136-142 | A page is the first 5000 rows of the backlog, or all of it |
| UsagePoller.IngestIsBooked | api/src/lib/usage-poller.ts:157-264 | An ingest stores each offered row that names an existing key and was not stored before, once and at its own price, and nothing else; each key's spend and count grow by the positive prices of those that are its own or of its tree, and it turns over budget exactly when it was active, some row was charged and its budget is spent |
| UsagePoller.GatewayDb.StorePage | api/src/lib/usage-poller.ts:181-209 | One page's transaction stores its new rows at their prices and charges each key by exactly those, as above, and returns how many were new |
| UsagePoller.GatewayDb.PollOnce | api/src/lib/usage-poller.ts:128-219 | The page loop ends; afterwards all rows of the machine past the start that were new are stored at their prices and charged once, as one ingest of the whole backlog would, and it counts them |
| UsagePoller.PagedIngestIsOneIngest | api/src/lib/usage-poller.ts:135-213 | Two pages in two transactions, with the flips between them, equal one transaction over both |
| UsagePoller.BacklogIsStored | api/src/lib/usage-poller.ts:128-219 | After a poll every row past the start whose key exists is stored |
| Replication.StartIsSafe | api/src/lib/usage-poller.ts:102-124 | Resuming from the overlap of the newest stored id skips nothing that is missing, in every reachable state |
| Replication.StepKeepsInv | api/src/lib/usage-poller.ts:102-338 | Every step of machines, key changes, passes, timers, callers, failures and restarts keeps the replication invariant |
| Replication.ReplicationIsPrefixClosed | api/src/lib/usage-poller.ts:102-219 | In every reachable state each recorded row whose key exists and whose id is at most the newest stored one of its machine is stored; spend matches the log |
| Replication.IngestBarrier | api/src/lib/usage-poller.ts:305-322 | A caller's pass starts at or after its call; if it reports no failure, every row a listed machine had recorded before the call, whose key exists, is in the log |
| Replication.FailuresAreReported | api/src/lib/usage-poller.ts:266-293 | Over runs: a pass whose discovery failed, or a poll of which failed, never counts as complete, however it ends |
| Replication.QueuedCallersShareOnePass | api/src/lib/usage-poller.ts:305-322 | Over runs: the pass a queue starts when it fires is, in every later state, the promise of exactly the callers who were waiting on that queue |
| Replication.CallersBetweenFiringsGetOnePass | api/src/lib/usage-poller.ts:305-322 | Every caller who joins between two firings of an api's queue ends with the one pass the second firing starts |
| Replication.PassesCanOverlap | api/src/lib/usage-poller.ts:294-322 | A run in which two passes of one api are under way at once |
| Replication.PassesStayApartIff | api/src/lib/usage-poller.ts:294-338 | Over any run and for any api: its unfinished passes are only ever the running one if and only if its queue never fires while another of its passes is unfinished |
| Replication.ExposedIffStartedOverQueue | api/src/lib/usage-poller.ts:294-338 | A run reaches a queue waiting behind a pass that is not the running one if and only if a pass is started while a queue waits; with no such start its passes stay apart |
| Replication.StartOverQueueCanOverlap | api/src/lib/usage-poller.ts:315-321 | That guard is no stricter than it must be: after such a start of an unfinished pass the next step can be an overlap |
| KeyLifecycle.ModelsSubsetIsInclusion | api/src/routes/keys.ts:151-163 | The subset check holds exactly when the child grants no model, over all slugs, that the parent does not |
| KeyLifecycle.MintIsGranted | api/src/routes/keys.ts:192-249 | A mint is refused exactly for a missing team, a missing name, malformed models or an unknown team, the first that holds; otherwise the row is an active top-level key with the team, name, models or `["*"]`, budget and expiry asked for, and its own id as root |
| KeyLifecycle.DeriveRefusals | api/src/routes/keys.ts:386-476 | Each refusal of a derive is given exactly under its own guard once all earlier ones have passed |
| KeyLifecycle.DeriveIsGranted | api/src/routes/keys.ts:386-484 | A derive is granted exactly when the parent is active and top-level, the models are within its grants and the TTL is positive, under the ceiling and within the parent's; the child then has the name, models, budget and expiry asked for under the parent's team and root |
| KeyLifecycle.DerivedExpiry | api/src/routes/keys.ts:435-476 | A derived key expires no later than its parent and within the TTL ceiling of its request |
| KeyLifecycle.StepKeepsInv | api/src/routes/keys.ts:192-549 | Mints, parent reads, later inserts, revokes, budget edits and ingests keep every row's lineage and attenuation |
| KeyLifecycle.AttenuationHolds | api/src/routes/keys.ts:378-549 | In every reachable state each derived key has a top-level key as parent and root, its team, no later expiry and no model it does not grant |
| KeyLifecycle.RowOutlasts | api/src/routes/keys.ts:328-333 | Over any run a row changes only status and budget, and revocation is final |
| KeyLifecycle.RevokeIsExact | api/src/routes/keys.ts:325-333 | Revoking revokes the key and its children and touches nothing else |
| KeyLifecycle.LateChildIsPossible | api/src/routes/keys.ts:378-549 | A run that ends with an active child of a revoked root |
| KeyLifecycle.CascadeHoldsIff | api/src/routes/keys.ts:325-333 | Over any run no key rooted at a revoked key is live in any state if and only if no derive inserts under a parent that is revoked by then |
| KeyRoutes.ReactivateOnBudgetRaise | database/migrations/20261016150000_budget_reactivation.up.sql:11-26 | Of the new row only the status can change, and only from over_budget to active, exactly when the new budget is not spent |
| KeyRoutes.KeyTable.constructor | database/migrations/20260824120000_initial_schema.up.sql:114-116 | The table starts empty with its invariant, of which a part is that any half-open minute of creation times holds at most `rate` children of a parent |
| KeyRoutes.KeyTable.Mint | api/src/routes/keys.ts:192-261 | Refused for exactly the first of the four reasons that holds, and then nothing changes; otherwise the table gains one active top-level row with what was asked for, its own root, created now |
| KeyRoutes.KeyTable.FindTop | api/src/routes/keys.ts:378-385 | Finds a top-level row with the hash whenever there is one |
| KeyRoutes.DeriveKeepsRate | api/src/routes/keys.ts:505-519 | A derive that found room in the minute before its start leaves every half-open minute within the rate |
| KeyRoutes.CountsAreDeriveLimits | api/src/routes/keys.ts:511-534 | On any list of a parent's rows the two counts are those the concurrent model takes |
| KeyRoutes.KeyTable.InsertUnderLock | api/src/routes/keys.ts:502-549 | Rate-limited exactly when the rate is met by children created after start minus a minute, else refused exactly when active unexpired children meet the cap, and then nothing changes; otherwise the row goes in; the per-minute invariant is kept |
| KeyRoutes.KeyTable.Derive | api/src/routes/keys.ts:361-573 | Refused for a check exactly when there is no such parent or its row as read fails that check; past them for rate or cap exactly as the rows stand at the transaction, in that order; otherwise the new row is the child asked for and attenuates its parent as it is now; the per-minute invariant is kept |
| KeyRoutes.KeyTable.Revoke | api/src/routes/keys.ts:310-339 | Revokes the key and its tree, counts exactly those rows, and is refused exactly when there is no such key |
| KeyRoutes.KeyTable.UpdateBudget | database/migrations/20261016150000_budget_reactivation.up.sql:11-26 | Sets the budget of that row alone, which turns active exactly when it was over budget and the new one is not spent |
| DeriveLimits.StepKeepsInv | api/src/routes/keys.ts:502-549 | Every step of concurrent derive transactions and status changes keeps one lock holder a parent and what the counts established |
| DeriveLimits.RateHolds | api/src/routes/keys.ts:505-519 | Over every run any half-open minute of creation times holds at most the rate of a parent's children, though a creation time can precede committed siblings' |
| DeriveLimits.CapHoldsAtCommit | api/src/routes/keys.ts:521-549 | At each commit the active unexpired children, the new one included, are at most the cap if and only if the count, plus siblings that became active since, less those that stopped, is below it, or at it with a new child that had already expired |
| DeriveLimits.CapCanBeExceeded | api/src/routes/keys.ts:521-549 | For every cap and every n a run that commits with cap + n active children, n siblings having been reactivated since the count |
| KeyCache.CachedIsLive | proxy/keymeta.go:94-106 | Filtering a row when stored and again when used decides what one filter at its use would |
| KeyCache.Cache.constructor | proxy/keymeta.go:85-92 | A new cache is empty |
| KeyCache.Cache.Peek | proxy/keymeta.go:109-114 | An entry answers exactly until its expiry, with what a fill of that entry stored less than the TTL ago |
| KeyCache.Cache.Fill | proxy/keymeta.go:120-127 | Stores one entry for the TTL, clearing a full map first; the other map is untouched; every entry is still what one of its fills read and stored |
| KeyCache.Cache.Ask | proxy/keymeta.go:115-128 | A miss stores and answers the filtered row, or answers the database's error and stores nothing of its own |
| KeyCache.Cache.Lookup | proxy/keymeta.go:108-129 | A hit answers the cached row, a miss the filtered database row or its error; either way a fill of that very entry, stored less than the TTL before the lookup or during it, read what it answers |
| Auth.Auth.CheckRoot | proxy/auth.go:105-114 | The root decides as a fill of its own entry, stored less than the TTL before, says; an error only when the root could not be read |
| Auth.Auth.ToCredential | proxy/auth.go:95-124 | A usable key row with a usable recent root is admitted, over budget when either is; otherwise denied; an error only when the root could not be read |
| Auth.Auth.Verify | proxy/auth.go:126-153 | An admitted key is the one whose hash or jti was presented, as a fill stored less than the TTL before the request or during it read it, not revoked and unexpired when used; a denial has such a fill that read no such row, or a revoked or expired one, or a root so; an error only when the database could not be read |
| Auth.AdmittedRowsAreRecent | proxy/auth.go:91-153 | An admitted credential is its key's row field by field; that row and its root's were each seen not revoked in such a fill, no longer ago than the TTL plus that fill, and unexpired when used; over-budget is either's |
| Auth.RevokedRootAdmitsNobody | proxy/auth.go:95-124 | Once a key is revoked, neither it nor any key rooted at it is admitted as soon as no fill of the two entries begun before the revocation was stored within the last TTL, even a child inserted after the cascade |
| Auth.AdmissionsAgree | api/src/lib/keys.ts:115-150 | On one table at one instant the proxy and the api accept the same credentials with the same key and type, except exactly signed tokens whose jti is a live top-level row |
| Pricing.ApiCost | shared/pricing.ts:42-59 | The api's cost is the tier-or-base cost with the fallback cache rates |
| Pricing.CostPerMillion | shared/pricing.ts:35-59 | Each bucket costs its rate a million tokens plus the flat charge; a missing cache rate is a tenth of the input's, or five quarters; past the threshold the tier's rates hold for the whole request |
| Pricing.FullRatesPerMillion | shared/pricing.ts:42-59 | A stored price row's rates cost the same way |
| Pricing.ProxyCost | proxy/cost.go:201-223 | The proxy's cost is the same, and the api's, for every model and usage |
| Pricing.CostIsMonotone | shared/pricing.ts:35-59 | Cost never falls as a bucket grows, across the threshold too, if and only if no tier rate is below the rate it replaces |
| Prices.LoadPrices | api/src/lib/pricing.ts:63-82 | The grouping loop gives every model exactly its rows in the query's order |
| Prices.PickIsLatest | shared/pricing.ts:72-81 | The picked row is a stored row of the model with the greatest valid_from not after the request; there is none exactly when no row applies |
| Prices.PricedByTheLatestRow | api/src/lib/pricing.ts:109-123 | A usage row is charged by the latest applying stored row, which its price id names; else by the catalog without one; else not at all |
| Prices.OnlyApplyingRowsMatter | api/src/lib/pricing.ts:1-12 | Rows of other models or valid later, and the query's order, never change a resolved price when the latest applying rows are one row |
| Prices.PriceIsDetermined | api/src/lib/pricing.ts:53-62 | For every stored list, model and instant: all answers of the query pick the same row if and only if the latest applying rows are one row |
| Prices.TiesAreAmbiguous | api/src/lib/pricing.ts:53-62 | Of any two latest applying rows of any list, each is the one some answer of the query picks |
| Prices.ShownPriceIsCharged | shared/prices.ts:42-81 | Ingest charges every request at the rates the admin page shows if and only if a row applies, the model has no long-context tier, or the tier changes nothing |
| Prices.PriceCache.ReloadPriceTable | api/src/lib/pricing.ts:93-99 | Caches and returns the list of an instant of this load |
| Prices.PriceCache.PriceTable | api/src/lib/pricing.ts:85-91 | The cached table, whose own load ended at most 30 seconds ago, as it is; or one loaded by this call |
| PriceLoads.ListHoldsRow | api/src/lib/pricing.ts:93-99 | Over runs of loads and inserts: a load's list holds a row exactly when the database had not answered it at the insert |
| PriceLoads.ClearedCacheUsesRow | api/src/lib/pricing.ts:101-107 | Clearing after an insert makes the new row used in every later state if and only if no load answered before the insert stores its list after the clear |
| PriceLoads.LoadsBegunAfterTheClear | api/src/lib/pricing.ts:101-107 | So it is when every list stored after the clear is of a load begun after it |
| PriceLoads.OldListComesBack | api/src/lib/pricing.ts:93-107 | A run in which the list in memory after the clear lacks the row |
| Prices.CachedPriceIsCurrent | api/src/lib/pricing.ts:9-12 | Pricing from memory is pricing from the stored list unless an applying row was added within that bound |
| Extraction.Absorb | proxy/cost.go:153-186 | One event changes each bucket as the stream's specification says |
| Extraction.ExtractUsageFromSSE | proxy/cost.go:127-192 | Input and cache come from the last event that has them, output is the largest reported, cost the last; there is usage exactly when some event carries any |
| UsageShapes.CarriedIsTheBlock | proxy/cost.go:49-58 | The usage block is the value's `usage`, or its `message.usage` when that is missing or null, and only when it is an object |
| UsageShapes.AnthropicBody | proxy/cost.go:85-104 | A body with `input_tokens` fills input, output, cache read and cache write from its four named counts |
| UsageShapes.OpenAiBody | proxy/cost.go:67-113 | A body with `prompt_tokens` alone moves the cached share, the details' count or else the cache hits, to its own bucket, and its output is the completion or the total's rest, whichever is more |
| UsageShapes.OtherBody | proxy/cost.go:114-115 | Any other body has no usage |
| UsageShapes.StreamInput | proxy/cost.go:153-166 | A stream's input, reads and writes are those of the last event that counts a prompt |
| UsageShapes.StreamOutput | proxy/cost.go:167-181 | Its output is the largest any event reports |
| UsageShapes.StreamIsMetered | proxy/cost.go:187-190 | There is usage exactly when some event counts a prompt, a completion or some output |
| UsageShapes.StreamCost | proxy/cost.go:182-185 | Its cost is that of the last event that has one |
| UsageShapes.AnthropicStream | proxy/cost.go:119-186 | One event with the input and any number with output alone read as the start's input, reads and writes, and the largest output |
| Extraction.AnthropicBlockReadsTheSame | proxy/cost.go:85-104 | One Anthropic block reads the same from a stream and a body if and only if its output count is not negative |
| Extraction.OpenAiBlockReadsTheSame | proxy/cost.go:105-113 | One OpenAI block does if and only if its completion is counted and not negative with hidden thinking, or is missing and the total shows none |
| Extraction.ShapelessBlock | proxy/cost.go:114-115 | A block of neither shape is no usage in a body; a stream still counts its output |
| Extraction.OpenAiBucketsAddUp | proxy/cost.go:67-113 | An OpenAI block's buckets add up to max(total, prompt + completion) if and only if cached is at most prompt |
| CutStreams.CutStreamReportsNoMore | proxy/cost.go:127-192 | A stream cut between lines, or inside one of which no proper beginning is an object, as of every line that decodes to one, never reports more output than the whole, nor usage where the whole has none; with its input seen the other buckets are the whole's |
| CutStreams.CutStreamCostsNoMore | proxy/proxy.go:246-251 | So once its input is seen such a cut stream is never metered at more than the whole one, at any rates and tier |
| CutStreams.ObjectIsSolid | proxy/cost.go:149-152 | Every line that decodes to an object has that: none of its proper beginnings is one |
| CutStreams.CutLineIsSafeIff | proxy/cost.go:127-192 | Whatever came before, no cut inside a line reports more than the whole line would if and only if no proper beginning of its payload is an object that carries usage |
| CutStreams.CutCanReportMore | proxy/cost.go:149-152 | A line with something after its object reads as nothing, and cut before that it reports the object's usage |
| BodyRewrite.BeginningIsNoObject | proxy/cost.go:149-152 | A proper beginning of an object's text is no object, so a line that is one object reads as nothing when cut short |
| BodyRewrite.Members.Set | proxy/catalog.go:219-227 | Replaces the key's value in place or appends it |
| BodyRewrite.SetMemberIsSet | proxy/catalog.go:219-227 | The first member with the key has the new value in its place, or there was none and one is appended |
| BodyRewrite.SpreadOfSnoc | proxy/catalog.go:219-227 | Setting one more member is spreading one more: each key once, at its first place, with its last value |
| BodyRewrite.ObjectMembers | proxy/catalog.go:186-217 | Succeeds exactly on objects, and gives each key once, at its first place, with its last value |
| BodyRewrite.EncodeMembers | proxy/catalog.go:229-243 | Writes the members in order |
| BodyRewrite.RoundTrip | proxy/catalog.go:186-243 | Encoding members and decoding them gives them back if and only if no key repeats |
| BodyRewrite.MergeRequestBody | proxy/catalog.go:151-178 | The rewritten body is `{...body, ...overrides, model: upstream}` in order, made on a copy; none exactly when slug and overrides change nothing |
| BodyRewrite.UnchangedIsRewritten | proxy/catalog.go:168-170 | Where the rewrite is skipped it would have changed nothing |
| BodyRewrite.ReadJsonBody | proxy/proxy.go:391-411 | Refused exactly when the body's `model` is a nonempty string that the grants neither name nor cover with `*`; otherwise what is forwarded decodes to the object that is to be sent for that model, or is the body as it is when it names none |
| BodyRewrite.RewriteIsFaithful | proxy/catalog.go:151-178 | On the wire `model` is the upstream slug of the model asked for; untouched keys keep their values and the client's keys their places |
| BodyRewrite.RewrittenIsSent | proxy/catalog.go:151-178 | What is sent has each key once, the client's first and in place; under `model` the catalog entry's upstream slug, or the model asked for; under an override's key its last value; and the client's own member everywhere else |
| KeyOrder.OrderIsJavaScripts | proxy/catalog.go:156-157 | The kept order is the one a JavaScript object has if and only if the integer-like keys are an ascending prefix of it |
| KeyOrder.OrderCanDiffer | proxy/catalog.go:156-157 | An object whose order differs |
| BodyRewrite.Meter | proxy/proxy.go:246-294 | The usage row carries the client's model and the estimate at that model's rates; there is one exactly when usage was reported or the model bills per request |

## Left out

- Key deletion: no code path deletes a key, so keys are never removed; rows of unknown keys are still skipped at ingest.
- Restarts of a machine: one machine is one process lifetime; a restart whose clock is more than the overlap behind is not covered.
- Colliding ids: ids of different machines are taken to differ in their random bits.
- Rows without a usage_id and polling without a machine id, both for proxies older than this version.
- Partial answers: a merged read that names missing machines, and an api read after a timed-out barrier, promise nothing complete.
- Discovery: machines answer with their page or do not; DNS, HTTP and timeouts are not modelled.
- SQL: tables are sequences and maps, and a transaction is one step except in `DeriveLimits`; lock-key collisions between parents only make derives wait.
- Key mint's second write: the root id is set in the same step as the insert, since the secret is returned only after both.
- Labels are taken as trimmed; metadata, prefixes, grants and row-level security are not modelled.
- Cryptography: a hash names its secret, a signature check gives a jti or nothing.
- Numbers: costs, rates and token counts have no float rounding, and numeric query parameters are integers; the api computes cursors as floats, which are exact below 2^53 (`UsageIds.CursorRoundTrip`), so its pages past that are not those of `ApiUsage`.
- JSON and multipart syntax: bodies and the lines of `CutStreams` are token sequences, and `Extraction` is given decoded lines; the multipart branch of `readBody` is not modelled.
- Prices during one poll: `UsagePoller.GatewayDb.PollOnce` prices all its pages with one table; in `Replication` every stored page has its own.
- UsagePoller.GatewayDb.PollOnce: polls a table that does not change; writes between its pages are in `Replication`, where termination is not claimed.
- KeyRoutes.KeyTable.InsertUnderLock: takes the derive transaction as one step; `DeriveLimits` takes each of its statements as one.
- Auth.Auth.Verify: clock readings of one request and its cache steps are on one time line; the database's clock is taken to be the same.
- Response streaming, and validation of the price form, which only guard what the modelled code is given.
- The admin pages, sign-in, catalog routes, status pages and configuration hold no protocol state.
