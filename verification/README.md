# Verification of Arachnea's stateful cores

Dafny models of the parts of Arachnea that keep state across interleavings or
promise inverses, with proofs of what they keep. `dafny verify dfyconfig.toml`
checks everything.

## What is modelled

Cooperative async code is cut at its awaits: each piece is one step of a
transition system, a suspended call is a task holding the locals it captured,
and a theorem over runs holds for every order of responses, failures and
restarts. Beside each transition system stands a class with the source's fields
whose methods are proved to do exactly those steps.

- Custom home catalog: `CatalogMembers` (columns and page merges),
  `CustomHomeCatalog` (the steps), `CatalogRuns` (what every schedule keeps),
  `CatalogStaleness` (its revision guards act like cancellation), `CatalogFlags`
  (what its flags say), `CatalogLoader` (the class), `RequestSharing` and `HydrationLimiter` (the two
  request gates), `DeferredBannerLoader` (the banner pool).
- Entry details: `EntryDetailsData`.
- Custom homes in browser storage: `CustomHomes` (validation, transactions,
  listing), `CustomHomeRuns` (many tabs over time).
- Route parameters: `RoutePayloads`, `BareTokens` with `TokenBits` and
  `NamelessText`, on `Json`, `Utf8`, `Base64`.
- Groups, sections, identities, routing: `StableGrouping`, `BlockGroups`,
  `Composition`, `HomeContentIdentity`, `Descriptors`, `MediaRouting`.
- Server: `BrowserSessions`, `Cookies`, `ReloadableScraper`, `ErrorCodes`.
- `Wrappers`, `Sequences`, `Sorting`, `Decimals`, `TextUtils` are shared.

Slugs, title folding, lower case, media deduplication, interleaving, collation,
the HTTP date parser, clocks and all responses are parameters. The collation of
strings is taken as a total order.

## Where the code and its documentation differ

The models follow the code. Each of these is stated by a lemma.

- Error codes are documented as unique within the process. They are exactly when no
  reset and no overflow enters a millisecond already issued from
  (`ErrorCodes.CodesUniqueIff`); on a frozen clock the 102nd call repeats a code
  (`ErrorCodes.BurstDistinctIff`).
- The first-season fallback does not compare its request after its await, so a
  stale one can mix pages of two seasons (`EntryDetailsData.StaleFallbackMixesSeasons`);
  `EntryDetailsData.FallbackShowsIff` tells when a fallback mixes them, and
  `EntryDetailsData.OrderlyIff` on which schedules the invariant that excludes it holds.
- The route comments say that the base64url alphabet has no dash. It has one, so a
  bare entry token can fail to decode (`BareTokens.BareTokenDecodesIff` tells exactly
  which); parameters with a slug are safe.
- A cache sizing whose rebuild failed is stored all the same, so applying it again
  reports success without a rebuild (`ReloadableScraper.FailedBuildIsNotRetried`);
  `ReloadableScraper.ApplyInstallsIff` tells when an apply installs its sizing.
- A reorder writes its snapshots without validating them again or checking their
  names (`CustomHomes.ReorderReadsBackIff`, `CustomHomeRuns.RenamedSnapshotSharesASlug`);
  `CustomHomeRuns.ReorderSlugsIff` tells when slugs stay distinct all the same, and
  `CustomHomes.ReorderListsInOrderIff` when the listing follows the order asked for.
- A deleted id can be created again. A save based on the deleted version is then
  accepted over the new one if their revisions are equal
  (`CustomHomeRuns.ReusedIdLosesAnEdit`); `CustomHomeRuns.CreationKeepsIff` tells
  which creations are safe.
- The session manager is documented to evict the oldest idle session; it evicts all
  idle or invalid ones, and the oldest of all only if that frees nothing
  (`BrowserSessions.EvictionIsMinimal`). Tracked sessions are in fact never invalid.
- Cookie paths match by prefix, which the source says itself
  (`Cookies.PathMatchIsRfcIff` tells when that is the RFC's rule).

## Model

| member | source | states |
|---|---|---|
| `CatalogRuns.MembersStayInPlace` | front/public-app/src/composables/home/useCustomHomeCatalog.ts:99-322 | on every schedule of loads, responses, failures, restarts and disposals, member ids are unique, blocks stand in definition order, and the members of a block are one stretch |
| `CatalogStaleness.GuardsCancel` | front/public-app/src/composables/home/useCustomHomeCatalog.ts:111-322 | the revision guards cancel: with the responses of overtaken calls left out, every schedule is one of a program in which each load and each disposal cancels all calls under way, and it shows the same |
| `CatalogStaleness.CatalogActsAsIfCancelled` | front/public-app/src/composables/home/useCustomHomeCatalog.ts:111-352 | from the start of the scope, what is shown is what the cancelling program shows |
| `CatalogStaleness.OvertakenStaysOvertaken` | front/public-app/src/composables/home/useCustomHomeCatalog.ts:112-141 | revisions never go back, and in every later state an overtaken call is gone or still of its old revision, as long as no new call has its number |
| `CatalogStaleness.OvertakenCallsAreInert` | front/public-app/src/composables/home/useCustomHomeCatalog.ts:141-189 | a call overtaken at some moment, resumed in any later state, changes nothing but its own frame: not members, catalog, categories, issues, locks or any current call |
| `CatalogStaleness.StaleRunsAreInert` | front/public-app/src/composables/home/useCustomHomeCatalog.ts:141-189 | a run of nothing but stale responses, however long, leaves everything shown and every current call as they were |
| `CatalogFlags.FlagsFollowLoads` | front/public-app/src/composables/home/useCustomHomeCatalog.ts:111-189 | on every schedule isLoading says that a load of the current revision is under way, and hasLoaded that one started and none is, unless the scope was disposed since; never both, and an error only once loaded |
| `CatalogRuns.CategoriesTakePagesInOrder` | front/public-app/src/composables/home/useCustomHomeCatalog.ts:156-160 | within a revision each category has taken over exactly the pages 1 to its current page, in order and once each, whoever triggers the requests and whichever fail |
| `CatalogRuns.LocksExclude` | front/public-app/src/composables/home/useCustomHomeCatalog.ts:246-248 | two current section calls own different members, and two calls waiting for category pages page different blocks; a load under way is alone |
| `CatalogRuns.LocksAreReleased` | front/public-app/src/composables/home/useCustomHomeCatalog.ts:284-321 | however calls end, no lock outlives the call that took it: with no current call nothing is locked, unless the scope was disposed |
| `CatalogRuns.RunKeeps` | front/public-app/src/composables/home/useCustomHomeCatalog.ts:111-322 | one invariant over all steps carries placement, page order, lock ownership and the separation of current calls |
| `CatalogRuns.CategorySettledKeeps` | front/public-app/src/composables/home/useCustomHomeCatalog.ts:294-322 | a category response, merged, refused or failed, keeps the invariant although other calls hold snapshots of the members |
| `CatalogRuns.SourceSettledKeeps` | front/public-app/src/composables/home/useCustomHomeCatalog.ts:256-291 | a section response written back from an older snapshot keeps the invariant |
| `CatalogRuns.MergeStays` | front/public-app/src/composables/home/useCustomHomeCatalog.ts:304-317 | a page merge leaves every member in its block under its id, so calls under way still find theirs |
| `CatalogMembers.MergeWellPlaced` | front/public-app/src/composables/home/useCustomHomeCatalog.ts:304-317 | merging a category page keeps ids unique, ids owned by their block, and members in definition order |
| `CatalogMembers.MergeMembers` | front/public-app/src/composables/home/useCustomHomeCatalog.ts:304-317 | the ids after a merge are exactly the old ones and those of the page's columns |
| `CatalogMembers.MergeKeepsCursors` | front/public-app/src/composables/home/useCustomHomeCatalog.ts:307-311 | a merged column has the sources of the page at their positions; each whose request was known has the cursor of the first source with it, each other one the page's |
| `CatalogMembers.BlocksAreContiguous` | front/public-app/src/composables/home/useCustomHomeCatalog.ts:184-184 | definition order of the members makes every block one stretch |
| `CatalogMembers.FlatWellPlaced` | front/public-app/src/composables/home/useCustomHomeCatalog.ts:154-184 | the lists of the blocks, flattened in definition order, are well placed |
| `CatalogMembers.MemberIdInjective` | front/public-app/src/composables/home/useCustomHomeCatalog.ts:105-105 | a member id determines its block and its keys |
| `CatalogMembers.ColumnsAreMembers` | front/public-app/src/composables/home/useCustomHomeCatalog.ts:99-108 | the columns of an identifiable page have distinct ids of their block |
| `CatalogMembers.CollectColumns` | front/public-app/src/composables/home/useCustomHomeCatalog.ts:99-108 | the loop with its set of seen keys refuses a page exactly when a key is ambiguous or repeated; else it gives one member of the block per section, in order, with distinct ids |
| `CatalogLoader.HomeCatalog.Load` | front/public-app/src/composables/home/useCustomHomeCatalog.ts:111-128 | method on the loader's fields; its whole new state equals the step of the model: a restart clears what is shown, starts a new revision and sets the flags, as the model's step |
| `CatalogLoader.HomeCatalog.FailSource` | front/public-app/src/composables/home/useCustomHomeCatalog.ts:136-139 | method on the loader's fields; its whole new state equals the step of the model: a failed discovery is reported unless stale |
| `CatalogLoader.HomeCatalog.DisposeScope` | front/public-app/src/composables/home/useCustomHomeCatalog.ts:352-352 | method on the loader's fields; its whole new state equals the step of the model: disposal makes every call under way stale |
| `CatalogLoader.HomeCatalog.ResumeSources` | front/public-app/src/composables/home/useCustomHomeCatalog.ts:141-153 | method on the loader's fields; its whole new state equals the step of the model: all discoveries settled: banners, shortcuts and blocks reported in order and the block lists opened |
| `CatalogLoader.HomeCatalog.ResumeBlock` | front/public-app/src/composables/home/useCustomHomeCatalog.ts:156-181 | method on the loader's fields; its whole new state equals the step of the model: the first page of a category block settled |
| `CatalogLoader.HomeCatalog.ResumeLoad` | front/public-app/src/composables/home/useCustomHomeCatalog.ts:183-185 | method on the loader's fields; its whole new state equals the step of the model: all blocks settled: members flattened and published, and the flags cleared, unless stale |
| `CatalogLoader.HomeCatalog.LoadMember` | front/public-app/src/composables/home/useCustomHomeCatalog.ts:246-255 | method on the loader's fields; its whole new state equals the step of the model: one member's part of a section call, up to its first suspension |
| `CatalogLoader.HomeCatalog.ResumeSource` | front/public-app/src/composables/home/useCustomHomeCatalog.ts:261-275 | method on the loader's fields; its whole new state equals the step of the model: one source page settled: written back, published, and the loop continued |
| `CatalogLoader.HomeCatalog.ContinueWithCategory` | front/public-app/src/composables/home/useCustomHomeCatalog.ts:279-290 | method on the loader's fields; its whole new state equals the step of the model: after the sources: the next category page under its own lock, or the end of the call |
| `CatalogLoader.HomeCatalog.ResumeCategory` | front/public-app/src/composables/home/useCustomHomeCatalog.ts:299-321 | method on the loader's fields; its whole new state equals the step of the model: a category page settled: merged under the page number captured at its start |
| `CatalogLoader.HomeCatalog.ResumeCall` | front/public-app/src/composables/home/useCustomHomeCatalog.ts:282-288 | method on the loader's fields; its whole new state equals the step of the model: the end of a call after its category page |
| `CatalogLoader.HomeCatalog.ResumeBanners` | front/public-app/src/composables/home/useCustomHomeCatalog.ts:214-220 | method on the loader's fields; its whole new state equals the step of the model: a deferred banner response is reported or merged, unless stale |
| `RequestSharing.OneRequestPerKey` | front/public-app/src/composables/home/useCustomHomeCatalog.ts:27-34 | on every schedule at most one request per key is in flight |
| `RequestSharing.CallSharesIff` | front/public-app/src/composables/home/useCustomHomeCatalog.ts:27-34 | a call starts a request exactly when none is in flight for its key, and always awaits one in flight for its key |
| `RequestSharing.RequestTable.RequestOnce` | front/public-app/src/composables/home/useCustomHomeCatalog.ts:27-34 | the table lookup and insertion, proved against the step of the model |
| `RequestSharing.RequestTable.SettleRequest` | front/public-app/src/composables/home/useCustomHomeCatalog.ts:30-30 | the end of a request deletes its key |
| `HydrationLimiter.LimiterSafe` | front/public-app/src/composables/home/useCustomHomeCatalog.ts:60-74 | on every schedule at most four tasks run, the counter is running plus handed-off slots, and a waiting queue means four active |
| `HydrationLimiter.LimiterDrains` | front/public-app/src/composables/home/useCustomHomeCatalog.ts:60-74 | after the last arrival every schedule ends after exactly the remaining work, and when nothing can run any more the queue and the counter are empty and every call that arrived has finished: no wake-up is lost |
| `HydrationLimiter.InternalStepWorks` | front/public-app/src/composables/home/useCustomHomeCatalog.ts:68-73 | every resumption or release consumes work, so the limiter cannot cycle |
| `HydrationLimiter.Limiter.EnterCall` | front/public-app/src/composables/home/useCustomHomeCatalog.ts:66-67 | taking a slot or queueing, on the counter and the queue |
| `HydrationLimiter.Limiter.ReleaseCall` | front/public-app/src/composables/home/useCustomHomeCatalog.ts:69-73 | handing the slot to the first waiter or giving it back |
| `DeferredBannerLoader.PoolLoadsEveryKeyOnce` | front/public-app/src/composables/home/deferredBannerLoader.ts:18-60 | on every schedule each distinct key is loaded exactly once |
| `DeferredBannerLoader.PoolConcurrency` | front/public-app/src/composables/home/deferredBannerLoader.ts:38-64 | never more than min(4, n) loads are in flight |
| `DeferredBannerLoader.PoolPublishesGrowingCatalogs` | front/public-app/src/composables/home/deferredBannerLoader.ts:50-70 | each published catalog extends every earlier one, and the last one published is what was loaded |
| `DeferredBannerLoader.PathKeepsInv` | front/public-app/src/composables/home/deferredBannerLoader.ts:18-70 | the pool invariant on every schedule, by which the entries are the initial ones followed by all successful results in completion order |
| `DeferredBannerLoader.PoolTerminates` | front/public-app/src/composables/home/deferredBannerLoader.ts:41-64 | every schedule is bounded by the work there is |
| `DeferredBannerLoader.CatalogIsLoaded` | front/public-app/src/composables/home/deferredBannerLoader.ts:14-70 | of a catalog, the pool loads exactly the collections with a source and a link, each key once, after the entries the catalog had |
| `DeferredBannerLoader.KeysMeetIff` | front/public-app/src/composables/home/deferredBannerLoader.ts:27-27 | two sources can share a key exactly when one continues the other after the separator, so a key does not always determine its source and link |
| `DeferredBannerLoader.BannerPool.RunWorker` | front/public-app/src/composables/home/deferredBannerLoader.ts:41-50 | the worker loop over the shared index, up to the next load |
| `DeferredBannerLoader.BannerPool.Start` | front/public-app/src/composables/home/deferredBannerLoader.ts:63-63 | all workers run up to their first load |
| `DeferredBannerLoader.BannerPool.SettleWorker` | front/public-app/src/composables/home/deferredBannerLoader.ts:51-60 | a settled load extends the entries and publishes, or is skipped |
| `EntryDetailsData.FlagsFollowLatestRequest` | front/public-app/src/composables/entry-details/entryDetailsData.ts:76-169 | on every schedule the loading flags are never both set and say exactly what the latest request waits for |
| `EntryDetailsData.OvertakenResponsesInert` | front/public-app/src/composables/entry-details/entryDetailsData.ts:140-168 | the response of an overtaken season or entry request changes nothing shown, however late |
| `EntryDetailsData.ListIsPagesOfSelectedSeason` | front/public-app/src/composables/entry-details/entryDetailsData.ts:97-219 | on every schedule whose backend echoes page numbers and whose fallbacks, stale or not, load nothing or what the current details list, the list of a link-loaded selected season is its pages 1 to the current one, or empty |
| `EntryDetailsData.OrderlyIff` | front/public-app/src/composables/entry-details/entryDetailsData.ts:97-255 | on a schedule whose backend echoes page numbers the page's invariant, that the season loaded last is the one the details list as selected and the list is made of its pages, holds at every moment exactly when every fallback meets that condition |
| `EntryDetailsData.LatestFallbackFits` | front/public-app/src/composables/entry-details/entryDetailsData.ts:248-254 | the fallback of the latest entry request always meets it, so only a stale one can break the page |
| `EntryDetailsData.FallbackShowsIff` | front/public-app/src/composables/entry-details/entryDetailsData.ts:138-254 | if the current details list a link-loaded season under the fallback's id, then once the first page arrived the visible list holds the pages of the selected season exactly when the fallback met that condition |
| `EntryDetailsData.StaleFallbackMixesSeasons` | front/public-app/src/composables/entry-details/entryDetailsData.ts:248-254 | a concrete schedule on which a stale fallback ends with page 1 of one season followed by page 2 of another |
| `EntryDetailsData.EntryDetails.LoadSeasonPage` | front/public-app/src/composables/entry-details/entryDetailsData.ts:97-137 | the head of a season load on the controller's fields |
| `EntryDetailsData.EntryDetails.ResumeSeasonPage` | front/public-app/src/composables/entry-details/entryDetailsData.ts:138-168 | the rest of a season load once its response arrived |
| `EntryDetailsData.EntryDetails.ResumeWithDetails` | front/public-app/src/composables/entry-details/entryDetailsData.ts:240-248 | an entry response, up to the season it selects |
| `EntryDetailsData.EntryDetails.ResumeAfterRefusedSelection` | front/public-app/src/composables/entry-details/entryDetailsData.ts:250-255 | the fallback continuation, without a guard as in the program |
| `EntryDetailsData.EntryDetails.LoadEntryDetails` | front/public-app/src/composables/entry-details/entryDetailsData.ts:225-238 | a new entry request resets the page and the season state |
| `EntryDetailsData.EntryDetails.HandleSeasonSelect` | front/public-app/src/composables/entry-details/entryDetailsData.ts:176-184 | a selection loads the first page of the season the details hold under that id |
| `EntryDetailsData.EntryDetails.HandleLoadMoreSeasonEpisodes` | front/public-app/src/composables/entry-details/entryDetailsData.ts:211-219 | more is loaded only with a link, further pages, and no load under way |
| `CustomHomeRuns.NoLostEdit` | front/public-app/src/services/customHomes.ts:138-183 | on every run of harmless calls, re-creations and reorders of changed snapshots included: when a save or deletion commits, what it replaces is exactly the version its caller read |
| `CustomHomeRuns.RunKeepsIff` | front/public-app/src/services/customHomes.ts:72-183 | for any calls whatever, the run invariant holds after every one of them exactly when each is harmless: creations fit what was seen, reorders write names with distinct, non-empty slugs |
| `CustomHomeRuns.CreationKeepsIff` | front/public-app/src/services/customHomes.ts:138-183 | creating a home, also again under a deleted id, keeps the invariant exactly when every version seen under its id is the new record or has a smaller revision |
| `CustomHomeRuns.ReorderSlugsIff` | front/public-app/src/services/customHomes.ts:114-122 | a reorder leaves distinct slugs exactly when the names it leaves, the snapshot's where it is moved and the stored one where it is in place, have distinct slugs |
| `CustomHomeRuns.ReorderKeepsIff` | front/public-app/src/services/customHomes.ts:98-122 | an accepted reorder keeps the invariant exactly when these names have distinct, non-empty slugs |
| `CustomHomeRuns.AsReadIsHarmless` | front/public-app/src/services/customHomes.ts:98-122 | sending back what was read meets that condition, whatever ran in between |
| `CustomHomeRuns.RevisionsGrow` | front/public-app/src/services/customHomes.ts:170-174 | a live record's revision never goes back, and the same revision is the same content |
| `CustomHomeRuns.SlugsStayDistinct` | front/public-app/src/services/customHomes.ts:166-169 | over every run of harmless calls from an empty store slugs are non-empty and pairwise distinct |
| `CustomHomeRuns.ReorderSeesWhatWasRead` | front/public-app/src/services/customHomes.ts:114-122 | if the snapshots are versions that were read, those a committed reorder moves are the stored records themselves |
| `CustomHomeRuns.ReachableListsWithoutSlugIssues` | front/public-app/src/services/customHomes.ts:35-40 | the listing of a reachable store reports no empty and no duplicated slug |
| `CustomHomeRuns.RunKeeps` | front/public-app/src/services/customHomes.ts:72-183 | the run invariant: live records valid and newest of their id, versions unique, slugs distinct |
| `CustomHomeRuns.ReusedIdLosesAnEdit` | front/public-app/src/services/customHomes.ts:89-91 | a concrete store where re-creating a deleted id at a revision seen before lets a stale save overwrite it; CreationKeepsIff is the exact condition |
| `CustomHomeRuns.RenamedSnapshotSharesASlug` | front/public-app/src/services/customHomes.ts:119-122 | a concrete reorder of a renamed snapshot that makes two homes share a slug; ReorderSlugsIff is the exact condition |
| `CustomHomes.CheckOrderIff` | front/public-app/src/services/customHomes.ts:99-118 | a reorder passes its checks exactly when its snapshots validate and are all the stored records, once each, at their current revisions |
| `CustomHomes.Pigeonhole` | front/public-app/src/services/customHomes.ts:115-118 | equal counts, distinct ids and matching revisions leave no stored record out |
| `CustomHomes.ReorderListsInOrderIff` | front/public-app/src/services/customHomes.ts:34-122 | after any accepted reorder, of changed snapshots too, the homes are listed in the order asked for exactly when what it leaves is sorted: a record whose snapshot is in place keeps its stored position |
| `CustomHomes.ReorderReadsBackIff` | front/public-app/src/services/customHomes.ts:119-122 | since reorders are not validated again, the records any accepted reorder leaves read back, as what it meant to leave, exactly when their revisions are safe integers |
| `CustomHomes.CommitValidIff` | front/public-app/src/services/customHomes.ts:170-174 | commit-time validation of a valid draft over a valid record fails exactly when the new revision exceeds the safe integers |
| `CustomHomes.CheckBlockIds` | front/public-app/src/services/customHomeValidation.ts:133-149 | the set-based pass accepts exactly lists of trimmed, non-blank, pairwise distinct block ids |
| `CustomHomes.CustomHomeStore.MutateCustomHome` | front/public-app/src/services/customHomes.ts:138-188 | the compare-and-write or compare-and-delete transaction on the store; an error leaves the store unchanged |
| `CustomHomes.CustomHomeStore.SaveCustomHome` | front/public-app/src/services/customHomes.ts:72-81 | saving validates, refuses empty slugs, and commits the mutation |
| `CustomHomes.CustomHomeStore.DeleteCustomHome` | front/public-app/src/services/customHomes.ts:89-91 | deletion removes only the expected revision |
| `CustomHomes.CustomHomeStore.ReorderCustomHomes` | front/public-app/src/services/customHomes.ts:98-129 | the reorder loop writes what the order function says, or nothing |
| `CustomHomes.CustomHomeStore.ListCustomHomes` | front/public-app/src/services/customHomes.ts:20-42 | the listing loops give the sorted valid homes, then the unreadable ids and slug issues |
| `Sequences.DistinctBySize` | front/public-app/src/services/customHomes.ts:100-100 | comparing a set's size with the length tests distinctness |
| `Sorting.SortedIsUnique` | front/public-app/src/services/customHomes.ts:34-34 | a sorted arrangement is determined by its elements when ties are equal |
| `RoutePayloads.EntryParamRoundTrip` | front/public-app/src/router/routePayloads.ts:68-106 | for every title, an entry parameter decodes to the trimmed source and URL, and to the very ones exactly when they are trimmed and non-empty |
| `BareTokens.BareTokenDecodesIff` | front/public-app/src/router/routePayloads.ts:77-106 | for every source and URL: a bare token decodes to its entry if no byte of its JSON text completes the six bits of a dash, and to nothing otherwise |
| `BareTokens.DashFreeIff` | front/public-app/src/router/routePayloads.ts:235-238 | a token has a dash exactly when the third byte of a group ends in 62, or the second in 1111 before a third starting 10, or the first in 11 before a second starting 1110 |
| `BareTokens.DashRestIsNoEntry` | front/public-app/src/router/routePayloads.ts:86-106 | cut at any dash, the rest of an entry's token, aligned with its bytes or shifted by two or four bits, decodes to no entry |
| `NamelessText.NamelessIsNoEntry` | front/public-app/src/router/routePayloads.ts:89-106 | a text in which no two neighbours could spell ou, plainly or escaped, holds no entry, however it parses |
| `TokenBits.RestAfterSecond` | front/public-app/src/router/routePayloads.ts:235-260 | cut after the second letter of a group, a token decodes to the bytes shifted by four bits |
| `TokenBits.RestAfterThird` | front/public-app/src/router/routePayloads.ts:235-260 | cut after the third letter, to the bytes shifted by two bits |
| `RoutePayloads.DashFreeTokenDecodes` | front/public-app/src/router/routePayloads.ts:86-89 | a bare token that contains no dash decodes to its entry, for every source and URL |
| `RoutePayloads.LiveRoundTrip` | front/public-app/src/router/routePayloads.ts:185-218 | live tokens round-trip unconditionally, up to trimming, with absent and null properties told apart as the reader does |
| `RoutePayloads.CategoryReadsBack` | front/public-app/src/router/routePayloads.ts:120-155 | what a category parameter decodes to, for every label and descriptor |
| `RoutePayloads.CategoryRoundTrip` | front/public-app/src/router/routePayloads.ts:120-176 | category parameters round-trip exactly when the label is trimmed and no descriptor property has the name that assignment ignores |
| `RoutePayloads.PayloadRoundTrip` | front/public-app/src/router/routePayloads.ts:226-266 | every JSON value survives a token |
| `RoutePayloads.TokenRoundTrip` | front/public-app/src/router/routePayloads.ts:226-266 | every text without a leading byte order mark survives a token |
| `RoutePayloads.EncodePayload` | front/public-app/src/router/routePayloads.ts:226-239 | the byte loop of the encoder computes the token |
| `RoutePayloads.ReadHomeCategorySource` | front/public-app/src/router/routePayloads.ts:163-177 | the property loop keeps exactly the string properties |
| `RoutePayloads.SlugIsDashFree` | front/public-app/src/services/textUtils.ts:11-18 | whatever the folding, a slug contains no dash, so the first dash ends it |
| `Base64.AtobInvertsBtoa` | front/public-app/src/router/routePayloads.ts:235-260 | decoding inverts encoding on every binary string (RFC 4648, section 4) |
| `Base64.TokenDecodes` | front/public-app/src/router/routePayloads.ts:235-260 | stripping the padding and switching to the URL alphabet loses nothing (RFC 4648, section 5) |
| `Base64.TokenIsUrlLetters` | front/public-app/src/router/routePayloads.ts:235-238 | a token consists of letters of the URL alphabet only |
| `Utf8.DecodeInvertsEncode` | front/public-app/src/router/routePayloads.ts:228-262 | decoding UTF-8 inverts encoding (RFC 3629, section 3) |
| `Json.ParseInvertsPrint` | front/public-app/src/router/routePayloads.ts:227-262 | parsing inverts printing for every value without kept number text |
| `Json.PrintInjective` | front/public-app/src/composables/home/useCustomHomeCatalog.ts:105-105 | printed JSON determines the value |
| `BlockGroups.GroupCustomHomeBlocks` | front/public-app/src/services/customHomeBlockGroups.ts:17-28 | the map-filling loop yields the stable partition by key |
| `BlockGroups.MergedMoveExchangesNeighbours` | front/public-app/src/services/customHomeBlockGroups.ts:36-48 | moving in merged mode is a permutation with every group contiguous, and regrouping exchanges exactly two neighbouring groups, or two members of one group |
| `BlockGroups.OppositeMoveRestores` | front/public-app/src/services/customHomeDraft.ts:32-38 | after a move that moved, the opposite move restores the grouped order |
| `BlockGroups.GroupOfId` | front/public-app/src/services/customHomeBlockGroups.ts:40-40 | with distinct ids exactly one group holds a block |
| `BlockGroups.DisplayUpdateStaysInGroup` | front/public-app/src/services/customHomeBlockGroups.ts:51-57 | a display change reaches exactly the blocks of the member's group and keeps the groups in their order |
| `StableGrouping.GroupingIsPermutation` | front/public-app/src/services/customHomeBlockGroups.ts:17-28 | every item lands in exactly one group, as often as it occurs |
| `StableGrouping.GroupingIsIdempotent` | front/public-app/src/services/customHomeBlockGroups.ts:17-28 | regrouping the flattened groups gives the same groups |
| `StableGrouping.GroupsAreWellGrouped` | front/public-app/src/services/customHomeBlockGroups.ts:17-28 | groups are non-empty, uniform, and have distinct keys |
| `StableGrouping.FlattenContiguous` | front/public-app/src/services/customHomeBlockGroups.ts:47-47 | flattened groups are contiguous |
| `Composition.ComposeCustomHomeSections` | front/public-app/src/services/customHomeComposition.ts:21-54 | the composition loop renders the groups of the contributions |
| `Composition.ComposingIsPartition` | front/public-app/src/services/customHomeComposition.ts:25-48 | every contribution is shown in exactly one section |
| `Composition.SectionIdsDistinct` | front/public-app/src/services/customHomeComposition.ts:37-41 | rendered section ids are pairwise distinct whenever member ids are |
| `Composition.PreferenceKeysDistinct` | front/public-app/src/services/customHomeComposition.ts:40-42 | so are the keys under which display preferences are kept |
| `Composition.MoreIsKept` | front/public-app/src/services/customHomeComposition.ts:46-47 | some section has more exactly when some contribution has |
| `Composition.SectionsByFirstContribution` | front/public-app/src/services/customHomeComposition.ts:25-35 | sections stand in the order of their first contributions |
| `HomeContentIdentity.MarkAmbiguousHomeIdentities` | front/public-app/src/services/homeContentIdentity.ts:41-55 | the two passes, counting and marking in place, mark exactly the identities that have a twin |
| `HomeContentIdentity.TwinByCount` | front/public-app/src/services/homeContentIdentity.ts:44-53 | a count above one means another entry with the same source and key, independent of order |
| `HomeContentIdentity.MarkingIsIdempotent` | front/public-app/src/services/homeContentIdentity.ts:41-55 | marking what is marked changes nothing |
| `HomeContentIdentity.SameIdentityIff` | front/public-app/src/services/homeContentIdentity.ts:11-35 | identities of one source are equal exactly when they stand for the same provider key, request map or title |
| `HomeContentIdentity.ReferenceResolves` | front/public-app/src/services/customHomeReferences.ts:9-32 | in the catalog of one source, a category for which a reference can be created resolves back to exactly that category |
| `HomeContentIdentity.ReferenceResolvesIff` | front/public-app/src/composables/home/useCustomHomeCatalog.ts:89-96 | in any marked catalog it resolves to itself exactly when no other source has an unambiguous identity with that key |
| `Descriptors.CanonicalIff` | front/public-app/src/services/mediaRouting.ts:46-47 | the sorted JSON text of a descriptor is equal exactly for equal name-value maps |
| `MediaRouting.RoutingDependsOnSet` | front/public-app/src/services/mediaRouting.ts:93-104 | the handler is a function of the set of types: an independent rule on sets decides the same |
| `MediaRouting.RoutingIgnoresOrder` | front/public-app/src/services/mediaRouting.ts:81-104 | raw types in any order and multiplicity are routed alike |
| `MediaRouting.NormalizedTypes` | front/public-app/src/services/mediaRouting.ts:81-86 | normalisation keeps exactly the non-empty canonical types, each once |
| `MediaRouting.CollectionIdentityIff` | front/public-app/src/services/mediaRouting.ts:45-48 | two valid collection targets have one identity exactly when their descriptors are equal as a multiset of maps |
| `MediaRouting.IdentityIff` | front/public-app/src/services/mediaRouting.ts:22-64 | across all handlers, two openable targets have one identity exactly when they stand for the same thing |
| `BrowserSessions.SessionsAreConserved` | server/crates/arachnea-http/src/browser.rs:401-524 | on every schedule the map stays within its bound, tracked sessions are valid, and each created handle is tracked or was handed to be closed, exactly once |
| `BrowserSessions.CallersShare` | server/crates/arachnea-http/src/browser.rs:401-418 | two callers of one key hold different handles only if one of these was handed to be closed |
| `BrowserSessions.LoserGetsWinnersHandle` | server/crates/arachnea-http/src/browser.rs:411-418 | over every run: once a caller was given a handle for a key, each caller that comes to the write lock for that key while the handle was not handed to be closed gets the same one and evicts nothing |
| `BrowserSessions.EvictionIsMinimal` | server/crates/arachnea-http/src/browser.rs:420-448 | nothing is evicted below capacity; at capacity all idle or invalid sessions; and if there are none exactly one, the least recently used |
| `BrowserSessions.EvictionMakesRoom` | server/crates/arachnea-http/src/browser.rs:420-448 | after the eviction there is room for one more session within max(1, max_sessions) |
| `BrowserSessions.RunKeeps` | server/crates/arachnea-http/src/browser.rs:401-524 | the invariant over lookups, creations, invalidations, evictions and closes |
| `BrowserSessions.BrowserSessionManager.FindOldest` | server/crates/arachnea-http/src/browser.rs:439-442 | the scan finds a session with minimal last use |
| `BrowserSessions.BrowserSessionManager.Evict` | server/crates/arachnea-http/src/browser.rs:420-448 | both eviction stages with their loops |
| `BrowserSessions.BrowserSessionManager.CreateSession` | server/crates/arachnea-http/src/browser.rs:411-455 | the slow path of get_or_create with its second look |
| `BrowserSessions.BrowserSessionManager.LookUp` | server/crates/arachnea-http/src/browser.rs:402-409 | the fast path touches and returns a tracked session |
| `BrowserSessions.BrowserSessionManager.RemoveSessions` | server/crates/arachnea-http/src/browser.rs:430-434 | the removal loops give every removed handle once |
| `BrowserSessions.BrowserSessionManager.EvictIdleSessions` | server/crates/arachnea-http/src/browser.rs:506-524 | idle or invalid sessions are removed, invalidated and counted |
| `BrowserSessions.BrowserSessionManager.InvalidateOriginSessions` | server/crates/arachnea-http/src/browser.rs:467-483 | exactly the sessions of the origin are removed, invalidated and handed over |
| `BrowserSessions.BrowserSessionManager.InvalidateAllSessions` | server/crates/arachnea-http/src/browser.rs:490-501 | every session is removed, invalidated and handed over |
| `Cookies.CacheAgreesWithLog` | server/crates/arachnea-http/src/cookies.rs:81-145 | with a clock that does not go back the cache shows exactly what a last-write log shows |
| `Cookies.CacheAgreesIff` | server/crates/arachnea-http/src/cookies.rs:106-142 | for any clock readings they differ exactly when a cookie alive now was found expired earlier |
| `Cookies.ClockGoingBackDisagrees` | server/crates/arachnea-http/src/cookies.rs:106-108 | a concrete history where the clock goes back and the cache has lost a live cookie |
| `Cookies.RequestCarriesTheLog` | server/crates/arachnea-http/src/cookies.rs:190-203 | a request carries exactly the matching cookies of the log |
| `Cookies.ParseSetCookie` | server/crates/arachnea-http/src/cookies.rs:313-372 | the overwriting attribute loop yields the last valid Max-Age, else the last valid Expires, else the default lifetime, and the last Domain, Path and SameSite |
| `Cookies.LastValueIs` | server/crates/arachnea-http/src/cookies.rs:333-360 | what last valid value means: some attribute has it and no later one has any |
| `Cookies.HostCookieReturnsIff` | server/crates/arachnea-http/src/cookies.rs:383-420 | a cookie without Domain, Path and Secure goes back to its URL until it expires, exactly when the URL's path starts with a slash |
| `Cookies.DefaultPathIsRfc` | server/crates/arachnea-http/src/cookies.rs:383-391 | the default path is that of RFC 6265, section 5.1.4 |
| `Cookies.PathMatchIsRfcIff` | server/crates/arachnea-http/src/cookies.rs:405-419 | the prefix test agrees with the path-match of RFC 6265, section 5.1.4, for all requests exactly when the cookie path ends in a slash |
| `Cookies.KeyIsNormal` | server/crates/arachnea-http/src/cookies.rs:287-293 | normalising a domain before storing it does not change its key |
| `Cookies.SharedCookieCache.SetFromSetCookieHeaders` | server/crates/arachnea-http/src/cookies.rs:124-144 | the header loop stores or removes cookie by cookie and skips what is no text or malformed |
| `Cookies.SharedCookieCache.ClearExpired` | server/crates/arachnea-http/src/cookies.rs:106-108 | the sweep retains exactly the unexpired cookies |
| `Cookies.SharedCookieCache.InsertCookie` | server/crates/arachnea-http/src/cookies.rs:80-83 | an insertion replaces what is stored under the normalised key |
| `Cookies.SharedCookieCache.RemoveCookie` | server/crates/arachnea-http/src/cookies.rs:92-94 | a removal deletes what is stored under the normalised key |
| `Cookies.SharedCookieCache.Receive` | server/crates/arachnea-http/src/cookies.rs:135-141 | a cookie that comes expired removes the stored one, any other replaces it |
| `Cookies.SharedCookieCache.CookiesForUrl` | server/crates/arachnea-http/src/cookies.rs:190-203 | a lookup sweeps first and gives exactly the names of the matching cookies, each with the value of one of them, whatever the order of the cache |
| `ReloadableScraper.ActiveSizingIsStored` | server/crates/arachnea-stream/src/reloadable_stream_scraper.rs:150-180 | once every call returned and no build or publication failed, the active instance has the stored cache sizing, under any interleaving of writers and rebuilds |
| `ReloadableScraper.ActiveEndpointsAreRegistered` | server/crates/arachnea-stream/src/reloadable_stream_scraper.rs:288-295 | every instance published after registration carries the registration-time endpoints |
| `ReloadableScraper.OnlySwapsReplaceTheInstance` | server/crates/arachnea-stream/src/reloadable_stream_scraper.rs:304-312 | without a swap step the active instance stays what it is, but for its country: a failed build leaves it untouched |
| `ReloadableScraper.ApplyInstallsIff` | server/crates/arachnea-stream/src/reloadable_stream_scraper.rs:150-180 | one apply with no other call under way, on every schedule: the active instance ends with the stored sizing exactly when the options changed and nothing failed, or that sizing was active before |
| `ReloadableScraper.FailureFreeApplyInstallsIff` | server/crates/arachnea-stream/src/reloadable_stream_scraper.rs:152-166 | without failures the guard decides: exactly when the options differ from the stored ones, or their sizing was active before |
| `ReloadableScraper.FailedBuildIsNotRetried` | server/crates/arachnea-stream/src/reloadable_stream_scraper.rs:152-180 | a concrete schedule: an apply whose build fails and the same apply after it both report success, the second without a rebuild, and the active sizing stays behind |
| `ReloadableScraper.RepeatReturnsAtOnce` | server/crates/arachnea-stream/src/reloadable_stream_scraper.rs:152-180 | applying the stored sizing again, without a country, returns success and changes nothing |
| `ReloadableScraper.ReloadableStreamScraper.CompareCache` | server/crates/arachnea-stream/src/reloadable_stream_scraper.rs:151-166 | the comparison segment on the facade's fields |
| `ReloadableScraper.ReloadableStreamScraper.WriteCache` | server/crates/arachnea-stream/src/reloadable_stream_scraper.rs:167-172 | the write of the options, outside the rebuild mutex |
| `ReloadableScraper.ReloadableStreamScraper.StoreCurrentCountry` | server/crates/arachnea-stream/src/reloadable_stream_scraper.rs:129-134 | the stored country, under the lock of the options |
| `ReloadableScraper.ReloadableStreamScraper.TakeCurrentInstance` | server/crates/arachnea-stream/src/reloadable_stream_scraper.rs:135-135 | the instance to be told is taken later, in a scope of its own |
| `ReloadableScraper.ReloadableStreamScraper.SetInstanceCountry` | server/crates/arachnea-stream/src/reloadable_stream_scraper.rs:135-135 | the country reaches the instance taken earlier, or one no longer active |
| `ReloadableScraper.ReloadableStreamScraper.LockRebuild` | server/crates/arachnea-stream/src/reloadable_stream_scraper.rs:233-271 | the mutex is taken and the country option copied |
| `ReloadableScraper.ReloadableStreamScraper.FinishBuild` | server/crates/arachnea-stream/src/reloadable_stream_scraper.rs:276-295 | a build fails and releases the mutex, or carries the registered endpoints |
| `ReloadableScraper.ReloadableStreamScraper.RestoreOptions` | server/crates/arachnea-stream/src/reloadable_stream_scraper.rs:296-303 | the runtime options are read anew before publication, which may fail |
| `ReloadableScraper.ReloadableStreamScraper.SwapInstance` | server/crates/arachnea-stream/src/reloadable_stream_scraper.rs:304-305 | the swap segment, which releases the mutex |
| `ErrorCodes.CodesUniqueIff` | server/crates/arachnea-core/src/error_code.rs:66-89 | whatever the clock, a new generator never repeats a code exactly when no reset and no overflow enters a millisecond in which an earlier call issued one; only sequence 0 of the millisecond it started in may come late, once |
| `ErrorCodes.IncreasingIffClockKeepsUp` | server/crates/arachnea-core/src/error_code.rs:66-89 | over any run the codes strictly increase exactly when the clock is never behind the generator's last millisecond |
| `ErrorCodes.CodesAreDistinct` | server/crates/arachnea-core/src/error_code.rs:66-89 | under such a clock no code repeats, across the hundred-per-millisecond overflow |
| `ErrorCodes.BurstDistinctIff` | server/crates/arachnea-core/src/error_code.rs:74-83 | on a frozen clock, whatever its reading, the codes are distinct exactly up to 101 calls; then they repeat |
| `ErrorCodes.PrintInjective` | server/crates/arachnea-core/src/error_code.rs:85-88 | the printed code determines millisecond and sequence |
| `ErrorCodes.PrintedNumber` | server/crates/arachnea-core/src/error_code.rs:85-88 | for times from the epoch on, the digits of a code are the number 100 times millisecond plus sequence |
| `ErrorCodes.ErrorCodeGenerator.NextCode` | server/crates/arachnea-core/src/error_code.rs:66-89 | the generator's update of its two fields |

## Left out

- Subsection overlays of the catalog: the variants of a section are resolved on load, but `loadSection` for a single subsection is not modelled.
- A member's items: the loader writes back from a snapshot, so items merged meanwhile can be lost; nothing is claimed about them.
- Sources inside a section are told apart by value in the model and by reference in the program.
- `retryIssue` of the catalog, which only calls the loaders, and the failures of a load outside its requests.
- Deferred banners of the catalog: a response is one guarded step; interleaving and deduplication of entries are not modelled.
- The category descriptor of a paging state, which never changes, and the text of issues.
- Vue reactivity, watchers, views and the router: watchers are explicit calls.
- `fetch`, backend calls, IndexedDB connections and retries: a response is any value or a failure, a transaction is one atomic step on a map.
- Storage records that are not plain objects or miss fields are one malformed value with at most a name; the shapes of references, descriptors and display options inside a definition are not modelled.
- `applyCustomHomeSelection` and `createSectionReference`: they copy fields, and their checks are those of the validator and of category references.
- Unicode normalisation, folding and locale order are parameters, and strings are sequences of Unicode scalar values, so lone surrogates do not occur; an escaped one parses to the replacement character.
- JSON numbers with a fraction or an exponent are kept as text, so a version written `1.0` is not recognised as 1.
- Integer widths and time overflow: milliseconds, expiry times and revisions are unbounded, except where a bound is checked by the source.
- Mutex poisoning, panics and the absence of an async runtime, without which evicted sessions are dropped unclosed.
- Session handles are indices into a table instead of shared pointers; the time in one locked section is read once.
- Turnstile token contents, pages and engines of browser sessions.
- The order of cookies in a header, Cloudflare state and refresh margins.
- Proxy settings of the stream scraper, and the country of an instance whose rebuild overlaps a country change.
- EntryDetailsData.ListIsPagesOfSelectedSeason: assumes that the backend echoes page numbers and that every fallback fits the current details; without the second assumption it is false, and EntryDetailsData.OrderlyIff shows that condition to be exact.
- EntryDetailsData.OrderlyIff: the equivalence is with the invariant; a season loaded by a fallback that does not fit may be replaced before its pages are seen.
- CatalogLoader.HomeCatalog.ResumeSources: banners and shortcuts are an arbitrary base value, not the interleaved lists.
- CatalogLoader.HomeCatalog.LoadMember: one member of a render group, without the branch for a single subsection.
- CatalogLoader.HomeCatalog.ResumeSource: sources are told apart by value, and a subsection is not written back.
- CatalogLoader.HomeCatalog.ResumeBanners: the merged entries are an arbitrary base value, not the interleaved and deduplicated list.
- Cookies.SharedCookieCache.CookiesForUrl: of several matching cookies with one name any may win, as the order of the cache is unspecified.
- RoutePayloads.PayloadRoundTrip: covers values without kept number text, which no route payload contains.
