# Directory platform: a Dafny model of its stateful and arithmetic core

This project models, in Dafny 4.11, the parts of the directory platform that are protocols, stateful
algorithms or exact arithmetic, and proves what they promise for all inputs, all runs and all
interleavings. `dafny verify dfyconfig.toml` checks everything.

- **The worker** (`worker/index.ts`, `worker/lock.ts`, `lib/revalidate/client.ts`). `WorkerProtocol` is a
  transition system of job firings, open transactions with buffered writes, an advisory-lock table,
  committed versions, the `job_runs` log, the slices of paths still to be sent and the web container's
  page cache; any action of any firing, a crash or a render may come next. `WorkerTheorems` proves cache
  staleness, mutual exclusion and log properties over every run, `WorkerSchedule` is the body of
  `schedule` and the revalidation loop statement by statement, with any actions of others at each await,
  and `WorkerVariants` gives losing runs of two rejected designs. `LockKeys` is `lockKey`.
- **The seed** (`scripts/seed.ts`, with `lib/routing/slugs.ts`, `lib/db/queries/indexing.ts` and
  `lib/db/queries/areas.ts`). `SlugRegistry` and `Seed` are the specification functions, `SeedStore` the
  script as loops over a store, `SeedIdempotence`, `SeedPlural`, `SeedRouting`, `SeedIndexing`,
  `SeedPlacement`, `SeedRows` and `SeedCopy` the theorems, and `SeedText` the sheet parser, HTML escaping and the text of markup.
- **Two programs in front of something else.** `PasswordReset` is the reset form with its two rate
  budgets, `ResetBudgets` what holds of the address's and `ResetConnections` of the connection's, `PayPalSetup` the find-or-create script over paged
  remote lists and `PayPalRetries` what running it again does.
- **Reconcilers and queues.** `Turnstile` (waiting queue), `MapMarkers` (marker diff), `Beacon`
  (dedupe and cap).
- **Pagination, parsing and arithmetic.** `PageWindow`, `PageLinks`, `CliArgs`, `Theme`, `Pricing`,
  `Sparkline`, `MapView`, with `Decimals` for printed numbers and `Wrappers` for what may be absent.

Code that updates state is a class or a method with loops, and each such method's `ensures` equates the
new state, or the result, with a specification function; the theorems are about those functions. Values
the code only computes are functions.

What the code says and what is true of it differ in a few places; the model follows the code.

- A `failed` row reads as nothing done. A run that fails, or is logged so, has committed if and only if its
  `ok` insert threw or its COMMIT went unacknowledged (`FailedHidesACommitIff`), and then its paths are
  never sent (`NothingIsSentAfterALoss`); `CommittedRunLoggedAsFailed` is such a run.
- One firing reads as one row. It has two, `ok` and then `failed`, if and only if its `ok` insert was stored
  with the answer lost and its `failed` insert was stored (`LoggedTwiceIff`); `jobCounts` counts both.
- Two schedules that share a lock are said never to overlap. Their transactions do not
  (`NightlyAndQueueNeverOverlap`); their callbacks run at once only if one of them has lost its connection,
  and then they may (`OverlapNeedsALostConnection`, `ALostConnectionOverlaps`).
- "Idempotent. Re-running adds nothing" holds exactly when the plural resolves
  (`SecondRunChangesNothing`); a plural of two words never does (`TwoWordPluralNeverResolves`, and
  `WeddingVenuesMakeTwo` for two runs that both complete),
  one that is its own slug always does (`OneWordPluralIsIdempotent`).
- "Two Richmonds are two cities" holds for a listing row if and only if the last city line with its city's
  joined key is that city's own (`ListingLandsInItsCityIff`); with `|` in a name it may not be
  (`ABarSendsAListingAstray`), without one it always is (`EveryListingInItsOwnCity`). The same condition
  decides which cities of the sheet the gate is recomputed for (`SheetCityIsJudgedIff`).
- The indexing gate's comment says `<p></p>` is not intro copy; the code accepts it
  (`EmptyParagraphPassesForCopy`). Where copy is required the gate does what it is for unless the copy is
  tags with no text (`GateWantsTextIff`).
- A reset reply shows nothing of an address's budget if and only if the address is invalid or the
  connection's subject does not begin with `email:` (`ReplyIsBlindIff`); `AskingShowsTheBudget` is a run
  whose reply does show it. An hour's first three requests for an address are the ones sent on if and only
  if none of them is crowded out by such a subject (`ExactlyTheFirstThreeAreSentIff`).
- A refused visitor is told how many minutes to try again in. That is too short if and only if the counter and
  the hour both end less than half a second past the same whole minute (`WaitingIsEnoughUnlessJustPast`);
  `WaitingIsNotAlwaysEnough` is a visitor who waits and is refused again.
- A named product without an id sends the search on, so the paged search is the linear one if and only if
  the first of that name has an id (`FindProductIsLinearIff`, and `AProductWithoutAnIdHidesTheNext`).
- "Run it again as often as you like" holds however runs are cut short (`NoRunMakesASecond`), but an unanswered
  list request hides what is there (`ReusesIff`, `AnUnansweredListMakesASecond`).
- The beacon means to send the first hundred distinct events. It does if and only if no two of them join alike
  (`SendsTheFirstDistinctEventsIff`); `ABarInAMetricLosesAnEvent` loses one.
- A saving worth less than half a hundredth of a month reads as zero months (`SavingIsHonest`, and
  `ASavingReadsAsZeroMonths`).
- A widget waiting behind one whose render throws is never tried again (`BehindAThrowIsNeverTried`).

Parameters stand for what lies outside: SHA-256, `slugify`, lower-casing, list formatting and name
ordering, the 2.4 power, what each awaited call returns, and the ids the database and PayPal hand out.

## Model

| member | source | states |
|---|---|---|
| LockKeys.KeyIsBijection | worker/lock.ts:6-9 | the first eight digest bytes and the signed 64-bit keys correspond one to one, both ways |
| LockKeys.SameLockIffSamePrefix | worker/lock.ts:6-9 | two lock names contend exactly when their digests agree on the first eight bytes |
| WorkerProtocol.StepKeepsInv | worker/index.ts:66-96 | every action of every firing, crash or render keeps the system invariant |
| WorkerProtocol.EveryReachableWorld | worker/index.ts:66-96 | the invariant holds after every sequence of actions from any starting rows |
| WorkerTheorems.StalePageAwaitsItsRevalidation | worker/index.ts:38-44 | in every reachable state a stale cached page was changed after its render by a committed run that returned it and has not delivered it |
| WorkerTheorems.CachedPageIsOneVersionPastEveryDelivery | worker/index.ts:83-88 | a cached page is a whole render of one committed version, newer than every commit already delivered for it |
| WorkerTheorems.ReliableRunsSend | worker/index.ts:77-89 | on a configured site, barring a crash after commit, a lost ok row, an unacknowledged commit or a refused request, every path of a committed run is delivered or in its queue, and a run that is over has emptied the queue |
| WorkerTheorems.StaleOnlyUntilRevalidate | worker/index.ts:38-44 | without those losses a stale page always has a committed run that is still going to revalidate it |
| WorkerTheorems.QuietSystemIsCoherent | worker/index.ts:38-44 | without those losses, once every firing is over no cached page differs from the committed rows |
| WorkerTheorems.StalePageIsComingOrWasLost | worker/index.ts:38-44 | page by page, whatever befalls other runs and pages: a stale page has an owing run that still has it to send or that itself lost it, by a crash after commit, a lost ok row or commit answer, or a refused slice with that page in it |
| WorkerTheorems.StaleAtRestWasLost | worker/index.ts:38-44 | once every firing is over, every stale page was lost so by a run that owes it |
| WorkerTheorems.MutualExclusion | worker/lock.ts:11-49 | over all interleavings at most one firing per lock key is inside its job with its transaction open |
| WorkerTheorems.OverlapNeedsALostConnection | worker/lock.ts:16-26 | two callbacks of one key run at once only if one of them runs on after losing its connection |
| WorkerTheorems.ALostConnectionOverlaps | worker/lock.ts:16-26 | a run in which they do: the nightly assignment goes on without its transaction and the queue drain gets the lock |
| WorkerTheorems.NightlyAndQueueNeverOverlap | worker/index.ts:282-297 | the nightly assignment and the queue drain, which share a lock name, are never both inside their jobs with transactions open |
| WorkerTheorems.HeldKeyHasOpenTransaction | worker/lock.ts:24-26 | a held key belongs to an open, uncommitted transaction inside the job that hashes to it |
| WorkerTheorems.TryLockSucceedsIffNobodyInside | worker/lock.ts:36-41 | a firing gets its lock exactly when no firing with that key is inside its job, so no lock leaks |
| WorkerTheorems.LogTellsTheTruthAboutOk | worker/index.ts:79-95 | a firing has at most one ok row and at most one failed row, under its lock's key, and an ok row means its writes are committed |
| WorkerTheorems.RowsAreWhatWasStored | worker/index.ts:79-95 | for every run of the system a firing's rows are exactly those of its inserts that were stored, answered or not, ok first |
| WorkerTheorems.LoggedTwiceIff | worker/index.ts:79-95 | a firing has an ok and a failed row if and only if its ok insert was stored with its answer lost and its failed insert was stored |
| WorkerTheorems.FailedHidesACommitIff | worker/index.ts:79-95 | for every run of the system, a firing in the catch block or with a failed row has committed if and only if its ok insert threw or its COMMIT was not acknowledged |
| WorkerTheorems.NothingIsSentAfterALoss | worker/index.ts:79-95 | after either of those, whatever follows, the firing stays committed, in the catch block or over, and none of its paths is ever delivered |
| WorkerTheorems.AnUnconfiguredSiteSendsNothing | lib/revalidate/client.ts:63-79 | over every run of a site without the secret or its address nothing is ever delivered |
| WorkerTheorems.CommittedRunLoggedAsFailed | worker/index.ts:79-95 | a run in which only the ok insert throws ends committed, logged failed and, if that insert was stored, ok besides, with nothing sent and its page stale |
| WorkerSchedule.Worker.RunJob | worker/index.ts:74-76 | the job's writes are buffered in its own transaction, whatever runs between them |
| WorkerSchedule.Worker.JobThenCommit | worker/lock.ts:43-48 | the job commits exactly when it returns with its connection and COMMIT is not aborted, and throws unless COMMIT is acknowledged |
| WorkerSchedule.Worker.WithAdvisoryLock | worker/lock.ts:31-49 | resolves true exactly when the transaction begins, the lock is asked for and free, the job returns with its connection and COMMIT is acknowledged; false exactly when the lock is held and the empty COMMIT is answered; a throw leaves a commit only if its acknowledgement was lost |
| WorkerSchedule.Worker.RevalidatePaths | lib/revalidate/client.ts:52-109 | each path once, in slices of a hundred: delivers exactly the slices that are taken, counts those that are answered, and does nothing on an unconfigured site |
| WorkerSchedule.DeliversEveryPathIff | lib/revalidate/client.ts:59-109 | every path a job returned is delivered if and only if no slice of the unique paths is refused |
| WorkerSchedule.ARequestHoldsAHundred | lib/revalidate/client.ts:83-84 | a request holds the first hundred of the paths left, or all of them if they are fewer |
| WorkerSchedule.DeliveredByPosition | lib/revalidate/client.ts:83-107 | the q-th unique path is delivered if and only if request q/100 is not refused |
| WorkerSchedule.CountedByPosition | lib/revalidate/client.ts:82-108 | the number returned is the number of paths whose request is answered |
| WorkerSchedule.UniqueInOrder | lib/revalidate/client.ts:60-84 | paths are sent in the order in which the job first named them |
| WorkerSchedule.Worker.RecordThenRevalidate | worker/index.ts:79-89 | the ok row is there unless its insert was not stored; paths are sent only when the insert is answered, and then exactly the slices taken |
| WorkerSchedule.Worker.RecordFailure | worker/index.ts:90-96 | the failed row is logged if its insert succeeds, its own failure is swallowed, and the firing has committed exactly when its commit was lost |
| WorkerSchedule.Worker.Fire | worker/index.ts:66-97 | one firing ends over with exactly the rows of its inserts that were stored: ok exactly when it begins, gets the lock, its job returns, COMMIT is acknowledged and the ok insert is answered; skipped exactly when the lock was held when tried and its empty COMMIT is answered; a failed one has committed if and only if its acknowledgement or its ok row was lost; only an ok one sends paths, exactly the slices taken |
| EagerRevalidation.EagerRevalidationGoesStale | worker/index.ts:38-44 | with paths sent before the commit a fault-free run ends with everything delivered and a stale page |
| SessionLocks.StepNeverRepairs | docs/superpowers/plans/2026-09-07-phase-1-foundation.md:3230-3249 | with session locks over a pool no action lowers the number of leaked holds |
| SessionLocks.LeakIsForever | worker/lock.ts:16-22 | a leaked session lock stays held, and every firing on another connection is refused for good |
| SessionLocks.SessionLockLeaks | worker/lock.ts:16-22 | one firing unlocked on another connection leaks its key with nothing running |
| SessionLocks.SessionLockOverlaps | worker/lock.ts:16-22 | two firings handed the same connection are both inside the job |
| SlugRegistry.ClaimKeepsUnique | lib/routing/slugs.ts:37-47 | claiming keeps slugs unique per scope, leaves the slug taken and earlier rows untouched |
| SlugRegistry.RungsOfTheLadder | lib/routing/slugs.ts:82-89 | the candidates are the bare slug, the slug with the disambiguator where that differs, then the longer of them numbered 2 to 50 |
| SlugRegistry.FirstFreeIsFirst | lib/routing/slugs.ts:82-100 | the slug allocated is the first rung nobody holds, and none is allocated only when all are held |
| SlugRegistry.ResolveIsFirst | lib/routing/slugs.ts:103-119 | resolving finds a row of that scope and slug exactly when there is one |
| SeedStore.Seeder.Candidates | lib/routing/slugs.ts:82-89 | builds the ladder: the name, the name with its disambiguator when different, then -2 to -50 |
| SeedStore.Seeder.AllocateSlug | lib/routing/slugs.ts:60-101 | claims the first free candidate for the entity, or refuses and leaves the registry as it was |
| SeedStore.Seeder.SeedReservedSlugs | lib/routing/slugs.ts:121-126 | claims every reserved slug at the root |
| SeedStore.Seeder.CitiesFromSheet | scripts/seed.ts:146-172 | the loop over the sheet is the fold over its rows, stopping where a slug is refused |
| SeedStore.Seeder.RegionSlugs | lib/db/queries/areas.ts:310-318 | each city's region slug is claimed, stopping where one is refused |
| SeedStore.Seeder.CategoriesFromSheet | scripts/seed.ts:182-202 | the loop over the sheet is the fold over its rows, stopping where a slug is refused |
| SeedStore.Seeder.ListingsFromSheet | scripts/seed.ts:205-251 | the loop over the sheet is the fold over its rows, stopping where a slug is refused |
| SeedStore.Seeder.FillIntroCopy | scripts/seed.ts:277-309 | fills exactly the NULL intros, each from its own city's published categories |
| SeedStore.Seeder.RecomputeCity | lib/db/queries/indexing.ts:55-75 | rewrites the count and the flag of the rows with that id and nothing else |
| SeedStore.Seeder.RecomputeIndexability | scripts/seed.ts:264-266 | judging the mapped ids one by one, in any order, judges exactly that set |
| SeedStore.Seeder.RunSeed | scripts/seed.ts:116-269 | what the script leaves behind, finished or stopped by a throw, is what the run function says |
| SeedIdempotence.ReserveTakesAll | lib/routing/slugs.ts:121-126 | after reserving, every reserved slug is taken, earlier rows stand and slugs stay unique |
| SeedIdempotence.SeedCitiesFind | scripts/seed.ts:146-172 | after the loop every city row is found in the finished table and the map holds the found ids |
| SeedIdempotence.SeedCitiesAgain | scripts/seed.ts:146-155 | over tables that hold every city row, the loop only fills the map and counts skips |
| SeedIdempotence.RegisterRegionsAgain | lib/db/queries/areas.ts:310-318 | registering settled regions again changes nothing |
| SeedIdempotence.SeedCategoriesAgain | scripts/seed.ts:182-189 | over tables that hold every category, the loop only fills its maps and counts skips |
| SeedIdempotence.SeedListingsLeaves | scripts/seed.ts:205-251 | after the loop every row either points nowhere or has its listing in its city |
| SeedIdempotence.SeedListingsAgain | scripts/seed.ts:205-215 | over tables that hold every listing, the loop only counts skips |
| SeedIdempotence.RunLeavesSettled | scripts/seed.ts:116-269 | a completed run leaves every row of the sheets accounted for and every city with copy |
| SeedIdempotence.SecondRunChangesNothing | scripts/seed.ts:109-269 | a second run on the same sheets completes and changes no table if and only if the plural now resolves, and then it creates nothing and skips every row |
| SeedRouting.SeedKeepsRouting | scripts/seed.ts:205-251 | slugs stay unique per scope, each new listing owns exactly one slug row in its city's scope, and a pair gains a category row exactly when a new listing needs it and it had none |
| SeedRouting.ReportAddsUp | scripts/seed.ts:61-66 | created plus skipped is the number of data rows, and each created count is the rows its table gained |
| SeedPlacement.CityKeyIsInjective | scripts/seed.ts:58-59 | joined keys tell cities apart, regions included, when no name contains the separator |
| SeedPlacement.ListingLandsInItsCityIff | scripts/seed.ts:144-251 | for every completed run and every listing row that inserted a listing: it has the row's name and category, and is in the city the row names if and only if the last city line with that city's joined key is that city's own |
| SeedPlacement.ABarSendsAListingAstray | scripts/seed.ts:144-251 | with the separator in a name, a sheet of two cities whose one listing is inserted in the city its row does not name |
| SeedPlacement.EveryListingInItsOwnCity | scripts/seed.ts:144-251 | with no separator in a city name, every inserted listing was inserted by a row of the sheet and is in the city and category that row names |
| SeedRows.TheRunHasItsVertical | scripts/seed.ts:124-140 | a completed run works under the vertical its lower-cased plural is registered to, or under one it makes from the site's words with a slug of its own |
| SeedRows.NewCityIsFromItsLine | scripts/seed.ts:146-171 | every inserted city has the name, region and country of a line of its sheet, an empty country being the site's, and owns the slug it stands under, a rung of its ladder; where the gate was not recomputed it counts nothing and is not indexable |
| SeedRows.NewCategoryIsFromItsLine | scripts/seed.ts:182-202 | every inserted category has the name of a line of its sheet, that line's singular and plural or their defaults, the run's vertical, and owns its slug |
| SeedRows.NewListingSaysItsRow | scripts/seed.ts:232-250 | the listing a row inserted is published, under the run's vertical and a rung of its ladder, and described by its own name, its category's last noun and the city its row names |
| SeedIndexing.OneRunIsEnough | scripts/seed.ts:253-266 | after the two derived phases neither has anything left to change |
| SeedPlacement.SheetCityIsJudgedIff | scripts/seed.ts:264-266 | a city of the sheet is among those the gate is recomputed for if and only if the last line with its joined key is its own |
| SeedPlacement.EverySheetCityIsJudged | scripts/seed.ts:264-266 | with no separator in a city name, every city of the sheet is |
| SeedIndexing.IndexableExactlyWhenCounted | lib/db/queries/indexing.ts:31-40 | a judged city carries the number of published listings whose city it is, and is indexable exactly when that meets the threshold, unless copy is required and it came in with blank copy |
| SeedIndexing.CountIsTheNumberPublished | lib/db/queries/indexing.ts:55-75 | a city's count is the number of listings that are published and in that city |
| SeedIndexing.NamesAreThePublishedCategories | scripts/seed.ts:285-298 | a name is written into a city's copy if and only if a category of that name has a published listing in that city |
| SeedIndexing.CopyNamesItsOwnCategories | scripts/seed.ts:277-309 | over a completed run copy already there stays, and every other city gets copy made from its own name, region and exactly those category names |
| SeedIndexing.SwappedIsFixpointIff | scripts/seed.ts:253-266 | with the phases swapped a run is a fixpoint, and agrees with the real order, if and only if no judged city without copy reaches the threshold or copy is not required |
| SeedIndexing.SwappedLeavesLeedsShut | scripts/seed.ts:253-258 | an input on which the swapped order leaves a city with its listing and its copy not indexable, and the real order opens it |
| SeedIndexing.TextlessCopyIsRefusedIff | app/[...segments]/page.tsx:80-83 | with copy required and the threshold met, copy with no text in it is refused if and only if it is all white space, that is if and only if it holds no tag |
| SeedIndexing.GateWantsTextIff | lib/db/queries/indexing.ts:26-40 | with copy required and the threshold met, the gate opens exactly for copy that has text, if and only if the copy is not tags without text |
| SeedIndexing.EmptyParagraphPassesForCopy | lib/db/queries/indexing.ts:26-40 | an empty paragraph has no text and passes for copy |
| SeedIndexing.GeneratedCopyCounts | scripts/seed.ts:84-107 | generated copy always passes the gate's test for copy |
| SeedCopy.CopyStatesItsFacts | scripts/seed.ts:89-107 | the copy holds the site's name, the noun and the place, escaped; the place leaves out an absent or empty region |
| SeedCopy.CopyListsThreeCategories | scripts/seed.ts:92-99 | with categories it lists the first three, lower-cased and escaped, and says whether there are more |
| SeedCopy.NoCategoriesNoSentence | scripts/seed.ts:97-106 | without categories the opening runs straight into the closing |
| SeedCopy.PlainCopyReads | scripts/seed.ts:101-106 | names that need no escaping stand as they are, each in its place, in the opening and in the closing |
| SeedPlural.TwoWordPluralNeverResolves | scripts/seed.ts:124-140 | a plural with a space never resolves after a run, so a second run throws or changes the tables |
| SeedPlural.SpacedPluralMakesTwo | scripts/seed.ts:124-140 | for every plural with a space, two runs over an empty database with empty sheets both complete and leave two verticals |
| SeedPlural.WeddingVenuesMakeTwo | scripts/seed.ts:124-140 | one such site, written out |
| SeedPlural.OneWordPluralIsIdempotent | scripts/seed.ts:109-140 | a plural that is its own slug always resolves after a run, so the second run changes nothing and skips every row |
| SeedText.ParseOfPrint | scripts/seed.ts:27-38 | a printed sheet parses back to its rows cell by cell, for clean cells and non-blank first and last lines: missing cells read as empty, extra ones are dropped, and of two columns with one header the last is read |
| SeedText.UnescapeOfEscape | scripts/seed.ts:53-56 | unescaping undoes escaping, so no two texts escape alike |
| SeedText.EscapedIsInert | scripts/seed.ts:53-56 | escaped text holds no angle bracket and no quote |
| PasswordReset.LeftHopsDoNotMatter | lib/spam/client-ip.ts:28-43 | whatever is put to the left in the forwarded list, the subject counted stays the same |
| PasswordReset.CloudflareDecides | lib/spam/client-ip.ts:28-32 | behind Cloudflare a non-blank connecting-ip header is the subject, whatever else is sent |
| PasswordReset.CloudflareIsIgnored | lib/spam/client-ip.ts:28-32 | without that switch the header changes nothing |
| PasswordReset.SubjectIsTheLastHop | lib/spam/client-ip.ts:34-43 | otherwise the subject is the last forwarded hop that is not blank, and only without one the real-ip header if it is not blank |
| PasswordReset.LooksLikeAddressIff | app/forgot-password/actions.ts:44 | an address is a word, an at sign, a word, a dot and a word, none with white space or an at sign in it |
| PasswordReset.DeliverableIff | app/forgot-password/actions.ts:58-65 | one of at most 254 characters is delivered to, a missing field never is |
| PasswordReset.BreaksBecomeASpace | app/forgot-password/actions.ts:58 | each run of line breaks inside the field becomes one space |
| PasswordReset.ResetForm.RateLimit | lib/spam/rate-limit.ts:77-101 | while Redis answers: counts one request in the key's current window, judges it against the limit and says what remains; no key, no counting |
| PasswordReset.ResetForm.RequestPasswordReset | app/forgot-password/actions.ts:54-100 | validate, connection budget, address budget, then the call, whose throw is swallowed |
| PasswordReset.RepliesIgnoreAccounts | app/forgot-password/actions.ts:24-28 | any two account stores behind any two behaviours of the call give the same replies to any request sequence |
| PasswordReset.AccountsAreWhatWasCalled | app/forgot-password/actions.ts:85-100 | for every request sequence the accounts end as the logged calls leave them, each made with its own request's address, in order, throwing or not, and nothing else touches them |
| ResetBudgets.RepliesIgnoreAddressBudgets | app/forgot-password/actions.ts:30-35 | in every request sequence, each reply that is blind is the same whatever the address counters held at the start |
| ResetBudgets.ReplyIsBlindIff | app/forgot-password/actions.ts:30-35 | a reply is the same whatever the address counters hold if and only if the address is invalid or the subject does not begin with "email:" |
| ResetBudgets.ForwardedHashShowsTheBudget | lib/spam/client-ip.ts:28-43 | a forwarded header naming an address's hash is answered Sent with no counter running and TooMany with only that address's counter at the connection's limit |
| ResetBudgets.AForwardedHeaderShowsTheBudget | lib/spam/write-limit.ts:22-29 | one such request, written out |
| ResetBudgets.AskingShowsTheBudget | app/forgot-password/actions.ts:59-83 | a run that gets there: anonymous requests for an address fill its counter, and the forwarded header is then refused |
| ResetBudgets.WindowKeyIsInjective | lib/spam/rate-limit.ts:86-87 | different keys and different windows never share a counter |
| ResetBudgets.SpendCountsOne | lib/spam/rate-limit.ts:93-95 | spending adds one to its own window's counter and to no other; expiry never shortens a window |
| ResetBudgets.AtMostThreeResetsAnHour | app/forgot-password/actions.ts:76-83 | at most three reset calls per clock hour for one address however it is cased, whatever requests arrive |
| ResetBudgets.CalledIffInBudget | app/forgot-password/actions.ts:59-90 | whatever requests arrive, an address's counter is what was asked of it plus what connections named after its hash spent, and a request becomes a call if and only if it is answered Sent with fewer than three of those spent in its hour |
| ResetBudgets.ExactlyTheFirstThreeAreSentIff | app/forgot-password/actions.ts:76-90 | for every request sequence, the calls for an address in an hour are exactly the first three requests that reach its budget if and only if none of these is crowded out by connections named after its hash |
| ResetBudgets.ExactlyTheFirstThreeAreSent | app/forgot-password/actions.ts:76-90 | so they are when no deliverable request is counted under that address's hash |
| ResetConnections.RefusedIffUsedUp | app/forgot-password/actions.ts:67-74 | whatever requests arrive, a valid one is refused if and only if its connection is known and its five an hour, scaled, are used up, by its own requests or by those for an address whose hash its subject names |
| ResetConnections.TheFirstFiveAreLetThrough | lib/spam/write-limit.ts:200 | of a plain connection's valid requests in an hour exactly the first five, scaled, are not refused |
| ResetConnections.RemainingCountsDown | lib/spam/rate-limit.ts:90-98 | what is said to remain is positive exactly when the next one is allowed, and counts down by one |
| ResetConnections.EveryCounterEndsInTheNextWindow | lib/spam/rate-limit.ts:93-95 | after any requests every counter ends inside the window after its own |
| ResetConnections.WaitingIsEnoughUnlessJustPast | app/forgot-password/actions.ts:67-74 | the minutes a refusal names end no more than a minute after the counter and less than half a second before the next hour; they end in the same hour if and only if counter and hour end just past the same whole minute |
| ResetConnections.WaitingIsNotAlwaysEnough | lib/spam/rate-limit.ts:93-98 | for every site and plain connection, a run in which a visitor told to wait a minute does so and is refused again |
| PayPalSetup.Script.FindProduct | scripts/paypal-setup.ts:47-58 | the page loop with its early exits is the paged search |
| PayPalSetup.Script.FindPlan | scripts/paypal-setup.ts:89-105 | the page loop with its early exits is the paged search |
| PayPalSetup.Script.ProductId | scripts/paypal-setup.ts:60-83 | the product found, or the one created, or a throw with the remote lists as the request left them |
| PayPalSetup.Script.PlanId | scripts/paypal-setup.ts:121-140 | the plan found with an id, or the one created, or a throw |
| PayPalSetup.Script.Execute | scripts/paypal-setup.ts:107-188 | the whole script: product, each paid plan in order, the featured and the sponsor plan, stopping at the first throw |
| PayPalSetup.FindPlanIsLinear | scripts/paypal-setup.ts:89-105 | when its requests are answered the early-exit search equals a linear search of the first two hundred plans |
| PayPalSetup.FindProductIsLinearIff | scripts/paypal-setup.ts:47-58 | for products it does if and only if the first of that name, if there is one, has an id |
| PayPalSetup.AProductWithoutAnIdHidesTheNext | scripts/paypal-setup.ts:47-83 | two products of the name, the first without an id: neither is found and a third is made |
| PayPalSetup.CreatesExactlyWhenMissing | scripts/paypal-setup.ts:118-141 | an answered lookup creates exactly when no usable plan of that name is among the first two hundred |
| PayPalSetup.EnsurePlanSettles | scripts/paypal-setup.ts:118-141 | a completed find-or-create leaves its own id and every earlier one to be found |
| PayPalSetup.SecondRunPrintsTheSame | scripts/paypal-setup.ts:28-31 | after a completed run another creates nothing and prints the same lines, when requests are answered, items carry ids and no list outgrows two hundred, wherever new items are listed |
| PayPalSetup.PrintsTheIdsThatAreListed | scripts/paypal-setup.ts:107-188 | under the same conditions line k gives the k-th entry's variable the id of the first plan of its name now listed under the first product of the site's name; the entries are the paid plans in order, the featured and the sponsor plan |
| PayPalSetup.PrintsOneLineAnEntry | scripts/paypal-setup.ts:107-188 | whatever the network does, a completed run prints one line an entry, in order, for that entry's variable |
| PayPalSetup.RoomMakesItRepeatable | scripts/paypal-setup.ts:28-31 | a network that answers and creates makes the run repeatable as soon as the lists have room for everything the script may create |
| PayPalRetries.ReusesIff | scripts/paypal-setup.ts:89-128 | whatever the network does, a plan is reused if and only if the first of its name has an id and is among the first two hundred with every page up to its own answered; that costs one request a page and nothing else, and otherwise there is one create |
| PayPalRetries.NoRunMakesASecond | scripts/paypal-setup.ts:28-31 | over any number of runs, cut short anywhere by a rejected create or a lost answer, no name gets a second product or plan, while list requests are answered, items carry ids and lists stay within two hundred |
| PayPalRetries.ALostPlanIsFoundNext | scripts/paypal-setup.ts:118-141 | a plan whose create was answered with a loss throws, is there all the same, and is what the next run reuses |
| PayPalRetries.ALostProductIsFoundNext | scripts/paypal-setup.ts:60-83 | and so for the product |
| PayPalRetries.AnUnansweredListMakesASecond | scripts/paypal-setup.ts:89-105 | an unanswered list request hides the plan that is there, and a second of its name is made |
| Turnstile.Document.WhenTurnstileReady | components/submit/TurnstileWidget.tsx:47-70 | runs the callback at once when the script is there, else queues it, hooks and adds one script tag |
| Turnstile.Document.Dequeue | components/submit/TurnstileWidget.tsx:66-69 | takes the first occurrence out of the queue and leaves the rest in order |
| Turnstile.Document.UnmountWidget | components/submit/TurnstileWidget.tsx:109-116 | an unmount is dead, out of the queue and off the page |
| Turnstile.Document.OnloadCallback | components/submit/TurnstileWidget.tsx:54-56 | empties the queue and asks each in turn, stopping at a throw |
| Turnstile.EveryReachablePage | components/submit/TurnstileWidget.tsx:31-117 | over every interleaving of mounts, unmounts and the script's arrival the invariant holds |
| Turnstile.BeforeLoadTheQueueIsTheLiveMounts | components/submit/TurnstileWidget.tsx:31-35 | before the script the queue is exactly the live mounts in mounting order and nothing is rendered |
| Turnstile.RenderedAtMostOnceAndNeverAfterUnmount | components/submit/TurnstileWidget.tsx:93-95 | no mount is rendered twice, and none after it has unmounted, whatever comes before and after |
| Turnstile.UnmountLeavesNothing | components/submit/TurnstileWidget.tsx:109-116 | an unmounted mount is not in the queue and has no widget on the page |
| Turnstile.OneScriptTag | components/submit/TurnstileWidget.tsx:47-64 | the page is ready from the script's arrival on; one script tag is added and the hook set if and only if something mounts before that |
| Turnstile.OnThePageIff | components/submit/TurnstileWidget.tsx:73-117 | over every event sequence a widget is on the page if and only if its render call made one and its mount has not unmounted |
| Turnstile.LoadRendersTheQueue | components/submit/TurnstileWidget.tsx:54-56 | at load the queue is rendered in order and emptied; all of it if and only if no render but the last throws |
| Turnstile.BehindAThrowIsNeverTried | components/submit/TurnstileWidget.tsx:54-56 | a mount waiting at load is rendered, then or after whatever events follow, if and only if no render of one ahead of it throws |
| Turnstile.AfterLoadEveryLiveMountIsRendered | components/submit/TurnstileWidget.tsx:47-70 | if no render throws, from load on every live mount has been rendered, once, and the queue is empty |
| MapMarkers.LiveMap.AddMissing | components/map/ListingMap.tsx:265-315 | the loop over the features is the fold over them |
| MapMarkers.LiveMap.RemoveUnseen | components/map/ListingMap.tsx:317-321 | removes from the map and from the layer exactly the markers whose key was not seen |
| MapMarkers.LiveMap.SyncMarkers | components/map/ListingMap.tsx:256-322 | a sync is one pass over the features and one over the markers; a throwing query changes nothing |
| MapMarkers.SyncLeavesExactlyTheSeen | components/map/ListingMap.tsx:265-321 | the keys left are the seen ones that had a marker or can be drawn where they first occur; survivors are the same objects, new ones are drawn from that first occurrence |
| MapMarkers.PinAfterSync | components/map/ListingMap.tsx:276-314 | a listing's pin is there after a sync if and only if it was before or the first feature with its id has a name and a link; a new one shows that name and link where that feature is, an old one is as it was |
| MapMarkers.ClusterAfterSync | components/map/ListingMap.tsx:276-314 | a cluster always has its bubble; a new one shows the points its first feature gives |
| MapMarkers.GoneAfterSync | components/map/ListingMap.tsx:317-321 | what no feature names is gone |
| MapMarkers.TwoPinsTwoMarkers | components/map/ListingMap.tsx:265-321 | two listings have two different markers, both on the map |
| MapMarkers.NoMarkerLeaks | components/map/ListingMap.tsx:256-322 | after any sequence of syncs the markers on the map are exactly the entries' values, one per key |
| MapMarkers.SyncIsIdempotent | components/map/ListingMap.tsx:256-322 | the same features again change nothing |
| Beacon.Send | components/stats/beacon-script.ts:38-52 | the loop sends the first hundred distinct keys, so stopping early loses nothing |
| Beacon.SentAreVisibleMarkers | components/stats/beacon-script.ts:38-52 | at most a hundred events are sent, fewer only when there are no more, each of a marker that is visible and has a metric and a listing |
| Beacon.DistinctEventsAreVisible | components/stats/beacon-script.ts:38-52 | the events meant are exactly those of such markers |
| Beacon.KeysAgreeIff | components/stats/beacon-script.ts:45-47 | the joined key removes exactly the repeats of metric and listing if and only if no two counting markers of different pairs join alike |
| Beacon.NoBarNoClash | components/stats/beacon-script.ts:45-47 | without the separator in a metric none do, whatever the listing ids hold |
| Beacon.SendsTheFirstDistinctEventsIff | components/stats/beacon-script.ts:38-52 | what is sent is the first hundred distinct visible markers in document order if and only if no two of different pairs join alike within the shortest prefix that holds so many |
| Beacon.SendsTheFirstDistinctEvents | components/stats/beacon-script.ts:38-52 | so it is for metrics without the separator |
| Beacon.ABarInAMetricLosesAnEvent | components/stats/beacon-script.ts:45-47 | with the separator in a metric, two markers of which only the first is sent |
| PageWindow.Window | components/pillar/page-window.ts:18-37 | the set, the sort and the loop give the slots of the shown numbers in order, none for no pages |
| PageWindow.NumbersUpTo | components/pillar/page-window.ts:21-28 | the numbers shown are increasing and are exactly the first, the last and those within the radius |
| PageWindow.GapsStandForWhatIsMissing | components/pillar/page-window.ts:27-35 | putting back what each gap stands for gives exactly 1..N |
| PageWindow.EveryGapHidesTwo | components/pillar/page-window.ts:14-16 | every gap stands between two numbers with at least two missing |
| PageWindow.EndsAndNeighboursAreShown | components/pillar/page-window.ts:21-24 | the first, the last and every in-range neighbour within the radius have a slot |
| PageWindow.TheControlStaysShort | components/pillar/page-window.ts:6-12 | at most twice the radius plus five slots, and never more than there are pages |
| PageLinks.LengthGuardIsSafe | lib/routing/resolve.ts:116-122 | the digit-count guard rejects nothing the value guard accepts, and an accepted number has one spelling |
| PageLinks.LinkReadsBack | components/pillar/Pagination.tsx:49-55 | the link printed for any page from 2 up reads back as that base and page, or as no page past the largest |
| PageLinks.FirstPageReadsBack | lib/routing/resolve.ts:111-115 | page one's link reads back as page one if and only if the base does not end in a page suffix |
| PageLinks.StripUndoesPrint | app/[...segments]/page.tsx:102-109 | stripping undoes printing, so links built on page N never stack suffixes |
| PageLinks.CanonicalIsTheLinkAndTheUrl | app/[...segments]/page.tsx:354-358 | the canonical path is the link printed for the page and the URL it was reached at, except for an explicit page 1 or a bare suffix |
| PageLinks.OneUrlPerPage | lib/routing/resolve.ts:75-80 | no two URLs are read as the same page of the same base |
| PageLinks.LinkHasOneQuery | components/pillar/Pagination.tsx:48-55 | a link has the base's question marks, or one if it had none and an option needs a query |
| CliArgs.ParseArgs | scripts/new-site.ts:71-102 | the loop with its jumping index equals reading groups left to right, errors included |
| CliArgs.AcceptsExactlyGroups | scripts/new-site.ts:75-89 | accepts exactly the concatenations of known flag groups and reads the one there is |
| CliArgs.RefusesTheFirstBadWord | scripts/new-site.ts:77-88 | a refusal names the first word after whole groups that begins no group, and why |
| CliArgs.LastValueWins | scripts/new-site.ts:82 | a value flag has the value of its last group, and none exactly when it has no group |
| CliArgs.NoWordsGiveTheDefaults | scripts/new-site.ts:56-73 | without words the options are the current directory, staging and every switch off |
| CliArgs.OrderDoesNotMatter | scripts/new-site.ts:71-102 | permuting the groups changes nothing when no value flag is repeated |
| CliArgs.RenderThenParse | scripts/new-site.ts:71-102 | printing options and parsing returns them if and only if no value starts with two dashes |
| Theme.ChosenIsReadable | lib/theme.ts:49-57 | for every valid colour the chosen text has the larger of two contrasts whose product is 21, so more than 4.5, and anything else is refused |
| Theme.AnswersExactlyColours | lib/theme.ts:24-33 | a text is taken for a colour if and only if it is a number sign and three or six hexadecimal digits |
| Theme.SpellingDoesNotMatter | lib/theme.ts:24-33 | neither the short form nor the case of the digits changes the answer |
| Theme.ShortFormMeansDoubled | lib/theme.ts:25-28 | a three-digit colour is answered as its doubled six-digit form |
| Theme.LighterColoursKeepBlackText | lib/theme.ts:53-56 | raising any channel can only move the choice from white text to black |
| Theme.GreenIsLightBlueIsDark | lib/theme.ts:45-48 | full green and full red take black text, full blue white, equal averages notwithstanding |
| Pricing.SavingIsHonest | lib/pricing.ts:57-69 | absent exactly for a non-positive price or a year of twelve months or more; else the true difference, months within half a hundredth, whole for whole months, zero exactly below half a hundredth |
| Pricing.ASavingReadsAsZeroMonths | lib/pricing.ts:57-69 | a tier that saves something and reads as zero months, in the headline too |
| Pricing.NoteIffUniform | components/pricing/PricingContent.tsx:33-44 | the headline appears, naming those months, exactly when there is a paid plan and every paid plan saves just that |
| Pricing.OrderIsStable | lib/pricing.ts:81-88 | tiers come out by rank, equals in their listed order, nothing lost or added |
| Pricing.NoteIgnoresOrder | components/pricing/PricingContent.tsx:32-44 | the headline does not depend on the order tiers are listed in |
| Sparkline.StaysInTheBoxIff | components/stats/sparkline.ts:9-53 | every rounded point of every series is inside the padded box if and only if rounding moves no edge outwards |
| Sparkline.DefaultBoxHolds | components/stats/sparkline.ts:14 | the default box is such a box |
| Sparkline.SomeBoxesDoNotHold | components/stats/sparkline.ts:23-26 | a padding that rounds down is not |
| Sparkline.HeightFollowsValue | components/stats/sparkline.ts:45-53 | a larger value is never lower, the largest touches the top, zero the baseline |
| MapView.BoundsOf | components/map/types.ts:117-134 | a box with every pin in it and a pin on every side, or none for no pins |
| MapView.BoundsAreLeast | components/map/types.ts:117-134 | every box with all the pins in it contains that one |
| MapView.ResolveView | components/map/types.ts:149-168 | a given centre is taken as it is; a derived one is a point of the world, the single pin or the middle of the box; zooms by case |

## Left out

- Job bodies, their schedules and what a job reads: a job is any sequence of writes followed by the paths of every page that reads a written row, and that covering is an assumption on jobs.
- Rows written outside jobs, as the web container does when it serves a form: here every committed row is a job's.
- Row contents and pages: a page's content is the rows it is rendered from, a render is one atomic step, and a deleted row is a tombstone value.
- The vertical's, category's and listing's payload columns that nothing here reads (coordinates, population, address, timestamps, sort order), and the tables' own unique constraints.
- Concurrent seeds: the script is one program over the store; a claim is one atomic insert-or-nothing.
- LIMIT 1 without ORDER BY is the first row in insertion order, and the distinct regions are visited in city order.
- `slugify`, lower-casing, locale list formatting, name ordering and SHA-256 are parameters; strings are sequences of characters, so the 254 limit counts characters rather than UTF-16 units.
- PasswordReset.ResetForm.RateLimit: does not model the in-process fallback counter that takes over while Redis is down, whose counts are per process and bounded in number; every budget statement is for the shared counter.
- ResetBudgets.ExactlyTheFirstThreeAreSent: for addresses no deliverable request is counted under; ResetBudgets.ExactlyTheFirstThreeAreSentIff is the condition for every sequence.
- Which status a refused revalidation request gets, its timeout, and what the revalidate route does with a path beyond dropping its page.
- The sign-in library behind the reset call, and a clock that differs between processes.
- PayPal requests that throw instead of answering not-ok, and every payload field but the name.
- Turnstile's token state, the `resetOn` effect, and what React does after a render throws inside an effect.
- Map construction, the effect that disposes of a map, marker click handlers, and MapLibre's own checks on coordinates; cluster ids are reals, so -0 and 0 are one id as their printed keys are.
- Floating point: prices are minor units, geometry and contrast are exact reals, and the 2.4 power is any monotone map of the unit interval that is at least 0.00304 at 0.093.
- The printed `x,y` list of the sparkline and its decimal spelling.
- `config/validate.ts`, `metaDescription` and `comparisonRows`: list-building checks that would only add easy members.
- Lead credit, lead allocation, refunds, featured-spot bidding and subscription state.
