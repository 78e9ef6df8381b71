# Proofs for a listing and repricing platform

A Dafny 4.11 model of the parts of the platform where being almost right is not enough: a pool of workers that
share proxies, a governor of eBay calls that many replicas share, a template engine that publishes pages, and the
scanners, printers and arithmetic around them. `dafny verify dfyconfig.toml` checks everything.

| file | what it models |
|---|---|
| `PoolState`, `PoolRuns`, `PoolSafety`, `PoolProxies`, `PoolRaces`, `PoolDelivery`, `PoolTimes`, `PoolClass` | the proxy pool as a transition system, one step per lock section, queue operation, future operation or clock read; what every interleaving keeps; slots, streaks and statistics per proxy; what workers of a retired proxy may do; what becomes of a fetch; lanes, deadlines and cooldowns against the clock; and the pool's own methods as runs of it |
| `EbayRateLimits`, `EbayBudget`, `EbayBudgetRuns`, `EbayBudgetClock` | reading eBay's limits, the atomic acquire script over expiring counters, runs of acquires from any number of replicas, and what a day can cost |
| `ListingTemplate`, `DollarSafety` | the template engine on strings: replacement strings, regular expressions as scanners, the loops that rewrite the page |
| `TemplateTokens`, `TemplateScan`, `TemplateSections`, `TemplateSearch`, `TemplateRefines` | templates as tokens, and that the string engine does to a written template what is meant for its tokens |
| `TemplateMeaning`, `TemplateShown` | the meaning of a template as a tree, and that the page shows it; what a value looks like on the page |
| `TemplatePlaceholders`, `TemplateLimits` | exactly when a page shows a placeholder; pages on which the engine fails |
| `JsonScan`, `ParseAmount`, `SentenceStops` | cutting JSON out of a page, reading localized prices, also at the end of a sentence |
| `EventStream`, `SseWriter` | an event-stream client, and the server side that writes for it |
| `SettingsCache`, `Concurrency` | a cache with one shared load and writes that drop it; bounded concurrency under any schedule |
| `CsvExport`, `Base64`, `EpsImages` | CSV out and back, pages of rows; picture sizes written in base64 |
| `ListingPricing`, `Gtin` | prices over exact reals; the GS1 check digit |
| `Decimal`, `Numbers`, `Strings`, `Options`, `Counting` | shared pieces |

Objects the source updates in place are classes (`PoolClass.ProxyPool`, `EbayBudget.Redis`, `SseWriter.Writer`,
`SettingsCache.PlatformSettings`); loops are methods with invariants; both are tied to functions about which the
main results are lemmas. Code between two awaits, and one section under a lock, is one step; any enabled step may
come next. Randomness of schedules, clocks, the network, the database and library parsers are parameters.

## Where the code does less than its comments say

- `listing-template.ts` 354-357 promises placeholder-free HTML; a placeholder wrapped around others survives
  (`TemplateLimits.NestedSurvives`, `TemplateLimits.SplitSurvives`). `TemplatePlaceholders.PageLeaves` says exactly
  when one does. A section item with a special dollar sign is not shown as written
  (`TemplateLimits.UnsafeItemLosesText`); `DollarSafety.ItemIsLiteral` says exactly which items are.
- `listing-pricing.ts` 107-111 promises that a price ending only moves the price up. At fees of 100 percent and more
  the price is not in whole cents and can be cut by up to half a cent; `ListingPricing.EndingCutsThePrice` says
  exactly when.
- `platform-settings.service.ts` 211 promises that the next read queries again. With a load in flight it joins that
  load, or finds the cache refilled by it; `SettingsCache.WriteIsSeen` says exactly when a write can be missed, and
  `SettingsCache.MissedWriteIsReached` gives a run.
- `sse-writer.ts` 39-43: a heartbeat started after close stays, since close returns early from then on; its ticks
  write nothing (`SseWriter.TimerOutlivesClose`).
- `gtin.ts` 20 speaks of other constant codes than all zeros; only all zeros are refused (`Gtin.ConstantCodes`).
- `parse_amount` takes a full stop or comma after a price with decimals for its decimal point; `SentenceStops.StopRecoversExactly`
  says exactly when the amount survives.
- `pool.py` 222 says a retired proxy never carries a task it has already pulled; the check and the fetch are two steps, and a proxy
  retired between them still does (`PoolRaces.ClearedStillFetches`, in a state that is reached: `PoolRaces.RaceIsReached`).

## Model

| member | source | states |
|---|---|---|
| `PoolSafety.SafeRun` | services/amazon-scraper/sellerhill/pool.py:145-320 | whatever the interleaving of submits, worker steps, waits, `ensure` and `shutdown`, a run keeps the invariant: places, numbering, honest deadlines, balanced books; what a worker delivers is `PoolDelivery.FetchIsDelivered` |
| `PoolSafety.OnePlaceExactly` | services/amazon-scraper/sellerhill/pool.py:145-308 | in every reachable state an unresolved task is queued once and held by nobody, or not queued and in exactly one thread's hands |
| `PoolSafety.KeysNeverTie` | services/amazon-scraper/sellerhill/pool.py:145-172 | two queued tuples never agree on (priority, sequence), requeued ones included, so the heap never compares payloads |
| `PoolSafety.PullIsOldest` | services/amazon-scraper/sellerhill/pool.py:211-219 | a pull takes, of the highest-priority lane that has any, the submission that drew its sequence number first |
| `PoolSafety.ResultIsFinal` | services/amazon-scraper/sellerhill/pool.py:187-192 | a future once resolved keeps that result in every continuation |
| `PoolSafety.WaitReturnsResult` | services/amazon-scraper/sellerhill/pool.py:174-185 | a wait that returned returned the future's own final result |
| `PoolSafety.NeverExpiredEarly` | services/amazon-scraper/sellerhill/pool.py:194-245 | in every reachable state a step that expires a future comes after its own deadline and gives it its caller's own shape |
| `PoolSafety.EveryResultIsRecordedOnce` | services/amazon-scraper/sellerhill/pool.py:300-320 | per wire outcome: resolved futures equal recorded task events plus threads between resolve and record |
| `PoolDelivery.FetchIsJudged` | services/amazon-scraper/sellerhill/pool.py:254-299 | in every run after a fetch, the next step of its thread judges the proxy once for an answer, as a refusal exactly if it was blocked or the proxy failed, and not at all for an exception |
| `PoolDelivery.FetchIsDelivered` | services/amazon-scraper/sellerhill/pool.py:254-308 | in every run after a fetch, the step after that resolves the future with exactly what the fetch brought: the answer's body with its outcome, a proxy error read as blocked, or the caller's own shape with `no_proxy` or `parse_failed`; a future resolved by then is left alone |
| `PoolDelivery.SettledIsRecorded` | services/amazon-scraper/sellerhill/pool.py:300-320 | what a thread has settled is recorded with that outcome, proxy and latency, the fetcher's own network time if it reported one, at the time of a later clock reading |
| `PoolTimes.EarlierLaneFirst` | services/amazon-scraper/sellerhill/pool.py:34-39 | whenever two tasks were submitted, no pull takes one while a task of an earlier lane is queued: interactive, browse, background, crawl |
| `PoolTimes.SubmissionIsDue` | services/amazon-scraper/sellerhill/pool.py:145-172 | a submission is unresolved, in its caller's shape, and due one timeout from now |
| `PoolTimes.SlotIsAwaited` | services/amazon-scraper/sellerhill/pool.py:85-90 | a worker's slot is now, or one gap after the last slot given out if that is later, and whatever the schedule it goes on towards its fetch no sooner |
| `PoolTimes.CoolingNeverPulls` | services/amazon-scraper/sellerhill/pool.py:212-219 | while its proxy cools down an idle worker takes nothing off the queue, in any run |
| `PoolTimes.TooLateToBegin` | services/amazon-scraper/sellerhill/pool.py:238-246 | once a task is past its deadline, or resolved, no worker not yet at work on it ever begins its fetch |
| `PoolTimes.WaitIsExact` | services/amazon-scraper/sellerhill/pool.py:174-185 | a caller is let go exactly when its result is there or 0.05 s past the deadline, and gets the result if it is there |
| `PoolTimes.OverdueIsExpired` | services/amazon-scraper/sellerhill/pool.py:194-209 | in every run a thread about to expire a task resolves it as blocked in its caller's own shape, to be recorded as `expired`; a task resolved by then is left alone |
| `PoolTimes.ReportIsRecorded` | services/amazon-scraper/sellerhill/pool.py:311-320 | a request without a proxy is recorded as `no_proxy`, without proxy and latency |
| `PoolTimes.FreeWorkerServes` | services/amazon-scraper/sellerhill/pool.py:211-308 | an idle worker of a proxy in use and not cooling, left alone, fetches the first task in line at the first moment its slots allow, and the caller gets whatever the fetch brings |
| `PoolRaces.RetiredNeverFetches` | services/amazon-scraper/sellerhill/pool.py:211-254 | a worker of a retired proxy that is not past its last check never fetches again, in any run |
| `PoolRaces.RefusedGivesBack` | services/amazon-scraper/sellerhill/pool.py:220-254 | under every schedule a worker refused by a check keeps the identical tuple until its own put returns it, and then has exited |
| `PoolRaces.ClearedStillFetches` | services/amazon-scraper/sellerhill/pool.py:247-259 | the race that remains: past that check, a worker carries its task on a proxy retired meanwhile |
| `PoolRaces.RaceIsReached` | services/amazon-scraper/sellerhill/pool.py:246-259 | a run from the empty pool leads there: a retired proxy about to be fetched on, for an unresolved task |
| `PoolProxies.SlotsNeverCrowd` | services/amazon-scraper/sellerhill/pool.py:85-90 | slots of one proxy are at least 1/rate apart, by the rate at reservation, and never in the past |
| `PoolProxies.RateBoundsWindow` | services/amazon-scraper/sellerhill/pool.py:85-90 | a window of length W holds at most floor(r * W) + 1 slots if each of those was reserved at rate r or less, whatever the rate was outside the window |
| `PoolProxies.CoolsExactlyOnStreak` | services/amazon-scraper/sellerhill/pool.py:290-299 | a counted answer starts a cooldown exactly when it completes a further run of `streakLimit` refusals |
| `PoolProxies.EvictDropsOld` | services/amazon-scraper/sellerhill/pool.py:315-320 | eviction drops a prefix of the events, all of it over a day old |
| `PoolProxies.StatsMissNothing` | services/amazon-scraper/sellerhill/pool.py:315-333 | a stats window inside a day counts every event ever recorded in it, in spite of the eviction |
| `PoolClass.ThreadsSustainRate` | services/amazon-scraper/sellerhill/pool.py:55-70 | the worker count stays in [floor, cap] and below the cap keeps up with the rate at the measured round trip with headroom |
| `PoolClass.ThreadsGrowWithRate` | services/amazon-scraper/sellerhill/pool.py:55-70 | more rate or slower pages never ask for fewer workers |
| `PoolClass.LatencyIsMean` | services/amazon-scraper/sellerhill/pool.py:130-136 | the measured round trip is the mean of the last 3600 seconds, in seconds, and none if nothing was measured |
| `PoolClass.ProxyPool.Submit` | services/amazon-scraper/sellerhill/pool.py:145-172 | the future and its tuple appear; the call is a run of the transition system |
| `PoolClass.ProxyPool.WaitTurn` | services/amazon-scraper/sellerhill/pool.py:85-90 | the lock section of `wait_turn`: the slot returned and the next slot stored |
| `PoolClass.ProxyPool.Record` | services/amazon-scraper/sellerhill/pool.py:315-320 | append, then evict on the recorder's clock |
| `PoolClass.ProxyPool.RetireUnwanted` | services/amazon-scraper/sellerhill/pool.py:113-116 | every proxy no longer wanted leaves the table retired, every other stays as it is |
| `PoolClass.ProxyPool.GrowThreads` | services/amazon-scraper/sellerhill/pool.py:124-128 | threads are only added, one start per count, up to the wanted number |
| `PoolClass.ProxyPool.Ensure` | services/amazon-scraper/sellerhill/pool.py:111-128 | afterwards exactly the given proxies are configured, kept objects kept, rate and threads set, all others retired; the call is a run of the transition system |
| `PoolClass.ProxyPool.Shutdown` | services/amazon-scraper/sellerhill/pool.py:138-142 | stop is set and every configured proxy is retired |
| `ListingTemplate.RenderSections` | packages/shared/src/utils/listing-template.ts:277-307 | the guarded loop equals a hundred rewrites of the leftmost section |
| `ListingTemplate.RenderVariables` | packages/shared/src/utils/listing-template.ts:310-339 | the loop over the keys, two global replaces each, with the texts `TemplateShown.VarShowsValue` and `TemplateShown.RawShows` describe |
| `ListingTemplate.RenderListingTemplate` | packages/shared/src/utils/listing-template.ts:358-365 | sections, variables, stripping and trim in the source's order, on strings |
| `DollarSafety.ItemIsLiteral` | packages/shared/src/utils/listing-template.ts:266-270 | a section item stands for itself as a replacement string, raw and escaped, if and only if no dollar sign in it is followed by one of seven characters |
| `TemplateScan.PassReplacesTokens` | packages/shared/src/utils/listing-template.ts:265-352 | a global replace over a written template replaces whole placeholders of its kind, blanks around the name or not, and copies everything else, lone braces included |
| `TemplateSections.ItemRefines` | packages/shared/src/utils/listing-template.ts:266-270 | a quiet, dollar-safe item, or any item if there is no dot, lands exactly where the dots of the section stood |
| `TemplateSections.SectionRefines` | packages/shared/src/utils/listing-template.ts:291-301 | what replaces a section, inverted, empty, scalar or list |
| `TemplateSearch.ExecIsFind` | packages/shared/src/utils/listing-template.ts:278-290 | the section pattern finds the leftmost opener whose own closer comes before any other opener, with that body |
| `TemplateSearch.TurnRefines` | packages/shared/src/utils/listing-template.ts:281-304 | one turn of the loop on the page is one turn on its tokens |
| `TemplateRefines.VariablesRefine` | packages/shared/src/utils/listing-template.ts:310-339 | key by key, the page changes as its tokens do; nothing put in is read again |
| `TemplateRefines.StripRefines` | packages/shared/src/utils/listing-template.ts:346-352 | the four stripping passes over characters drop leftover sections, closers, raw and plain placeholders, and nothing else |
| `TemplateRefines.PageRefines` | packages/shared/src/utils/listing-template.ts:257-365 | on every written template, of any size and nesting, style sheets and unknown names included, the page is what the tokens mean |
| `TemplateTokens.MatchSplits` | packages/shared/src/utils/listing-template.ts:278-290 | a match splits the template around a section whose body holds no opener |
| `TemplateTokens.TurnRemovesOneOpener` | packages/shared/src/utils/listing-template.ts:281-304 | each turn uses up exactly one opener |
| `TemplateMeaning.ExpandKeepsMeaning` | packages/shared/src/utils/listing-template.ts:265-304 | on the tree, expanding the first innermost section keeps the meaning in every environment and uses up one section |
| `TemplateMeaning.PageTurnIsExpand` | packages/shared/src/utils/listing-template.ts:277-304 | one turn of the loop on the text of a tree is that expansion |
| `TemplateMeaning.GuardSuffices` | packages/shared/src/utils/listing-template.ts:281-307 | after the loop no section is left of a template with at most 100 openers |
| `TemplateMeaning.RenderIsEval` | packages/shared/src/utils/listing-template.ts:257-365 | for every well-nested template of at most 100 sections with quiet texts and values, and dollar-safe items where a section has a dot, rendering its text is evaluating its tree, up to the final trim; what a placeholder of it shows is `TemplateShown.VarShowsValue` |
| `TemplateMeaning.GuardCutsShort` | packages/shared/src/utils/listing-template.ts:281-307 | of a template with more than a hundred openers the loop leaves all but a hundred |
| `TemplateShown.EscapedShows` | packages/shared/src/utils/listing-template.ts:152-159 | for every string the escaped text has no angle bracket or quote, an ampersand only at the start of one of five entities, and an entity decoder gives the string back |
| `TemplateShown.VarShowsValue` | packages/shared/src/utils/listing-template.ts:328-335 | a value shows as such a text of it, a list as `<ul>`, one `<li>` with such a text per item, and `</ul>` |
| `TemplateShown.RawShows` | packages/shared/src/utils/listing-template.ts:321-325 | in three braces it shows as it is, a list one item per line |
| `TemplateShown.VariablePage` | packages/shared/src/utils/listing-template.ts:309-339 | the page of a template that is one placeholder, blanks around the name or not, shows its value so, up to the trim |
| `TemplateShown.RawPage` | packages/shared/src/utils/listing-template.ts:309-339 | with three braces it shows the value as it is, up to the trim |
| `TemplateShown.AliasPage` | packages/shared/src/utils/listing-template.ts:134-141 | a name outside the context shows the value of the key it stands for |
| `TemplateShown.UnknownPage` | packages/shared/src/utils/listing-template.ts:341-352 | a name that stands for nothing shows nothing |
| `TemplateShown.ListSectionPage` | packages/shared/src/utils/listing-template.ts:291-300 | a section over a list repeats its body once per item, one per line, with the item shown at the dot |
| `TemplateShown.ScalarSectionPage` | packages/shared/src/utils/listing-template.ts:291-300 | one over a string shows its body once with the string at the dot, or nothing if it is blank |
| `TemplateShown.InvertedSectionPage` | packages/shared/src/utils/listing-template.ts:295-296 | an inverted one shows its body exactly if the value is empty |
| `TemplateMeaning.KeyOrderIsFree` | packages/shared/src/utils/listing-template.ts:310-339 | the page does not depend on the order in which the keys are walked |
| `TemplateMeaning.RenderedHasNoPlaceholder` | packages/shared/src/utils/listing-template.ts:354-365 | under the same conditions, however badly nested and however large, the page has no two opening braces in a row, hence no placeholder |
| `TemplateSearch.GoodOpenersSafe` | packages/shared/src/utils/listing-template.ts:281-304 | a condition on the section tags alone under which every expansion is safe, whatever the nesting |
| `TemplatePlaceholders.ErasedLeaves` | packages/shared/src/utils/listing-template.ts:351-351 | for every string: after the last pass a placeholder is left if and only if the string has a wrapper, the four braces of one around whole placeholders |
| `TemplatePlaceholders.WrapperIsParts` | packages/shared/src/utils/listing-template.ts:351-351 | what a wrapper is, spelled out: brace, placeholders, brace, text and placeholders, brace, placeholders, brace, with some placeholder among them |
| `TemplatePlaceholders.StripLeaves` | packages/shared/src/utils/listing-template.ts:346-352 | for every string: stripping leaves a placeholder if and only if its last pass finds a wrapper |
| `TemplatePlaceholders.PageLeaves` | packages/shared/src/utils/listing-template.ts:354-365 | for every template, context and key order: the page shows a placeholder if and only if the template is not blank and the last pass finds a wrapper |
| `TemplatePlaceholders.WrapperBecomes` | packages/shared/src/utils/listing-template.ts:351-351 | which placeholder it is: one that holds the text that stood inside |
| `TemplateLimits.NestedSurvives` | packages/shared/src/utils/listing-template.ts:346-365 | the page of `{{x{{y}}z}}` is `{{xz}}` for all inert texts: the documented promise of a placeholder-free page is false |
| `TemplateLimits.SplitSurvives` | packages/shared/src/utils/listing-template.ts:346-365 | so is it for `{{{x}}{y}}`, whose page is `{{y}}` |
| `TemplateLimits.UnsafeItemLosesText` | packages/shared/src/utils/listing-template.ts:266-270 | with the item `$&` the page is `amp;` where the template means `$&amp;` |
| `EbayRateLimits.PickDailyWindow` | apps/api/src/common/ebay-budget/ebay-rate-limits.ts:73-84 | the first of the lowest-limit windows of a day or more, none if there is none |
| `EbayRateLimits.PickShortWindows` | apps/api/src/common/ebay-budget/ebay-rate-limits.ts:136-148 | exactly one lowest-limit window per sub-daily length, strictly by length |
| `EbayRateLimits.MapRateLimits` | apps/api/src/common/ebay-budget/ebay-rate-limits.ts:153-172 | every resource is mapped from the entries it claims; the unmapped list is the entries nobody claims, in order |
| `EbayRateLimits.OneClaimant` | apps/api/src/common/ebay-budget/ebay-rate-limits.ts:98-115 | an entry has at most one claiming resource |
| `EbayRateLimits.ClaimMeans` | apps/api/src/common/ebay-budget/ebay-rate-limits.ts:86-115 | an entry governs a resource exactly if it has the name eBay uses for it and says "trading", in capitals or not, in its context or API just when the resource is a Trading call |
| `EbayRateLimits.MappedOrListed` | apps/api/src/common/ebay-budget/ebay-rate-limits.ts:153-172 | every entry is unmapped or claimed by exactly one resource, never both |
| `EbayRateLimits.EveryWindowGoverned` | apps/api/src/common/ebay-budget/ebay-rate-limits.ts:136-172 | each reported window is mapped to one of its own length, or, from 86400 seconds on, to the daily one, with a limit no larger |
| `EbayBudget.ReserveBounds` | apps/api/src/common/ebay-budget/ebay-call-budget.helpers.ts:55-61 | background never gets more than interactive calls and never less than half of it, rounded down |
| `EbayBudget.ListGovernedWindows` | apps/api/src/common/ebay-budget/ebay-call-budget.helpers.ts:87-110 | the daily counter first, then one fixed bucket per short window; which calls share them is `EbayBudgetClock.SameDayCounter` and `EbayBudgetClock.SameBucketCounter` |
| `EbayBudget.EveryWindowCounted` | apps/api/src/common/ebay-budget/ebay-call-budget.helpers.ts:87-110 | each reported window of a resource has a counter every call of it must pass, of its length or the daily one, with a limit no larger |
| `EbayBudget.KeysDistinct` | apps/api/src/common/ebay-budget/ebay-call-budget.helpers.ts:87-110 | one call never names a counter twice |
| `EbayBudget.WindowHolds` | apps/api/src/common/ebay-budget/ebay-call-budget.helpers.ts:36-110 | a window's bucket holds the clock reading, and a TTL set then outlives the bucket by the grace, an hour for the daily one and a minute for the others |
| `EbayBudget.Redis.RunScript` | apps/api/src/common/ebay-budget/ebay-call-budget.service.ts:30-48 | all windows are checked before any is charged; a refusal names the first refusing window and changes nothing |
| `EbayBudget.ChargeAllEffect` | apps/api/src/common/ebay-budget/ebay-call-budget.service.ts:41-46 | charging adds the cost once to each named counter and touches no other |
| `EbayBudgetRuns.FaithfulRun` | apps/api/src/common/ebay-budget/ebay-call-budget.service.ts:30-48 | in every timely run a counter holds exactly what was granted on it until its bucket ends |
| `EbayBudgetRuns.ReadsSpent` | apps/api/src/common/ebay-budget/ebay-call-budget.service.ts:32-37 | so a timely call reads exactly what its bucket has been granted |
| `EbayBudgetRuns.GrantWithinCeiling` | apps/api/src/common/ebay-budget/ebay-call-budget.service.ts:93-130 | a granted call leaves each counter within the ceiling it presented |
| `EbayBudgetRuns.BucketNeverOverspent` | apps/api/src/common/ebay-budget/ebay-call-budget.service.ts:30-48 | if no call presents a ceiling above `most` for a bucket, the bucket grants at most `most` in the whole run |
| `EbayBudgetRuns.FixedLimitHolds` | apps/api/src/common/ebay-budget/ebay-call-budget.service.ts:93-130 | with the limit fixed, every bucket grants at most the limit, rounded down, whatever priorities and reserves |
| `EbayBudgetRuns.IntervalAtMostTwice` | apps/api/src/common/ebay-budget/ebay-call-budget.helpers.ts:77-110 | an interval of the callers' own clocks as long as a sub-daily window sees at most twice its ceiling, however aligned |
| `EbayBudgetRuns.RedisIntervalAtMostTwice` | apps/api/src/common/ebay-budget/ebay-call-budget.helpers.ts:77-110 | the same on Redis' clock for an interval shorter by what the clocks may drift apart |
| `EbayBudgetRuns.ReserveIsInteractive` | apps/api/src/common/ebay-budget/ebay-call-budget.helpers.ts:45-61 | a counter is at most the background ceiling plus what interactive calls were granted |
| `EbayBudgetRuns.BackgroundNeverStarvesInteractive` | apps/api/src/common/ebay-budget/ebay-call-budget.helpers.ts:45-61 | an interactive call is granted whenever interactive spending, itself included, fits between background ceiling and limit in every window |
| `EbayBudgetRuns.GrantedExactlyWithRoom` | apps/api/src/common/ebay-budget/ebay-call-budget.service.ts:30-48 | in every timely run a call is granted if and only if each bucket it names, by the record of grants, can still take its cost |
| `EbayBudgetRuns.AcquireCall` | apps/api/src/common/ebay-budget/ebay-call-budget.service.ts:93-130 | the service call is one step of a run; it fails exactly when not granted, with the reset time of the first window that refused |
| `EbayBudgetClock.SameDayCounter` | apps/api/src/common/ebay-budget/ebay-call-budget.helpers.ts:29-43 | two calls share a daily counter exactly if they are for one resource and their clock readings fall on one UTC day of 86,400,000 ms |
| `EbayBudgetClock.ResetsAtMidnight` | apps/api/src/common/ebay-budget/ebay-call-budget.helpers.ts:36-43 | it resets at the least multiple of 86,400,000 ms above the clock reading |
| `EbayBudgetClock.SameBucketCounter` | apps/api/src/common/ebay-budget/ebay-call-budget.helpers.ts:98-108 | two calls share a short counter exactly if they are for one resource in one stretch of that many seconds |
| `EbayBudgetClock.DayCostsAtMostLimit` | apps/api/src/common/ebay-budget/ebay-call-budget.service.ts:93-130 | with the daily limit fixed, what a timely run grants a resource on one UTC day costs at most the limit together |
| `EbayBudgetClock.BucketCostsAtMostLimit` | apps/api/src/common/ebay-budget/ebay-call-budget.service.ts:93-130 | so does what it grants in one stretch of any shorter window |
| `EbayBudgetClock.RefusedUntilMidnight` | apps/api/src/common/ebay-budget/ebay-call-budget.service.ts:110-130 | a refusal by the daily counter names the next UTC midnight |
| `EbayBudgetClock.InteractiveUsesAll` | apps/api/src/common/ebay-budget/ebay-call-budget.helpers.ts:55-58 | interactive calls may use every whole call of the limit |
| `EbayBudgetClock.BackgroundLeavesReserve` | apps/api/src/common/ebay-budget/ebay-call-budget.helpers.ts:59-60 | background work leaves the reserve, counted as 0 below 0 and 50 above 50 percent, and no whole call more |
| `EbayBudgetClock.WaitsLongEnough` | apps/api/src/common/ebay-budget/ebay-call-budget.helpers.ts:112-115 | a deferred job waits until the reset, and at least the minimum, and no longer than needed |
| `EbayBudgetRuns.DeferredLandsLater` | apps/api/src/common/ebay-budget/ebay-call-budget.helpers.ts:112-115 | a job deferred by the refusing window comes back in a later bucket of it |
| `JsonScan.FindClose` | services/amazon-scraper/amazon/parsers.py:289-313 | the three-flag loop equals the recursive scan |
| `JsonScan.BalancedJson` | services/amazon-scraper/amazon/parsers.py:285-313 | the cut value, nothing, or the exception the source raises |
| `JsonScan.SkipsValue` | services/amazon-scraper/amazon/parsers.py:292-308 | any whole JSON value leaves the scanner where it was: inner brackets balance, those in strings are not seen |
| `JsonScan.CutsExactlyTheValue` | services/amazon-scraper/amazon/parsers.py:285-313 | for every JSON object or array (sections 2 and 7 of RFC 8259), wherever it stands and whatever follows, exactly its own text is cut out |
| `JsonScan.JsonAfter` | services/amazon-scraper/amazon/parsers.py:316-332 | terminates for every non-empty marker and returns the value behind the first visited occurrence that has one: for every object or array of the wanted kind behind the first marker and any colons and blanks, exactly that value, parsed; nothing without a marker |
| `JsonScan.FindsTheValue` | services/amazon-scraper/amazon/parsers.py:316-332 | the object or array of the wanted kind behind the first marker, after any colons and blanks, is what the search gives: its own text, parsed |
| `JsonScan.PassesOver` | services/amazon-scraper/amazon/parsers.py:320-332 | if the wanted bracket does not follow there, that occurrence gives nothing and the answer is that of the search after it |
| `JsonScan.FirstBehindMeans` | services/amazon-scraper/amazon/parsers.py:316-332 | some visited occurrence has the value and none before it has any, or none has |
| `JsonScan.VisitsApart` | services/amazon-scraper/amazon/parsers.py:320-332 | visited occurrences are occurrences, in order, not overlapping |
| `JsonScan.NothingUnvisited` | services/amazon-scraper/amazon/parsers.py:320-332 | every occurrence is visited or overlaps the one visited just before |
| `ParseAmount.ParseAmount` | services/amazon-scraper/amazon/parsers.py:48-77 | the branches of the parser compute `Amount` |
| `ParseAmount.NormalizeWritten` | services/amazon-scraper/amazon/parsers.py:60-72 | every way an amount is grouped and pointed normalizes to plain digits and a dot |
| `ParseAmount.AmountRecovered` | services/amazon-scraper/amazon/parsers.py:48-77 | every number of cents comes back from its rendering with commas, dots or blanks, with or without decimals, negative exactly after a dash |
| `ParseAmount.DashIsOneOfThree` | services/amazon-scraper/amazon/parsers.py:58 | a dash is a hyphen, a minus sign or an en dash, anywhere before the digits |
| `SentenceStops.StopRecoversExactly` | services/amazon-scraper/amazon/parsers.py:42-77 | with a full stop or comma after it, in every style, an amount comes back if and only if it is written without decimals or is zero |
| `SentenceStops.StoppedDecimals` | services/amazon-scraper/amazon/parsers.py:60-76 | otherwise the amount read is a hundredfold, or none |
| `SentenceStops.SentenceDotMisread` | services/amazon-scraper/amazon/parsers.py:42-72 | for example "12.34." and "12.34," read as 1234 |
| `SseWriter.FrameLines` | apps/api/src/common/sse/sse-writer.ts:26-30 | the lines collected for a frame |
| `SseWriter.Writer.Write` | apps/api/src/common/sse/sse-writer.ts:24-32 | the response has the frame's block appended, nothing once closed |
| `SseWriter.Writer.Comment` | apps/api/src/common/sse/sse-writer.ts:34-37 | the same for a comment |
| `SseWriter.Writer.Beat` | apps/api/src/common/sse/sse-writer.ts:39-43 | a heartbeat is a comment, and writes nothing once closed |
| `SseWriter.TimerOutlivesClose` | apps/api/src/common/sse/sse-writer.ts:39-53 | a timer started after close is stopped by no later close, and its ticks write nothing |
| `SseWriter.Writer.Close` | apps/api/src/common/sse/sse-writer.ts:45-53 | `end` is called once however often close is; a second close changes nothing |
| `SseWriter.NormalizeKeepsLines` | apps/api/src/common/sse/sse-writer.ts:3 | normalizing keeps the lines of a text and changes only how they end |
| `SseWriter.ReadBlock` | apps/api/src/common/sse/sse-writer.ts:24-37 | a client between frames takes one block as one event, or a comment as none |
| `SseWriter.EveryFrameArrives` | apps/api/src/common/sse/sse-writer.ts:3-53 | a client following section 9.2.6 of the WHATWG HTML standard dispatches one event per frame, data newline-normalized, type and id without newlines, and nothing for comments |
| `SseWriter.FrameMeans` | apps/api/src/common/sse/sse-writer.ts:3-32 | the event has the data's own lines, the type and id with every carriage return and line feed left out and nothing else, and a retry cut to whole milliseconds, none below zero |
| `CsvExport.ExportReadsBack` | apps/web/src/utils/csv.ts:28-38 | a reader of section 2 of RFC 4180 gets every guarded cell back in place, if and only if no row is empty |
| `CsvExport.QuotedDoubled` | apps/web/src/utils/csv.ts:30-34 | a quoted cell with doubled quotes reads back as its text |
| `CsvExport.NoFormulas` | apps/web/src/utils/csv.ts:18-34 | a cell opens a formula only if it is wholly a negative figure, and only formula-like text is changed, by one apostrophe |
| `CsvExport.CellsAreSafe` | apps/web/src/utils/csv.ts:18-34 | what starts with one of the six characters and is not a hyphen, at most one currency sign, a digit and then digits, dots and commas gets one apostrophe in front; everything else stays |
| `CsvExport.ExportTable` | apps/web/src/utils/csv.ts:36-38 | the file read back has the header and the rows in order, cell by cell such a text |
| `CsvExport.FetchAllPages` | apps/web/src/utils/csv.ts:44-58 | the loop computes `Fetched`, rows and number of requests |
| `CsvExport.RequestsBounded` | apps/web/src/utils/csv.ts:44-58 | however the server answers, at most ceil(maxRows / pageSize) requests |
| `CsvExport.FetchesFirstRows` | apps/web/src/utils/csv.ts:40-58 | against rows that do not change, exactly the first min(N, maxRows) of them |
| `Base64.DecodeBase64Ascii` | packages/shared/src/utils/ebay-eps.ts:129-147 | the loop with its wrapping 32-bit accumulator equals decoding by section 4 of RFC 4648 |
| `Base64.Wrapped` | packages/shared/src/utils/ebay-eps.ts:139-143 | the bits lost to the wrap are never read |
| `Base64.DecodeEncode` | packages/shared/src/utils/ebay-eps.ts:129-147 | decoding inverts encoding on every byte string, padded or not |
| `Base64.SameBits` | packages/shared/src/utils/ebay-eps.ts:122-147 | three bytes and their four sextets are one number of 24 bits; shorter ends are filled with zeros |
| `EpsImages.SizeSextets` | packages/shared/src/utils/ebay-eps.ts:111-113 | the encoding of digits and X never has a plus or a slash |
| `EpsImages.SizeRecovered` | packages/shared/src/utils/ebay-eps.ts:101-120 | every width and height of one to five digits comes back from its URL |
| `EpsImages.SizedUrlText` | packages/shared/src/utils/ebay-eps.ts:101-113 | where such a URL points: the host, `00/s`, the encoding, padded or not |
| `EpsImages.WrittenSize` | packages/shared/src/utils/ebay-eps.ts:101-104 | `269X331` is written `MjY5WDMzMQ` |
| `EpsImages.OthersAreKept` | packages/shared/src/utils/ebay-eps.ts:86-91 | pictures elsewhere are never judged small |
| `EpsImages.SmallIsJudgedRight` | packages/shared/src/utils/ebay-eps.ts:96-99 | a sized picture is below the policy exactly when both sides are under 500 |
| `EpsImages.GalleryNeverEmptied` | packages/shared/src/utils/ebay-eps.ts:84-94 | the gallery is empty only for no sources; unless all are small, exactly the small ones go |
| `EpsImages.LargeInOrder` | packages/shared/src/utils/ebay-eps.ts:92-93 | what the filter keeps stays in order |
| `EpsImages.GalleryShows` | packages/shared/src/utils/ebay-eps.ts:84-94 | the gallery shows its sources in order, each as its EPS copy if there is one; left out are exactly the known small ones, unless that leaves none |
| `Concurrency.RunWithConcurrency` | apps/api/src/common/utils/concurrency.ts:22-63 | for every schedule: at every moment at most `limit` in flight, one if it is not finite or below one, a prefix of the items each once and in order, none after a failure, all settled, the first failure rethrown, everything done otherwise |
| `Concurrency.LimitIsReached` | apps/api/src/common/utils/concurrency.ts:28-58 | a schedule reaches min(n, floor(limit)) in flight |
| `Concurrency.TurnKeeps` | apps/api/src/common/utils/concurrency.ts:37-48 | a runner's pass up to its await keeps the shared invariant |
| `Concurrency.SettleKeeps` | apps/api/src/common/utils/concurrency.ts:47-54 | so does the settling of a worker call |
| `Concurrency.StopIsHeeded` | apps/api/src/common/utils/concurrency.ts:39-41 | with a `shouldStop` that stays true, nothing starts after it first said so |
| `Concurrency.FirstFailureIsFirst` | apps/api/src/common/utils/concurrency.ts:49-54 | the error kept is that of the first failure by completion |
| `SettingsCache.PlatformSettings.LoadOverrides` | apps/api/src/common/settings/platform-settings.service.ts:260-277 | cached, joined or issued, and the field this sets |
| `SettingsCache.PlatformSettings.Then` | apps/api/src/common/settings/platform-settings.service.ts:268-272 | the loaded set and its time are stored |
| `SettingsCache.PlatformSettings.Invalidate` | apps/api/src/common/settings/platform-settings.service.ts:212-215 | the cache is dropped and the flight is not |
| `SettingsCache.StepKeeps` | apps/api/src/common/settings/platform-settings.service.ts:260-293 | every step of calls, queries, `then`, `finally`, commits and invalidations keeps the invariant |
| `SettingsCache.AnswersAreRecent` | apps/api/src/common/settings/platform-settings.service.ts:260-293 | in every run an answer is a committed table, cached answers read less than 30 s plus their load's duration ago |
| `SettingsCache.OneFlight` | apps/api/src/common/settings/platform-settings.service.ts:264-276 | at most one load is unfinished, and every call is answered or waits for that one |
| `SettingsCache.LoadServes30Seconds` | apps/api/src/common/settings/platform-settings.service.ts:260-272 | what a load returned answers every call of the next 30 s without another query, and none after, until it is replaced or dropped |
| `SettingsCache.CallJoinsOrAsks` | apps/api/src/common/settings/platform-settings.service.ts:264-276 | a call the cache does not answer joins the unfinished load, and only without one asks again |
| `SettingsCache.WriteIsSeen` | apps/api/src/common/settings/platform-settings.service.ts:147-215 | a committed write is seen by every call made on this replica after its invalidate if and only if the invalidate finds no load under way that has already read an older table; then calls still waiting see it too |
| `SettingsCache.IdleWriteIsSeen` | apps/api/src/common/settings/platform-settings.service.ts:186-215 | in particular when it finds no load in flight |
| `SettingsCache.StaleAfterRead` | apps/api/src/common/settings/platform-settings.service.ts:212-272 | otherwise the load puts its old answer into the cache just dropped |
| `SettingsCache.MissedWriteIsReached` | apps/api/src/common/settings/platform-settings.service.ts:212-272 | a run from the empty cache gets there, and the next call gets a cached answer that misses the write |
| `ListingPricing.ApplyPriceEnding` | packages/shared/src/utils/listing-pricing.ts:113-120 | the candidate of the source is the least number of cents with the ending from the rounded price on |
| `ListingPricing.CalculateListingPrice` | packages/shared/src/utils/listing-pricing.ts:134-231 | the figures returned |
| `ListingPricing.TargetIsCostAndProfit` | packages/shared/src/utils/listing-pricing.ts:141-170 | the target is the cost with tax, plus margin and fixed profit of the first range that holds the price, or 20 percent if none does |
| `ListingPricing.PriceMeans` | packages/shared/src/utils/listing-pricing.ts:174-186 | the price is the least amount with the ending asked for, from 0.99 and from a price on that leaves the target after eBay's percentages and fixed fee, to half a cent |
| `ListingPricing.FullFeesAddHalf` | packages/shared/src/utils/listing-pricing.ts:83-86 | at fees of 100 percent and more it is the target and a half |
| `ListingPricing.EndingIsRead` | packages/shared/src/utils/listing-pricing.ts:99-105 | the ending is a whole number of cents from 0 to 99; any other setting is off |
| `ListingPricing.PercentIsShare` | packages/shared/src/utils/listing-pricing.ts:198-199 | profit margin and return are shares in percent, zero of nothing |
| `ListingPricing.FeesLeaveTarget` | packages/shared/src/utils/listing-pricing.ts:77-90 | after eBay's cut the target is left, to half a cent |
| `ListingPricing.ProfitIsHonest` | packages/shared/src/utils/listing-pricing.ts:134-199 | reported profit is at most a cent above real proceeds, and within a cent when the floor is not used |
| `ListingPricing.FinalPriceIsLeast` | packages/shared/src/utils/listing-pricing.ts:182-186 | the final price is the least amount with the ending not below the floored price |
| `ListingPricing.EndingCutsThePrice` | packages/shared/src/utils/listing-pricing.ts:107-120 | the ending cuts a price if and only if it is not in whole cents, rounds down, and already has the ending |
| `ListingPricing.EndingCutsAtFullFees` | packages/shared/src/utils/listing-pricing.ts:83-86 | which happens at fees of 100 percent and more |
| `ListingPricing.AdRateIsNeutral` | packages/shared/src/utils/listing-pricing.ts:131-132 | proceeds at two ad rates agree to a cent |
| `ListingPricing.PriceMonotone` | packages/shared/src/utils/listing-pricing.ts:77-120 | a higher target never gives a lower price |
| `ListingPricing.BreakdownAddsUp` | packages/shared/src/utils/listing-pricing.ts:188-231 | cost, fees and profit of the breakdown add up to the final price within their roundings |
| `Gtin.IsValidGtin` | apps/api/src/common/utils/gtin.ts:12-36 | accepted: a non-zero code of 8, 12, 13 or 14 digits whose whole weighted sum is a multiple of ten |
| `Gtin.WhichCodes` | apps/api/src/common/utils/gtin.ts:12-36 | the accepted codes, with lengths and digits written out |
| `Gtin.WeighsInTurn` | apps/api/src/common/utils/gtin.ts:25-35 | from the right the digits count once and three times in turn |
| `Gtin.WrongDigitFound` | apps/api/src/common/utils/gtin.ts:25-35 | one wrong digit is found, in codes of any length |
| `Gtin.SwapFound` | apps/api/src/common/utils/gtin.ts:25-35 | a swap of neighbours passes exactly when the digits are equal or differ by five |
| `Gtin.AcceptedCodes` | apps/api/src/common/utils/gtin.ts:12-36 | both, for accepted codes |
| `Gtin.PaddingKeepsValidity` | apps/api/src/common/utils/gtin.ts:12-36 | zeros in front change nothing between accepted lengths |
| `Gtin.ConstantCodes` | apps/api/src/common/utils/gtin.ts:20-23 | which codes of one repeated digit are accepted |
| `Gtin.NormalizedIsAccepted` | apps/api/src/common/utils/gtin.ts:39-42 | a normalized code is accepted as it stands and normalizes to itself |

## Left out

- Pool: the heap inside `PriorityQueue`, real time, sleeping and the interpreter lock; a condition that reads two flags, and the update of `block_streak`, which no lock protects, count as one step; rates are positive and an ASIN is never the literal `call`, as the callers check; a fetcher answers a dictionary with the documented outcomes or raises an ordinary exception.
- PoolSafety.PullIsOldest: oldest by the number drawn; reading the deadline, creating the future and drawing the number are one step here, so of two callers the one that read its clock first may draw second.
- PoolSafety.EveryResultIsRecordedOnce: counts outcomes as the caller sees them, so `expired` and `proxy_error` are counted with `blocked`.
- TemplateMeaning.RenderIsEval: texts and values are quiet, that is without two opening braces in a row and without one at the end (a value that is not is read again as a template); a placeholder has no brace inside and starts with `#`, `^` or `/` only if it is a section tag; a section with a dot is over a dollar-safe value.
- Templates: the condition of `TemplatePlaceholders.PageLeaves` is on the string the last pass is given; what reaches that pass depends on the values put in and on the three passes before, so a condition on the template alone would have to repeat them.
- TemplateRefines.PageRefines: context keys are names (letters, digits, underscores and dots); keys that are properties of every JavaScript object, such as `constructor`, throw in the source when a template names them.
- Templates: building the context.
- Budget: the branch that grants when Redis is unreachable and the switch that turns the governor off (their calls are outside the bounds); floating-point rounding; window lengths that are not whole seconds; key and date formatting.
- JsonScan.CutsExactlyTheValue: the library parser is a parameter, and the digits after a `\u` escape are not checked, which allows more texts than the grammar.
- JsonScan.JsonAfter: an empty marker would never end; every caller passes a literal.
- ParseAmount.AmountRecovered: digits are ASCII, and the value is an exact real instead of a float.
- SseWriter.EveryFrameArrives: the stream is characters, so unpaired surrogates are outside; a retry value is a finite number below the size at which JavaScript prints exponents.
- SseWriter.Writer.Write: the response headers, the timer and the abort signal are flags or parameters.
- CsvExport: numbers enter as the text they print as; the byte order mark and the download itself.
- CsvExport.FetchAllPages: page sizes are positive, as at every call.
- Base64.DecodeBase64Ascii: the or with a value below 64 after a shift by six is an addition, the arithmetic shift right a floor division.
- EpsImages: the media API around the URLs.
- Concurrency.RunWithConcurrency: a `shouldStop` that throws; items are their indices and errors the index that failed.
- SettingsCache: validation, encryption, the audit trail and the fallback to environment and default; a failed query is an answer without overrides, and is not counted as seeing or missing a write beyond its time.
- ListingPricing: floating-point rounding; fields that are not numbers read as zero before the model starts.
- Not modelled: the HTML page parsers and fetchers, routes, the browser application, SQL, billing, encryption, migrations and small helpers; they are calls into libraries, tables of constants, or would only add easy members.
