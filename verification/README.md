# Latchflow, modelled in Dafny

Latchflow runs plugins: triggers (a cron plugin among them) fire pipelines of actions, actions and
administrators change bundles of files, recipients download bundles, and every request passes an
authorization engine. This project models the parts of it in which state, arithmetic or interleaving
decide whether it is right, and proves what those parts are for.

Three forms recur. A protocol (the scheduled runtime, bundle rebuilds, the queue, the slots, the action
consumer) is a state with a step per event, so that a run is any sequence of enabled events; its results
speak of every run. An object the program updates in place is a class whose methods are proved equal to
those steps, or to a function of the old state. A computation is a function or a loop proved against an
independent definition. Hashes are injective, tables are maps changed by whole transactions, and what the
outside answers (plugin code, the clock, the order of tied rows) is a parameter over which the results
quantify.

| module | what it models |
|---|---|
| `Calendar` | UTC dates, by section 21.4.1 of ECMA-262, from scratch |
| `CronFields`, `CronSearch`, `Enumeration` | the cron parser from tokens on, the minute-by-minute search, ascending enumerations |
| `ScheduledRuntime` | the cron and one-time runtime with the event loop's timers and suspended calls |
| `BundleDigest`, `BundleScheduler` | digests, archives, the debounced rebuild protocol interleaved with builders |
| `Json`, `CompiledRules`, `InputGuards`, `Authorize`, `Conditions`, `Readings`, `Prototypes`, `CanonicalRules`, `PermissionCache` | the authorization engine |
| `Canonical`, `History` | key-sorted canonical text, the change log of snapshots and patches |
| `Messages`, `MemoryQueue`, `ActionSlots`, `ActionConsumer`, `TriggerRunner`, `ExecutionRuntime` | the execution runtime, part by part and together |
| `Orderings`, `PipelineSteps`, `PipelineTriggers` | sort orders under insert, move, delete and reorder, each under its own unique index |
| `PluginRegistry` | the capability maps |
| `Portal` | downloads under limit and cooldown, and the summary that announces them |
| `Wrappers`, `Arithmetic` | options and results, Euclidean division |

## What the code does not do

Some properties one would expect are false of the code. Each has a lemma with the input that fails, and
the exact condition under which the property holds.

- The one-year cron search can fail for an expression that matches in some later year: it fails exactly
  when only 29 February is listed and none falls in the window (`SearchFailsExactly`, `AlwaysFoundExactly`).
- `a/n` in a cron field is one value, and a range ending in day 7 is rejected unless it starts on Sunday
  (`SteppedSingleIsOneValue`, `RangeEndingInSeven`).
- A config change during a cron emit starts a second chain, and a stop during the emit of a start leaves a
  timer in a stopped runtime, which the next start runs beside; either way a minute is emitted twice
  (`ChangeDuringEmitDoublesTheChain`, `StopDuringFirstEmitLeavesATimer`). Exactly when only one thing is
  pending at a time is `OneAtATimeExactly`.
- A composition that changes to another and back between a builder's two reads leaves the digest of one
  beside the archive of the other, and the build that follows skips (`TornBuild`, `ArchiveConvergesExactly`).
- The digest leaves out the file key that names an object without a path (`DigestDecidesArchiveExactly`).
- Sorting a guard's `denyParams` can change its verdict when one denied name is empty and another sorts
  apart from it (`SortedGuardsDecideExactly`).
- Sanitising a rule's where clause or input guards makes an object-valued field named `__proto__` the
  prototype: the evaluator reads through it, but the canonical form and the hash do not show it, so one hash
  can stand for a list that denies and one that matches (`PrototypeIsNotInTheHash`). The canonical form
  decides exactly where such prototypes are inert (`FormDecidesGuardsExactly`, `FormDecidesWhereExactly`).
- A field named `__proto__` of a recorded state is in neither its text nor its hash (`ProtoIsNotInTheText`).
  Texts tell apart what is left without such fields (`CanonicalTextExactly`), and that is the whole state
  exactly when it has none (`StripIsIdleExactly`).
- Invalidating the hash a list was requested under leaves the entry under its content hash
  (`RequestedHashLeavesAnAlias`, `InvalidateRemovesExactly`).
- An acquire between a release and the resumption of the waiter it woke takes the count over the limit
  (`BargingExceedsTheLimit`, `BoundedExactly`).
- A hash that is passed in with one list only can still be answered with another one's rules
  (`OneListPerPassedHashIsNotEnough`); exactly which sets of calls are safe is `FreshExactly`.
- The unique index on a pipeline's step orders (`packages/db/prisma/schema.prisma:501`) refuses, at its
  first write, every move of a step to another place, every insertion before the last step and every
  reordering: such a transaction aborts and nothing changes (`ThreeStepsStayPut`). So the calls cannot
  change the order of two steps at all (`NoCallReordersSteps`).
- The index on trigger orders (`packages/db/prisma/schema.prisma:520`) is by trigger, although each pipeline
  numbers its own triggers: a trigger that is first in one pipeline cannot be first in another
  (`FirstInOnePipelineOnly`). Ties inside a pipeline are possible, and a moved trigger can land one place
  past the position asked for, and two others can swap (`MoveLandsExactly`, `MoveIsListMoveExactly`,
  `MoveMayOvershoot`). A reorder that names one trigger twice is accepted (`ReorderExactly`).
- Plugin names with colons can make the registry's keys ambiguous (`KeysCollideWithColons`), exactly when one
  name continues another after a colon (`KeysCollideExactly`, `LookupsAreOwnExactly`).

## Model

| member | source | states |
|---|---|---|
| `Calendar.YearLength` | packages/plugins/cron/index.js:157-163 | year y+1 starts exactly 365 or 366 days after year y, by the leap-year rule |
| `Calendar.DateFromDay` | packages/plugins/cron/index.js:157-163 | every day number is the number of a valid date |
| `Calendar.LaterDatesHaveLaterNumbers` | packages/plugins/cron/index.js:157-163 | calendar order of dates is the order of their day numbers |
| `Calendar.DateRoundTrip` | packages/plugins/cron/index.js:157-163 | a valid date's number leads back to that date |
| `CronFields.ParseCronExpression` | packages/plugins/cron/index.js:40-52 | five fields left to right, or the error of the first bad one |
| `CronFields.ParseField` | packages/plugins/cron/index.js:54-71 | the union of its segments' values, all values if that is empty, wildcard only for a whole `*` or `?` |
| `CronFields.ExpandSegment` | packages/plugins/cron/index.js:73-116 | adds exactly every step-th value from the first to the last, or reports the segment's error |
| `CronFields.AddStepped` | packages/plugins/cron/index.js:113-115 | the loop adds the values on the step within the bounds and no others |
| `CronFields.FillRange` | packages/plugins/cron/index.js:64-79 | adds exactly the field's whole range |
| `CronFields.AcceptedIsValid` | packages/plugins/cron/index.js:40-141 | every accepted expression has five non-empty fields within their ranges |
| `CronFields.TokensMean` | packages/plugins/cron/index.js:118-141 | a token is the month from 1 or weekday from 0 it names, in those fields, else its number, refused out of the field's range; 7 is Sunday |
| `CronFields.SegmentListsExactly` | packages/plugins/cron/index.js:73-116 | a segment with ends in order lists v if and only if v is the first plus a multiple of the step and not past the last |
| `CronFields.SegmentRefusedExactly` | packages/plugins/cron/index.js:80-111 | it is refused if and only if its step is no positive number, an end is, or the ends are out of order |
| `CronFields.FieldListsExactly` | packages/plugins/cron/index.js:54-71 | v is in a field if and only if some segment lists it; only a whole `*` or `?` is a wildcard; the first bad segment gives the error |
| `CronFields.FieldsInOrder` | packages/plugins/cron/index.js:1-52 | an expression is accepted if and only if its five fields are, as minute, hour, day of the month, month and weekday |
| `CronFields.SteppedSingleIsOneValue` | packages/plugins/cron/index.js:103-115 | a single value with any step means just that value |
| `CronFields.RangeEndingInSeven` | packages/plugins/cron/index.js:99-136 | a day-of-week range ending in 7 is rejected unless it starts on Sunday, and then it is Sunday alone |
| `CronSearch.ComputeNextOccurrence` | packages/plugins/cron/index.js:143-155 | the loop returns the first match among the 366 * 1440 minutes after the floored start, or fails |
| `CronSearch.NextIsLeast` | packages/plugins/cron/index.js:143-181 | what is found is the least matching minute after the base; otherwise none matches for 366 days |
| `CronSearch.MatchesExactly` | packages/plugins/cron/index.js:157-181 | a minute of a date matches if and only if its minute, hour and month are listed and its day is: by date or weekday where both restrict, else by the one that does |
| `CronSearch.EitherDayField` | packages/plugins/cron/index.js:170-178 | where both day fields restrict, the matching minutes are the union of those with either one opened, and the search finds the earlier of their two |
| `CronSearch.WeekdaysFollow` | packages/plugins/cron/index.js:157-163 | 1 January 1970 is a Thursday, and each day is followed by one of the next weekday, by the names of the weekday field |
| `CronSearch.FloorIsMinuteStart` | packages/plugins/cron/index.js:143-147 | the floored start is the minute of 60 000 ms that the time lies in |
| `CronSearch.MatchWithinAYear` | packages/plugins/cron/index.js:143-181 | an expression with a date in every year matches within 366 days of any base |
| `CronSearch.OnlyLeapDaysMatch` | packages/plugins/cron/index.js:157-181 | any other expression matches on 29 February of leap years only |
| `CronSearch.SearchFailsExactly` | packages/plugins/cron/index.js:9-181 | the search fails if and only if no listed date is in a common year and no listed 29 February is in the window |
| `CronSearch.AlwaysFoundExactly` | packages/plugins/cron/index.js:9-181 | every start finds a minute if and only if day-of-week restricts, day-of-month does not, or a common-year date is listed |
| `CronSearch.WeekInMonth` | packages/plugins/cron/index.js:143-181 | any month has seven days in a row within 366 days of any day |
| `CronSearch.DateInAYear` | packages/plugins/cron/index.js:143-181 | a date every year has comes within 366 days of any day |
| `Enumeration.IsComplete` | packages/plugins/cron/index.js:388-421 | a chain of least successors holds every member up to its end, and only members |
| `ScheduledRuntime.Runtime.ArmCron` | packages/plugins/cron/index.js:388-421 | the next occurrence after the base arms one timer, due then or now; a failed search stops the runtime |
| `ScheduledRuntime.Runtime.ArmOneTime` | packages/plugins/cron/index.js:423-458 | the one-time step: nothing if this time has fired, an emit at once if it is past, else one timer |
| `ScheduledRuntime.Runtime.ArmNext` | packages/plugins/cron/index.js:460-467 | clears the timer, then schedules by mode |
| `ScheduledRuntime.Runtime.Start` | packages/plugins/cron/index.js:470-477 | the whole new state of a start |
| `ScheduledRuntime.Runtime.Stop` | packages/plugins/cron/index.js:478-482 | the whole new state of a stop |
| `ScheduledRuntime.Runtime.OnConfigChange` | packages/plugins/cron/index.js:483-501 | the whole new state of a config change |
| `ScheduledRuntime.Runtime.OnTimer` | packages/plugins/cron/index.js:411-453 | the whole new state when a timer fires |
| `ScheduledRuntime.Runtime.OnEmitReturned` | packages/plugins/cron/index.js:413-415 | what a suspended call does when its emit returns |
| `ScheduledRuntime.OneAtATimeExactly` | packages/plugins/cron/index.js:388-501 | throughout a run at most one timer is alive or call suspended if and only if no start or config change meets one it does not clear |
| `ScheduledRuntime.CalmRunsDoNotClash` | packages/plugins/cron/index.js:388-501 | runs in which no restart and no config change lands on an emit are such runs; stops may land on cron emits |
| `ScheduledRuntime.CronChainsEnumerate` | packages/plugins/cron/index.js:388-421 | in every run without a clash the timers' cron emits are the chains' minutes, each chain all matching minutes, ascending, none skipped or repeated, none early |
| `ScheduledRuntime.RunningCronIsArmed` | packages/plugins/cron/index.js:388-421 | in such a run a running cron runtime without an emit under way has one live timer, for the least matching minute after its chain, due then or at once, which emits that minute when it fires |
| `ScheduledRuntime.TimersAreDueOnTime` | packages/plugins/cron/index.js:403-453 | in every run, with clashes too, each live timer is due at its job's time, or at the time of the event that set it where that came later |
| `ScheduledRuntime.ChainsStartInRun` | packages/plugins/cron/index.js:388-467 | each chain starts from the minute in which an event of the run came |
| `ScheduledRuntime.StartArmsNext` | packages/plugins/cron/index.js:388-477 | a start without an emit arms, and announces, the least matching minute to start after its time |
| `ScheduledRuntime.ChangeDuringEmitDoublesTheChain` | packages/plugins/cron/index.js:388-501 | a run from the start in which a config change lands on an emit and the next minute is emitted twice, for every expression that runs every year |
| `ScheduledRuntime.StopDuringFirstEmitLeavesATimer` | packages/plugins/cron/index.js:470-482 | a run in which a stop lands on the first emit, a stopped runtime has a live timer, and after a restart a minute is emitted twice |
| `ScheduledRuntime.OneTimeEmitsOnce` | packages/plugins/cron/index.js:423-506 | while runAt keeps its value at most one event is emitted, whatever the restarts, and none if it has fired |
| `ScheduledRuntime.OneTimeIsArmedExactly` | packages/plugins/cron/index.js:423-506 | in every one-time run, while running and not fired the one live timer is due exactly at runAt, as announced, may fire from then on and not before, and emits the event; otherwise there is none |
| `ScheduledRuntime.OneTimeSchedules` | packages/plugins/cron/index.js:423-501 | a start or a config change to a time not yet fired for emits at once if it is past and arms it if not; one already fired for emits nothing |
| `ScheduledRuntime.StoppedIsSilent` | packages/plugins/cron/index.js:423-506 | a stopped one-time runtime has no live timer and emits nothing |
| `BundleDigest.ComputeBundleDigest` | packages/core/src/bundles/digest.ts:45-66 | the loop's items are those of the digest, in order |
| `BundleDigest.WriteEntries` | packages/core/src/bundles/builder.ts:162-185 | the archive holds one entry per object with a stored file, in order, named by path or key |
| `BundleDigest.EntriesGrow` | packages/core/src/bundles/builder.ts:162-185 | one entry per object with a file and a storage key, under its path or else its key, and none for any other |
| `BundleDigest.KeysTellHashesApart` | packages/core/src/storage/service.ts:18-24 | files lie under the first two and the next two characters of their hash, and different hashes have different keys |
| `BundleDigest.DigestCoversExactly` | packages/core/src/bundles/digest.ts:45-66 | two compositions have one digest if and only if their objects agree in file, path, required, sort order and content hash, one by one |
| `BundleDigest.EqualDigestsEqualEntries` | packages/core/src/bundles/builder.ts:51-54 | equal digests mean equal archives, so skipping is sound |
| `BundleDigest.DigestDecidesArchiveExactly` | packages/core/src/bundles/digest.ts:45-66 | the digest determines the archive if and only if every object has a path |
| `BundleScheduler.RebuildScheduler.Request` | packages/core/src/bundles/scheduler.ts:47-57 | replaces the bundle's timer and remembers force |
| `BundleScheduler.RebuildScheduler.RequestForFiles` | packages/core/src/bundles/scheduler.ts:59-67 | requests exactly the bundles of the files, each with the force asked for |
| `BundleScheduler.RebuildScheduler.OnTimer` | packages/core/src/bundles/scheduler.ts:21-55 | marks a running bundle for another round, or starts a build with the force flag, which it clears |
| `BundleScheduler.RebuildScheduler.OnBuildEnd` | packages/core/src/bundles/scheduler.ts:30-45 | records the outcome, frees the bundle, and requests again if it was marked |
| `BundleScheduler.OneBuildAtATime` | packages/core/src/bundles/scheduler.ts:21-45 | in every run at most one build per bundle is under way |
| `BundleScheduler.NoRequestIsLost` | packages/core/src/bundles/scheduler.ts:21-80 | a bundle has a timer or a mark if and only if it was requested since its last build started; the status reported is running, queued or idle accordingly |
| `BundleScheduler.ForceReachesNextBuild` | packages/core/src/bundles/scheduler.ts:27-51 | the next build to start is forced if and only if force was asked since the last start |
| `BundleScheduler.SkipsExactly` | packages/core/src/bundles/builder.ts:45-54 | in every run, a build skips if and only if it is not forced and the stored digest is not empty and that of the composition it reads |
| `BundleScheduler.EndedBuildsDidTheirWork` | packages/core/src/bundles/builder.ts:51-200 | in every run, a forced build never ends skipped, and one that has built is the source of the record: digest of its first read, archive of its second |
| `BundleScheduler.ForcedBuildMakesCurrent` | packages/core/src/bundles/scheduler.ts:21-55 | where force was asked since the last start, the next build leaves the digest and archive of the composition, whatever was stored, if the composition stays and the build does not fail |
| `BundleScheduler.DigestConverges` | packages/core/src/bundles/builder.ts:45-200 | in every interleaving, a quiescent bundle whose last build did not fail has the digest of its current composition |
| `BundleScheduler.ArchiveConvergesExactly` | packages/core/src/bundles/builder.ts:51-200 | its archive is the current one if and only if the writing build's two reads agreed |
| `BundleScheduler.TornBuild` | packages/core/src/bundles/builder.ts:51-200 | a run in which they did not: digest of x beside the archive of y, quiescent after a build that skipped |
| `Json.SortKeepsIncludes` | packages/core/src/authz/compile.ts:92-103 | deep sorting keeps which values an array includes |
| `Json.FalsyExactly` | packages/core/src/authz/authorize.ts:146-211 | a condition is absent if and only if its value is false, zero, the empty text or nothing |
| `Json.SortKeepsGet` | packages/core/src/authz/compile.ts:92-103 | sorting a value and reading a field commute |
| `Json.SanitizeKeepsGet` | packages/core/src/authz/compile.ts:119-138 | the field read off a sanitised value, its own or its prototype's, is the sanitised form of the field meant: reading takes `__proto__` for the prototype it becomes |
| `Json.OwnPartOfSanitized` | packages/core/src/authz/compile.ts:76-103 | the part of a value that the canonical form is made of is the same before and after sanitising |
| `CompiledRules.CompilePermissions` | packages/core/src/authz/compile.ts:10-38 | each bucket is the sanitised rules of its resource and action, and the `"*"` bucket those of the action, in list order |
| `CompiledRules.SelectedExactly` | packages/core/src/authz/authorize.ts:126-137 | a rule is in a bucket if and only if it is in the list and its action and resource fit |
| `InputGuards.RateLimiter.Apply` | packages/core/src/authz/inputGuards.ts:148-172 | prunes, records now, and admits if and only if no window holds more than its limit |
| `InputGuards.RateLimiter.Evaluate` | packages/core/src/authz/inputGuards.ts:19-95 | the first failing guard in order; the limiter changes only if all the others pass |
| `InputGuards.PruningLosesNothing` | packages/core/src/authz/inputGuards.ts:151-154 | within an hour of the last request the pruned timestamps are all there were |
| `InputGuards.PruningKeepsVerdicts` | packages/core/src/authz/inputGuards.ts:148-172 | every verdict is the one the full history would give |
| `InputGuards.AdmittedExactly` | packages/core/src/authz/inputGuards.ts:148-172 | in a run at non-decreasing times a request is admitted if and only if no more requests than the limit came in the last 1000 ms, 60 000 ms and 3 600 000 ms, itself included |
| `InputGuards.NoWindowExceedsItsLimit` | packages/core/src/authz/inputGuards.ts:148-172 | in any run at non-decreasing times no window of a second, minute or hour admits more than its limit |
| `InputGuards.TightRulesBindInWindow` | packages/core/src/authz/inputGuards.ts:148-172 | where rules of different limits share a key, any window admits no more than a bound by the rules whose limit is within that bound |
| `Authorize.AuthorizeRequest` | packages/core/src/authz/authorize.ts:44-116 | the early answers, else the decision and limiter state of the first deciding rule of the gathered buckets |
| `Authorize.IndexIsLinearScan` | packages/core/src/authz/authorize.ts:61-137 | deciding through the index equals scanning a list without repeats: decision, reason and limiter state |
| `Authorize.RepeatsDecideNothing` | packages/core/src/authz/authorize.ts:126-137 | meeting a rule again in the `"*"` bucket never changes which rule decides |
| `Authorize.OneTimestampPerRequest` | packages/core/src/authz/authorize.ts:70-107 | a request records at most one timestamp, under the deciding rule's key |
| `Authorize.DenyReasonsExact` | packages/core/src/authz/authorize.ts:67-116 | each deny reason, RATE_LIMIT among them, is given if and only if the rules got exactly that far |
| `Authorize.MatchAndLimitExact` | packages/core/src/authz/authorize.ts:70-107 | a rule matches if and only if it is the first to decide and within its limit; RATE_LIMIT if and only if that rule is over it |
| `Conditions.ClauseMeans` | packages/core/src/authz/authorize.ts:139-215 | a clause matches if and only if every list it gives names something the request names of that kind, it asks for system user or owner only of them, and now is between its dates |
| `Conditions.WhereIsItsConditions` | packages/core/src/authz/authorize.ts:139-215 | any clause, well typed or not, matches if and only if each of its conditions alone would |
| `Conditions.GuardsMean` | packages/core/src/authz/inputGuards.ts:24-81 | the guards fail in order on an extra parameter, a denied one, a value no rule allows, and no dry run where asked for; on nothing else |
| `Conditions.LimitsMean` | packages/core/src/authz/inputGuards.ts:83-170 | a passing request is metered if and only if a rate limit is given, and each of its three numbers limits its own window |
| `Conditions.OneRuleDecides` | packages/core/src/authz/authorize.ts:64-116 | the decision on one rule in these terms: miss, denial, match or rate limit, and the timestamp left |
| `Authorize.KeysAreSeparate` | packages/core/src/authz/authorize.ts:70-107 | after any requests of any users the limiter holds under each key what the requests metered under it alone leave |
| `Authorize.EveryKeyKeepsItsLimits` | packages/core/src/authz/authorize.ts:70-107 | in any run of requests at non-decreasing times, under each key no window has more matches by rules with a limit within a bound than the bound |
| `CanonicalRules.CanonicalFormDecides` | packages/core/src/authz/compile.ts:58-103 | lists with one canonical form give the same decision, reason, matched id and limiter state, where nothing of consequence is inherited and no empty name moves |
| `Readings.SortKeepsWhere` | packages/core/src/authz/authorize.ts:139-215 | deep sorting never changes whether a where clause matches |
| `Readings.SortKeepsGuards` | packages/core/src/authz/inputGuards.ts:28-85 | nor which guard fails first, the empty denied name apart |
| `Readings.SanitizeKeepsVerdicts` | packages/core/src/authz/compile.ts:119-138 | what where clauses and guards decide when `__proto__` is read as a prototype is what their sanitised copies decide |
| `Prototypes.OwnPartDecidesGuardsExactly` | packages/core/src/authz/compile.ts:119-138 | for guards with prototypes of given sets, the own fields alone decide every input if and only if each prototype is inert, guard by guard |
| `Prototypes.OwnPartDecidesWhereExactly` | packages/core/src/authz/compile.ts:119-138 | likewise for where clauses and their time windows |
| `CanonicalRules.SanitizedRulesAreAlike` | packages/core/src/authz/compile.ts:10-103 | sanitising a list changes neither a verdict nor its hash |
| `CanonicalRules.SortedGuardsDecideExactly` | packages/core/src/authz/inputGuards.ts:35-40 | guards that inherit nothing of consequence and have one canonical form agree on an input if and only if its body does not name an empty parameter beside one that sorts apart from it |
| `CanonicalRules.FormDecidesGuardsExactly` | packages/core/src/authz/compile.ts:76-138 | for guards with prototypes of given sets, the canonical form decides if and only if each prototype is inert, whatever the order of sorting |
| `CanonicalRules.FormDecidesWhereExactly` | packages/core/src/authz/compile.ts:76-138 | likewise for where clauses |
| `CanonicalRules.PrototypeIsNotInTheHash` | packages/core/src/authz/compile.ts:58-138 | two lists with one hash, one of which inherits dryRunOnly and denies what the other allows |
| `PermissionCache.CompiledCache.GetOrCompile` | packages/core/src/authz/cache.ts:6-23 | the cached entry or a fresh compile, stored under both hashes |
| `PermissionCache.CompiledCache.Invalidate` | packages/core/src/authz/cache.ts:25-32 | keeps exactly the entries with neither that key nor that content hash |
| `PermissionCache.CachedIsFresh` | packages/core/src/authz/cache.ts:6-32 | in every reachable cache, if each hash has been paired with one list since its invalidation, a lookup has the canonical form of a fresh compile |
| `PermissionCache.FreshExactly` | packages/core/src/authz/cache.ts:6-32 | for any set of calls, every lookup after any run of them is fresh if and only if no two pair one hash with different canonical forms |
| `PermissionCache.CachedDecisionIsLinearScan` | packages/core/src/authz/authorize.ts:61-116 | so, under the same two conditions, a decision through cache and index is a linear scan of the caller's own rules |
| `PermissionCache.InvalidateRemovesExactly` | packages/core/src/authz/cache.ts:25-32 | invalidating a hash removes every alias of an entry if and only if it is the content hash or the only key |
| `PermissionCache.RequestedHashLeavesAnAlias` | packages/core/src/authz/cache.ts:16-32 | after a lookup under a stale hash, invalidating that hash leaves the alias under the content hash |
| `PermissionCache.OneListPerPassedHashIsNotEnough` | packages/core/src/authz/cache.ts:11-21 | a hash never passed with another list can still answer for one stored under it as content hash |
| `Canonical.CanonicalTextExactly` | packages/core/src/history/canonical.ts:257-272 | two values have one canonical text if and only if, without their fields named `__proto__`, they differ at most in the order of keys |
| `Canonical.StripIsIdleExactly` | packages/core/src/history/canonical.ts:257-272 | nothing is left out if and only if no object at any depth has a field of that name |
| `Canonical.WholeTextsTellStatesApart` | packages/core/src/history/canonical.ts:257-272 | so values without such fields have one text if and only if they differ at most in the order of keys |
| `Canonical.ProtoIsNotInTheText` | packages/core/src/history/canonical.ts:263-271 | two configurations that differ inside such a field and have one text, that of an empty one |
| `Canonical.SortAscends` | packages/core/src/history/canonical.ts:263-265 | the sorted fields ascend strictly by key and are the same fields |
| `History.PatchRoundTrip` | packages/core/src/history/patch.ts:3-14 | applying a computed patch to the old state gives the new one |
| `History.FirstRootReplacementApplies` | packages/core/src/history/patch.ts:9-14 | a patch gives the value of its first replacement of the root, and leaves the state as it is without one |
| `History.ChangeLog.MaterializeVersion` | packages/core/src/history/changelog.ts:12-29 | the replay of the rows up to the version |
| `History.ChangeLog.Append` | packages/core/src/history/changelog.ts:31-95 | appends exactly the row for the next version; without an aggregate, nothing |
| `History.EveryVersionMaterializes` | packages/core/src/history/changelog.ts:12-93 | after any appends, version v is the state recorded by append v, and its hash the row's |
| `History.LogPrefix` | packages/core/src/history/changelog.ts:75-93 | later appends never change earlier rows |
| `History.HashesTellStatesApart` | packages/core/src/history/changelog.ts:71-72 | rows have equal hashes if and only if their states, without fields named `__proto__`, differ at most in key order |
| `History.SnapshotsAreDense` | packages/core/src/history/changelog.ts:52-55 | a snapshot is among any interval's worth of versions in a row |
| `History.PatchesAreBounded` | packages/core/src/history/changelog.ts:62-67 | the log never holds more patches than the maximum depth |
| `History.PatchExactly` | packages/core/src/history/changelog.ts:52-69 | a version is a patch if and only if it is no periodic snapshot and fewer patches than the maximum exist |
| `History.AfterMaxDepthOnlySnapshots` | packages/core/src/history/changelog.ts:62-67 | once the maximum is reached every later row is a snapshot |
| `MemoryQueue.Queue.EnqueueAction` | packages/core/src/queue/memory-queue.ts:47-50 | the message goes last and a sleeping pump is woken |
| `MemoryQueue.Queue.ConsumeActions` | packages/core/src/queue/memory-queue.ts:51-54 | the new handler replaces the old and a sleeping pump is woken |
| `MemoryQueue.Queue.StopPump` | packages/core/src/queue/memory-queue.ts:55-58 | the queue stops and a sleeping pump is woken |
| `MemoryQueue.Queue.RunPump` | packages/core/src/queue/memory-queue.ts:24-41 | from the loop's head to the next await: ends, sleeps, or hands over the first message |
| `MemoryQueue.Queue.HandlerReturned` | packages/core/src/queue/memory-queue.ts:39-40 | the handler counts as finished and the pump is back at the loop's head |
| `MemoryQueue.FirstInFirstOutOnce` | packages/core/src/queue/memory-queue.ts:24-59 | in every interleaving, messages are handled in the order enqueued, each once, one at a time, the rest still queued |
| `MemoryQueue.HandedToTheLastRegistered` | packages/core/src/queue/memory-queue.ts:24-54 | the pump hands the head of the queue to the handler registered last, if it runs, has one and the queue is not empty; else nothing |
| `MemoryQueue.NeverSleepsOnWork` | packages/core/src/queue/memory-queue.ts:17-59 | the pump never sleeps while running with a consumer and a message |
| `MemoryQueue.DrainsTheQueue` | packages/core/src/queue/memory-queue.ts:24-41 | left alone it hands over every message to the consumer |
| `MemoryQueue.StoppedHandsNothingOver` | packages/core/src/queue/memory-queue.ts:25-58 | once stopped it hands over nothing more |
| `ActionSlots.Slots.AcquireSlot` | packages/core/src/runtime/action-runner.ts:22-29 | takes a slot below the limit, else queues up |
| `ActionSlots.Slots.ResumeWaiter` | packages/core/src/runtime/action-runner.ts:26-30 | a woken waiter takes its slot only as it resumes |
| `ActionSlots.Slots.ReleaseSlot` | packages/core/src/runtime/action-runner.ts:33-37 | gives back a slot, never below zero, and wakes the first waiter |
| `ActionSlots.NoLostWakeUp` | packages/core/src/runtime/action-runner.ts:19-37 | in every run the count is the number of holders, the clamp never acts, and someone waits only while holders and woken fill the limit |
| `ActionSlots.FirstToAskFirstWoken` | packages/core/src/runtime/action-runner.ts:22-37 | in every run those woken are, in order, the first of those that had to queue up |
| `ActionSlots.BoundedExactly` | packages/core/src/runtime/action-runner.ts:22-37 | holders and woken stay within the limit if and only if no acquire overtakes a woken waiter |
| `ActionSlots.BargingExceedsTheLimit` | packages/core/src/runtime/action-runner.ts:22-37 | a run with two actions in flight under a limit of one |
| `ActionConsumer.BackoffDoublesUpToAMinute` | packages/core/src/runtime/action-runner.ts:372-375 | the default delay starts at two seconds, doubles, never decreases, and is a minute from attempt six on, exactly |
| `ActionConsumer.BackoffIsDefault` | packages/core/src/runtime/action-runner.ts:372-375 | the default delays are 2, 4, 8, 16 and 32 seconds and then a minute |
| `ActionConsumer.Consumer.BeginInvocation` | packages/core/src/runtime/action-runner.ts:56-63 | a message begins as a PENDING invocation |
| `ActionConsumer.Consumer.OnDefinition` | packages/core/src/runtime/action-runner.ts:85-122 | a missing or disabled definition is skipped for good, an error goes to the error path |
| `ActionConsumer.Consumer.OnSetUp` | packages/core/src/runtime/action-runner.ts:124-162 | a failing setup never asks for a slot; otherwise it gets one or waits |
| `ActionConsumer.Consumer.OnExecuted` | packages/core/src/runtime/action-runner.ts:171-262 | a result is SUCCESS or RETRYING with its follow-up; an error is carried past the release |
| `ActionConsumer.Consumer.OnDisposed` | packages/core/src/runtime/action-runner.ts:163-278 | the slot is released on every way out of execution |
| `ActionConsumer.Consumer.OnError` | packages/core/src/runtime/action-runner.ts:279-345 | the status by kind of error, and a follow-up if it can be retried |
| `ActionConsumer.Consumer.ScheduleRetry` | packages/core/src/runtime/action-runner.ts:349-370 | one timer with the same payload, the attempt number given and the delay, at least 0 |
| `ActionConsumer.RetryingMeansOneFollowUp` | packages/core/src/runtime/action-runner.ts:70-345 | in every run a handled message has left PENDING with the status its ending calls for, and is RETRYING if and only if a retry was asked for; then its one follow-up is attempt n + 1, or 2 without a number, after the delay asked for, at least 0, or the default one |
| `ActionConsumer.EndingIsWhatHappened` | packages/core/src/runtime/action-runner.ts:84-345 | the recorded ending is what definition, setup and execution answered in that run |
| `ActionConsumer.FollowUpsAreOfRetrying` | packages/core/src/runtime/action-runner.ts:349-370 | there is no follow-up but those of RETRYING invocations |
| `ActionConsumer.InvocationsFollowTheSlotProtocol` | packages/core/src/runtime/action-runner.ts:162-278 | any interleaving of invocations is, for the semaphore, a legal run: no double acquire, no release without a slot |
| `ActionConsumer.EveryPathReleases` | packages/core/src/runtime/action-runner.ts:162-278 | a handled message has released exactly as often as it was granted a slot |
| `ActionConsumer.QuietMeansNoSlotTaken` | packages/core/src/runtime/action-runner.ts:162-278 | when all messages are handled the semaphore is as at first |
| `ActionConsumer.AloneNeverWaits` | packages/core/src/runtime/action-runner.ts:22-30 | one message at a time never waits for a slot |
| `ActionConsumer.NeverStuck` | packages/core/src/runtime/action-runner.ts:22-345 | in every run an invocation that is not done can go on, or waits while one that holds or has been woken to a slot can |
| `TriggerRunner.FireTriggerOnce` | packages/core/src/runtime/trigger-runner.ts:38-82 | the nested loops fire exactly the fan-out, or the older mapping's messages, all with the firing's event and context and without an attempt number |
| `TriggerRunner.EveryStepHasItsMessage` | packages/core/src/runtime/trigger-runner.ts:73-81 | each step has its own message with the firing's event and context, at its own place |
| `TriggerRunner.EveryMessageHasItsStep` | packages/core/src/runtime/trigger-runner.ts:73-81 | there are no other messages |
| `TriggerRunner.FiringFollowsPipelinesThenSteps` | packages/core/src/runtime/trigger-runner.ts:73-81 | places are in order of pipeline first and step second, exactly |
| `ExecutionRuntime.OneInvocationAtATime` | packages/core/src/queue/memory-queue.ts:25-40 | with the pump as the only source, in every run at most one invocation is unfinished and none ever waits for a slot |
| `ExecutionRuntime.InvocationsFollowTheQueue` | packages/core/src/queue/memory-queue.ts:25-40 | invocation p is that of the p-th message enqueued, and all earlier ones are done |
| `ExecutionRuntime.FiringIsHandledInOrder` | packages/core/src/runtime/trigger-runner.ts:73-81 | the first attempts of one firing are handled in (pipeline, step) order, one after the other, whatever comes between |
| `ExecutionRuntime.FiredFollowUpIsHandledOnce` | packages/core/src/runtime/action-runner.ts:349-370 | in every run a follow-up whose timer has fired is exactly one message, with the RETRYING invocation's payload and the next attempt, and one invocation once the queue gets there |
| `ExecutionRuntime.RetriesCountUp` | packages/core/src/runtime/action-runner.ts:70-375 | along a chain of retries of a fired message the first follow-up carries attempt 2, the next 3 and so on, with the payload unchanged and each default delay by its place |
| `ExecutionRuntime.RuntimeGoesOn` | packages/core/src/queue/memory-queue.ts:24-50 | no run is stuck: while a message is queued or under way and the queue runs with a consumer, the runtime can go on by itself |
| `Orderings.ResequencingNumbersInOrder` | packages/core/src/routes/admin/pipelines.ts:113-161 | under any tie-break the orders become exactly 1 to n, each once, and strict order is kept |
| `Orderings.ResequencingIsIdleExactly` | packages/core/src/routes/admin/pipelines.ts:113-161 | resequencing changes nothing if and only if the table has no gap and no tie; so it is idempotent |
| `Orderings.InsertIsListInsertion` | packages/core/src/routes/admin/pipelines.ts:660-693 | on a gap-free table the shifts and the insert come to list insertion: first for a number up to 1, last beyond the end or without one |
| `Orderings.DeleteIsListRemoval` | packages/core/src/routes/admin/pipelines.ts:537-548 | deleting leaves the others in their order |
| `Orderings.ReorderExactly` | packages/core/src/routes/admin/pipelines.ts:863-883 | a list of the right length puts each id at its index if and only if no id comes twice, that is, if it is a permutation |
| `PipelineSteps.Steps.Write` | packages/db/prisma/schema.prisma:501 | a write goes through if and only if no other step of the pipeline holds the order |
| `PipelineSteps.Steps.Resequence` | packages/core/src/routes/admin/pipelines.ts:113-136 | on distinct positive orders no write is refused, and the rows are numbered from 1 in their order |
| `PipelineSteps.Steps.InsertStep` | packages/core/src/routes/admin/pipelines.ts:372-407 | goes through if and only if no order is given or the clamped one is not before the last step; then list insertion, else no change |
| `PipelineSteps.Steps.MoveStep` | packages/core/src/routes/admin/pipelines.ts:446-512 | goes through if and only if the step is where it is asked to go; nothing ever moves |
| `PipelineSteps.Steps.DeleteStep` | packages/core/src/routes/admin/pipelines.ts:531-548 | list removal; an unknown step changes nothing |
| `PipelineSteps.Steps.ReorderSteps` | packages/core/src/routes/admin/pipelines.ts:573-611 | goes through if and only if the list is the current order; nothing ever changes |
| `PipelineSteps.HeldExactly` | packages/db/prisma/schema.prisma:501 | where orders are 1 to n, a write is refused if and only if it names another step's place |
| `PipelineSteps.AnswersExactly` | packages/core/src/routes/admin/pipelines.ts:372-512 | for which numbers an insertion or a move of a step goes through, and what it leaves |
| `PipelineSteps.ReorderAnswersExactly` | packages/core/src/routes/admin/pipelines.ts:573-611 | a reordering is invalid if and only if it has another length or an unknown step, and goes through if and only if it changes nothing |
| `PipelineSteps.NoCallReordersSteps` | packages/core/src/routes/admin/pipelines.ts:372-611 | in every run steps stay distinct, and two that stay keep their order whatever is called |
| `PipelineSteps.ThreeStepsStayPut` | packages/core/src/routes/admin/pipelines.ts:464-601 | a move, an insertion and a reordering of three steps that are refused |
| `PipelineTriggers.Links.Write` | packages/db/prisma/schema.prisma:520 | a write goes through if and only if the trigger does not hold the order in another pipeline |
| `PipelineTriggers.Links.Attach` | packages/core/src/routes/admin/pipelines.ts:645-695 | an attached trigger is refused; else the shifts, the insert and the resequencing all go through, or nothing changes |
| `PipelineTriggers.Links.Move` | packages/core/src/routes/admin/pipelines.ts:718-790 | shifts by the code's two conditions, moves and resequences, or nothing changes |
| `PipelineTriggers.Links.Detach` | packages/core/src/routes/admin/pipelines.ts:809-830 | removes and resequences, or nothing changes |
| `PipelineTriggers.Links.Reorder` | packages/core/src/routes/admin/pipelines.ts:855-892 | the four replies, and the rows numbered by the list, later mentions winning |
| `PipelineTriggers.AttachExactly` | packages/core/src/routes/admin/pipelines.ts:660-695 | on a gap-free table, goes through if and only if no trigger comes to a place it holds elsewhere, and then is list insertion |
| `PipelineTriggers.DetachExactly` | packages/core/src/routes/admin/pipelines.ts:817-830 | likewise for list removal |
| `PipelineTriggers.FirstInOnePipelineOnly` | packages/db/prisma/schema.prisma:520 | attaching to an empty pipeline goes through if and only if the trigger is first nowhere else |
| `PipelineTriggers.FreeUnderEveryTieBreakExactly` | packages/core/src/routes/admin/pipelines.ts:137-161 | resequencing a table is refused under no tie-break if and only if no trigger holds elsewhere a place that its ties leave to it |
| `PipelineTriggers.MoveGoesThroughExactly` | packages/core/src/routes/admin/pipelines.ts:739-790 | a move goes through under every tie-break if and only if no trigger holds elsewhere an order the shifts give it, nor a place that the ties after them may bring it to |
| `PipelineTriggers.MoveThatGoesThrough` | packages/core/src/routes/admin/pipelines.ts:739-790 | which tables a move that goes through can leave: those of the tie-breaks whose orders are free elsewhere, no others |
| `PipelineTriggers.MoveLandsWithinOne` | packages/core/src/routes/admin/pipelines.ts:739-790 | a moved trigger lands at the position asked for or one past it |
| `PipelineTriggers.MoveLandsExactly` | packages/core/src/routes/admin/pipelines.ts:739-790 | it lands there under every tie-break if and only if it moves to an end or stays |
| `PipelineTriggers.MoveLandsWhereAsked` | packages/core/src/routes/admin/pipelines.ts:728-790 | by the number given: first up to 1, last from the number of triggers on, else that place or the next; without one the trigger stays |
| `PipelineTriggers.MoveIsListMoveExactly` | packages/core/src/routes/admin/pipelines.ts:739-790 | the outcome is the list move under every tie-break if and only if it goes one place to an end or stays; under some tie-break it always is |
| `PipelineTriggers.MoveMayOvershoot` | packages/core/src/routes/admin/pipelines.ts:750-754 | of three triggers the first, sent to place two, can land third |
| `PipelineTriggers.EveryRunKeepsTheIndex` | packages/core/src/routes/admin/pipelines.ts:645-892 | in every run of calls on any pipelines no trigger holds one order in two of them, and each stays numbered 1 to n unless a reorder repeats an id |
| `PluginRegistry.CapabilityIndex.RegisterRef` | packages/core/src/plugins/plugin-loader.ts:215-255 | refused if the id or the key is taken, and then nothing changes; else all three maps gain the reference |
| `PluginRegistry.LookupsFindWhatIsRegistered` | packages/core/src/plugins/plugin-loader.ts:257-303 | in every run a lookup by id or key finds exactly the reference registered under it and not removed since: the three maps are one set without conflicts |
| `PluginRegistry.RefusedExactly` | packages/core/src/plugins/plugin-loader.ts:148-222 | a registration is refused if and only if a registered reference has its id or else its key, and the error names that |
| `PluginRegistry.CapabilityIndex.RemoveRefs` | packages/core/src/plugins/plugin-loader.ts:481-494 | the loop removes the plugin's ids, their keys and its id set |
| `PluginRegistry.PluginRuntimeRegistry.RemovePlugin` | packages/core/src/plugins/plugin-loader.ts:479-526 | removes from both triples and forgets the module |
| `PluginRegistry.MapsDescribeTheSameReferences` | packages/core/src/plugins/plugin-loader.ts:150-255 | after any registrations and removals the maps hold the same references, and each id set is its plugin's |
| `PluginRegistry.RemoveIsExact` | packages/core/src/plugins/plugin-loader.ts:479-509 | removal takes the plugin's references out of all three maps and no others |
| `PluginRegistry.RemoveThenRegisterRestores` | packages/core/src/plugins/plugin-loader.ts:215-509 | afterwards they register again, all accepted, in any order, and the registry is as before |
| `PluginRegistry.KeysCollideExactly` | packages/core/src/plugins/plugin-loader.ts:148 | two plugins can share a key if and only if one's name continues the other's after a colon |
| `PluginRegistry.LookupsAreOwnExactly` | packages/core/src/plugins/plugin-loader.ts:261-287 | for plugins of given names, every lookup by plugin and key in every run finds that plugin's own capability or none if and only if no name continues another so |
| `PluginRegistry.RegisterThenRemoveRestores` | packages/core/src/plugins/plugin-loader.ts:215-509 | registering a new plugin's first capability and removing the plugin leaves the registry as it was |
| `Portal.AssignmentRecord.TryDownload` | packages/core/src/routes/portal.ts:259-338 | the verdict in the code's order, and an event and timestamp only when admitted |
| `Portal.AdmittedAsSummarised` | packages/core/src/dto/assignment.ts:31-38 | admitted if and only if enabled, remaining null or positive, and cooldown 0 in the summary |
| `Portal.RefusedAsSummarised` | packages/core/src/routes/portal.ts:276-313 | the limit refuses if and only if the summary leaves no download, whatever the cooldown; the cooldown if and only if one is left and its time has not come |
| `Portal.RemainingIsStillToBeHad` | packages/core/src/dto/assignment.ts:31 | of requests that wait out the cooldown exactly the first so many as remain are admitted |
| `Portal.RemainingSecondsIsLeast` | packages/core/src/dto/assignment.ts:36-38 | the seconds reported are the fewest whole seconds to wait, exactly |
| `Portal.DownloadsKeepToTheirTerms` | packages/core/src/routes/portal.ts:296-336 | in every run downloads never exceed the limit, and any two lie as many cooldowns apart as steps between them |

## Left out

- Cron text below tokens (splitting, trimming, `parseInt`), the range of `Date`, timers longer than 2^31 - 1 ms and jumps of the clock.
- `normalizeConfig` of the cron plugin and its errors, payloads, metadata and time zones; `dispose`, which does what stop does.
- ScheduledRuntime.CronChainsEnumerate: speaks of runs without a clash only, because a clash lets the code run two chains at once (`ChangeDuringEmitDoublesTheChain`, `StopDuringFirstEmitLeavesATimer`).
- Bundle deletion during a build, except as a build that fails; zip bytes, HTTP, storage drivers and the error texts in `last`.
- The database's own filtering and ordering: queries come as the sequences they return, ties in any order for sort orders.
- Rules not yet normalised (missing ids, accessors that sanitising leaves out, malformed rules and the fallback hash they cause), ill-typed where and guard fields, preset id and version, messages.
- The reading of requests: paths, headers, the dry-run flag, regular expressions and date texts are parameters of the model.
- CanonicalRules.CanonicalFormDecides: excludes bodies that name an empty parameter beside one that sorts apart from it, and rules that inherit something of consequence, because there it is false (`SortedGuardsDecideExactly`, `FormDecidesGuardsExactly`, `FormDecidesWhereExactly`).
- PermissionCache.CachedDecisionIsLinearScan: excludes the same.
- Canonical.SortAscends: ignores that JavaScript lists integer-like keys first whatever order they were written in; both values of a comparison are affected alike.
- History.EveryVersionMaterializes: takes a stored JSON column to keep the order of keys, which PostgreSQL's `jsonb` does not; there, states come back with their keys in its order.
- Numbers in JSON values are integers, in rules and in recorded states.
- The limiter's key is a triple here; the code joins its parts with colons, so ids with colons could share a key.
- `redactConfig` and `serializeAggregate`; shared references within one value, which `deepSortUnknown` turns into null.
- Queue handlers that throw, which end the pump; failing database, audit and enqueue calls inside the consumer.
- What keeps a timed-out action running after its invocation has ended.
- PluginRegistry.CapabilityIndex: stands for the trigger triple and the action triple alike; wrapped factories, health records and dispose hooks are not modelled.
- Concurrent reloads of one trigger and the trigger runtime manager.
- Pipeline transactions that interleave, rows put into the step table by other means than these calls, the checks of pipeline, action and trigger before a transaction, and updates of other fields.
- Non-serialisable isolation of download transactions, and the fallback used when the assignment row is gone.
- Portal.DownloadsKeepToTheirTerms: keeps maxDownloads fixed during a run, because lowering it leaves the downloads already made.
- HTTP routes, schemas, sessions, metrics, logging, e-mail and configuration.
