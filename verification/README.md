# xgress: verified models of its core logic

xgress manages a Traefik reverse proxy: it renders database rows into Traefik's dynamic
configuration, serves part of the traffic itself through an edge with a cache and a WAF, counts
WAF events, bans and throttles clients, and guards the Traefik process. This project models the
state-keeping and algorithmic parts of it in Dafny and proves what they are for.

`dafny verify dfyconfig.toml` checks everything.

## How the model is built

Each component is first a set of functions on values: what one operation does to the state, and
what a run of operations leads to. The main results are about those runs: any number of
operations, in any order the program allows. Where the program updates objects in place, a class
has the same fields and its methods are proved to do what the functions say; the class that holds
entries, slices or attempt objects carries a ghost `Contents` with the values behind the
references.

A section under a mutex is one step. Clocks are parameters, in nanoseconds; what is assumed about
them is written in each theorem (mostly: they do not go back). Results of code outside the model
(the WAF's verdict, the upstream's response, whether a middleware builds, what rendering came to)
are parameters as well, and every theorem holds for all of them.

| module | what it models |
|---|---|
| LineDiff | the diff of two configuration snapshots |
| MemCache | the in-process LRU and TTL cache |
| CacheRules, EdgeServer | caching rules, and the request path of the edge over the cache |
| Locations, LocationRouters, Balancer | choice of a location by the edge and among location routers, round robin |
| RouterRules, HostRouters, HostRouting | what router rules mean, which router of a host serves a visitor |
| HostServices, HostAdmission | which upstream lists a host's service leads to, who gets through its access lists |
| HostChains, HostMiddlewares, HostOutput | what a host's routers carry, what the names stand for, and which routers and services there are, in the whole output by the fields of the rows |
| Lease | the leader-election lease between instances |
| LossyCount, Ranking, TopLists, HourlySeries, EventLog, Collector | the bounded metrics of WAF events |
| AutoBan, LoginLimiter, CrashGuard, Windows | the three sliding-window machines and the shared in-place filter |
| HostRule | printer and parser of router rules |
| RenderSpec, Renderer, RenderClosure, RenderGating | the renderer, its closure under reference, and what stands in front of a host |
| RenderOutput, OutputOrder, StreamOutput | the whole output seen from one host; ranks, entry points and TLS in it; its stream hosts |
| Snapshots, Newest | served configuration, snapshot table, rollback |
| Hosts, Ordering, Text, Subsequences, FiniteSets, Options | rows, string order, the few string functions, set sizes |

## What the code does not do

These are places where the code does less than its comments, its pages or the obvious reading
promise. Each has a lemma over all inputs that says exactly when, and with what, the promise fails.

- Two instances can hold a lease at once if their clocks differ, for less time than they differ;
  with equal clocks they never do (`Lease.MutualExclusion`, `Lease.OverlapIsSkew`).
- A lease can end before its TTL: the sample and the TTL are both cut to whole seconds. It lasts
  exactly when the two cut-off parts make up at most one second, so always for TTLs of whole
  seconds (`Lease.LeaseLastsItsTtl`, `Lease.TruncationCutsShort`).
- Serving a host by the edge instead of Traefik, as its WAF asks for, leads every visitor to the
  same location as before only if the location prefixes end in a slash and hold no backtick, if
  their routers outrank the host rule, whose rank is its length, and, on hosts with a satisfy-any
  list, the trusted router, whose rank is 2000 (`HostRouting.RoutingPathsAgree`). Prefixes without a
  final slash are accepted by the API; those with a backtick are refused by it
  (internal/traefikcfg/validate.go:132) and come only from a restore or a direct write.
- At the edge, a host in weighted, failover or mirroring mode is served from one upstream list. It is
  the only one the host was served from before exactly if all backend groups in use have that list, as
  the only group of a host without upstreams of its own does (`HostServices.MainListKept`).
- The static-asset router and the trusted router are meant to outrank the host's main router. They
  do exactly for host rules shorter than 900 and 2000, that is, not for long domain lists
  (`HostRouting.StaticWins`, `HostRouting.TrustedWins`).
- Satisfy-any lists promise that a trusted address or valid credentials are enough
  (web/src/pages/AccessLists.tsx:111). Credentials from an untrusted address never are
  (`HostAdmission.SatisfyAnyRefusesCredentials`). On a host with several such lists, an address that
  one of them trusts skips the others too, unless their ranges are the same or all in question are
  ranges of another list (`HostAdmission.TrustedAdmission`).
- A ban is meant to deny an address on all hosts (internal/traefikcfg/render.go:264). It reaches every
  entry point of the HTTP routers, and no stream host (`OutputOrder.BansReachEveryEntry`,
  `StreamOutput.BansSpareStreams`). The ban routers come before all other HTTP routers exactly when no
  host rule and no location priority reaches two million (`OutputOrder.BansOutrankAll`); the default site comes after all others exactly when no
  dead host is enabled (`OutputOrder.DefaultSiteIsLast`).
- An access list whose users are all incomplete is still named by its hosts but never defined, and
  then, and only then, the output has a dangling reference (`RenderClosure.ClosedIffAclsResolve`).
  The API drops incomplete users (internal/api/handlers_features.go:35-57), so such lists come only
  from a restore or a direct write.
- A redirection host whose TLS mode is none of the four known texts, such as the empty one or "off",
  is served over TLS, unlike a proxy host in the same state (`OutputOrder.RedirectionTls`,
  `OutputOrder.OtherRedirectionServesTls`). The API does not check the mode.
- A stream host with passthrough passes TLS through under a rule with the catch-all name if and only if
  "*" is among its domains, alone or beside others; the API accepts it
  (`StreamOutput.CatchAllPassthrough`, `StreamOutput.CatchAllInOutput`).
- Evictions of the bounded count maps are meant to lose nothing visible
  (internal/secmetrics/collector.go:61-66). One eviction does not change the ten counts shown, but
  each loses counts for good, and a run can go on so that the first count shown is too low
  (`TopLists.NothingLostIffNoEviction`, `TopLists.LostCountsShow`). What is shown stays within a bound
  of the truth (`TopLists.TopIsNearTruth`).
- The crash-loop callback can run twice between two restarts, if a trip from before the first of
  them has not had its callback yet (`CrashGuard.AtMostOneCallPerRestart`, with a run in
  `CrashGuard.TripBeforeRestart`).
- The login throttle counts failures, not attempts: with c attempts of a key in flight, up to
  maxFails + c - 1 of them can fail at one instant, and no more
  (`LoginLimiter.ConcurrentAttemptsOverrun`).
- The clocks of a WAF block and of a sweep are read before the lock. A block that locks after a sweep
  whose clock is more than a nanosecond ahead of its own can miss the ban
  (`AutoBan.LateLockMissesBan`).
- The round-robin index is a signed conversion of the counter: past 2^63 - 1 it is negative, and
  the call panics unless it happens to be zero (`Balancer.WhenTheIndexIsValid`).

## Model

| member | source | states |
|---|---|---|
| `LineDiff.DiffLines` | web/src/lib/diff.ts:8-29 | the script that comes out rebuilds both texts exactly, and no other script of kept, deleted and inserted lines between them is shorter |
| `LineDiff.ScriptIsShortest` | web/src/lib/diff.ts:19-28 | every edit script between two line lists is at least as long as the walk's, for all lists |
| `LineDiff.SameLinesAreLongestCommon` | web/src/lib/diff.ts:12-24 | the "same" lines are a common subsequence of both sides, and no common subsequence is longer |
| `LineDiff.CommonBound` | web/src/lib/diff.ts:12-18 | every common subsequence, given by its positions in both lists, is at most as long as the recurrence says |
| `LineDiff.SameLinesEmbed` | web/src/lib/diff.ts:19-28 | the "same" lines of any edit script stand in both of its sides, in order |
| `LineDiff.ScriptLength` | web/src/lib/diff.ts:19-28 | length plus number of "same" lines of any script is the sum of the two line counts, so short and many-same are one thing |
| `LineDiff.ScriptIsEditScript` | web/src/lib/diff.ts:20-27 | the walk deletes and keeps exactly the old lines, inserts and keeps exactly the new ones, and keeps as many as the table's corner says |
| `LineDiff.FillTable` | web/src/lib/diff.ts:12-18 | entry (i, j) of the filled table is the recurrence for the lines from i and from j on |
| `LineDiff.Walk` | web/src/lib/diff.ts:19-28 | the index walk over the table gives the script of the two line lists |
| `LineDiff.Leftovers` | web/src/lib/diff.ts:26-27 | with one side used up, the two last loops give the script of what is left |
| `LineDiff.JoinSplit` | web/src/lib/diff.ts:9-10 | joining the split lines with newlines gives the text back |
| `LineDiff.SplitJoin` | web/src/lib/diff.ts:9-10 | splitting joined lines that hold no newline gives the lines back |
| `MemCache.TrimKeepsLongestFittingPrefix` | internal/edge/cache.go:143-145 | a prefix of the recency list fits both the byte budget and the entry cap exactly when eviction keeps it: what stays is the longest fitting prefix |
| `MemCache.EveryRun` | internal/edge/cache.go:98-146 | after any run of Set, Get and sweeps: keys unique, both bounds kept, and every slot is what the latest size-accepted Set of its key stored |
| `MemCache.LookupIsLatestSet` | internal/edge/cache.go:109-123 | a value that Get returns is the one of the latest size-accepted Set of that key in the whole run, and its time is not over |
| `MemCache.FreshSetIsRetained` | internal/edge/cache.go:125-146 | a size-accepted value is found after its Set, until its TTL ends, if and only if its own size fits the byte budget and the cache may hold an entry at all |
| `MemCache.KeyStaysWhileRecentSlotsFit` | internal/edge/cache.go:109-146 | least recently used over whole runs: after an accepted Set, and unless found expired, a key is there throughout any further operations if and only if at each of them its slot and all slots used since it last was fit both bounds |
| `MemCache.StepRetains` | internal/edge/cache.go:109-146 | one more Set, Get or sweep keeps the key exactly when what was used since then fits |
| `MemCache.StepKeepsInvariant` | internal/edge/cache.go:98-146 | one more operation of any kind keeps what `EveryRun` says |
| `MemCache.WithDefaults` | internal/edge/cache.go:64-73 | positive limits are kept, and whatever is asked for, those in force are positive |
| `MemCache.MemStore.constructor` | internal/edge/cache.go:64-83 | a new cache is empty, consistent, and has the limits with defaults filled in |
| `MemCache.MemStore.Get` | internal/edge/cache.go:109-123 | list, index, contents and byte counter stay in step; result and new recency list are those of the abstract cache: miss, expired and removed, or hit and moved to the front |
| `MemCache.MemStore.Set` | internal/edge/cache.go:125-146 | stays in step and within both bounds; the new recency list is the new slot before the others, cut to the longest fitting prefix; oversized values change nothing |
| `MemCache.MemStore.RemoveLocked` | internal/edge/cache.go:150-155 | takes one element out of list, index and byte counter together |
| `MemCache.MemStore.Overwrite` | internal/edge/cache.go:133-137 | rewrites a known entry in place, corrects the byte counter by the difference and moves it to the front |
| `MemCache.MemStore.PushFront` | internal/edge/cache.go:138-142 | puts a new entry into list, index and byte counter |
| `MemCache.MemStore.MoveToFront` | internal/edge/cache.go:121 | reorders the list without touching the other entries |
| `MemCache.MemStore.Evict` | internal/edge/cache.go:143-145 | evicts from the back until both bounds hold, and ends |
| `MemCache.MemStore.SweepExpired` | internal/edge/cache.go:98-107 | removes exactly the expired entries, whatever order the map is visited in |
| `Lease.MutualExclusion` | internal/store/schedules.go:56-76 | over every interleaving of any number of instances, each sampling its own clock before its statements: two instances never hold one lease at one time if and only if their clocks agree |
| `Lease.OverlapIsSkew` | internal/store/schedules.go:56-76 | in every run, two holders overlap for less time than the later one's clock is ahead of the earlier one's |
| `Lease.EarlyTakeover` | internal/store/schedules.go:57-62 | with the second clock ahead, a run exists in which the second instance takes over while the first still holds the lease by its own clock |
| `Lease.MayWrite` | internal/store/schedules.go:60-70 | whoever's UPDATE or INSERT may write the row sampled, by its own clock, after every other instance's grant had run out |
| `Lease.EveryRun` | internal/store/schedules.go:56-76 | in every reachable state the row is the latest grant's, and grants follow one another in order |
| `Lease.NextKeepsInv` | internal/store/schedules.go:56-76 | every single move of every instance keeps that |
| `Lease.LeaseLastsItsTtl` | internal/store/schedules.go:57-58 | nobody else is granted the lease within the TTL of a sample, by the clock of whoever is, if the two parts that are cut to whole seconds make up at most one second |
| `Lease.TruncationCutsShort` | internal/store/schedules.go:57-62 | the condition is exact, even with equal clocks: whenever they make up more, a run exists in which another instance gets the lease before the TTL is over |
| `Lease.LeaseTable.Update` | internal/store/schedules.go:60-68 | hits one row exactly when it is the holder's or expired, and then rewrites it; else changes nothing |
| `Lease.LeaseTable.Insert` | internal/store/schedules.go:70-74 | succeeds exactly when there is no row, and never overwrites one |
| `Lease.LeaseTable.AcquireLease` | internal/store/schedules.go:56-76 | run alone, a call gets the lease exactly when it is free, expired or its own, and only then writes it |
| `HostRule.RoundTrip` | internal/traefikcfg/render.go:854-872 | reading the printed rule gives every domain, without its backticks, as often as it was listed |
| `HostRule.RuleDependsOnMultiset` | internal/traefikcfg/render.go:862-872 | two domain lists print the same rule if and only if they hold the same domains equally often |
| `HostRule.PrintAfterRead` | internal/api/handlers_features.go:569-585 | printing what was read from a printed rule gives the identical rule, for the empty list too |
| `HostRule.ReadBack` | internal/api/handlers_features.go:569-585 | the reader finds the domains in the order they are printed in |
| `HostRule.DomainsFromRule` | internal/api/handlers_features.go:569-585 | the loop that shrinks the rule collects what the recursive reader finds, for any text |
| `HostRule.RuleQuote` | internal/traefikcfg/render.go:854-859 | the result holds no backtick, and a value without one is left alone |
| `Ordering.SortDependsOnMultiset` | internal/traefikcfg/render.go:870 | sorting gives equal lists exactly for equal multisets |
| `Ordering.SortSorted` | internal/traefikcfg/render.go:870 | sorting puts strings in byte order |
| `Locations.ResolveLocation` | internal/edge/server.go:342-363 | the loop settles on the first of the longest prefixes that take the path, in path segments, or there is none; a location without prefix or upstreams takes nothing |
| `Locations.MatchesMeans` | internal/edge/server.go:383-392 | a prefix that ends in a slash takes exactly what continues it, any other prefix itself and what continues it with a slash |
| `HostRouting.RoutingPathsAgree` | internal/traefikcfg/render.go:516-539 | over all routers of a host, every visitor is led to the location the edge would lead to, or to the host's own service, if and only if all usable prefixes are well formed and their routers outrank the host rule and, where there is one, the trusted router |
| `HostRouting.LocationWins` | internal/traefikcfg/render.go:472-538 | for well-formed prefixes, the router of the edge's location is the only one that can serve a visitor if and only if the host rule is shorter than 1000 + prefix length and, for a visitor from a bypass range, the prefix is longer than 1000 |
| `HostRouting.PartingPath` | internal/edge/server.go:342-392 | for every other host there is a path on which Traefik and the edge lead all visitors to different places, or all visitors from a bypass range, asset or not and whichever other ranges they are in |
| `HostRouting.EdgeKeepsUpstreams` | internal/traefikcfg/render.go:516-539 | then the location's router serves alone, and its service has the very upstream list that the edge settles on for the path |
| `HostServices.MainListKept` | internal/edge/server.go:322-335 | outside locations, the edge's list is the one and only list that the host's service leads to through its children if and only if, in single and unknown mode, it is not an empty one with a group to fall back on and, in composed modes, every group in use has it |
| `HostServices.MainServiceLeads` | internal/traefikcfg/render.go:379-435 | the lists that a host's service leads to are its own list in single and unknown mode, and those of all groups in composed modes, of the first two in failover |
| `HostServices.OneGroupIsKept` | internal/edge/server.go:322-335 | a composed host with one group and no upstreams of its own keeps its list |
| `HostRouting.TrustedWins` | internal/traefikcfg/render.go:589-627 | the trusted router is the only one that can serve a visitor from a bypass range if and only if the host rule is shorter than 2000 and every location that takes the path has a prefix shorter than 1000 |
| `HostRouting.StaticWins` | internal/traefikcfg/render.go:489-510 | the static-asset router is the only one that can serve an asset outside the locations if and only if the host rule is shorter than 900 |
| `HostAdmission.Admission` | internal/traefikcfg/render.go:449-487 | every router but the HTTPS redirect asks for both conditions of every attached list; the trusted router for those of lists that are not satisfy-any |
| `HostAdmission.SatisfyAnyRefusesCredentials` | internal/traefikcfg/render.go:589-646 | a visitor from outside all bypass ranges is refused by every router of a host with a satisfy-any list, whatever the credentials |
| `HostAdmission.TrustedAdmission` | internal/traefikcfg/render.go:591-627 | whatever the ranges stand for, the trusted router lets in only visitors who meet each satisfy-any list by its own ranges or credentials if and only if each such list has all bypass ranges, or all ranges of some attached list that is still checked |
| `HostAdmission.TrustedLetsInWhom` | internal/traefikcfg/render.go:591-627 | the trusted router lets in exactly the visitors from any bypass range who meet the lists that are not satisfy-any |
| `HostRouting.KindTakesWhom` | internal/traefikcfg/render.go:472-553 | a visitor at the host's entry point satisfies the rule of the main router always, of the trusted one from a bypass range, of the static one for an asset, of a location's by its prefix |
| `HostRouters.EveryRouterHasKind` | internal/traefikcfg/render.go:472-553 | every router of a proxy host is its main, trusted, static, plain or one of its location routers, with the contents of that kind |
| `HostRouters.EveryKindIsThere` | internal/traefikcfg/render.go:472-553 | and each of them that the host asks for is there, not overwritten by another |
| `RouterRules.RulesDiffer` | internal/traefikcfg/render.go:500-529 | rules of different kinds, or of one kind with different paths, are different texts |
| `RouterRules.AddressesReadBack` | internal/traefikcfg/render.go:606-617 | the text of a list of client addresses determines the addresses, but for backticks |
| `RouterRules.ClientMeans` | internal/traefikcfg/render.go:606-617 | the rule of the trusted router holds of a visitor exactly from one of its ranges |
| `RouterRules.PathMeans` | internal/traefikcfg/render.go:529 | the rule of a location router holds of a path exactly under its prefix |
| `LocationRouters.LocRouterIsHosts` | internal/traefikcfg/render.go:520-538 | the router and the service of each rendered location stand in what is written for the host, not overwritten by anything else of it |
| `LocationRouters.LocNamesInjective` | internal/traefikcfg/render.go:520-538 | different locations of a host get different service and router names |
| `LocationRouters.ItoaRoundTrip` | internal/traefikcfg/render.go:520 | reading a printed index gives it back |
| `Balancer.Fairness` | internal/edge/server.go:367-382 | any k consecutive calls on one key with m upstreams choose each of them k/m times, rounded down or up, whatever calls on other keys come between, up to 2^63 - 1 calls |
| `Balancer.PicksInTurn` | internal/edge/server.go:371-373 | call number i on a key chooses upstream (i + 1) mod m |
| `Balancer.CounterCountsPicks` | internal/edge/server.go:371-372 | a key's counter is the number of calls on that key, modulo 2^64 |
| `Balancer.WhenTheIndexIsValid` | internal/edge/server.go:373 | exactly when the index is in range: below 2^63, or the wrapped value is a multiple of m; else the call panics |
| `Balancer.RoundRobin.Balance` | internal/edge/server.go:367-382 | an empty list leaves the counter alone; otherwise exactly this key's counter advances and selects |
| `LossyCount.LossyMeans` | internal/secmetrics/collector.go:200-220 | for every key: stored <= true <= stored + E * floor(T / (keep + 1)) after T counted events and E evictions, and E * (max + 1 - keep) <= T |
| `LossyCount.AddKeepsBound` | internal/secmetrics/collector.go:174-187 | counting one more key and capping keeps that bound, however ties are broken |
| `LossyCount.EvictedIsSmall` | internal/secmetrics/collector.go:216-219 | an evicted count is at most one (keep + 1)th of all that is stored |
| `LossyCount.EvictionKeepsTopCounts` | internal/secmetrics/collector.go:204-220 | an eviction changes no count among the first keep places of the sorted list, whatever the tie order |
| `LossyCount.PlaceOfCount` | internal/secmetrics/collector.go:216 | the count at place i of the sorted list is at least v exactly when more than i keys have at least v |
| `Ranking.CapCounts` | internal/secmetrics/collector.go:204-220 | leaves a small map alone, else exactly keep keys with their counts, none of them lower than an evicted one |
| `Ranking.TailIsEvicted` | internal/secmetrics/collector.go:213-219 | deleting the sorted list from place keep on does that |
| `Ranking.TopN` | internal/secmetrics/collector.go:305-320 | the first n entries of the ranking by count, then name |
| `Ranking.RankingUnique` | internal/secmetrics/collector.go:310-315 | that ranking is the only one, so the top list does not depend on the map order |
| `HourlySeries.AddKeepsExact` | internal/secmetrics/collector.go:180-188 | counting an event and keeping the 48 newest buckets leaves the last 48 hours true to the whole log |
| `HourlySeries.Pigeonhole` | internal/secmetrics/collector.go:224-236 | n later hours reach n hours beyond, which is why a pruned bucket is too old to be read |
| `HourlySeries.ChartIsExact` | internal/secmetrics/collector.go:275-279 | each of the 24 points, read at any later time, is the number of events of that hour in the unpruned log |
| `Collector.Collector.Add` | internal/secmetrics/collector.go:153-188 | over every run the totals, messages and recent list match the log of all events, the bounded maps stay within the error bound, and the buckets are exact as long as no event was stamped ahead of its clock; an eviction is counted only on overflow |
| `Collector.Collector.CountKeys` | internal/secmetrics/collector.go:160-187 | the four key maps follow one event; the bounded ones are capped |
| `Collector.Collector.TakeSnapshot` | internal/secmetrics/collector.go:265-286 | by the events themselves: their number, the blocked ones, the ten rules and categories that occur most, the ten addresses and hosts as near to that as evictions allow, the first message of each rule that has one, 24 points that are the events of each hour if no stamp and no clock was ahead, and the latest 200 events newest first |
| `EventLog.KeysAreFields` | internal/secmetrics/collector.go:160-187 | the keys counted by rule, category, address and host are the values of the events' own fields, as often as they occur, empty ones aside |
| `EventLog.FirstMessageMeans` | internal/secmetrics/collector.go:163-172 | the message of a rule is the first of its events' messages that is not empty |
| `EventLog.HoursAreStamps` | internal/secmetrics/collector.go:180-188 | the count of an hour is the number of events stamped from its beginning up to the next |
| `Collector.ShownCountBound` | internal/secmetrics/collector.go:270-273 | a shown count is never too high, and too low by at most E * floor(T / 40001), with E * 10001 <= T |
| `Collector.CapKeepsShownCounts` | internal/secmetrics/collector.go:61-68 | one capping to 40000 keys changes no count of the ten that are shown |
| `TopLists.TopIsNearTruth` | internal/secmetrics/collector.go:61-66 | after any run, each place of the list is at most E * floor(T / (keep + 1)) below that of the uncapped map's list and never above it, and every key whose true count beats the last one shown by more than that is shown |
| `TopLists.EveryCount` | internal/secmetrics/collector.go:174-187 | every run of counting and capping keeps the error bound |
| `TopLists.NothingLostIffNoEviction` | internal/secmetrics/collector.go:61-66 | the stored map is the uncapped one if and only if nothing was ever evicted |
| `TopLists.LostCountsShow` | internal/secmetrics/collector.go:61-66 | after an eviction, with room for a key, a run can go on so that the first count shown is below the true one |
| `Collector.CountField` | internal/secmetrics/collector.go:174-187 | one key is bumped, an empty one is not, then the map is capped; the error bound goes on to hold |
| `Collector.CountHour` | internal/secmetrics/collector.go:180-188 | the hour of the event is bumped, then the oldest buckets are dropped; buckets that were exact stay exact if the event is not stamped ahead |
| `Collector.Collector.CountInHour` | internal/secmetrics/collector.go:180-188 | the same on the collector's own buckets |
| `Collector.SeriesIsExact` | internal/secmetrics/collector.go:275-279 | points read from exact buckets are the true counts of the 24 hours |
| `Collector.CapOldestHours` | internal/secmetrics/collector.go:224-236 | keeps exactly the newest buckets, unchanged |
| `Collector.TopRules` | internal/secmetrics/collector.go:288-303 | the unique ranking of the rules, each with its own message |
| `Collector.ReadSeries` | internal/secmetrics/collector.go:275-279 | the loop reads the buckets of the last 24 hours, oldest first |
| `Newest.SelectNewest` | internal/secmetrics/collector.go:224-236 | takes the greatest keep keys and no others |
| `AutoBan.DecisionIsDeclarative` | internal/engine/bans.go:99-115 | after any run a block crosses the threshold exactly when the address has that many blocks strictly inside the window since its last ban or unban; every kept list is shorter than the threshold |
| `AutoBan.SweepsAreInvisible` | internal/engine/bans.go:249-259 | sweeps inserted anywhere, with clocks at most a nanosecond ahead of the blocks after them, change no decision |
| `AutoBan.LateLockMissesBan` | internal/engine/bans.go:96-104 | a sweep between a block's clock reading and its lock never changes the decision, in any run, if and only if its clock is at most a nanosecond ahead, unless auto-ban is off or every block or none counts |
| `AutoBan.LargeLagMissesBan` | internal/engine/bans.go:249-259 | for every threshold above one and every positive window, a run whose ban a sweep two nanoseconds ahead makes the block miss |
| `AutoBan.EveryRun` | internal/engine/bans.go:99-115 | from any later time on, the pruned windows and the full history cannot be told apart |
| `AutoBan.Bans.OnWafEvent` | internal/engine/bans.go:86-115 | the event's section with its shared arrays decides and updates as the window over values does; uncounted events change nothing |
| `AutoBan.Bans.WindowOf` | internal/engine/bans.go:99-108 | append and in-place filter give the window of the old elements, and touch no other address's slice |
| `AutoBan.Bans.RemoveBan` | internal/engine/bans.go:208-214 | an unban forgets the window of that address only |
| `AutoBan.Bans.SweepBanHits` | internal/engine/bans.go:249-259 | deletes exactly the stale windows, whatever order the map is visited in |
| `Windows.FilterInPlace` | internal/engine/bans.go:102-108 | filtering into the array that is being read gives what filtering the old elements gives |
| `Windows.Append` | internal/supervisor/supervisor.go:196 | appends one reading, in place or in a new array of any greater capacity |
| `Windows.NewerTwice` | internal/engine/bans.go:102-108 | what an earlier cut dropped, a later cut drops too |
| `LoginLimiter.RateBound` | internal/api/ratelimit.go:29-59 | with at most c attempts of a key in flight, any n > k = maxFails + c - 1 consecutive failures between two successes span more than (ceil(n / k) - 1) windows; attempts one after the other are c = 1 |
| `LoginLimiter.LetInIff` | internal/api/ratelimit.go:29-37 | in every run a key is let in if and only if it has not failed since its last success, its latest failure is more than a window ago, or fewer than maxFails failures follow one another by at most the window up to the latest |
| `LoginLimiter.LatestChainUnique` | internal/api/ratelimit.go:40-49 | how many latest failures follow one another by at most the window is determined |
| `LoginLimiter.MapStaysSmall` | internal/api/ratelimit.go:50-58 | up to 4096 keys a failure drops nothing; a larger map holds only keys whose window is not over |
| `LoginLimiter.CleanupIsInvisible` | internal/api/ratelimit.go:51-58 | dropping stale keys changes no answer of `allowed`, for any key, at any later time, with any attempts in flight |
| `LoginLimiter.EveryRun` | internal/api/ratelimit.go:29-59 | failures counted for a key and its attempts in flight are together at most maxFails + c - 1, its entry counts the latest failures, and those before are more than a window older |
| `LoginLimiter.SpreadAdds` | internal/api/ratelimit.go:40-59 | failures that lie q * k apart in the list lie more than q windows apart in time |
| `LoginLimiter.ConcurrentAttemptsOverrun` | internal/api/auth.go:107-114 | with at most c attempts in flight, some run lets n of them fail at one instant if and only if n <= maxFails + c - 1 |
| `LoginLimiter.LoginIsTwoEvents` | internal/api/auth.go:106-118 | a whole attempt with nothing in between is its two critical sections, one after the other |
| `LoginLimiter.LoginLimiter.IsAllowed` | internal/api/ratelimit.go:29-37 | answers as the table of attempts says |
| `LoginLimiter.LoginLimiter.Fail` | internal/api/ratelimit.go:40-59 | one more failure on this key, window armed anew, stale keys gone if there are more than 4096 |
| `LoginLimiter.LoginLimiter.Cleanup` | internal/api/ratelimit.go:51-58 | deletes exactly the keys whose window is over, whatever order the map is visited in |
| `LoginLimiter.LoginLimiter.Success` | internal/api/ratelimit.go:62-66 | forgets this key only |
| `LoginLimiter.LoginLimiter.HandleLogin` | internal/api/auth.go:106-118 | refused exactly when `allowed` says so, else recorded as a success or a failure |
| `CrashGuard.TripIsDeclarative` | internal/supervisor/supervisor.go:186-201 | after any run an exit trips the guard exactly when it was unexpected, the guard is not latched, and three unexpected exits since the last Restart lie within ten seconds |
| `CrashGuard.HealthTimerIsInvisible` | internal/supervisor/supervisor.go:156-167 | clearing the window after thirty healthy seconds never changes a later trip decision |
| `CrashGuard.AtMostOneCallPerRestart` | internal/supervisor/supervisor.go:197-216 | between two Restarts the callback runs at most once, whatever happens, if and only if every closing of the latch before has had its callback |
| `CrashGuard.TripBeforeRestart` | internal/supervisor/supervisor.go:387-399 | a run with two calls between two Restarts: a trip on a log line, the Restart, another trip, both callbacks |
| `CrashGuard.PendingIsUnsettled` | internal/supervisor/supervisor.go:405-418 | callbacks still to run are the closings of the latch less those that were invoked or dropped |
| `CrashGuard.CallsPerRun` | internal/supervisor/supervisor.go:387-399 | over a whole run the callback is invoked, for trips not yet settled, at most once more than there are Restarts among the events |
| `CrashGuard.StatusIsLast` | internal/supervisor/supervisor.go:123-229 | the state is that of the last start, failed start, exit or Restart; an exit leaves Stopped only if it was asked for |
| `CrashGuard.HealthyRunClears` | internal/supervisor/supervisor.go:156-167 | thirty seconds after a start, and not before, the timer forgets earlier exits |
| `CrashGuard.EveryRun` | internal/supervisor/supervisor.go:186-201 | kept window and full list of exits cannot be told apart from any later time on, and every exit before a running process is older than its timer |
| `CrashGuard.EveryRunBoundsCalls` | internal/supervisor/supervisor.go:197-216 | calls and pending calls never exceed what the latch admits |
| `CrashGuard.Supervisor.SpawnLocked` | internal/supervisor/supervisor.go:129-167 | without pipes nothing changes; a failed start is a crash; a started process runs with the stop flag cleared and a new timer |
| `CrashGuard.Supervisor.HealthTimer` | internal/supervisor/supervisor.go:161-167 | a fired timer empties the window only while a process runs |
| `CrashGuard.Supervisor.OnExit` | internal/supervisor/supervisor.go:174-203 | one exit: wanted ones only stop, others join the window, and the third within it latches and trips once |
| `CrashGuard.Supervisor.CountExit` | internal/supervisor/supervisor.go:188-196 | the in-place filter and append on the shared array give the window with the exit |
| `CrashGuard.Supervisor.BeginRestart` | internal/supervisor/supervisor.go:235-241 | the first section of Restart clears latch and window |
| `CrashGuard.Supervisor.RequestStop` | internal/supervisor/supervisor.go:256-260 | marks the next exit as wanted |
| `CrashGuard.Supervisor.TripCrashLoop` | internal/supervisor/supervisor.go:390-399 | fires exactly when the latch was open, and closes it |
| `Snapshots.ServedVersionIsLatest` | internal/engine/engine.go:207-253 | in every reachable state that serves something, the served version is the greatest stored one, its row exists and carries the served hash |
| `Snapshots.HistoryIsMonotone` | internal/engine/engine.go:602-608 | version numbers strictly increase, over process restarts too, and no row is ever rewritten |
| `Snapshots.WhenTheTableChanges` | internal/engine/engine.go:225-245 | the table changes if and only if a reload renders a new hash or a rollback names an existing version |
| `Snapshots.QuietReload` | internal/engine/engine.go:202-230 | a reload that fails changes nothing; one that renders the served hash again writes no row and no version |
| `Snapshots.ReloadKeepsNewestFifty` | internal/engine/engine.go:236-250 | a reload with a new hash leaves the newest 50 rows, its own among them, and serves it |
| `Snapshots.RollbackServesOldSnapshot` | internal/engine/engine.go:594-608 | a rollback serves the old snapshot under a new, higher version and adds exactly that row |
| `Snapshots.EveryRun` | internal/engine/engine.go:207-253 | what is served is the newest row, and versions are handed out as 1, 2, 3, ... with the last one still stored |
| `Snapshots.StepKeepsInv` | internal/engine/engine.go:207-253 | every reload, rollback and process restart keeps that |
| `Snapshots.Engine.ReloadConfig` | internal/engine/engine.go:207-253 | does what the state machine says, fails only when rendering fails |
| `Snapshots.Engine.RollbackTo` | internal/engine/engine.go:594-611 | does what the state machine says, fails exactly for a missing version |
| `Snapshots.Table.AddSnapshot` | internal/store/misc.go:190-197 | inserts, and never overwrites a version |
| `Snapshots.Table.LatestSnapshotVersion` | internal/store/misc.go:199-209 | the greatest version, 0 for an empty table |
| `Snapshots.Table.PruneSnapshots` | internal/store/misc.go:259-265 | keeps exactly the greatest versions, at most keep of them, rows unchanged |
| `EdgeServer.HitSoundness` | internal/edge/server.go:189-209 | in every run, with any requests in flight, a HIT gives a response served earlier as a MISS to a request with the same method, domain and URI; both requests are GET or HEAD without credentials or no-store; the response had status 200, no Set-Cookie, no no-store, private or no-cache, varies by the encoding at most and fits, and its age, that of its first age directive or else the default, is not over |
| `EdgeServer.StoredIff` | internal/edge/server.go:258-268 | whatever happens between the two ends of a request, its response is stored if and only if the request may use the cache and missed it, and the response fits, passes the WAF, may be kept by status and headers, and can be encoded; then under the request's key for the age its headers give |
| `EdgeServer.StoredMeans` | internal/edge/server.go:258-268 | the same of one completion |
| `EdgeServer.GateMeans` | internal/edge/server.go:140-199 | who is answered how before the cache: token, host, WAF, backend, streaming, and which requests may use the cache, by the fields of host and request |
| `EdgeServer.BeginMeans` | internal/edge/server.go:196-210 | one that may use the cache looks into it once, which counts as a use of the entry; one that is answered at once is over, any other is passed on |
| `EdgeServer.ReachesMeans` | internal/edge/server.go:148-180 | a backend is chosen exactly for the requests that token, host and WAF let through |
| `EdgeServer.FinishMeans` | internal/edge/server.go:218-270 | the reply for each upstream outcome |
| `EdgeServer.HostForMeans` | internal/edge/server.go:117-136 | a request's domain finds the last enabled proxy host that has it, in letters of either case, with that row's fields, and none if there is none |
| `EdgeServer.BackendMeans` | internal/edge/server.go:322-364 | the list, counter and strip prefix for a path, in path segments |
| `EdgeServer.EveryRun` | internal/edge/server.go:200-269 | every value ever stored comes from a completed MISS whose key, TTL and time it carries |
| `EdgeServer.StepKeepsInv` | internal/edge/server.go:140-270 | beginning or completing a request or a sweep keeps that |
| `EdgeServer.CacheFollowsCalls` | internal/edge/server.go:200-268 | lookup and store on the cache of the class are the steps of the machine's list of cache calls |
| `EdgeServer.Server.ServeHttp` | internal/edge/server.go:140-210 | one request from the token gate to the reply: the reply, the cache after it and the one counter that moves, for every combination of gate, backend, hit and upstream |
| `EdgeServer.Server.ServeUpstream` | internal/edge/server.go:218-270 | the reply for each upstream outcome, and a store only for a buffered, cacheable, unblocked response with a TTL |
| `EdgeServer.Server.TryCache` | internal/edge/server.go:201-208 | looks up cacheable requests only; an undecodable value is no hit |
| `EdgeServer.Server.Choose` | internal/edge/server.go:342-364 | the backend of the longest location that takes the path, in path segments, and its own counter |
| `EdgeServer.ResolveBackend` | internal/edge/server.go:322-364 | list, counter key and strip prefix of the longest location that takes the path, in path segments; else the host's upstreams or its first non-empty group |
| `EdgeServer.Server.SetHosts` | internal/edge/server.go:117-130 | the index holds the lower-case domains of the enabled proxy hosts, each for the last host that lists it, and no others |
| `EdgeServer.CacheOffTouchesNothing` | internal/edge/waf.go:45-48 | in a run with the cache switched off no request looks into it and no response is stored |
| `CacheRules.KeyInjective` | internal/edge/server.go:200 | with methods and domains free of spaces, two requests share a key exactly when they agree in method, domain and URI |
| `CacheRules.AgeIsTheFirst` | internal/edge/server.go:519-531 | the age is that of the first `s-maxage` or `max-age` part that reads as a number, in the order of the header |
| `CacheRules.FirstDirectiveDecides` | internal/edge/server.go:519-531 | there is an age exactly when some part gives one |
| `CacheRules.ResponseTtlMeans` | internal/edge/server.go:491-531 | a response is kept for a time if and only if its status and headers allow it and its first age directive, or else the default, says so long |
| `CacheRules.RequestCacheableMeans` | internal/edge/server.go:477-488 | a request may use the cache if and only if it is GET or HEAD without Authorization and no-store |
| `CacheRules.NoAgeMeans` | internal/edge/server.go:519-531 | a part of the header is no age exactly if it is not one of the two keys with a number behind it |
| `CacheRules.VariesMeans` | internal/edge/server.go:514-517 | a response varies by more than the encoding unless the header is blank or says accept-encoding, in letters of either case |
| `CacheRules.HostOnlyMeans` | internal/edge/waf.go:241-247 | a domain without a colon is found with and without a port |
| `CacheRules.SpacesWouldClash` | internal/edge/server.go:200 | a space in a domain would make two requests share a key |
| `RenderClosure.ClosedIffAclsResolve` | internal/traefikcfg/render.go:147-168 | for any hosts with prefix-free ids, the output is closed under reference if and only if every access list with users that an enabled proxy host attaches has a user with name and hash |
| `RenderClosure.RenderedIsClosed` | internal/traefikcfg/render.go:100-293 | if they resolve, every router's service and middlewares, every child of a composed service and every error page's service is defined in the output, for any hosts, middlewares and access lists |
| `RenderClosure.HostKeepsClosed` | internal/traefikcfg/render.go:220-235 | rendering one more host of any kind keeps the configuration closed and removes nothing |
| `RenderClosure.ProxyFits` | internal/traefikcfg/render.go:439-554 | all that a proxy host refers to is written for it or shared |
| `RenderClosure.MainServicesOk` | internal/traefikcfg/render.go:379-435 | a composed service refers only to the group services written beside it |
| `RenderClosure.AuthDefined` | internal/traefikcfg/render.go:147-162 | an auth middleware is defined exactly for the ids of lists with a usable user |
| `RenderClosure.AclNamesDefined` | internal/traefikcfg/render.go:631-646 | the middlewares named for resolved access lists are defined |
| `RenderClosure.HostChangesOnly` | internal/traefikcfg/render.go:439-554 | a host writes routers and middlewares only under its own name prefix, its main router as it should be |
| `RenderClosure.MainRouterSurvives` | internal/traefikcfg/render.go:220-235 | with prefix-free ids no later host overwrites a host's main router |
| `RenderGating.EveryRouterAsksForAuth` | internal/traefikcfg/render.go:449-553 | of the routers written for a proxy host, each carries the auth of every attached list with users, but for the HTTPS redirect and, for satisfy-any lists, the trusted router |
| `RenderGating.BypassSkipsExactly` | internal/traefikcfg/render.go:591-627 | the trusted router drops the auth of a list exactly when that list is satisfy-any with address ranges |
| `RenderGating.DroppedMeans` | internal/traefikcfg/render.go:593-602 | what the bypass drops are the two middlewares of attached satisfy-any lists and nothing else |
| `RenderGating.EveryEdgeRouterSendsToken` | internal/traefikcfg/render.go:457-464 | of the routers written for a host, when the edge has a token, each that leads to the edge sends it, but for the HTTPS redirect |
| `HostChains.RouterCarriesOwn` | internal/traefikcfg/render.go:449-553 | in the whole output every router under a proxy host's names but the HTTPS redirect carries names of access lists, then HSTS, CORS, the attached middlewares that have a row in their order, error pages, each if asked for, then the raw ones sorted, then what its kind needs |
| `HostChains.EachIfWanted` | internal/traefikcfg/render.go:801-838 | in the whole output each of those routers carries HSTS, CORS and error pages if and only if the host's fields ask for them, and a user middleware if and only if it is attached and has a row |
| `HostChains.RedirectionCarriesOwn` | internal/traefikcfg/render.go:728-739 | in the whole output the router of a redirection host carries the redirect and then the same own part without error pages |
| `HostMiddlewares.OwnInOutput` | internal/traefikcfg/render.go:449-553 | in the whole output each name of a proxy host is defined if and only if its fields ask for it, and stands for what they say: HSTS, CORS origins, cache control, scheme redirect, error statuses, strip prefixes, raw ones |
| `HostMiddlewares.SharedInOutput` | internal/traefikcfg/render.go:134-188 | in the whole output each access list has its usable users' credentials and its ranges, each user middleware its row, and the token is defined if and only if an enabled feature needs it |
| `HostMiddlewares.MiddlewaresOfHost` | internal/traefikcfg/render.go:220-235 | with prefix-free ids the output defines under a host's names exactly what that host does |
| `HostOutput.WhichRouters` | internal/traefikcfg/render.go:472-553 | in the whole output a proxy host has exactly the routers that its fields ask for, each with the rule, rank, entry point, TLS and service of its kind |
| `HostOutput.MainServiceInOutput` | internal/traefikcfg/render.go:379-435 | in the whole output a proxy host's service is the edge, or by its mode the groups with their weights, the first two groups, or the first with mirrors and their percentages, or its upstreams |
| `HostOutput.BypassIsTrusted` | internal/traefikcfg/render.go:593-602 | the ranges of the bypass are those of the attached lists that are satisfy-any with ranges and users, all of them |
| `HostOutput.RedirectionInOutput` | internal/traefikcfg/render.go:704-739 | in the whole output a redirection host redirects to its target, with the path if that is kept and slashes cut, permanently for 301, 308 and no code |
| `HostOutput.DeadInOutput` | internal/traefikcfg/render.go:742-756 | in the whole output a dead host has one router of the lowest rank for both entry points that leads nowhere |
| `HostOutput.DisabledIsAbsent` | internal/traefikcfg/render.go:220-224 | a disabled host has no router and no middleware in the whole output |
| `HostOutput.BansInOutput` | internal/traefikcfg/render.go:264-293 | in the whole output the two ban routers name every banned address and lead to the page for them |
| `HostOutput.DefaultInOutput` | internal/traefikcfg/render.go:240-262 | in the whole output the default site answers on both entry points at the lowest rank |
| `HostOutput.SharedRoutes` | internal/traefikcfg/render.go:118-133 | in the whole output the ACME challenge has its router and responder if and only if it is configured, and likewise the content service |
| `RenderOutput.AuthInWholeOutput` | internal/traefikcfg/render.go:220-235 | in the whole output, every router under a host's names carries the auth of every attached list with users, with the same two exceptions |
| `RenderOutput.TokenInWholeOutput` | internal/traefikcfg/render.go:457-464 | in the whole output, every router that leads to a host's service sends the edge's token, but for the HTTPS redirect, and that service is the edge |
| `RenderOutput.RoutersOfHost` | internal/traefikcfg/render.go:220-235 | with prefix-free ids the output holds under a host's names exactly the routers the host wrote |
| `RenderOutput.ServiceOfHost` | internal/traefikcfg/render.go:220-235 | with prefix-free ids the output holds the main service the host wrote |
| `RenderOutput.OnlyOwnRouters` | internal/traefikcfg/render.go:220-293 | a router of the output that leads to a host's service is one of that host |
| `OutputOrder.BansOutrankAll` | internal/traefikcfg/render.go:264-293 | the ban routers rank above every other HTTP router of the output if and only if no host rule and no location priority reaches two million |
| `OutputOrder.DefaultSiteIsLast` | internal/traefikcfg/render.go:240-262 | the default site ranks below every other router of the output if and only if no dead host is enabled; dead hosts share its priority |
| `OutputOrder.HostAboveOne` | internal/traefikcfg/render.go:742-756 | of all kinds of host only the dead one writes a router of the lowest rank |
| `OutputOrder.HostBelow` | internal/traefikcfg/render.go:439-556 | which rank the routers of any kind of host can reach |
| `OutputOrder.PlainEntryOnlyRedirects` | internal/traefikcfg/render.go:541-553 | no router of a TLS host lets anything but a redirect through on the plain entry point, and the redirect is there exactly when the host forces TLS |
| `OutputOrder.RedirectionTls` | internal/traefikcfg/render.go:730-739 | in the output, a redirection host serves TLS as a proxy host of the same mode does if and only if the mode is none, acme, custom or external |
| `OutputOrder.OtherRedirectionServesTls` | internal/traefikcfg/render.go:730-739 | a redirection host in any other mode, the empty one included, listens on the TLS entry point with TLS |
| `OutputOrder.BansReachEveryEntry` | internal/traefikcfg/render.go:264-293 | with bans in force, every entry point that some HTTP router of the output listens on has a ban router |
| `StreamOutput.BansSpareStreams` | internal/traefikcfg/render.go:264-293 | the TCP and UDP routers of the output are those of an output without bans |
| `StreamOutput.CatchAllAlternative` | internal/traefikcfg/render.go:776-783 | the catch-all name stands in the rule's text, as an alternative between "or" signs, exactly when "*" is among the domains without their backticks |
| `StreamOutput.CatchAllPassthrough` | internal/traefikcfg/render.go:776-794 | a stream host passes TLS through under a rule with the catch-all name if and only if it renders a TCP router, passthrough is on and "*" is among its domains |
| `StreamOutput.CatchAllInOutput` | internal/traefikcfg/render.go:220-235 | the whole output has such a router if and only if some enabled stream host is like that |
| `StreamOutput.FlowsOfOutput` | internal/traefikcfg/render.go:758-796 | with ids of their own, the stream routers of the output are exactly those its stream hosts write |
| `StreamOutput.StreamMeans` | internal/traefikcfg/render.go:758-796 | a stream host with entry point and backend has one router to its first upstream, for UDP or TCP as it says, for the domains it names or any; another has nothing |
| `RenderGating.WithoutKeepsOrder` | internal/traefikcfg/render.go:610-615 | what is kept of a chain is the chain without the dropped names, as often and in the same order |
| `RenderGating.MainServiceStays` | internal/traefikcfg/render.go:379-435 | nothing else written for a host replaces its main service |
| `Renderer.Render` | internal/traefikcfg/render.go:100-293 | fails exactly when some middleware does not build; else returns the base, the hosts in order, the default site and the bans, closed under reference if the access lists resolve, with prefix-free ids only then, and with every proxy host gated by its lists and the edge's token |
| `Renderer.Configuration.RenderBase` | internal/traefikcfg/render.go:118-188 | writes the challenge route, user middlewares, access lists, token and content service, and nothing else |
| `Renderer.Configuration.RenderAccessLists` | internal/traefikcfg/render.go:147-168 | writes the middleware pair of each list, auth only for usable users |
| `Renderer.Configuration.RenderUserMiddlewares` | internal/traefikcfg/render.go:134-143 | writes each user middleware under its own name |
| `Renderer.Configuration.UsersOf` | internal/traefikcfg/render.go:151-156 | the credentials of the users with name and hash, in order |
| `Renderer.Configuration.RenderHost` | internal/traefikcfg/render.go:220-235 | skips disabled hosts, else writes what their kind asks for |
| `Renderer.Configuration.RenderProxyHost` | internal/traefikcfg/render.go:439-554 | writes exactly the host's parts over what is there |
| `Renderer.Configuration.RenderRouters` | internal/traefikcfg/render.go:472-553 | main, trusted, static, location and redirect routers, in this order of precedence |
| `Renderer.Configuration.BuildHostService` | internal/traefikcfg/render.go:379-435 | edge, single or composed service, with the group services a composed one needs |
| `Renderer.Configuration.Compose` | internal/traefikcfg/render.go:404-434 | children in group order, weights defaulted to 1, fallback only with a second group, mirrors from the second group on, unknown modes as single |
| `Renderer.Configuration.BuildChain` | internal/traefikcfg/render.go:449-455 | access lists, generated and user middlewares, error pages, raw middlewares, in this order, and the middlewares they define |
| `Renderer.Configuration.AccessLists` | internal/traefikcfg/render.go:631-646 | names of the attached lists that exist, address list before auth |
| `Renderer.Configuration.CollectMiddlewareNames` | internal/traefikcfg/render.go:801-838 | generated middlewares before the user's, unknown ids skipped |
| `Renderer.Configuration.ErrorPages` | internal/traefikcfg/render.go:651-673 | defined and named exactly when there is a content service and a non-empty status |
| `Renderer.Configuration.PerHostRaw` | internal/traefikcfg/render.go:562-587 | the fragment's services and middlewares under the host's names, the middlewares attached in sorted order |
| `Renderer.Configuration.AddSatisfyAnyBypass` | internal/traefikcfg/render.go:591-627 | the trusted router with all ranges of the satisfy-any lists and the chain without theirs; none without such a list |
| `Renderer.Configuration.RenderLocations` | internal/traefikcfg/render.go:516-539 | router, service and strip middleware for each usable location, none while the WAF is on |
| `Renderer.ProxyPartsSum` | internal/traefikcfg/render.go:439-554 | the parts written one after the other are the parts written at once, later ones winning |

## Left out

- The parameters of generated middlewares that are constants (HSTS seconds, CORS methods and headers, cache lifetime) are left out; the pattern of static assets is a constant text.
- HostMiddlewares.SharedInOutput: for access lists with ids of their own, as the rows of a table have.
- Collector.Collector.Add: promises exact buckets only as long as no event is stamped later than its clock and the clock does not go back; future stamps can push current hours out of the 48 buckets.
- CrashGuard.HealthTimerIsInvisible: assumes that a stopped timer does not fire; a timer function that is already waiting for the mutex when it is stopped is not modelled.
- Snapshots.Engine.ReloadConfig: one instance, calls one after the other, a database that does not fail; concurrent reloads and ignored store errors of a rollback are not modelled.
- EdgeServer.HitSoundness: claims the code's own caching rules, a subset of sections 3 and 5.2.2 of RFC 9111; the precedence of `s-maxage` over `max-age` is not among them, since `maxAge` takes the first directive it finds. Hosts with a space in them are excluded, as Go's server refuses them.
- Lease.MutualExclusion: each clock is ahead by a fixed amount; clocks that drift or are set are not modelled. It claims that leases are disjoint; a leader whose work outlives its lease is not stopped by the code, and the rounding of `ttl.Seconds()` through a float is taken as exact.
- RenderClosure.ClosedIffAclsResolve: its "only if" assumes that no host id is a prefix of another, as for ids of one length; the inner references of raw fragments and user-defined middlewares are not followed.
- HostRouting.RoutingPathsAgree: of Traefik it assumes only that among the routers whose rule holds one of highest rank serves, where a router without a priority ranks by the length of its rule. It compares the routers of one host for visitors of its domains; routers of other hosts that claim the same domains, and hosts whose prefixes are not distinct, are not covered.
- HostAdmission.SatisfyAnyRefusesCredentials: for address ranges without backticks, as the API accepts them; what an address range or credentials match is left to the visitor.
- HostAdmission.TrustedAdmission: ranges are texts that may stand for anything; that one range can contain another is not used.
- HostServices.MainListKept: compares upstream lists; the shares of a weighted host and the copies that a mirroring host sends are not compared.
- TopLists.LostCountsShow: the run that goes on needs room for one more key, as there is after every eviction.
- OutputOrder.PlainEntryOnlyRedirects: for two entry points of different names.
- AutoBan.DecisionIsDeclarative: for one configuration throughout the run; changing threshold or window between events is not covered. Detections come in order, as the one goroutine that delivers them (internal/secmetrics/collector.go:91-107) hands them over.
- AutoBan.Bans.OnWafEvent: ends at the decision; the bans table, notifications and the reload after a crossing are not modelled.
- LoginLimiter.LoginLimiter.HandleLogin: the password check is a parameter; sessions, cookies and the audit log are not modelled.
- EdgeServer.Server.ServeHttp: runs one request with nothing in between; overlap of requests is covered by the state machine. Request building, path stripping, hop-by-hop headers, the streaming reverse proxy and upstream URLs are not modelled; a response is taken after its `Connection` header is removed.
- The cache codec is any pair of functions whose decoding undoes encoding; gob itself is not modelled. The Redis store is left out.
- WAF rules, transactions and metrics recording inside the WAF are left out; its verdicts are parameters.
- The renderer's certificates and TLS section, the merge of the global raw configuration, the dropping of empty sections, JSON and the hash are left out, as are load-balancer strategy, sticky cookies, health checks and server URLs, which no theorem would depend on.
- The update of the edge's index inside a reload is left out; `SetHosts` is modelled on its own.
- The cache's `container/list` is a sequence of entry objects in a field, reassigned by each operation; the links of its elements are not modelled.
- Rule counters of the collector are values in a map instead of shared `counter` objects; nothing else holds them. `Record`, `category` and the observer queue are left out.
- Sorting by `sort.Slice` is modelled by its result: the unique ranking where the comparison is total, any order of ties where it is not.
- String functions treat ASCII only: case folding and white space of other characters are not modelled. A `char` stands for a byte.
- Process handling, signals, pipes and the log ring of the supervisor are left out; a process that starts, fails to start or exits is an event.
- HTTP handlers, SQL text and file writes are left out; tables are maps.
- Cron matching, notifications, catalogs, environment parsing and the user interface would only add easy members.
