# Portail, modelled and proved in Dafny

Portail is a Gateway API proxy: a controller translates Gateways and routes into
snapshots, and data planes poll for them, build route tables and forward
traffic. This project models the parts of it where a mistake would hide longest
and proves what they promise, for every input, every interleaving or every run.

`dafny verify dfyconfig.toml` checks everything. The components:

- **Chunked bodies** (`ChunkedGrammar`, `ChunkedStream`, `ChunkedRecognition`).
  The chunked-coding observer against a grammar written apart from it: it is
  done exactly at the end of a body, broken exactly at the first byte that no
  body goes on with, and gives back exactly the payload, however reads are cut.
- **Rate limiter** (`TokenBucket`, `BucketRaces`, `BucketClock`,
  `BucketForgetting`, `BucketSweeps`, `BucketLives`, `BucketClients`,
  `BucketFairness`). One 64-bit cell per client, shared by compare-and-swap. Every
  race is a sequential run; no window grants more than burst and rate allow, and
  nobody who keeps to them is denied; when the 32-bit clock is exact, over whole
  lives; when sweeps show, and how much they can cost a limit; and what each of
  many clients gets on the packed limiter.
- **Health registry** (`HealthMachine`, `HealthFlag`, `HealthProbes`,
  `HealthRecovery`, `HealthOverlap`, `HealthStranded`, `HealthPrune`,
  `HealthStreak`). Requests, prunes and probe tasks as a machine over single
  accesses to shared memory: no ejected backend is reported healthy, three
  failures in a row and no fewer eject one, each ejection has one winner, a prune
  takes exactly what is no longer routed, and exactly when an ejected backend is
  left unprobed or probed twice.
- **DNS refresh** (`DnsRefresh`, `DnsEffect`). An applier and any number of
  refresh ticks that compare-and-swap by identity, with addresses reused: the live
  table is always of the config stored last, and a refresh takes effect exactly
  when the lookups changed and nobody came between.
- **Status lists** (`StatusEntries`, `StatusWrites`). Owners that rewrite one
  shared list from stale copies: each sees what it would in a list of its own,
  transition times included.
- **Routing tables** (`Ascii`, `RouteOrder`, `RouteTable`, `Hostnames`,
  `RouteLookup`, `Placement`, `RouteWinner`). Rule order, hostname intersection,
  where each rule of each route is placed, and the one rule a request gets on a
  port: of all offered to it, one that none beats.
- **Backend selection** (`Weights`, `Selection`). Exact shares: by weight while
  all are healthy or none is, and with some unhealthy by weight among the live,
  while rejecting stand-ins keep theirs.
- **Backend resolution** (`Resolution`, `Resolver`, `ResolvedBackends`,
  `ResolutionTrim`, `ResolutionOrder`, `SignatureChanges`). The memoising
  resolver, what each backend dials and how, trimmed override maps, indifference
  to the order of DNS answers, and a signature that shows a changed address.
- **Serving** (`Serving`). All of that joined: from a config and its lookups to
  the address a request is forwarded to.
- **Sync loop** (`Backoff`, `SyncHistory`, `SyncLoop`). What a data plane serves
  and reports after any sequence of answers, rebinds and DNS wakeups, and when it
  polls.
- **Durations** (`Numbers`, `Durations`, `DurationRoundTrip`, `DurationMeaning`).
  Text to duration and back, floating point included.

`Options` holds the one optional type they share, `Words` the powers of two.

Atomic operations are sequentially consistent steps, a map guard is a lock on
its shard, integers that wrap in the source wrap here, and lookups, hashes,
clocks, jitter and answers from outside are parameters.

Some properties one would expect hold only under a condition. Each has a lemma
that gives the condition and shows it exact:

- The packed clock is exact over whole lives not when every clock read is used
  within 2^31 ms, but if and only if the sweep gap plus the larger of
  `STALE_MS - 1` and the lateness is below 2^31 (`BucketClock.ClockExactIff`).
- Sweeps change no answer if and only if the burst in millitokens is at most the
  rate times 2^30 and no request reaches the map later than it read its clock,
  unless nothing is ever granted (`BucketSweeps.SweepsUnseenIff`). The comments on
  the sweep promise the first condition alone. One millisecond is enough: a
  request that read its clock just before a sweep and arrives just after it starts
  a full bucket in the past (`BucketClients.LateReadIsGranted`). Exactly under
  that condition is every client of the packed limiter kept to its burst and rate
  (`BucketClients.ClientsKeptIff`); else each sweep that drops it can cost the
  rate over the lateness, and no more (`BucketLives.ClientBound`).
- Every ejected backend is attended all along a run, by a running probe or a
  winner about to register one, if and only if no step registers a probe already
  at its end for an ejected backend nobody else attends
  (`HealthRecovery.AttendedIffNeverStranded`). A probe that checks before its
  spawner has registered it can bring that about
  (`HealthStranded.EarlyCheckStrands`); one that waits cannot
  (`HealthRecovery.EjectedIsAttended`).
- An address has at most one running, un-aborted probe if and only if no caller
  holds one it has spawned and not registered beside another caller's or beside
  the one in the slot (`HealthRecovery.OneProbePerAddressIff`), and it has so all
  along a run if and only if no winner spawns while a probe of its address still
  runs (`HealthOverlap.OneProbeIffNoneBeside`). The code spawns
  before it replaces the slot, so two overlap for a moment when a backend healed
  by a request is ejected again (`HealthStranded.TwoProbesOverlap`), although
  the module's own description promises exactly one.
- A status write without a resourceVersion loses an overtaking owner's entry
  (`StatusWrites.OvertakenWriteIsSafeIffGuarded`).
- Intersecting a listener hostname with a route's list is exact on all hosts if
  and only if no bare `*`, which config validation refuses, meets it: the listener
  is not `*` where it stands for the route's, and a `*` in the list is beside a
  pattern that contains the listener's (`Hostnames.IntersectionIsExactIff`).
- A request's host is looked up in lowercase if and only if it is in lowercase
  already or is at most 256 bytes long (`RouteLookup.HostTextIsLowerIff`); a longer
  one loses its domain (`RouteLookup.LongHostIsMissed`).
- The one-target pick ignores the order of addresses if and only if no two tie
  for the largest hash (`ResolutionOrder.PickIgnoresOrderIff`).
- A duration survives its text form if and only if its hours fit 2^64 ns
  (`DurationRoundTrip.RoundTripIff`); past 5124095 hours the parser's cast
  saturates, although the comment on it promises that a config survives.

## Model

| member | source | states |
|---|---|---|
| ChunkedMachine.ShiftHex | src/proxy/chunked.rs:264-269 | a size digit is refused exactly when the size would pass 64 bits |
| ChunkedMachine.ChunkedStream.constructor | src/proxy/chunked.rs:91-98 | a new observer awaits a size line |
| ChunkedMachine.ChunkedStream.Step | src/proxy/chunked.rs:171-257 | one byte moves the phase as the byte machine does; in chunk data it breaks |
| ChunkedMachine.ChunkedStream.Advance | src/proxy/chunked.rs:127-157 | the loop with its bulk data path has phase, count and payload of the byte-at-a-time machine |
| ChunkedMachine.ChunkedStream.Observe | src/proxy/chunked.rs:111-113 | counts the bytes of the read that belong to the stream |
| ChunkedMachine.ChunkedStream.DecodeInto | src/proxy/chunked.rs:121-123 | appends exactly the payload of the read to the buffer |
| ChunkedMachine.ChunkedStream.DecodeReads | src/proxy/chunked.rs:121-157 | a whole read loop ends as one read of all the bytes would |
| ChunkedMachine.DataRun | src/proxy/chunked.rs:127-157 | a bulk step over chunk data equals the byte machine run over it |
| ChunkedMachine.ObservedConcat | src/proxy/chunked.rs:127-157 | the outcome of two stretches of bytes is the first's followed by the second's from its phase |
| ChunkedMachine.ReadSizeIndependence | src/proxy/chunked.rs:127-157 | for every byte string, well formed or not, and every cutting into reads, phase, consumed count and payload are those of one read |
| ChunkedRecognition.DecodeRoundTrip | src/proxy/chunked.rs:111-257 | every body of the grammar, whatever follows it, ends Done, consumed whole, with its chunk data joined as payload |
| ChunkedRecognition.AcceptsIffStream | src/proxy/chunked.rs:171-257 | the machine accepts exactly the strings of the independent grammar |
| ChunkedRecognition.SplitBody | src/proxy/chunked.rs:171-257 | every accepted string spells out a valid body that renders to it |
| ChunkedRecognition.DoneExactlyAtBodyEnd | src/proxy/chunked.rs:127-257 | Done after n bytes if and only if the first n bytes are one complete body |
| ChunkedRecognition.CompletionAccepted | src/proxy/chunked.rs:171-257 | from every phase but Broken some bytes lead to Done |
| ChunkedRecognition.ViableIffTaken | src/proxy/chunked.rs:127-257 | bytes are taken whole without breaking if and only if some body begins with them |
| ChunkedRecognition.BrokenExactlyAtFirstHopelessByte | src/proxy/chunked.rs:127-269 | Broken at index i if and only if the bytes before i begin a body and are not one, and with byte i no body begins so |
| ChunkedRecognition.WaitingExactlyOnUnfinishedBody | src/proxy/chunked.rs:127-257 | neither Done nor Broken if and only if the bytes begin a body and none of their prefixes is one |
| ChunkedRecognition.HexDigits | src/proxy/chunked.rs:264-269 | every size has hex digits that read back as it |
| ChunkedRecognition.PayloadRoundTrip | src/proxy/chunked.rs:111-257 | any non-empty payloads with any extensions and trailers, encoded and decoded, give the payloads joined and consume exactly the encoding |
| TokenBucket.PackRoundTrip | src/rate_limit.rs:144-150 | packing and unpacking undo each other both ways |
| TokenBucket.AgeExactIff | src/rate_limit.rs:156-159 | the wrapping age equals the true age, or says backwards exactly when it is, if and only if the time read is less than 2^31 ms ahead of the stamp, or 1 to 2^31 ms behind it whole wraps aside |
| TokenBucket.TouchRefines | src/rate_limit.rs:161-187 | where ages are exact, an attempt on the packed cell is the attempt on an unbounded clock |
| TokenBucket.FirstTouchRefines | src/rate_limit.rs:85-107 | a first request's cell is the unbounded bucket's |
| TokenBucket.KeepsRefines | src/rate_limit.rs:115-126 | where ages are exact, a sweep keeps the packed cell if and only if it would keep the unbounded bucket |
| RateLimiter.Consume | src/rate_limit.rs:166-187 | after any number of lost swaps the result is one attempt on the value last read |
| RateLimiter.Limiter.constructor | src/rate_limit.rs:60-68 | a new limiter holds its limits and no client |
| RateLimiter.Limiter.Reconfigure | src/rate_limit.rs:70-74 | new limits, every client's cell untouched |
| RateLimiter.Limiter.CheckAt | src/rate_limit.rs:85-107 | one client's cell moves by one attempt, no other changes |
| RateLimiter.Limiter.SweepAt | src/rate_limit.rs:115-126 | exactly the full and the stale cells leave, the rest stay as they are |
| BucketRaces.TouchPays | src/rate_limit.rs:161-187 | a grant is paid from tokens held plus refill over the stamp's move, within the burst |
| BucketRaces.WindowBound | src/rate_limit.rs:161-187 | over any sequence, 1000 per grant plus what is left is at most what was held plus rate times stamp time, and stamps only move forward |
| BucketRaces.StepExplained | src/rate_limit.rs:166-187 | each load or swap of any thread keeps the state explained by a sequential run |
| BucketRaces.RacesAreSequential | src/rate_limit.rs:166-187 | every interleaving of any number of threads equals the sequential run in order of successful swaps, answers included |
| BucketRaces.RaceWindowBound | src/rate_limit.rs:85-107 | in every race and every window of its log, 1000 x grants is at most burst plus rate x stamp time |
| BucketClock.FreshRuns | src/rate_limit.rs:35-42 | with gap and lateness within the bound, every touch of every life sees the true age |
| BucketClock.LateInsertMisread | src/rate_limit.rs:85-107 | past the bound, a late insert leads to a misread age |
| BucketClock.LateSweepMisread | src/rate_limit.rs:115-126 | past the bound, a sweep that just keeps a cell leads to a misread age |
| BucketClock.ClockExactIff | src/rate_limit.rs:35-42 | ages are true in every life if and only if gap + max(STALE_MS - 1, late) < 2^31 |
| BucketClock.WrapIsInvisible | src/rate_limit.rs:115-187 | within the bound the wrapping limiter answers every life, sweeps included, as one with an unbounded clock |
| BucketForgetting.DeniedRequestsAreForgotten | src/rate_limit.rs:161-187 | deleting any denied requests from a schedule, in any clock order, changes no other answer |
| BucketForgetting.SweptAsIfKept | src/rate_limit.rs:115-126 | one half of SweepsUnseenIff, which shows its condition exact: with burst at most rate x 2^30 and no request on a clock older than a past sweep, a life with sweeps answers as the life without |
| BucketSweeps.StaleOverspends | src/rate_limit.rs:115-126 | past that burst, however often it was looked at, a burst is spent, swept as stale and spent again, for more than burst and rate allow |
| BucketSweeps.SomeOutruns | src/rate_limit.rs:80-126 | every limit that grants and refills is overspent by requests one millisecond behind a sweep |
| BucketSweeps.SweepsUnseenIff | src/rate_limit.rs:80-126 | over all schedules whose requests are at most `late` ms behind a past sweep, sweeps change no answer if and only if burst is at most rate x 2^30, and late is 0 or burst is 0 |
| BucketSweeps.WithinLimitsIff | src/rate_limit.rs:80-187 | under the same condition, and only then, no such schedule is granted more than burst plus rate x time |
| BucketSweeps.LifetimeBound | src/rate_limit.rs:85-187 | with burst at most rate x 2^30, over a client's whole life 1000 x grants is at most burst plus rate x time plus rate x late for each sweep that dropped it |
| BucketLives.ClientsAreApart | src/rate_limit.rs:85-187 | in every life within the clock's margins, with any number of clients, each is answered by the packed limiter as by an unbounded bucket of its own |
| BucketLives.OwnNotBefore | src/rate_limit.rs:76-98 | in every life no request is further behind a sweep already made than its clock read is old |
| BucketLives.ClientBound | src/rate_limit.rs:76-187 | in every life within the clock's margins, with burst at most rate x 2^30, each client's grants on the packed limiter cost at most burst plus rate x the time since its first request plus rate x late for each sweep that dropped it |
| BucketClients.PlaysRuns | src/rate_limit.rs:85-187 | what is allowed for one client's unbounded bucket is a life of the packed limiter |
| BucketClients.LateReadIsGranted | src/rate_limit.rs:76-126 | one token, 1000 a second, lateness 1 ms: a life whose two requests at time 0 are both granted, where without its sweep the second is denied |
| BucketClients.ClientsKeptIff | src/rate_limit.rs:76-187 | with looks allowed a second or more apart and the clock's margins kept, every client of every life of the packed limiter is kept to burst plus rate x time if and only if burst is at most rate x 2^30, and late is 0 or burst is 0 |
| BucketFairness.ConformingIsGranted | src/rate_limit.rs:85-187 | a client whose every stretch of requests, in clock order, keeps to burst and rate is granted them all, however often and whenever a sweep looks |
| BucketFairness.ConformingClientIsGranted | src/rate_limit.rs:85-187 | so is each such client of the packed limiter, in every life within the clock's margins |
| BucketFairness.GrantedIffConforms | src/rate_limit.rs:85-187 | unswept and in order, all requests are granted if and only if every stretch of them keeps to burst and rate |
| HealthFlag.StepKeepsFlag | src/proxy/health.rs:92-185 | no step of any thread leaves an entry that nobody is about to raise the flag for |
| HealthFlag.NoEntryBehindLoweredFlag | src/proxy/health.rs:92-149 | in every run, with no operation in flight a non-empty map has the flag up, and is_healthy says no exactly for the ejected |
| HealthPrune.FilterStep | src/proxy/health.rs:127-128 | filtering a shard leaves an address in the map if and only if it was there and is in another shard or routed; what stays is verbatim; a probe becomes aborted if and only if it was in the slot of an address that left |
| HealthPrune.RoutedStays | src/proxy/health.rs:123-137 | in every run an address that every prune routes keeps its entry |
| HealthPrune.DepartedIsGone | src/proxy/health.rs:123-137 | in every run an address a prune does not route is out of the map once its shard is filtered, until it fails again |
| HealthPrune.PruneAlone | src/proxy/health.rs:123-137 | a prune that runs alone to its end leaves the routed entries verbatim and no other, the flag up exactly if there is one, and exactly the probes of those that left aborted |
| HealthPrune.PruneReports | src/proxy/health.rs:123-149 | from every reachable state at rest or with the flag up, after a prune exactly the routed backends that were ejected are reported unhealthy |
| HealthPrune.PruneEnds | src/proxy/health.rs:123-137 | with no guard held a prune goes to its end |
| HealthStreak.StreakIs | src/proxy/health.rs:153-231 | a streak is the number of failures behind the last success, or prune that does not route the backend |
| HealthStreak.EjectedIffThreeInARow | src/proxy/health.rs:153-231 | after any whole operations one after another, of any callers on any addresses, a backend is reported unhealthy if and only if its streak is at least three |
| HealthProbes.StepKeepsGuards | src/proxy/health.rs:123-231 | the guards held stay those of a lock: a writer alone, no reader beside it |
| HealthProbes.StepKeepsShape | src/proxy/health.rs:153-310 | every step keeps each unguarded entry healthy below the threshold or probing at it |
| HealthRecovery.StepOwns | src/proxy/health.rs:81-88 | every step keeps each running probe either in its entry's slot or with the winner about to register it |
| HealthRecovery.RunSafe | src/proxy/health.rs:153-310 | whole runs keep guards, shapes and owners |
| HealthRecovery.RegistrationStrandsIff | src/proxy/health.rs:235-250 | after a registration the backend is unattended if and only if it is ejected, the probe registered is at its end and no other caller attends |
| HealthRecovery.StepAttendsIff | src/proxy/health.rs:153-310 | one step of any thread or probe leaves every ejected entry attended if and only if it is no such registration |
| HealthRecovery.AttendedIffNeverStranded | src/proxy/health.rs:153-310 | a run has every ejected entry attended in all its states if and only if it has no such registration |
| HealthRecovery.TimelyNeverStrands | src/proxy/health.rs:252-260 | a run whose probes first check after their registration has none |
| HealthRecovery.EntriesAreHealthyOrProbed | src/proxy/health.rs:153-231 | in every run an entry outside a guarded body is HEALTHY below 3 failures or PROBING with at least 3 |
| HealthRecovery.OneProbePerAddress | src/proxy/health.rs:81-88 | in every run an address has at most one running, un-aborted probe past its registration |
| HealthRecovery.OneProbePerAddressIff | src/proxy/health.rs:235-250 | in every run an address has at most one running, un-aborted probe if and only if no caller carries an unregistered one beside another caller's or beside the one in the slot |
| HealthOverlap.SpawnOverlapsIff | src/proxy/health.rs:235-237 | after a spawn an address still has one running probe at most if and only if none of it ran before |
| HealthOverlap.StepOneRunsIff | src/proxy/health.rs:153-310 | one step of any thread or probe leaves every address so if and only if it is no spawn beside a running probe |
| HealthOverlap.OneProbeIffNoneBeside | src/proxy/health.rs:153-310 | a run has at most one running, un-aborted probe per address in all its states if and only if it has no such spawn |
| HealthRecovery.EjectedIsAttended | src/proxy/health.rs:235-310 | in every run whose probes first check after their registration, a PROBING entry has, all along and at the end, a live probe or a winner about to register one |
| HealthRecovery.EjectionIsWon | src/proxy/health.rs:176-231 | a step ejects an address if and only if it tells one caller to probe it |
| HealthRecovery.OneWinnerPerEjection | src/proxy/health.rs:176-231 | over every run as many callers win as ejections happen |
| HealthStranded.Ejected | src/proxy/health.rs:176-231 | three failures in a row eject a backend and the third caller wins |
| HealthStranded.Recovered | src/proxy/health.rs:252-310 | a probe whose connect succeeds heals the entry and ends |
| HealthStranded.Healed | src/proxy/health.rs:153-169 | a request's success heals an ejected backend and leaves its probe in the slot |
| HealthStranded.TwoProbesOverlap | src/proxy/health.rs:235-250 | a run, with no check before registration, that ends with two un-aborted probes of one address running |
| HealthStranded.EarlyCheckStrands | src/proxy/health.rs:48-48 | without the initial delay a run ends with a backend ejected and no probe left |
| DnsRefresh.StepKeepsInv | src/dataplane/dns_refresh.rs:89-182 | every step of the applier or a tick keeps origins, addresses, privacy and publication in order |
| DnsRefresh.SwappedIsLive | src/dataplane/dns_refresh.rs:158-182 | a tick whose pair is still published has its table live, unless an apply is under way |
| DnsRefresh.LiveTableIsLatest | src/dataplane/dns_refresh.rs:89-182 | at the end of every run the live table was built from the config the applier stored last, or is the empty one of a clear |
| DnsRefresh.QuietPairIsLive | src/dataplane/apply.rs:217-233 | with nobody between store and publish, a pair is published exactly when a config is served, and it holds the live table and that config |
| DnsRefresh.SwapsIffUntouched | src/dataplane/dns_refresh.rs:158-182 | while a tick holds its pair, comparing identities tells exactly whether any writer replaced the table, though addresses are reused |
| DnsEffect.RebuildGoesOnIff | src/dataplane/dns_refresh.rs:158-167 | a rebuild goes on to swap exactly when its signature is not that of the pair's table, with the table of that config and signature |
| DnsEffect.RefreshTakesEffect | src/dataplane/dns_refresh.rs:89-182 | a tick that resolves the live pair gets to swap if and only if the signature changed, and then its table is live right after if and only if nobody replaced the live table in between, whatever the others do |
| DnsEffect.StillPublishedIff | src/dataplane/dns_refresh.rs:89-182 | while a tick holds its pair, that pair is published at the end of a run if and only if it was at the start and nobody published since |
| DnsEffect.RefreshIsPublishedIff | src/dataplane/dns_refresh.rs:158-182 | a tick that has swapped publishes its table with its config if and only if its pair was published then and nobody published since; outside an apply that table is the live one |
| StatusEntries.StampConditions | src/kubernetes/status.rs:111-145 | stamps each condition in place with the time of the first observed one that says the same, else now |
| StatusEntries.MergeKeepsOthers | src/kubernetes/status.rs:599-610 | after a merge the owner has exactly its new entries and every other entry stays verbatim and in order |
| StatusEntries.KeptMine | src/kubernetes/status.rs:703-733 | a removal takes a departed Gateway's entries all and no other owner's |
| StatusEntries.InMine | src/kubernetes/status.rs:588-596 | an owner's entries are exactly those that name its controller and, in full, its Gateway |
| StatusEntries.InKept | src/kubernetes/controller/gatewayclass.rs:230-260 | a removal takes exactly the controller's entries whose Gateway departed, one without a namespace being of the object's own |
| StatusEntries.StampRoundTrip | src/kubernetes/status.rs:148-162 | stripping the times a write stamped gives back what it was asked to write |
| StatusEntries.WriteStampsKey | src/kubernetes/status.rs:613-634 | a written condition keeps the time the list showed for its ref, type, status and reason, or gets the write's |
| StatusWrites.StatusObject.constructor | src/kubernetes/status.rs:636-640 | the object starts with a list and a version |
| StatusWrites.StatusObject.PatchEntries | src/kubernetes/status.rs:737-789 | the list is replaced whole if and only if the object is at the version read or none was sent |
| StatusWrites.StatusObject.WriteOwnedEntries | src/kubernetes/status.rs:643-698 | Current exactly when the copy's own entries are, times aside, the desired ones; unless it fails the owner's entries are then exactly the desired ones; Patched stamps them and leaves the copy's others verbatim |
| StatusWrites.StatusObject.RemoveDeparted | src/kubernetes/controller/gatewayclass.rs:230-260 | Patched leaves departed Gateways nothing and every other owner its entries of the copy |
| StatusWrites.LandedRequest | src/kubernetes/status.rs:665-733 | a landed request changes its own owner's entries as if in a private list, all others verbatim |
| StatusWrites.SharedIsPrivate | src/kubernetes/status.rs:599-789 | over every run from arbitrarily stale copies, each owner's entries are those of its last landed write, as in a list of its own |
| StatusWrites.FreshWriteTakesEffect | src/kubernetes/status.rs:643-698 | a guarded write made from the current version leaves its owner exactly the desired entries, times aside, whether it landed or found them |
| StatusWrites.DesiredStays | src/kubernetes/status.rs:643-789 | and so they stay over any run until another landed request touches them |
| StatusWrites.EchoIsCurrent | src/kubernetes/status.rs:643-654 | until its entries change, every copy read after a landed write holds the desired entries, times aside, and asks for no write |
| StatusWrites.TimesAreFirstSaid | src/kubernetes/status.rs:111-145 | over every run a condition shows the time its owner's clock for it does |
| StatusWrites.TimeIsOfTheWriteIff | src/kubernetes/status.rs:111-145 | over every run a condition shows a time if and only if a landed write of that time said it when the list did not, or the list showed it at the start, and every landed write and removal since kept it |
| StatusWrites.LandedKeepsOthersIff | src/kubernetes/status.rs:737-789 | a landed write keeps the others' entries if and only if its copy had them right |
| StatusWrites.OvertakenWriteIsSafeIffGuarded | src/kubernetes/status.rs:756-758 | whatever the copy and the overtaking entry, an overtaken write leaves it in place if and only if it carries its version |
| RouteOrder.PrecedenceIsAnOrder | src/routing/build.rs:276-294 | match precedence is a total preorder |
| RouteOrder.FirstDifferenceDecides | src/routing/build.rs:272-294 | the first of path kind, path length, method, header count and query param count in which two rules differ decides; rules alike in all five tie |
| RouteOrder.SortRules | src/routing/build.rs:210-212 | the result is sorted and keeps ties in their order |
| RouteOrder.StableSortUnique | src/routing/build.rs:156-168 | a list has one stable sort |
| RouteOrder.FirstMatchWins | src/routing/build.rs:276-294 | for any predicate, the first rule satisfying it in the sorted entry is the least by precedence, then by push order, of all pushed that satisfy it |
| RouteOrder.NoMatchAnywhere | src/routing/build.rs:156-168 | nothing in the entry matches exactly when nothing pushed does |
| RouteTables.HostKeyIsTheHost | src/routing/build.rs:42-59 | route hosts share an entry exactly when they differ in case only |
| RouteTables.SlotIsThePlace | src/routing/build.rs:170-192 | rules share an entry exactly when port, listener hostname and route hostname agree, case aside |
| RouteTables.RouteTable.constructor | src/routing/build.rs:72-81 | a new table has no entry |
| RouteTables.Prepare | src/routing/build.rs:22-35 | a pushed rule knows whether it or a backend has filters, the running sums of its weights and their total |
| RouteTables.RouteTable.PushRoute | src/routing/build.rs:21-61 | the prepared rule joins its entry behind its ties; no other entry changes |
| RouteTables.RouteTable.AddRoute | src/routing/build.rs:129-140 | the rule joins its entry, and a table in order stays in order |
| RouteTables.RouteTable.SortRoutes | src/routing/build.rs:158-168 | every entry is in order and holds the same rules, ties in push order |
| RouteTables.OneTable | src/routing/build.rs:142-168 | tables in order built from the same pushes, however, have the same entries |
| RouteTables.BuildsAgree | src/routing/build.rs:142-168 | pushing all and sorting once gives the entries of sorting after each insert |
| RouteTables.EntryServesWinner | src/routing/build.rs:129-168 | the first match in an entry wins among everything ever pushed to it |
| Hostnames.PairIsExact | src/config/core.rs:655-686 | the narrower of two patterns takes exactly the hosts both take, in any case |
| Hostnames.BothWildcards | src/routing/mod.rs:762-771 | the same for two wildcards, nested either way or apart |
| Hostnames.IntersectionIsExact | src/config/core.rs:642-686 | where no bare * meets the listener's, a host matches an effective hostname if and only if it matches the listener's and, where the route has any, one of the route's |
| Hostnames.IntersectionIsExactIff | src/config/core.rs:355-370 | the effective hostnames are exact on all hosts if and only if no bare * meets the listener's |
| Hostnames.PairIsExactIff | src/config/core.rs:642-686 | against a listener hostname the intersection is exact on all hosts if and only if the route's is not the bare * |
| Hostnames.NoHostnamesIsExactIff | src/config/core.rs:355-358 | a route without hostnames takes exactly its listener's hosts if and only if that listener is not named * |
| Hostnames.ParentDomains | src/routing/mod.rs:773-793 | the parents of a host are exactly the wildcards that cover it, the longest first |
| RouteLookup.FindIn | src/routing/mod.rs:297-311 | the first rule of an entry that matches, found if and only if one does |
| RouteLookup.PrefixIsBySegments | src/routing/mod.rs:319-328 | a path that begins with a prefix matches it exactly when it ends there, goes on with a slash, or the prefix ends in one |
| RouteLookup.LookupHttpRoute | src/routing/mod.rs:63-112 | within a listener: the first match of the most specific hostname entry that takes the host and has one; none exactly when no entry that takes it has one |
| RouteLookup.RequestGetsTheWinner | src/routing/mod.rs:63-112 | from pushes to requests: the rule found wins, by precedence and then push order, among all rules pushed to that entry |
| RouteLookup.HighestRank | src/routing/mod.rs:215-226 | the rank of the listeners that take the host most specifically, none exactly when none takes it |
| RouteLookup.OutranksOrders | src/routing/mod.rs:467-472 | outranking is a strict order |
| RouteLookup.HostTextIsLowerIff | src/routing/mod.rs:190-207 | the host looked up by is the request's in lowercase if and only if that is in lowercase or at most 256 bytes long |
| RouteLookup.LongHostIsMissed | src/routing/mod.rs:190-207 | for every domain, a mixed-case host below it that no wildcard of it takes any more |
| RouteLookup.FindHttpRoute | src/routing/mod.rs:181-254 | by that host: over a port's own listeners and the shared ones, only those most specific for the host are asked, and no match of theirs outranks the one returned; none exactly when none of them has one |
| Placement.BuildRoutes | src/config/core.rs:260-404 | the table of all routes is sorted and holds exactly their pushes |
| Placement.InPushes | src/config/core.rs:312-403 | a rule is pushed if and only if it is a rule of some route, under one of its effective hostnames at one of its listeners, with that route's index |
| Placement.PushesInOrder | src/config/core.rs:312-403 | pushes come in route order, so of tied rules the earlier route's is found |
| Placement.EntryHolds | src/routing/build.rs:21-61 | an entry holds exactly the rules pushed to it, prepared |
| Placement.HeldIsPrepared | src/routing/build.rs:22-35 | every rule of a table has the sums of its own backends' weights and its filter flag |
| Placement.RuleIsServedIff | src/config/core.rs:312-403 | a listener's entries offer a rule to a host if and only if it is a rule of a route attached to that listener under a hostname that takes the host |
| Placement.PlaceL4 | src/config/core.rs:489-534 | a port carries the backends of the first route attached to it, and nothing exactly when none is |
| RouteWinner.InScopes | src/routing/build.rs:170-192 | a port has a scope if and only if a rule was pushed to it under that listener hostname, case aside |
| RouteWinner.ScopesApart | src/routing/build.rs:170-192 | and one scope per hostname |
| RouteWinner.FoundIsUnbeaten | src/routing/mod.rs:181-254 | the rule a lookup finds is one of a route attached to one of the most specific listeners, under a hostname that takes the host; no other so offered that matches beats it by hostname, then precedence, then route order |
| RouteWinner.NoneFoundNoneStands | src/routing/mod.rs:181-254 | where none is found no such rule matches |
| Weights.Accumulate | src/routing/build.rs:25-35 | the running sums of the weights and their total |
| Weights.SlotOwner | src/routing/mod.rs:987-993 | the one backend whose range of slots holds the slot, none exactly past the total |
| Weights.PartitionPoint | src/routing/mod.rs:944-947 | the binary search over the sums finds the owner the walk finds |
| Weights.ShareIsWeight | src/routing/mod.rs:987-993 | of all slots a backend owns exactly its weight |
| Weights.RotationShares | src/routing/mod.rs:940-947 | any run of total-weight picks from any counter serves each backend exactly its weight |
| Selection.ForwardPickCounts | src/routing/mod.rs:1025-1029 | the number worked out for a forwarding pick is how many forwarding picks came before it |
| Selection.LiveShares | src/routing/mod.rs:1037-1054 | any run of live-weight numbers serves each live backend exactly its weight and the others nothing |
| Selection.DegradedShares | src/routing/mod.rs:1001-1031 | over any run of picks with as many forwarding ones as the live weigh, each live backend is picked exactly by its weight, an unhealthy one never |
| Selection.DegradedIsHealthy | src/routing/mod.rs:1001-1031 | a degraded pick is a stand-in or healthy, unless nothing that forwards is healthy |
| Selection.RejectKeepsShare | src/routing/mod.rs:995-1031 | a rejecting stand-in gets exactly its weight of every turn, whoever is unhealthy |
| Selection.NthHealthy | src/routing/mod.rs:1037-1054 | the owner of the slot among the live, none exactly past their weight |
| Selection.SelectDegraded | src/routing/mod.rs:1001-1031 | the degraded pick, its sums by one loop |
| Selection.SelectBackend | src/routing/mod.rs:908-950 | a backend with weight, none exactly when none has any; by configured weight when all are healthy or none is, else degraded |
| Resolvers.Resolver.constructor | src/config/core.rs:252-258 | a build starts with nothing looked up |
| Resolvers.Resolver.FindAddrs | src/config/core.rs:104-134 | the answer of a direct lookup, an error only under the strict policy, and no lookup twice |
| Resolvers.Resolver.FindEndpoints | src/config/core.rs:141-179 | the endpoints a direct resolution gives: one address per overriding target, else all on the port the pods take |
| Resolvers.Resolver.FindRef | src/config/core.rs:574-602 | a reference's backends as resolved directly; an invalid one is never looked up |
| Resolvers.Resolver.FindBackends | src/config/core.rs:183-195 | all references' backends as resolved directly, up to the first failure |
| Resolvers.Resolver.FindFilters | src/config/core.rs:609-637 | filters as resolved directly, mirrors to the smallest address |
| Resolvers.Resolver.FindEntry | src/config/core.rs:293-303 | a rule's backends and filters as resolved directly; a redirecting rule looks up no backend |
| Resolvers.BuildTable | src/config/core.rs:245-475 | a build gives the table or failure of one lookup per reference, looks nothing up twice, and when it succeeds has looked up exactly what it needs |
| ResolvedBackends.RefBackendsAre | src/config/core.rs:574-602 | a valid reference gives one backend per endpoint in order, dialling its address by its name with the reference's weight; over HTTP with the reference's own filters, and TLS if and only if it says https, or says nothing and its Service's port does; otherwise with neither. An invalid one gives a rejecting stand-in |
| ResolvedBackends.InBackends | src/config/core.rs:183-195 | the backends of a rule or route are exactly those |
| ResolvedBackends.InFilters | src/config/core.rs:609-637 | the filters of a rule are exactly its own, a mirror to the least address its valid backend resolves to |
| ResolvedBackends.EntryIsOfTheRule | src/config/core.rs:293-303 | a resolved rule has no backend if it redirects, else exactly those its references give, and exactly the filters its own become |
| Resolution.BuildFailsIff | src/config/core.rs:104-134 | a build fails if and only if it is strict and a route is rejected or a needed name does not resolve |
| Resolution.InvalidKeepTheirShare | src/config/core.rs:183-195 | the rejecting stand-ins of a rule are exactly its invalid references, with their weights, in order |
| ResolutionTrim.OverrideMaps.RetainReferenced | src/kubernetes/services.rs:311-321 | each of the three maps keeps what it says of every referenced key and says nothing of any other, so the object holds the trimmed config's overrides |
| ResolutionTrim.TrimKeepsTheBuild | src/kubernetes/services.rs:283-321 | for every config, policy and lookup, the trimmed config builds what the full one does: HTTP, mirror, TCP, UDP and TLS |
| ResolutionTrim.UnreferencedUnseen | src/kubernetes/services.rs:308-321 | overrides that agree on the referenced keys leave equal trimmed configs |
| ResolutionOrder.EndpointsAre | src/config/core.rs:141-179 | an overridden Service dials, in order, one address for each target that answers, the top of its answer; any other every address of its name and only those, on its headless target port if it has one |
| ResolutionOrder.PickIgnoresOrderIff | src/config/core.rs:206-213 | the one-target pick is the same for all orders of the addresses if and only if no two tie for the largest hash |
| ResolutionOrder.SmallestIgnoresOrder | src/config/core.rs:609-637 | the mirror pick does not depend on the order of the addresses |
| ResolutionOrder.BuildIgnoresOrder | src/config/core.rs:141-195 | reordered answers fail a build alike or give the same table but for the order of each rule's backends |
| ResolutionOrder.SignatureIgnoresOrder | src/routing/build.rs:93-125 | reordered answers, and maps walked in any order, leave the DNS signature the same |
| SignatureChanges.TableAddressesAre | src/routing/build.rs:93-125 | the signature covers exactly the addresses of the backends and mirrors the table holds |
| SignatureChanges.ChangedAddressShowsIff | src/routing/build.rs:93-125 | replacing one address of an entry held once, a backend's or a mirror's, leaves the signature as it was if and only if the two hash alike |
| Serving.RoutesFailAlike | src/config/core.rs:266-311 | the HTTP build fails exactly when the resolution of its references does, with the same error |
| Serving.CompileRoutes | src/config/core.rs:266-311 | routes become table rules, one per match with the rule's resolved backends, through the memoising resolver; one that does not compile fails a strict build and has no rules in a lenient one |
| Serving.MakeScopes | src/routing/build.rs:170-192 | the loop over pushes makes exactly the scopes above |
| Serving.BuildHttp | src/config/core.rs:245-404 | a config gives the sorted table of its compiled routes and its scopes, or the error of its resolution |
| Serving.InChoices | src/config/core.rs:574-602 | a rule's backends are exactly what its references give: a rejecting stand-in for an invalid one, else one for each address it resolves to, with its weight |
| Serving.Serve | src/routing/mod.rs:181-254 | a request is answered by the pick among the backends of an offer no other beats; not found exactly when none stands |
| Serving.CompiledMatches | src/config/compile.rs:98-122 | a table rule matches exactly the requests that the config's match takes: method, path by kind, headers and query parameters |
| Serving.CompiledFilters | src/routing/build.rs:22-25 | a rule held is marked as filtering exactly when it or a backend it resolved to has a filter |
| Serving.PickIsChoice | src/routing/mod.rs:908-950 | a pick has weight, and is unhealthy only as a rejecting stand-in, as the only backend, or where none that forwards is healthy |
| Serving.TurnShares | src/routing/mod.rs:940-947 | while all are healthy, over any turn of the counter each address is picked exactly by its weight |
| Serving.PickedIsResolved | src/config/core.rs:245-404 | the backend picked was given by a reference of that rule of the config |
| Serving.Answer | src/config/core.rs:245-404 | from config, lookups, health, counter and request to the backend: the build's error, or no rule offered matches, or the rule has no weight, or the pick for this health and counter, given by a reference of the rule of the config whose match takes the request and that no other rule offered beats; unhealthy only where PickIsChoice allows |
| Backoffs.Backoff.constructor | src/dataplane/remote.rs:572-578 | a new backoff has waited for nothing |
| Backoffs.Backoff.NextCeiling | src/dataplane/remote.rs:597-601 | the ceiling after k waits is min(2^k s, hold) |
| Backoffs.CeilingDoubles | src/dataplane/remote.rs:572-601 | the ceiling is a second at first and doubles with every wait up to 30 seconds |
| Backoffs.Jittered | src/dataplane/remote.rs:582-584 | a wait is at least zero and below its ceiling |
| Backoffs.Backoff.Wait | src/dataplane/remote.rs:582-584 | the random share of the ceiling, which counts as one more wait |
| Backoffs.Backoff.WaitAtLeast | src/dataplane/remote.rs:591-594 | never shorter than asked up to the hold, never longer than the hold, and below the ceiling unless asked for more |
| Backoffs.Backoff.Reset | src/dataplane/remote.rs:603-605 | the row of waits starts over |
| SyncHistory.Decode | src/dataplane/mod.rs:496-527 | usable exactly with a version, this protocol and a body that decodes; what is unusable still names its envelope's version, if it has one |
| SyncHistory.ServedHasVersion | src/dataplane/mod.rs:245-303 | after any history what is served is this Gateway's and has a version, and so has what stands refused |
| SyncHistory.ServedIff | src/dataplane/mod.rs:245-350 | after any history a snapshot is served if and only if some answer brought it, this Gateway's own and usable, and no later one brought another or said Gone |
| SyncHistory.RefusedIff | src/dataplane/mod.rs:270-350 | a version stands refused if and only if some answer named it and could not be used, and no later one was refused, usable or Gone |
| SyncHistory.RefusalIsLater | src/dataplane/mod.rs:270-334 | what stands refused beside a served snapshot was heard after it |
| SyncHistory.DoubtIff | src/dataplane/mod.rs:245-268 | a problem is held if and only if some answer failed verification with it, and no success, Gone or other such failure came later |
| SyncHistory.FailuresCount | src/dataplane/mod.rs:373-403 | across any stretch without a success the row grows by one per failed or Gone answer, standbys not counted |
| SyncHistory.RebindsCount | src/dataplane/mod.rs:407-438 | while one snapshot is served and stays unbound, each wake adds one to the row of rebinds |
| SyncLoops.SyncLoop.constructor | src/dataplane/mod.rs:151-175 | a new loop has heard, served and reported nothing |
| SyncLoops.SyncLoop.Sent | src/dataplane/mod.rs:177-194 | a report sent while an answer is in doubt says why, and is otherwise the report held |
| SyncLoops.SyncLoop.HaveIsEmptyIff | src/dataplane/mod.rs:177-194 | a poll names no version exactly when nothing is served and nothing stands refused |
| SyncLoops.SyncLoop.Handle | src/dataplane/mod.rs:245-293 | after every history the snapshot served, the refusal, the doubt, the failure count and the ceiling are what that history says, have and report name the refused version with its error and no listeners, else the served one, else nothing; a report of a served snapshot and its rebind come from the outcome; the wait is bounded by the kind of answer, and not below what the controller asked for, up to the hold |
| SyncLoops.SyncLoop.HandleSnapshot | src/dataplane/mod.rs:270-291 | own usable snapshots are served, others that name a version stand refused with what is served kept, the rest count as failures |
| SyncLoops.SyncLoop.Serve | src/dataplane/mod.rs:295-303 | the snapshot is served, nothing stands refused, have and report name it, the report carries the outcome's error, listeners, pod and epoch, and a rebind is due exactly if something is unbound |
| SyncLoops.SyncLoop.Refuse | src/dataplane/mod.rs:307-334 | the refused version is named with its error and no listeners, the pod's data kept |
| SyncLoops.SyncLoop.Vanish | src/dataplane/mod.rs:338-350 | all is as before the first sync |
| SyncLoops.SyncLoop.Reapply | src/dataplane/mod.rs:407-418 | what is served and refused stays, the report carries the new outcome, or the refusal with no listeners, a rebind is due exactly if something is unbound, and moved says whether the report changed |
| SyncLoops.SyncLoop.ScheduleRebind | src/dataplane/mod.rs:423-438 | a rebind is due after min(2^k s, hold) for the k-th unbound apply in a row, none once bound |
| SyncLoops.SyncLoop.NoteDns | src/dataplane/mod.rs:442-451 | only the report's epoch moves, and moved says whether it did |
| DurationMeaning.DotMoves | src/config/parsing.rs:93-95 | moving the dot of a decimal one digit on multiplies it by ten; with nothing behind the dot it is the whole number |
| DurationMeaning.DecimalIsRead | src/config/parsing.rs:93-98 | a sign in front negates |
| DurationMeaning.UnitsMean | src/config/parsing.rs:76-92 | n with each suffix is n times that unit's nanoseconds, wherever the product is exact |
| DurationMeaning.BlanksAround | src/config/parsing.rs:60-60 | blanks around a text change nothing |
| Numbers.ParseDigits | src/config/parsing.rs:93-95 | a printed number reads back as itself |
| Durations.FindUnit | src/config/parsing.rs:76-92 | the first unit whose suffix opens the text |
| Durations.ParseSegments | src/config/parsing.rs:70-101 | the loop gives the sum of the segments or the first error |
| Durations.ParseDuration | src/config/parsing.rs:59-103 | bare seconds, an error on nothing, else the sum of the segments, the first error, or the overflow of a sum past the longest duration |
| Durations.FormatDuration | src/config/parsing.rs:107-128 | the non-zero parts in order, 0s for none |
| Durations.UnitIsRead | src/config/parsing.rs:76-92 | no suffix is misread for another before a number or the end, m for ms neither |
| DurationRoundTrip.FormattedIsRead | src/config/parsing.rs:59-128 | a formatted duration is read segment by segment, for any rounding |
| DurationRoundTrip.HoursThatFit | src/config/parsing.rs:99-99 | the float product of hours that fit 2^64 ns is exact |
| DurationRoundTrip.RoundTripIff | src/config/parsing.rs:59-128 | parsing a formatted duration gives it back if and only if its hour part is below 2^64 ns, that is up to 5124095 hours |
| DurationRoundTrip.ParserTakesSegments | src/config/parsing.rs:59-103 | past bare seconds, a text is taken with a total if and only if it is a sequence of segments, each a decimal not below zero and a unit, that sums to it and the sum is within the longest duration; past that it overflows |
| DurationRoundTrip.BareNumberIsRead | src/config/parsing.rs:62-64 | a bare number is seconds if it fits 64 bits and an error if not |

## Left out

- Weak memory ordering: atomics are sequentially consistent steps.
- RouteLookup.FindHttpRoute: takes what makes a rule match as a predicate; `Matches` spells one out with the request's headers, query parameters and compiled expressions as functions. A host is a sequence of bytes, and which bytes are text is a function.
- Selection.SelectBackend: the health of a backend stays the same during one pick, and the shared counter and weights do not pass 64 bits. L4 selection takes the same walk and is not a member of its own.
- Rate-limit client keys, the choice of listeners by parent refs, and which ports share the scopes of routes without any: simple scans.
- HTTP header parsing, TLS, listeners, sockets, the admin endpoint, metrics and logging: input and output.
- Answer signatures: an answer arrives already judged verified or not.
- Regex compilation, JSON and YAML, FNV and SipHash: library behaviour; hashes are arbitrary functions.
- Kubernetes converters, reference grants, naming and config validation: mostly single checks.
- The controller's own sync server and snapshot translation.
- The rate limiter's registry, and limits reconfigured while requests race: fixed limits per run.
- The growth of a probe's interval after its first wait, and its connect timeout: a probe may wake at any time after its first.
- A Gateway's own status and a GatewayClass's, written by server-side apply with the same stamping.
- TLS passthrough scopes, which take the same hostnames.
- The fingerprint that skips an unchanged apply: it only lets the applier take no step.
- StatusEntries.StampConditions: an entry's JSON is its controller, ref and conditions; absent conditions count as none.
- Resolvers.BuildTable: lookups answer the same throughout one build.
- BucketLives.ClientBound: says nothing of a burst above rate x 2^30, which a stale sweep hands back whole.
- Serving.Answer: a rule's matches come compiled and its listeners selected; timeouts and filters ride along unread, and TCP, UDP and TLS routes are resolved and placed but not served.
- StatusWrites.TimesAreFirstSaid: speaks of the first entry of a ref, the one stamping reads; an owner writes each ref once.
- SyncLoops.SyncLoop.Handle: does not model metrics, the last error kept for a log line, and the polling loop's select.
- Backoffs.Backoff.Wait: works on reals, so a jittered wait does not round up to its ceiling.
- Durations.ParseDuration: Unicode lowercase is a function from text to text, known on ASCII only; a sum past the longest duration, where the source panics, is a result of its own.
