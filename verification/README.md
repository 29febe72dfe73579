# A verified model of the LLM rate-limit proxy

The proxy spreads one stream of LLM requests over many provider keys. Each key has a lane: an
exact sliding-window limiter and a cooldown. A FIFO-gated dispatcher picks a lane or sleeps until
one frees up; a governor caps the concurrency of models that rebuff several keys at once; a
buffered request walks a plan of attempts; settings are edited live and swap in a pool that
inherits the spent budget of every key it keeps.

`dafny verify dfyconfig.toml` checks everything.

| files | what they model |
|---|---|
| `Windows`, `Pools`, `RetryAfter` | the limiter, the lane, the pool and its rebuild, as the mutable objects they are; how long a rebuff benches a lane |
| `Pacing`, `Bursts`, `Renewal` | whole runs of a live pool (grants, benches, rebuilds, fresh starts); how runs go on; what dropping a key or restarting costs |
| `Upstream`, `Allowances` | the provider that counts what arrives; all the lanes that ever draw on one allowance there, and the most it can count |
| `Promise`, `Rates`, `Carryover` | exactly when a limit is safe from here on; from the start of one configuration; and for a lane that takes over what others have spent |
| `Sharing`, `Moves` | which moments and pools the server can come to keep the promise; how two lanes come to share an allowance; how a moved key gets a second budget |
| `Dispatch`, `Dispatcher`, `Waiting`, `Rendezvous` | one acquire: its scan, its wait loop and why it ends; when it is answered and with which lane; session affinity |
| `Gate`, `Erasure`, `Sends` | the queue in front of a live pool, with callers dropped at any moment; that dropping one costs nothing; that what is sent is what is counted |
| `Governor`, `Pressure` | the per-model cap as one locked step at a time, then every interleaving of those steps |
| `Admission` | the lock-free concurrency counter, one atomic step at a time |
| `Failover` | the routing plan and the buffered walk along it |
| `Config`, `Edits`, `Lanes` | the stored configuration and its edits; what each edit does, position by position, and when it is refused; the lanes it leaves |
| `Settings`, `Outages`, `Agreement`, `Answers` | the handlers as interleaved steps (edit, copy, save, swap), the claim, failed saves and restarts; when the pool goes empty; when memory, disk and lanes agree; what a command comes to and what its answer is worth |
| `Server`, `Service` | the handlers that edit the store in place, one method per lock hold; handlers, grants and benches in one run |
| `Urls`, `Ledger`, `History` | URL and path normal forms, lifetime totals across restarts, retained and thinned history |

The dispatcher asks that every lane has a rate of at least one, which the lanes built from any
reachable store have (`EveryReachableWorldIsGood`).

Time is a natural number of milliseconds that never decreases, so `Instant` arithmetic is integer
arithmetic. The session hash is any function. The upstream's answers, the clock's overruns and the
outcome of every save are arbitrary. So is the order in which the steps of different tasks come,
where a step is one hold of a lock or one atomic operation: a settings handler's edit, its copy of
the store, its save and its swap are four steps (the last reads the live pool and replaces it at
once, see "Left out"); an admission's two locks are two; a claim on the counter and its undo are
two; a queued caller's arrival, each turn at the gate and its being dropped are one each.

Where the code and its own comments disagree, the model follows the code, and each statement that
fails in general is given with the exact condition under which it holds:

- `CONTRIBUTING.md` says the upstream never sees a violation. It holds of each lane while its key
  is kept (`UpstreamSeesNoViolation`), but an upstream counts by what it is sent, whichever lane
  sent it. Which requests count together is not for the proxy to know, so it is any function of
  base URL, key and protocol here (`Metering`). Whatever a run has been through, a limit is safe
  for as long as the configuration stays as it is exactly when the past was paced within it and,
  at every time to come, what is still spent and all that the lanes could add fit in it
  (`SafeFromHereIffItFits`, for the whole server `ReachableMomentIsSafeIffItFits`). From a fresh
  start that is: when the rates of all lanes that draw on the allowance fit (`SafeIffRatesFit`).
  Through any edits and restarts the most an upstream sees is the highest rate of each lane that
  ever drew, once for each life of that lane (`UpstreamSeesAtMostTheAllotments`).
- The ways to violate it are: two live lanes on one allowance, which nothing in the form prevents
  (`EveryClaimCanBeDoubled`); a restart, which hands every key a fresh window
  (`RestartCanOverrun`); a key dropped and added back (`DroppedAndRestored`); a key moved to
  another provider at the same URL (`EveryClaimCanMoveItsKey`), since the comment in `pool.rs`
  that renaming keeps a key's state holds of the order and rate of lanes but not of the
  provider's name; and a provider pointed at a URL another one has spent on
  (`RepointedProviderIsASecondBudget`). In each, the lane that takes over keeps the promise, under
  whatever edits keep it and keep the allowance its own, exactly when all that is still spent is
  in its own load (`SafeIffAccountedFor`), which for a lane that comes up fresh is when nothing is
  (`FreshKeySafeIffUnspent`).
- `history.rs` says a thinned range has at most `max` points. It has fewer than twice as many, and
  at most `max` exactly when `max` divides the number of points (`DownsampleShape`).
- `settings.rs` says an edit that would leave no enabled key is refused. It is, but only after the
  store has been edited: `RefusedKeyEditBitesIff` and `RefusedProviderEditBitesIff` say exactly
  when. Another handler's save, or any later one, then carries the edit to disk and pool
  (`TwoKeyEditsCanEmptyThePool`, `EveryClaimIsTwoStepsFromAnOutage`); without further key or
  provider edits the pool can go empty exactly when the store, the disk or some copy in flight
  already has no lane (`PoolCanEmptyIff`).
- A saved edit does not always leave memory, disk and lanes in agreement, because its copy may be
  older than another handler's edit (`TwoSavedEditsCanDisagree`, `EveryClaimCanComeApart`). It does
  exactly when the edits begun since the copy that was saved last was taken come to nothing, and
  those begun since the handler's own copy leave its lanes as they were (`RoundAgreesIff`).
- `pool.rs` says reordering lanes relocates nothing. That holds exactly when no other lane ties
  with the session's own (`ReorderingMovesNothingIffNoTie`).
- `governor.rs` says a model with no rebuff for a minute grows by one permit. Rebuffs do not
  matter, only the last move of the cap (`GrowthIgnoresRebuffs`, `CapGrowsRightAfterARebuff`); and
  the operator's report dissolves a cap without clearing the time of that move
  (`DissolvingByReportKeepsTheCutCooldown`, `ReportHidesCorrelatedPressure`).
- `proxy.rs` says the concurrency cap cannot be overshot, which is proved; but it can refuse below
  the cap, exactly when refusals not yet handed back make up the difference
  (`RefusalBelowCapIffUndosPending`).

## Model

| member | source | states |
|---|---|---|
| `Promise.SafeFromHereIffItFits` | CONTRIBUTING.md:49-51 | The central promise, exactly. After any run, with keys dropped, moved, restored or shared and the process restarted: as long as the configuration stays as it is now, no allowance is ever counted over `limit`, in any continuation and any delivery of past and future permits with delays varying by at most the 1 s margin, if and only if the past was paced within it and at every time to come what is still spent and all that the lanes drawing on it could then add fit in it |
| `Sharing.ReachableMomentIsSafeIffItFits` | src/settings.rs:51-63 | And so at every moment a server can come to from its first boot, whatever handlers, restarts, grants and benches are interleaved |
| `Allowances.UpstreamSeesAtMostTheAllotments` | CONTRIBUTING.md:49-51 | Over every run, through benches, rebuilds and restarts, whichever lanes come to draw on an allowance and for however long: the upstream counts at most the highest rate of each lane that ever drew on it, once for each life of that lane |
| `Sharing.ServerKeepsTheAllotments` | src/settings.rs:51-63 | The same over every history of a server from its first boot on |
| `Allowances.UpstreamSeesAtMostTheSum` | CONTRIBUTING.md:49-51 | So if the lanes that draw on an allowance are kept throughout, at most the sum of their limits |
| `Upstream.QuietIffPaced` | tests/support/mod.rs:438-451 | For any grants in time order, a limiter is quiet in every delivery within the band if and only if the grants were paced within its limit in a window longer by the band |
| `Upstream.UpstreamSeesNoViolation` | src/pool.rs:14-18 | For the permits of one lane: while its key is kept, whatever grants, benches and rebuilds are interleaved, a provider never counts more than `limit` of them in its window, `limit` being any bound on the rpms the key was given |
| `Rates.SafeIffRatesFit` | src/pool.rs:178-182 | Under one configuration, from its start, a limit is respected in every run and every delivery within the margin if and only if the rates of all lanes that draw on the allowance sum to no more than it, whatever function of URL, key and protocol says which do |
| `Rates.SafeAtItsOwnRateIffUnshared` | src/pool.rs:178-182 | So a lane's own rate is safe if and only if no other live lane draws on its allowance |
| `Sharing.ReachablePoolIsSafeIffUnshared` | src/settings.rs:242-286 | And that is so for a process started on any configuration that any interleaving of handlers can reach |
| `Sharing.AuthorizationSharedIff` | tests/support/mod.rs:433-441 | Under a limiter that goes by the Authorization header two lanes share exactly when they lead to one server, speak one protocol and, if that is OpenAI's, have one key: Anthropic lanes, which send none, share whatever their keys |
| `Sharing.AnyLaneCanBeDoubled` | src/settings.rs:249-286 | Whatever an upstream goes by: from any settled store, adding a provider whose lane draws on what a live lane draws on is saved; the allowance's rate grows by the new lane's, the old rate is no longer safe, and the sum of the two is safe iff no third lane shared it |
| `Sharing.EveryClaimCanBeDoubled` | src/settings.rs:249-286 | From every first claim with an http URL and a trimmed key one saved command leaves two live lanes on one allowance, at 80 rpm where the key was entered at 40 |
| `Moves.MovedKeyIsASecondBudget` | src/settings.rs:150-181 | Removing any live key from one provider and adding it to another at the same URL are both saved; if it shared its allowance with no other lane then no pool on the way has two lanes on it and no lane is restored, yet a run of these very pools, with no restart, has the upstream count the old rate and the new one in one window |
| `Moves.EveryClaimCanMoveItsKey` | src/settings.rs:150-181 | From every first claim with an http URL and a trimmed key it takes three saved commands: 80 counted where the key was entered at 40 |
| `Moves.RepointedProviderIsASecondBudget` | src/settings.rs:300-310 | Pointing one provider away from a URL and another, with the same key, onto it does the same, with every lane kept throughout |
| `Carryover.SafeIffAccountedFor` | src/pool.rs:192-220 | After any run, for a lane that alone draws on its allowance from now on: under every continuation that keeps it, its rate edited at will, each grant finds what is spent of the allowance, on whatever lane, within the rpm then in force, if and only if whenever it is out of its cooldown all that is still spent is in its own load |
| `Carryover.FreshKeySafeIffUnspent` | src/pool.rs:192-200 | So a lane that comes up fresh, restored, restarted, moved or new, keeps the promise if and only if nothing of its allowance, on whatever lane it was spent, is spent still |
| `Renewal.EachFreshStartCostsOneLimit` | src/pool.rs:192-200 | However often a key is dropped and restored or the process restarts, the grants on it in any trailing window number at most its limit once for each fresh start, and once more if it had a lane at the outset |
| `Renewal.UpstreamAcrossFreshStarts` | src/pool.rs:192-200 | And the upstream counts at most that many, in any delivery within the margin |
| `Renewal.RestartForgets` | src/lib.rs:314-317 | A restart brings every key up fresh, whatever it had spent |
| `Renewal.DroppedAndRestored` | src/pool.rs:201-220 | So do two rebuilds, the first without the key and the second with it |
| `Renewal.RestartCanOverrun` | src/lib.rs:314-317 | From any run that leaves a key some of its budget spent, a run in which a restart and a burst put more than its rpm in one window |
| `Upstream.MarginIsTight` | src/pool.rs:14-18 | Every properly spaced log survives every delivery whose delays vary by at most a band if and only if the margin is at least that band |
| `Upstream.NoViolation` | tests/support/mod.rs:438-451 | For any grants spaced over window plus band and any reordering within the band, the provider's count at each arrival stays within the limit |
| `Upstream.EnforcingProvider.Arrive` | tests/support/mod.rs:438-451 | The provider's in-place deque counts an arrival as over exactly when more than `limit` arrivals are in the window ending at it |
| `Upstream.EnforcingProvider.Forget` | tests/support/mod.rs:438-447 | Popping expired arrivals from the front leaves exactly the pruned deque |
| `Windows.SlidingWindow.Prune` | src/pool.rs:37-48 | Popping from the front leaves the pruned hits |
| `Windows.SlidingWindow.TryAcquire` | src/pool.rs:57-69 | Grants and records exactly when fewer than the limit are in the window; otherwise records nothing and returns when the oldest hit leaves |
| `Windows.PrunedCountsSpent` | src/pool.rs:16-70 | For a time-ordered log the limiter's load is exactly the budget spent in the trailing window |
| `Pools.Lane.Bench` | src/pool.rs:99-104 | Benching takes the later of the two cooldowns: benched at t afterwards iff benched at t before or t is before `until` |
| `Pools.Lane.CarryFrom` | src/pool.rs:133-138 | Hits and cooldown are adopted, the lane's own spec and limit kept |
| `Pools.Pool.Rebuild` | src/pool.rs:201-220 | The replacement has one lane per spec, each with its predecessor's hits and cooldown under the new limit, or fresh; the old pool is untouched |
| `Pacing.PacedAcrossReconfiguration` | src/pool.rs:37-69 | In any interleaving of grants, benches and rebuilds, at each grant on a kept key the grants in the trailing window, this one included, number at most the rpm then in force, raised or lowered |
| `Service.TheLanesMakeARun` | src/settings.rs:51-63 | From the first boot on, whatever handlers, restarts, grants and benches are interleaved, the lanes go through a valid run of grants, benches, rebuilds and fresh starts, and are always the lanes of the pool last swapped in |
| `Service.LanesStartFrom` | src/pool.rs:201-220 | A settings step touches the live lanes only if it swaps or restarts: an edit's swap puts up its copy's lanes, each with the hits and cooldown of the lane that had its provider and key, or unused; the claim's swap and a restart put up unused ones |
| `Service.PacedAcrossSavedEdits` | src/settings.rs:3-8 | So for a key that is in everything saved since `from`, with no restart between: at each grant the grants since then in the trailing window number at most the rpm then in force, however many edits were made, refused, saved or lost |
| `Service.SavedKeysAreKept` | src/settings.rs:51-63 | Because such a key never loses its lane and never starts afresh, in whatever order copies taken at different times are swapped in |
| `Pacing.HitsTrackTheLog` | src/pool.rs:192-220 | A kept lane's retained hits are its complete grant history less only entries that have expired |
| `Pacing.NoGrantInsideABench` | src/pool.rs:95-104 | Once a kept key is benched, no later grant on it comes before the seconds its header asked for, as the clamp has them, are over, through later benches and rebuilds |
| `Pacing.StatesAreOrderly` | src/pool.rs:22-70 | In every reachable pool identities are unique, every lane has a rate, hits are in time order and in the past, and no cooldown reaches more than the longest bench ahead |
| `Dispatcher.Dispatcher.AcquireFor` | src/dispatch.rs:46-115 | For a pool fixed during its wait: `None` at once iff no lane has the provider and protocol asked for and is not excluded; otherwise the best lane with room at the moment of answering, with a permit that carries that lane's own provider, URL, key and protocol and so draws, whatever an upstream goes by, on that lane's allowance; its one hit is recorded and nothing else but expired hits forgotten, and no eligible lane could have granted more than one overrun earlier |
| `Dispatcher.Dispatcher.Turn` | src/dispatch.rs:57-113 | One turn leaves pool and answer exactly as `TurnOf` says; it answers, or sleeps until the time a held lane named and strictly lowers the measure |
| `Dispatch.TurnsAreSettled` | src/dispatch.rs:87-113 | In every pool whose lanes have a rate a turn grants iff some eligible lane has room, and then the best one, so the re-check never fails; a sleep is always until a time that a held lane named and that lies ahead, so the 100 ms arm is never taken |
| `Dispatcher.Dispatcher.Scan` | src/dispatch.rs:58-86 | The scan's tally is exact and it only prunes: it records no hit |
| `Dispatcher.Dispatcher.Take` | src/dispatch.rs:94-104 | The re-check grants exactly when the lane is under its limit, records one hit, and hands out that lane's index, provider, URL, key and protocol |
| `Dispatch.TallyIsExact` | src/dispatch.rs:58-86 | `with_room` lists exactly the eligible lanes with room in lane order, `soonest` is the least time among the blocked ones, `eligible` says whether any lane matched |
| `Dispatch.WakeMakesProgress` | src/dispatch.rs:71-113 | With no lane free, a soonest time exists, lies ahead, no eligible lane has room before it, and by then (live hits plus benched flags) summed over eligible lanes has strictly fallen |
| `Dispatch.BlockedStaysBlocked` | src/dispatch.rs:71-86 | A blocked lane stays blocked until the time it named |
| `Dispatch.BestHasRoom` | src/dispatch.rs:87-105 | The choice, by session or by load, is an eligible lane that has room, both before and after the scan pruned it |
| `Waiting.HasRoomFromFreeAtOn` | src/pool.rs:57-69 | A lane has room at t exactly from the later of its cooldown's end and the time its in-window hits drop below rpm |
| `Waiting.AnsweredAtTheEarliestMoment` | src/dispatch.rs:53-114 | With ideal wake-ups the answer comes exactly at the earliest time any eligible lane is free, never earlier or later; in general within one overrun |
| `Waiting.AnsweredWithin` | src/dispatch.rs:53-113 | If every lane is free within `wait`, the holder of the gate is answered within it, plus one overrun |
| `Waiting.EveryLaneIsFreeInTime` | src/proxy.rs:137-147 | In every state of every run every lane is free within the longer of the enforced window and the 60 s clamp on benches: 61 s |
| `Waiting.HeadAnsweredInTime` | src/dispatch.rs:53-113 | So from any state of any run, with no new bench or swap, the holder of the gate is answered within 61 s and one overrun |
| `Dispatcher.Dispatcher.ServeInOrder` | src/dispatch.rs:53-113 | With no new bench or swap, from any orderly pool, the k-th caller in the queue is answered, or has given up at a time of its own choosing, within k + 1 such waits, in order, and gets `None` iff no lane matches it |
| `Waiting.StickySessionGetsItsLane` | src/dispatch.rs:87-93 | A session is granted the eligible lane its hash prefers iff that lane has room when the answer comes |
| `Waiting.UnpinnedRequestGetsTheEmptiestLane` | src/dispatch.rs:87-93 | Without a session the granted lane carries the least load of the eligible lanes with room, ties to the lower index |
| `Gate.FirstComeFirstServed` | src/dispatch.rs:53-57 | After any arrivals, entries, turns, cancellations, benches and swaps, those answered, the holder and the queue are exactly the callers not cancelled, in arrival order |
| `Gate.NobodyDroppedIsAnswered` | src/dispatch.rs:53-57 | A cancelled caller is never answered |
| `Gate.HitsAreThePermits` | src/dispatch.rs:94-104 | For a key with a lane throughout, the hits its lane holds are the times of the permits handed out on it, one for one and in order, less only expired ones; at every later time the budget spent is that of the permits |
| `Gate.PermitsArePaced` | src/dispatch.rs:53-113 | The permits the gate hands out on such a key never number more than its highest rate in a window, with the pool re-read at each turn and benches and swaps between turns |
| `Gate.StepsMakeARun` | src/dispatch.rs:58-113 | The gate's turns, with benches and swaps between, are a valid pacing run whose grant log is the permits handed out |
| `Sends.SentIsCounted` | src/dispatch.rs:94-104 | Over any arrivals, turns, cancellations, benches and swaps, and whatever an upstream goes by: the permits whose URL, key and protocol draw on an allowance are, one for one and at the same times, the grants that the lanes' specs charge to it |
| `Sends.PermitsCarryTheirLane` | src/dispatch.rs:97-103 | A turn's permit has its lane's provider, URL, key and protocol |
| `Erasure.LeavingCostsNothing` | src/dispatch.rs:42-45 | Erase everything a never answered caller did, wherever it was dropped: the rest can still happen, everyone else gets the same answers at the same times, and every lane has spent the same at every later time |
| `Rendezvous.OneLaneMoreOrLess` | src/pool.rs:241-276 | For any hash: adding a lane moves a session only onto it, removing one moves only sessions that lived on it, and who lives there is said exactly |
| `Rendezvous.NarrowingKeepsTheLane` | src/pool.rs:263-276 | Restricting the candidates keeps a session's lane as long as that lane remains |
| `Rendezvous.ReorderingMovesNothingIffNoTie` | src/pool.rs:479-489 | Every permutation of the lanes leaves the session's lane alone if and only if no other lane ties with it |
| `Governor.ImplicatedKeysCountsLanes` | src/governor.rs:78-83 | Sort, dedup and count is the number of distinct lanes |
| `Governor.Governor.NoteRebuff` | src/governor.rs:106-148 | The locked update of one model is the step `Rebuffed`, and touches no other model |
| `Governor.Governor.Limit` | src/governor.rs:152-178 | Reading the cap is the step `Consulted` for a known model, nothing for an unknown one |
| `Pressure.ReportsShowOnlyThroughRebuffs` | src/governor.rs:186-208 | Over every run without a rebuff, from any state and whatever the reports in it dissolve: leaving the reports unread, every admission reads the same cap, is admitted or refused alike, and every growth comes at the same moment |
| `Governor.Governor.Pressured` | src/governor.rs:186-208 | Lists exactly the models whose cap the next admission would find in force, with that cap as it stands and their count; exactly the models whose last rebuff is ten minutes old lose cap and evidence, keeping their count and the time the cap last moved; every other model is untouched |
| `Governor.Governor.Claim` | src/governor.rs:222-234 | The second lock of an admission refuses exactly when the cap that was read is full, and otherwise adds one |
| `Governor.Governor.Release` | src/governor.rs:243-248 | Dropping a permit takes one off that model's count |
| `Pressure.InflightIsLivePermits` | src/governor.rs:222-249 | In every interleaving of the separately locked steps the count is the number of live permits, a cap is 0 or at least 2, and a nonzero cap has both timestamps |
| `Pressure.ReleaseTakesOne` | src/governor.rs:243-248 | The saturating subtraction never saturates |
| `Pressure.AdmissionRespectsTheCapItRead` | src/governor.rs:222-234 | A governed admission leaves the count within the cap it read even if a cut lands between its two locks, and is refused iff that cap was full |
| `Pressure.EvidenceIsExact` | src/governor.rs:72-83 | Despite pruning and dissolving, the keys counted at a rebuff are exactly the distinct lanes rebuffed in the last 10 s of the whole run |
| `Pressure.CutsExactlyOnCorrelatedPressure` | src/governor.rs:113-147 | Over every run, in numbers of live permits: the cap moves at a rebuff iff two lanes were rebuffed within 10 s, it has not moved for 5 s, and there is no cap or the permits fill it and the cap is over 2 and over half of them |
| `Pressure.ACutHalves` | src/governor.rs:126-134 | And a cap that moves at a rebuff is left at 2 with fewer than 4 permits live, and otherwise at half of them, rounded down |
| `Pressure.OneKeyNeverIndicts` | src/governor.rs:24-26 | However often one key is rebuffed, the model is never governed |
| `Pressure.CapMovesAreSpaced` | src/governor.rs:33-56 | In every run cuts are at least 5 s apart and growths at least 60 s |
| `Pressure.OneStepAtMostHalves` | src/governor.rs:126-134 | One step dissolves a cap, keeps it, grows it by one, or cuts it to no less than max(2, half) |
| `Pressure.CapCannotCollapse` | src/governor.rs:33-44 | Until it dissolves, a cap stays at least the old one halved once per cut and never below 2, with at most 1 + T / 5 s cuts in a time T |
| `Pressure.DissolvingByReportKeepsTheCutCooldown` | src/governor.rs:190-198 | After a dissolution by report, two keys' rebuffs within ten seconds engage a new cap iff the old one had not moved for 5 s; after a consultation they always do |
| `Pressure.ReportHidesCorrelatedPressure` | src/governor.rs:190-198 | The runs in which it shows, from the very start: for any two keys, a growth, then a report once ten minutes are quiet, then rebuffs of both keys engage a cap iff they come 5 s after the growth; with a consultation for the report they always do |
| `Pressure.GrowthIgnoresRebuffs` | src/governor.rs:152-178 | In every run a read dissolves the cap iff the last rebuff is ten minutes old, otherwise grows it by one iff it has not moved for 60 s, rebuffs in between or not, and otherwise leaves it |
| `Pressure.CapGrowsRightAfterARebuff` | src/governor.rs:167-176 | The runs in which it shows: a cap grows at sixty seconds with a rebuff at any moment from ten seconds to that very one |
| `Admission.CounterIsExact` | src/proxy.rs:152-171 | In every interleaving of adds, undos and drops the counter is live guards plus refusals not yet undone, so it never goes negative |
| `Admission.HandingBackTakesOne` | src/proxy.rs:165-171 | After any run, undoing a pending refusal, or dropping a guard, takes one off the counter and settles that caller and no other |
| `Admission.NothingLeaks` | src/proxy.rs:152-171 | After any run, once each pending refusal is undone and each guard dropped, in any order, the counter is 0 and the next claim under any cap is admitted |
| `Admission.AdmittedWithinCap` | src/proxy.rs:160-171 | At each successful claim live guards are within the cap it was made under |
| `Admission.NeverAboveTheCap` | src/proxy.rs:160-171 | Under a fixed cap live guards never exceed it |
| `Admission.RefusalBelowCapIffUndosPending` | src/proxy.rs:165-171 | A refusal below the cap happens iff refusals not yet undone make up the difference |
| `Admission.SpuriousRefusal` | src/proxy.rs:165-171 | A concrete run in which a caller is refused while nobody holds a guard |
| `Failover.Walk` | src/proxy.rs:671-805 | A buffered walk sends at most once per step, for the step's model and holding that model's permit and no other, on pairwise distinct lanes of the step's provider and the request's protocol; every rebuff is benched for the time asked and reported at once, and nothing else is. Every step before the last one entered was answered by a retryable status or not at all, or had no lane of its provider and protocol left untried; so the walk ends at the first send answered by anything else and relays that, and a retryable status only from the last step; the deadline error comes exactly at the first step entered whose permit, slot or answer misses it; no_capacity iff the plan is empty or its last step finds no lane; no permit is held on any exit |
| `Failover.TakeStep` | src/proxy.rs:676-797 | One step either ends the walk with that contract or leaves it under way, the lane excluded, and then only after a retryable status, no answer, or no lane to send to |
| `Failover.StopsAtTheFirstAnswer` | src/proxy.rs:735-783 | The first send answered by a status other than 408, 429, 500, 502, 503, 504 and 529 is the last, and its status is the response |
| `Failover.RetryableAre` | src/proxy.rs:101-108 | Nothing below 400 is retryable; of the client's errors only a timeout and a rebuff |
| `Failover.TakenSentAndFreed` | src/proxy.rs:678-749 | The scope of a model permit around one send: taken before, freed after, the send and its rebuff recorded in between |
| `Failover.ResolvePlan` | src/proxy.rs:266-303 | The first alias of the name expands to its targets in order; otherwise one step per offering provider in order, then unrestricted steps up to the pool's size or four, but at least one; empty iff the alias has no targets |
| `RetryAfter.BenchSecs` | src/proxy.rs:137-147 | A decimal `Retry-After` is obeyed up to 60 s; anything else means 5 s |
| `RetryAfter.ObeyedUpToAMinute` | src/proxy.rs:137-147 | A header that writes the number n, a plus sign or zeros in front and spaces around it or not, benches for n seconds or sixty, whichever is less; one that writes no 64-bit number, and none at all, for five |
| `Config.FindProvider` | src/settings.rs:146-148 | Finds a provider of that name iff there is one |
| `Edits.KeyEditIsExact` | src/settings.rs:134-194 | A key edit is taken iff the position exists, or the trimmed key is new and not blank, with a rate of 1 to 10000 if any; then one position of that provider's keys changes as asked, a new key last, on, at 40 unless told otherwise, owned by nobody, and nothing else in the store |
| `Edits.ProviderEditIsExact` | src/settings.rs:242-310 | A provider edit is taken iff its name is new (or, to remove or re-point, there), name and key are not blank, the rate is 1 to 10000 and the normalised URL starts http:// or https://; other providers and all accounts stay in place, and so do the aliases but for a removal |
| `Edits.PruningIsExact` | src/settings.rs:287-299 | Removing a provider takes from the aliases exactly the targets on it, and drops exactly the aliases left with none; all other targets and aliases stay, in order |
| `Edits.AliasEditIsExact` | src/settings.rs:333-369 | An alias edit is taken iff the trimmed name is not blank and there are targets, all on existing providers (or, to remove, the alias is there); the new definition replaces the old one and goes last, the others stay in order |
| `Edits.UserEditIsExact` | src/settings.rs:478-533 | An account edit is taken iff the trimmed name is new and not blank, the password has ten characters, and the account to change is there and, to be removed, not the superuser's; it concerns that one account, and a new one is admin iff asked for |
| `Lanes.LaneSpecsHas` | src/pool.rs:150-166 | A lane's spec is built iff some provider has an enabled key with a rate that reads so |
| `Lanes.OneLanePerLiveKey` | src/pool.rs:150-166 | One lane for each enabled key with a rate and no other, in the order of providers and of keys within each |
| `Lanes.IdsAreUnique` | src/pool.rs:201-220 | No two lanes of a good store share an identity, so the rebuild's lookup has at most one answer |
| `Lanes.GoodProvidersMakeGoodSpecs` | src/pool.rs:150-166 | Every lane built from a good store has a rate of 1 to 10000 and a base URL in normal form |
| `Lanes.PrunedAliasesAreGood` | src/settings.rs:287-299 | After a provider is removed every alias left has a target and every target an existing provider |
| `Lanes.KeysLeaveNoLaneIff` | src/settings.rs:196-201 | A key edit leaves no lane iff it drops or disables the only live one, or disables an idle one when none is live |
| `Lanes.KeyEditLanesExactly` | src/settings.rs:134-205 | A key edit takes away the lane of the key it names, puts back that key's new lane if it is to have one, and leaves every other lane's spec as it was |
| `Lanes.AdditionAddsOneLane` | src/settings.rs:249-286 | Adding a provider adds exactly one lane, for its trimmed name and key at its normalised URL, at 40 rpm unless told otherwise |
| `Lanes.RepointingMovesItsLanes` | src/settings.rs:300-310 | Re-pointing a provider moves exactly its lanes to the new normalised URL |
| `Lanes.RemovalTakesItsLanes` | src/settings.rs:287-299 | Removing a provider takes exactly its lanes |
| `Settings.EveryReachableWorldIsGood` | src/settings.rs:134-205 | From a first boot, in every interleaving of every handler's edits, copies, saves and swaps, with claims, failed saves, refusals and restarts: names, keys and usernames are unique, every alias has a target and every target an existing provider, rpm is 1 to 10000, URLs are normal, at most one superuser, live lane identities are unique; and so in every copy in flight |
| `Settings.EveryStepKeepsTheWorldGood` | src/settings.rs:242-316 | Each single step of any handler, however answered, keeps all of that and the superuser |
| `Settings.OneSuperuserAfterTheClaim` | src/config.rs:229-233 | Once a claim has been saved there is exactly one superuser |
| `Settings.TheClaimIsForGood` | src/setup.rs:59-66 | Once a claim has been saved, whatever steps follow, restarts included, the same account stays superuser; and once closed the wizard never reopens |
| `Settings.FailedClaimBarsAllUntilRestart` | src/setup.rs:75-108 | After a claim whose save failed nothing but a restart has any effect, every command is refused, and a restart is a first boot again |
| `Settings.DiskAndPoolMoveOnlySo` | src/settings.rs:51-63 | Only a save or a claim changes the disk, only a swap or a restart the lanes: an edit that is refused or not saved changes neither |
| `Settings.RefusedKeyEditBitesIff` | src/settings.rs:196-201 | A refused key edit changed the store iff it dropped or disabled the only lane, or altered a key while no lane was live |
| `Settings.RefusedProviderEditBitesIff` | src/settings.rs:311-313 | A refused provider edit changed the store iff it removed the provider of every live lane, or re-pointed one while no lane was live |
| `Settings.NoLaneEverDoublesV1` | src/proxy.rs:380 | In every reachable world no live lane's URL joined with any collapsed path has `/v1/v1/` at, ending at or across the join |
| `Outages.PoolEmptiesIff` | src/settings.rs:51-63 | The live pool goes empty at a step iff it swaps in a copy that had no lane, or is a restart on such a disk |
| `Outages.PoolCanEmptyIff` | src/settings.rs:51-63 | With no further key or provider edit begun, some interleaving empties the pool iff the store, the disk or a copy in flight has no lane |
| `Outages.TwoKeyEditsCanEmptyThePool` | src/settings.rs:196-204 | A key edit that keeps a lane, and one that is refused between the first one's edit and its copy: the first answers success and swaps in no lane at all |
| `Outages.AnyTwoLiveKeysCanBeDrained` | src/settings.rs:180-201 | Whenever two keys of one provider are the only live ones, disabling one and, meanwhile, the other is such a pair |
| `Outages.EveryTwoKeyClaimCanBeDrained` | src/settings.rs:180-201 | And any first claim given a second key is such a store |
| `Outages.RefusedRemovalTakesEffectLater` | src/settings.rs:199-201 | After a key edit refused for emptying the pool, the next saved alias edit empties it, on disk too |
| `Outages.EveryClaimIsTwoStepsFromAnOutage` | src/settings.rs:199-201 | From every possible first claim two commands, one after the other, do it, the first of them refused |
| `Agreement.RoundAgreesIff` | src/settings.rs:51-63 | When a handler answers success, over any run since the claim or the last restart: store, disk and lanes agree iff the edits that handlers began since the copy saved last was taken, by whichever handler, come to nothing, and the edits begun since this handler's own copy leave its lanes as they were |
| `Agreement.UndisturbedRoundAgrees` | src/settings.rs:51-63 | In particular they agree, whatever came before, if nobody else edited or saved between the copy and the swap |
| `Agreement.TwoSavedEditsCanDisagree` | src/settings.rs:51-63 | For any two commands each of which is taken, the second on what the first makes of the store and changing it: an interleaving in which both are answered success, memory has both edits, and disk and lanes have the first only |
| `Agreement.EveryClaimCanComeApart` | src/settings.rs:150-171 | From every first claim adding two keys at once does it: the second is answered success and is neither on disk nor live |
| `Agreement.AlwaysInStepIffNothingUnsaved` | src/settings.rs:51-63 | With handlers one at a time, over every run after the claim, the three agree after every command iff none changed the store and then failed to save it or was refused too late |
| `Agreement.LateRefusalsBite` | src/settings.rs:196-201 | The commands refused too late are exactly the key and provider edits that bite |
| `Answers.CommandAlone` | src/settings.rs:51-63 | One command with nobody else at work, end to end: not allowed, it changes nothing; allowed, it changes the store as its edit says; a key or provider edit that leaves no key on, or a failed save, changes neither disk nor lanes; otherwise the store is on disk and its lanes are live, but for accounts and resaves, which leave the lanes as they were |
| `Answers.ClaimAlone` | src/setup.rs:59-108 | A first claim leaves one account, the superuser, with its hash; one provider at the normalised URL with one key, on at 40 and owned by that account; that key's lane; and all of it on disk |
| `Answers.RefusedIff` | src/settings.rs:134-205 | Exactly which commands are refused, the claim included, in every good world |
| `Answers.AnswersAreHonest` | src/settings.rs:51-63 | At every step of every interleaving: success means that the copy is on disk, or that its lanes are live after its save; a failed save and a refusal move neither |
| `Answers.AnsweredIffDone` | src/settings.rs:51-63 | A handler is answered exactly when it ends |
| `Server.CollectSpecs` | src/pool.rs:150-166 | The two nested loops build exactly the specs of `LaneSpecs` |
| `Server.OtherKeysKeepTheirBudget` | src/settings.rs:3-8 | Swapping in a saved key edit, over whatever pool is live by then, leaves every other key that has a lane there its spent budget and cooldown |
| `Server.Server.ProviderKeys` | src/settings.rs:134-201 | The handler's first lock hold: its in-place edits and its reply are the state machine's step, and no lane is touched |
| `Server.Server.ProvidersAction` | src/settings.rs:242-313 | The same for providers |
| `Server.Server.AliasesAction` | src/settings.rs:333-369 | The same for aliases, with no look at the lanes |
| `Server.Server.UsersAction` | src/settings.rs:478-533 | The same for accounts, with the copy taken in the same lock hold |
| `Server.Server.ResaveAction` | src/settings.rs:403-450 | The forms that edit none of this still copy the whole store, to be saved |
| `Server.Server.Conclude` | src/settings.rs:196-201 | The lane check at the end of the hold: with no lane left the edit is refused and not undone |
| `Server.Server.CopyStore` | src/settings.rs:52-55 | The second lock hold copies the store as it is by then |
| `Server.Server.SaveCopy` | src/settings.rs:56 | The copy becomes the saved one, or the save fails and neither disk nor lanes change |
| `Server.Server.SwapPool` | src/settings.rs:57-61 | The live pool becomes its own rebuild with the copy's lanes, every kept key's hits and cooldown carried; or, for the claim, a fresh pool |
| `Server.Server.SetupSubmit` | src/setup.rs:59-107 | The one-time claim, saved under the lock, is the state machine's step |
| `Server.Server.CloseWizard` | src/setup.rs:108 | The wizard closes in a step of its own after the claim's lock is released |
| `Server.Server.constructor` | src/lib.rs:289-330 | A process boots on what was saved, with the margin added to the provider window |
| `Urls.NormalizeBaseUrl` | src/config.rs:244-259 | Terminates; the result is a slice of the input and its normal form |
| `Urls.EveryOrderEndsAlike` | src/config.rs:244-259 | Applying the trim, slash and `/v1` rules in any order until none applies always ends in that one normal form |
| `Urls.NormIsNormal` | src/config.rs:244-259 | No rule applies to a normal form, and normalising it again changes nothing |
| `Urls.TrimIsExact` | src/config.rs:244-259 | Trimming takes off exactly the spaces in front and behind |
| `Urls.SpacesAre` | src/config.rs:244-259 | A space is one of the twenty-five code points of Unicode's White_Space property |
| `Urls.NormalizePath` | src/proxy.rs:122-128 | A path that does not start /v1/v1/ comes back unchanged; in general the result is the path less some number of leading `/v1`, starts /v1/ if any was taken, and does not start /v1/v1/ |
| `Urls.OneWayToCollapse` | src/proxy.rs:122-128 | No other string is all that |
| `Urls.ExtraPrefixesVanish` | src/proxy.rs:122-128 | However often `/v1` was prepended, the path collapses to the same one |
| `Urls.JoinNeverDoublesV1` | src/proxy.rs:380 | A normalised base joined with a normalised path has no `/v1/v1/` at, ending at or across the join |
| `Ledger.Books.Absorb` | src/ledger.rs:95-107 | The in-place loop over the counters is one tick, and persists it |
| `Ledger.FileIsTheSumOverProcesses` | src/ledger.rs:77-107 | Across any processes and ticks each model's persisted total is the sum over processes of the last counter absorbed |
| `Ledger.ReabsorbingIsHarmless` | src/ledger.rs:95-107 | Absorbing the same counters again changes no total |
| `History.RetainedIffEveryCutoffSpares` | src/history.rs:35-86 | From whatever the file holds, over every run of appends, changes of the retention and restarts: what is retained is exactly the snapshots, found or taken, that every later append spared under the retention then in force, in the order they were taken |
| `History.History.Append` | src/history.rs:70-76 | The new snapshot always stays, last; of the others exactly those no older than the retention stay |
| `History.History.Range` | src/history.rs:88-108 | Exactly the retained snapshots of the range, in order, while they are within the limit or there is none; otherwise every floor(n / max)-th of them from the first |
| `History.History.SetRetentionDays` | src/history.rs:59-66 | The retention becomes that many days of 86400 seconds, and for zero days the largest 64-bit number |
| `History.DownsampleShape` | src/history.rs:96-108 | Within the limit, or without one, all the points. Over it: ceil(n / floor(n / max)) evenly spaced points in order, between max and 2 * max, within max iff max divides n |

## Left out

- HTTP serving, headers, request and response bodies, metrics, the dashboard and the model catalog: an upstream answer is an arbitrary input to the walk, and which providers list a model is a parameter.
- The streaming worker: the same plan with heartbeats. Its fallback after a 400 sends twice on one permit (src/proxy.rs:1118-1124), so "one permit, one send" is claimed for the buffered walk only, and rate claims are about permits.
- Sessions, passwords and roles' rights: callers of the settings handlers are taken to be authorised, and a password reaches the model as its length and its hash.
- Client keys and limits themselves: nothing of theirs is modelled but that their forms save the whole store, unsaved edits of others included (`Resave`).
- The file system: a save either replaces the persisted copy or fails. Two saves at once share one temporary file (src/config.rs:287-300), and what they could leave between them is not modelled; nor are failed ledger and history writes, or lines of a history file that cannot be read.
- Failover.Walk: one pool for the life of a request, so lane indices do not go stale at a swap; at each step the dispatcher may pick any eligible lane, which covers whichever it would have picked.
- A grant or a second swap between the cloning of the hits and the pool swap (src/settings.rs:57-61) can be lost in the original; reading the live pool and replacing it is one atomic step here. So can a hit or a bench that is made on a pool read just before a swap (src/dispatch.rs:58-96, src/proxy.rs:239-241): a turn at the gate and a bench are each one step on the pool as it is.
- Dispatcher.Dispatcher.AcquireFor: does not model a bench or a pool swap during its own wait (`Gate` has them between turns), nor the second reading of the clock before a sleep, which is part of the sleep's overrun.
- Dispatcher.Dispatcher.ServeInOrder: one pool for the whole queue's wait; `Gate` has benches and swaps between turns.
- Upstream.UpstreamSeesNoViolation: counts one lane, from when it entered the pool for as long as it is kept; what an upstream counts together is the subject of `Allowances`, `Promise` and `Carryover`.
- Which server a URL leads to and what it goes by: an arbitrary function of URL, key and protocol, fixed for a run. A header the client sends is not part of it.
- Overflow of counters and of `Instant`, prices in floating point, and the inside of the hash function.
- Governor.Governor.Pressured: gives the governed models as a map, not as a list sorted by name.
