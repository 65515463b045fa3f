# Doorman: leases, shares, failover and limiters

Doorman hands out expiring shares (leases) of a fixed capacity to many clients.
This project models its allocation engine and its client-side limiters in Dafny
and proves what they keep over whole runs.

- `arithmetic.dfy`: arithmetic that several modules share.
- `sums.dfy`: finite sums over keys, the one notion behind every aggregate.
- `store.dfy`: the lease store with its cached sums.
- `algorithm.dfy`: the allocation algorithms, once as functions of the demands
  in the store (targets and grants), once as the traversals that compute them.
- `targets.dfy`, `proportional.dfy`, `fairshare.dfy`,
  `fairshare_second_round.dfy`, `fairshare_uniform.dfy`: what ProportionalShare
  and FairShare divide up.
- `resource.dfy`, `commitment.dfy`, `convergence.dfy`: decisions on one
  resource, bounded commitment, and repeated refreshes.
- `configuration.dfy`, `schedules.dfy`, `server.dfy`: which template applies to a
  resource, concurrent decisions, and the server as a class.
- `wire.dfy`, `client.dfy`, `notices.dfy`: leases as they travel, the client as a
  class, and what its users get to know.
- `failover.dfy`, `failover_limits.dfy`: the protocol over any number of
  mastership changes, and why each of its conditions is needed.
- `tokenbucket.dfy`, `quantum.dfy`, `qps.dfy`, `adaptive.dfy`, `backoff.dfy`:
  the limiters and the backoff.

Floating-point numbers are modelled by `real`, times and durations by `int`, and
the current time is a parameter. A Go map traversal takes its keys in an
arbitrary order. Every client has at least one subclient, as the request
handlers ensure. The operations take any capacity; results about shares are for
capacities that are not negative, and wants are not negative where a run has to
keep grants from being negative. `hide` statements only keep definitions out of a
proof.

Each class method is proved against a function of the state before
(`Decided`, `Served`, `NewState`, `Refreshed`, `WokenUp`, and so on). The lemmas
about runs use the same functions: a step of the failover model is `NewState` at
an election, and `Claim`, `Decided` and `OnWire` at a request. Since a resource is
made with the time of the mastership and not of the first request, a master whose
resource does not exist yet is modelled by an empty one.

## Main results

*Failover.* The world of `failover.dfy` has one resource, at most one master at
a time, and any number of clients. Requests, elections, losses of mastership,
failed requests, releases and crashed clients come in any order. For a share
algorithm with positive capacity, `SafeExactlyWhenSound` says: in **all** runs
the leases that clients can use never exceed the capacity **if and only if** no
request carries a lapsed lease, no reply is lost, and the learning mode outlasts
the lease. With no learning mode configured, or with one as long as a lease, that
takes a new master to come strictly after the last grant of the one before; a
longer one is safe in any case, and a shorter one never. The code itself does not enforce the
first two: a client sends whatever lease it has on record, and the server takes
the claim without looking at its expiry.

*Shares.* In an overload the targets of ProportionalShare add up to the capacity
exactly, and from any grants at all clients settle at their targets. FairShare's
targets fit, whatever the numbers of subclients, exactly when its second round
gives no more than what is left below the levels or to nobody, and two rounds of
refreshes settle all clients exactly then. With equally many subclients that
means that ties at the level take nothing twice.

*Schedules.* A request for many resources is decided concurrently. All orders end
in the same state if and only if no two of its requests for one resource
disagree, where the claimed capacity counts only in the learning mode.

*Notices.* A client's user hears of the changes of capacity that its channel has
room for, from the first on, and of no other; `KeepsUpExactlyWhen` says when that
is enough. Over any run of replies, failed requests and users taking capacities,
the user is up to date all the time if and only if no reply goes unheard, because
the channel was full or a first lease was taken for no change.

*Limiters.* The token bucket keeps its rate over every history, and over any
stretch of ticks it releases at most one burst, a full bucket or the largest
request, beyond that rate. A full cycle of the QPS limiter tries the original rate
plus one more round, so that it keeps the rate exactly when the number of
subintervals divides both the rate and the interval.

Where comments and code disagree, the model follows the code:

- `go/server/doorman/algorithm.go:86-94` says that everyone gets what they want
  if the total fits; `UnderloadMayLeaveWanting` is a counterexample,
  `AllSatisfiedExactlyWhen` gives the condition, and `UnderloadSatisfies` says
  what the total has to do with it.
- `go/server/doorman/server.go:630-633` says that a template is always found,
  because there is one for the star. But a star does not match a slash:
  `SlashFindsNothing` makes the server panic, and `MissingExactlyWhen` says when
  that happens.
- `go/ratelimiter/ratelimiter.go:93-94` aims at subintervals of at least 20 ms,
  and `go/ratelimiter/ratelimiter.go:157-160` at exactly the original rate;
  `SeventyFivePerSecond` has neither. `AimMetExactlyWhen` and
  `KeepsRateExactlyWhenEven` say when they are met.
- `proto/doorman/doorman.proto:158-165` calls a learning mode longer than the
  lease pointless; without a strict handover it is needed.

## Model

| member | source | states |
|---|---|---|
| Sums.SumRemove | go/server/doorman/store.go:203-207 | a sum over the store is the same whichever key a traversal takes first |
| Store.AssignMovesSums | go/server/doorman/store.go:153-164 | writing one lease moves each of the three true sums by the difference to the lease that was there, or to zero |
| Store.ReleaseMovesSums | go/server/doorman/store.go:142-151 | deleting a client takes exactly its lease out of each of the three true sums |
| Store.LeaseStore.Assign | go/server/doorman/store.go:153-167 | only the client's lease changes, and the cached sums stay equal to the sums over the map |
| Store.LeaseStore.Release | go/server/doorman/store.go:142-151 | only the client's lease goes, an unknown client changes nothing, and the cached sums stay true |
| Store.LeaseStore.Clean | go/server/doorman/store.go:169-181 | deleting while iterating in any order leaves exactly the leases with expiry not before now, unchanged, returns how many went, and keeps the sums true |
| Algorithms.RunProportionalShare | go/server/doorman/algorithm.go:213-293 | in every iteration order the grant is the one function of store and request that the lemmas are about; no other lease changes |
| Algorithms.TallyNeeds | go/server/doorman/algorithm.go:256-279 | the traversal yields what all clients leave unclaimed and need beyond their shares, the requesting client counting with its new demand if the store knows it |
| Algorithms.ExtraNeedPositive | go/server/doorman/algorithm.go:223-283 | whenever the top-up is computed its divisor is positive, also for a client that the traversal does not visit or whose demand just changed |
| Algorithms.DividesByZeroExactlyWhen | go/server/doorman/algorithm.go:256-283 | for any capacity, the top-up divides by zero if and only if the client is new and nobody else wants more than its share, which takes a negative capacity |
| Algorithms.FirstClientOfNegativeCapacity | go/server/doorman/algorithm.go:245-291 | a first request to a resource of negative capacity whose grant is not a number |
| Algorithms.RunFairShare | go/server/doorman/algorithm.go:95-206 | in every iteration order of both rounds the grant is the one function of store and request that the lemmas are about; no other lease changes |
| Algorithms.FirstRound | go/server/doorman/algorithm.go:139-171 | the first traversal yields the unclaimed capacity, the competing subclients and the competing clients |
| Algorithms.SecondRound | go/server/doorman/algorithm.go:188-202 | the second traversal yields what competing clients leave below the level and the subclients above it, although it visits only competing clients |
| Algorithms.RunLearn | go/server/doorman/algorithm.go:295-302 | the learner grants what the client claims, whatever the store holds |
| Algorithms.RunStatic | go/server/doorman/algorithm.go:74-84 | each client gets the smaller of the configured capacity and its wants |
| Targets.GuaranteedShare | go/server/doorman/algorithm.go:117-204 | in every branch of both share algorithms, from any store, a grant is at least the smallest of wants, equal share and unused capacity, and at most the unused capacity |
| Proportional.ConservesCapacity | go/server/doorman/algorithm.go:229-283 | when stored wants exceed the capacity, the targets of all clients add up to the capacity exactly |
| Proportional.TargetBetween | go/server/doorman/algorithm.go:208-212 | each target lies between the smaller of wants and equal share, and wants; without overload it is the wants |
| Proportional.TargetsFit | go/server/doorman/algorithm.go:208-212 | the targets of all clients together never exceed the capacity |
| Proportional.NoInversion | go/server/doorman/algorithm.go:245-283 | a client that wants at least as much, for at least as many subclients, has at least as large a target |
| Proportional.TopUpWithinWants | go/server/doorman/algorithm.go:245-283 | a topped-up client's target is within its wants if and only if the demands that the traversal sees cover the shares it computes with |
| Proportional.AnyTopUp | go/server/doorman/algorithm.go:213-283 | for any request, of a new or changed client too, the target is the wants, or the share and that part of its excess that all others leave of all that they need |
| Proportional.NewClientIsToppedUp | go/server/doorman/algorithm.go:245-283 | a new client of 80 among wants of 120 and 10 for 120, whose target is 55 |
| Proportional.AskingTwiceGetsLess | go/server/doorman/algorithm.go:229-283 | a client that asks twice for the same gets 70 and then 50 |
| Proportional.StaleTotalOvershoots | go/server/doorman/algorithm.go:245-283 | a concrete request that lowers its wants while the stored total is stale is aimed above its wants |
| FairShares.LevelOfContender | go/server/doorman/algorithm.go:123-175 | the first-round level of a competing client is the same rate for each of its subclients, from whichever client it is computed |
| FairShares.FirstRoundFits | go/server/doorman/algorithm.go:123-181 | for any numbers of subclients, what the first round admits of all clients' wants is at most the capacity |
| FairSecondRound.TargetCases | go/server/doorman/algorithm.go:126-204 | for any numbers of subclients a target is the wants up to the client's level, and from there the level and a second extra common to equally many subclients, save for ties |
| FairSecondRound.AnyTargetCases | go/server/doorman/algorithm.go:101-204 | the target of any request, of a new client too and of one that changes its demand, goes by the same cases, as if the store knew the demand already |
| FairSecondRound.SumOfTargets | go/server/doorman/algorithm.go:183-204 | what the targets of all clients add up to: the capacity, less what nobody competes for and what is left below the levels, plus what the second round gives |
| FairSecondRound.TargetsFitExactlyWhen | go/server/doorman/algorithm.go:183-204 | for any numbers of subclients the targets fit if and only if the second round gives no more than what is left below the levels or to nobody |
| FairSecondRound.UsefulFitsExactlyWhen | go/server/doorman/algorithm.go:183-204 | for any numbers of subclients the smaller of target and wants, over all clients, fits if and only if what clients can use of the second round is no more than what is left below the levels or to nobody |
| FairSecondRound.SumOfExcess | go/server/doorman/algorithm.go:86-94 | what clients want beyond their levels is, in all, the total wants beyond the capacity and what is left below the levels or to nobody |
| FairSecondRound.AllSatisfiedExactlyWhen | go/server/doorman/algorithm.go:86-94 | everybody's target covers its wants if and only if, for each client above its level, its part by subclients of what is left below the level covers its excess |
| FairSecondRound.NoInversion | go/server/doorman/algorithm.go:126-204 | of two clients with equally many subclients, whatever the others have, who wants at least as much has at least as large a target, ties included |
| FairSecondRound.MixedSubclientsOvershoot | go/server/doorman/algorithm.go:192-204 | with different numbers of subclients the targets can exceed the capacity although nobody is tied |
| FairUniform.SumWithTies | go/server/doorman/algorithm.go:183-204 | with equally many subclients the second round gives what is left below the level to those above it, and to ties once more |
| FairUniform.FitExactlyWhenTiesTakeNothing | go/server/doorman/algorithm.go:183-204 | with equally many subclients the targets fit if and only if nothing is left below the level, or nobody is tied at it, or one client is tied and none is above |
| FairUniform.TiesOvershoot | go/server/doorman/algorithm.go:192-204 | four clients, one of them tied at the level and one above, whose targets exceed the capacity |
| FairUniform.TargetsFitWithoutTies | go/server/doorman/algorithm.go:86-94 | if nobody wants the level exactly the targets fit, and use up the capacity if somebody wants more than the level |
| FairUniform.UsefulTargetsFit | go/server/doorman/algorithm.go:183-204 | with ties too, the smaller of target and wants, over all clients, is at most the capacity |
| FairUniform.UnderloadSatisfies | go/server/doorman/algorithm.go:86-94 | if everybody's target covers its wants, the total fits; and if the total fits, everybody is covered as long as all clients above the level want the same |
| FairUniform.UnderloadMayLeaveWanting | go/server/doorman/algorithm.go:86-94 | four clients whose wants fit the capacity, one of which is aimed below its wants |
| Resources.Resource.constructor | go/server/doorman/resource.go:140-166 | a new resource is empty and learns from the start of the mastership for the configured seconds, or else for one lease length, and not at all if that is not positive |
| Resources.Resource.Decide | go/server/doorman/resource.go:98-113 | a decision drops exactly the expired leases and records the new one with the template's times and the demand of the request; while learning it has what the client claims, and then what the algorithm shares of the capacity, or of zero once the expiry has passed |
| Resources.Resource.LoadConfig | go/server/doorman/resource.go:115-125 | a new template and expiry take effect; leases and the end of the learning mode stay |
| Resources.Resource.Release | go/server/doorman/resource.go:72-78 | only the client's lease goes |
| Resources.Resource.SafeCapacity | go/server/doorman/resource.go:80-96 | the configured safe capacity, or else the part of the capacity that, times the known subclients, gives it back; undefined exactly if there are none |
| Commitment.DecisionBoundsCommitment | go/server/doorman/resource.go:98-113 | after every decision of a share algorithm, from any store, no more than the capacity of the moment is committed |
| Commitment.NegativeExactlyWhenOvercommitted | go/server/doorman/algorithm.go:117-204 | a share algorithm grants a negative amount if and only if others hold more than the capacity |
| Commitment.OvercommittedGrant | go/server/doorman/algorithm.go:117-204 | a store in which another client holds 150 of 100, where both share algorithms grant -50 |
| Commitment.NegativeWantsLend | go/server/doorman/server.go:361-384 | a client with negative wants, which no handler refuses, lets ProportionalShare grant another one 150 of 100 |
| Commitment.DecisionIsNonnegative | go/server/doorman/algorithm.go:117-204 | with nothing overcommitted before, no grant is negative |
| Commitment.RunStaysBounded | go/server/doorman/resource.go:72-113 | over any run of decisions, releases and cleanings that starts with nothing overcommitted and no negative grant, every state is like that |
| Convergence.SteadyStep | go/server/doorman/resource.go:98-113 | a refresh that repeats its demand changes one grant, to the target or as near as the unused capacity allows, and no demand |
| Convergence.Settles | go/server/doorman/algorithm.go:285-291 | if the targets fit, then from any grants, after each client has refreshed once in any order, every later refresh yields its client's target and disturbs no other |
| Convergence.SettlesExactlyWhenTargetsFit | go/server/doorman/algorithm.go:285-291 | two rounds in any order bring all clients to their targets if and only if the targets fit |
| Convergence.ProportionalShareSettles | go/server/doorman/algorithm.go:213-292 | ProportionalShare settles from any grants, even overcommitted ones |
| Convergence.FairShareSettlesExactlyWhen | go/server/doorman/algorithm.go:95-205 | FairShare, for any numbers of subclients, settles in two rounds if and only if its second round gives no more than what is left below the levels or to nobody |
| Configuration.Validate | go/server/doorman/server.go:386-438 | a repository passes if and only if every glob is well formed, every lease lasts for a refresh interval of at least a second, and the star is there once, at the end; otherwise the first entry in error decides |
| Configuration.FindConfig | go/server/doorman/server.go:630-657 | the first entry whose glob is the name, or else the first whose glob matches it; none exactly if no glob is the name or matches |
| Configuration.MissingExactlyWhen | go/server/doorman/server.go:630-657 | a valid repository has no template for a name if and only if the name has a slash and no entry but the star's could apply |
| Configuration.StarIsLastResort | go/server/doorman/server.go:386-387 | where the star matches, its entry applies if and only if no other entry does |
| Configuration.SlashFindsNothing | go/server/doorman/server.go:630-633 | a valid repository and a name for which the server panics |
| Servers.Server.GetOrCreateResource | go/server/doorman/server.go:659-674 | an existing resource is returned as it is; a new one is made for its template and the current mastership, and nothing else changes; without a template the server panics |
| Servers.Server.DecideAll | go/server/doorman/server.go:810-827 | whatever order the goroutines take, state and items are those of serving the requests one after the other in some order |
| Servers.Server.GetCapacity | go/server/doorman/server.go:739-808 | a server that is not the master redirects and changes nothing; the master panics exactly if a new resource has no template, and else serves the requests in some order and answers each resource as often as it is asked for; what is asked for once, or safely again, is told with the capacity, expiry, refresh interval and safe capacity on record, and so is one answer for each resource in any case |
| Servers.Server.ReleaseCapacity | go/server/doorman/server.go:677-723 | the master releases the client from exactly the named resources that it knows; another server redirects and changes nothing |
| Servers.Server.LoadConfig | go/server/doorman/server.go:185-222 | an invalid configuration changes nothing; the first valid one is stored and starts the election; with a later one every known resource takes its own template and expiry, in any order, or the server panics, exactly if one has no template |
| Schedules.OrderDoesNotMatter | go/server/doorman/server.go:790-827 | if no two requests for one resource disagree, any two orders end in the same state with the same multiset of leases |
| Schedules.OrdersAgreeExactlyWhen | go/server/doorman/server.go:810-827 | all orders of a client's requests end in the same state if and only if no two for the same resource differ in wants or subclients, or in the learning mode in the capacity claimed |
| Schedules.SafeCapacityStays | go/server/doorman/server.go:790-806 | once a request is decided, the safe capacity of its resource is defined and further requests of the same message do not move it, so that it does not matter when a response reads it |
| Schedules.ItemStays | go/server/doorman/server.go:810-827 | the lease of a request stays on record to the end unless its resource is asked for again, and then too if the demand is the same, save by ProportionalShare outside the learning mode |
| Wire.WireExpiryIsEarlier | go/server/doorman/server.go:797-801 | a client's record of its lease expires no later than the server's, and less than a second before |
| Clients.Client.BuildRequest | go/client/doorman/client.go:318-327 | a request names every claimed resource exactly once, with the lease on record whether or not it has lapsed |
| Clients.Client.RequestFailed | go/client/doorman/client.go:335-350 | exactly the lapsed leases are given up, and exactly their users will hear of zero; from a full channel the user takes the oldest capacity first |
| Clients.Client.RequestSucceeded | go/client/doorman/client.go:352-397 | leases in the reply replace those on record, each change goes into the channel unless that is full, and the next request comes after the larger of the minimum and the least of an hour and all refresh intervals |
| Clients.LastReplyCounts | go/client/doorman/client.go:352-366 | of the replies for a resource the last one is on record, with all its times, and nothing else changes but the channel |
| Notices.FirstChangesGetThrough | go/client/doorman/client.go:360-378 | of the changes of capacity in any replies exactly the first ones get through, as many as the channel has room for |
| Notices.KeepsUpExactlyWhen | go/client/doorman/client.go:360-378 | a user who knew the capacity knows it after any replies if and only if there was room for all changes, or the last change that got through is the same as the last one; without any change, if and only if there was a lease, or no reply |
| Notices.FirstLeaseUnheard | go/client/doorman/client.go:360-378 | a first lease of capacity -1, which the user never hears of |
| Notices.FullChannelLoses | go/client/doorman/client.go:370-378 | a full channel that ends in 5 and a reply of 3, which the user never hears of |
| Notices.RepliesAreRun | go/client/doorman/client.go:352-378 | the replies of one message do to a resource and its channel what the same replies do as steps of a run |
| Notices.UpToDateThroughoutExactlyWhen | go/client/doorman/client.go:333-378 | over any run that mixes replies, failed requests and users taking capacities, the user is up to date all the time if and only if no reply in it goes unheard |
| Notices.LostStaysLost | go/client/doorman/client.go:333-378 | while replies repeat the capacity and no lease lapses, nothing enters the channel, so that a change that was lost stays lost whatever the user takes |
| Failover.RunKeepsInv | go/server/doorman/server.go:177-183 | in every run under the conditions, all commitments together stay within the capacity, and each usable lease is in the master's store or will lapse while it learns |
| Failover.SoundIsSafe | go/server/doorman/resource.go:149-163 | in every run under the conditions, with any number of mastership changes, the usable leases of all clients stay within the capacity |
| Failover.LearnedEverything | go/server/doorman/resource.go:149-153 | when the learning mode is over, the master's store has every lease that a client can use, for the same capacity and at least as long |
| Failover.LearningCommitsNoMore | go/server/doorman/algorithm.go:295-302 | granting what clients claim commits no more than before |
| FailoverLimits.ShortLearningIsUnsafe | proto/doorman/doorman.proto:158-166 | with a learning mode that does not outlast the lease some run exceeds the capacity |
| FailoverLimits.LostRepliesAreUnsafe | go/client/doorman/client.go:333-350 | if replies can be lost some run exceeds the capacity |
| FailoverLimits.LapsedClaimsAreUnsafe | go/client/doorman/client.go:320-327 | if requests can carry lapsed leases some run exceeds the capacity |
| FailoverLimits.SafeExactlyWhenSound | go/server/doorman/resource.go:149-163 | all runs stay within the capacity if and only if requests carry no lapsed lease, replies arrive, and the configured learning mode is longer than a lease, or, with a strict handover, as long as a lease or left to its default |
| TokenBucket.ReleaseTickIsLeast | go/zxratelimiter/ratelimiter.go:95 | for a debt, the end tick is the least tick by which enough tokens are added |
| TokenBucket.HistoryOnSchedule | go/zxratelimiter/ratelimiter.go:84-148 | over every history release ticks come in call order, and what is granted through a call has accrued by its release tick |
| TokenBucket.RateIsKept | go/zxratelimiter/ratelimiter.go:84-164 | by any tick no more tokens can be used than quantum times that tick |
| TokenBucket.GrantsComeFromBucket | go/zxratelimiter/ratelimiter.go:84-148 | between any two moments of a history, what is granted and what is left is at most what there was, never more than the capacity, and what was added |
| TokenBucket.BurstIsBounded | go/zxratelimiter/ratelimiter.go:84-148 | over any stretch of ticks no more can be used than the larger of the capacity and the largest request, and what is added meanwhile and in one tick |
| TokenBucket.NothingIsLost | go/zxratelimiter/ratelimiter.go:84-148 | unless the bucket overflows, all that is added between two moments of a history is granted or left |
| TokenBucket.ServedReleases | go/zxratelimiter/ratelimiter.go:84-138 | tokens may be used at the first tick by which a debt is covered, and at once if only what is there is taken |
| TokenBucket.Bucket.TakeTokens | go/zxratelimiter/ratelimiter.go:84-103 | a quantum is added for each fill interval, up to the capacity; a call is refused, and takes nothing, if and only if it leaves nothing and the wait until its release tick is too long; otherwise it takes its tokens and waits exactly that long |
| TokenBucket.Bucket.TakeAvailableTokens | go/zxratelimiter/ratelimiter.go:125-138 | what is taken is at most the count, comes out of what is available, never makes a debt, and falls short of the count only if the bucket is emptied |
| QuantumSearch.FindQuantum | go/zxratelimiter/ratelimiter.go:58-73 | the search ends with the first visited quantum that suits the rate, and there is one if the time range is long enough |
| QuantumSearch.LastQuantumSuits | go/zxratelimiter/ratelimiter.go:61-71 | with a long enough time range the last quantum visited is within one percent of the rate |
| QuantumSearch.SuitsExactlyWhen | go/zxratelimiter/ratelimiter.go:61-71 | a quantum suits if and only if quantum per interval, cut to whole nanoseconds, is within one percent of rate per time range |
| QuantumSearch.NewBucketWithRate | go/zxratelimiter/ratelimiter.go:42-73 | a bucket that is made is empty and within one percent of the rate; a bad capacity or a rate that is not positive yields none |
| QpsLimiter.SplitBounds | go/ratelimiter/ratelimiter.go:92-108 | a split loses no permits, its subintervals fit the interval, and none is shorter than 10 ms |
| QpsLimiter.SplitIsExact | go/ratelimiter/ratelimiter.go:92-108 | a split makes as many subintervals as there are permits and whole 20 ms, each as long as its permits take, cut to whole milliseconds |
| QpsLimiter.AimMetExactlyWhen | go/ratelimiter/ratelimiter.go:93-108 | subintervals are of at least 20 ms if and only if what is left over takes no more than what the interval has beyond whole subintervals; for a second, if and only if the number of subintervals divides the rate |
| QpsLimiter.FullCycle | go/ratelimiter/ratelimiter.go:202-217 | a full cycle uses up the leftover before it ends, tries the original rate and one more round, and one permit more only for single permits with a leftover, and starts afresh |
| QpsLimiter.KeepsRateExactlyWhenEven | go/ratelimiter/ratelimiter.go:157-160 | per unit of time a full cycle stays within the original rate if and only if the number of subintervals divides both the rate and the interval |
| QpsLimiter.SeventyFivePerSecond | go/ratelimiter/ratelimiter.go:93-108 | a rate whose subintervals are 13 ms and whose cycle exceeds the rate |
| QpsLimiter.Limiter.Update | go/ratelimiter/ratelimiter.go:115-131 | a new capacity starts a new cycle: unlimited, blocked, single permits at longer intervals, or a split second |
| QpsLimiter.Limiter.WakeUp | go/ratelimiter/ratelimiter.go:202-217 | one wake-up is one step of the cycle that the lemmas are about |
| Estimator.Entries.Clear | go/ratelimiter/adaptive_ratelimiter.go:145-150 | the binary search keeps the entries from an edge between old and young on, which are exactly the young ones if and only if no old entry comes after a young one |
| Estimator.OutOfOrderIsNotExact | go/ratelimiter/adaptive_ratelimiter.go:145-150 | two entries recorded out of order, of which no edge keeps exactly the young one |
| Estimator.WeightOfOneMore | go/ratelimiter/adaptive_ratelimiter.go:161-180 | an entry of a whole seconds adds window length less a to the weighted sum, and none outside the window adds anything |
| Estimator.HistogramIsTotalWeight | go/ratelimiter/adaptive_ratelimiter.go:161-180 | for any entries the histogram sum is the sum over those in the window of window length less age |
| Estimator.Entries.GetWants | go/ratelimiter/adaptive_ratelimiter.go:155-182 | the estimate is the weighted mean of the entries kept, for k of them in n seconds at most 2n / (k + 1), and at least 2 / (k + 1) if entries were recorded in order, none in the future, with a window in whole seconds; undefined without entries |
| ExponentialBackoff.Backoff | go/timeutil/timeutil.go:23-36 | stopping early changes nothing: the delay is the base multiplied for each retry, cut to the maximum and to whole nanoseconds |
| ExponentialBackoff.EachRetryAddsThirtyPercent | go/timeutil/timeutil.go:23-36 | without retries the delay is the base, and each retry makes it thirty percent longer, up to the maximum |
| ExponentialBackoff.MoreRetriesWaitLonger | go/timeutil/timeutil.go:23-24 | more retries never shorten the delay |

## Left out

- Rounding, NaN, infinities and 64-bit overflow: numbers are exact.
- gRPC, protobuf code, etcd election, configuration sources, metrics, status pages and shells: election appears only as gaining and losing mastership.
- Glob syntax: matching is a parameter of the server, of which only what a star matches is taken as known; an entry always has an algorithm, a required field.
- What follows a division of zero by zero: the grant, which is not a number, is an unspecified constant, and later sums over it are not those of the source; `DividesByZeroExactlyWhen` says when it happens.
- Validation of requests: the server never refuses negative wants, since its check of requests is only called from tests; results that need wants not to be negative say so, and `NegativeWantsLend` shows what happens otherwise.
- Servers below other servers: the parent's lease appears as an expiry after which the capacity is zero; the summing of priority bands in a server's request is not modelled, so a request without any band, which would count no subclients, is not either.
- Data races: `ReleaseCapacity` takes the store without the resource's lock; here every operation is one atomic step, and so is a request with its reply in the failover model.
- Changes of template during a failover run: one unchanged template of a share algorithm is taken.
- Retries of requests with their sleeping: they are unbounded and driven by the network.
- Waiting for users: a failed request waits for a user with a full channel; that the user takes a capacity then is taken for granted. Permits are values that a method returns.
- Clients.Client.RequestFailed: the client's record of a resource is a value in its map, not an object of its own, so sharing it with the user is not captured.
- The second copy of the window estimator, which takes the maximum of the histogram instead of a weighted mean.
