# Geonosis in Dafny

A model of the parts of the Geonosis identity provider that carry its guarantees, and proofs of those
guarantees for all inputs, all interleavings and all runs. `dafny verify dfyconfig.toml` checks
everything.

- **Authentication flows** (`Flow*.dfy`). `compile` turns a node and edge list into an index, `step` walks
  it as a state machine, and `dry_run` is a second walker that should decide alike. The dispatcher that
  runs authenticators is untrusted: it is an arbitrary function of the position of the call in the whole
  run, the provider, the state and the input. A step is specified by a loop cut off after `n` iterations;
  the theorems hold for every `n`, and `LoopStable` says that the cut does not matter once it has returned.
- **Caching** (`SingleFlight.dfy`, `LocalCache.dfy`, `CacheKeys.dfy`): request coalescing as a protocol of
  atomic steps, the in-process cache with its side index, and the invalidation payloads.
- **Small protocols**: refresh-token families (`RefreshFamilies.dfy`), brute-force lockout (`Lockout.dfy`),
  the migration leader lock (`MigrationLeader.dfy`), the LDAP pool and breaker (`LdapPool.dfy`).
- **Arithmetic and text**: one-time codes (`Totp.dfy`), decimal notation (`Decimal.dfy`), filter escaping
  (`LdapFilter.dfy`), broker mappers (`BrokerMapper.dfy`).

Objects that the source changes in place are classes whose methods are proved against functions on values;
the lemmas are about those functions. Clock readings, fresh ids, loader and directory answers and database
failures are parameters or nondeterministic steps.

## Where code and comments disagree

The model follows the code. Each item names the lemma with the failing input or run, then the lemma with the
exact condition under which the promise is kept.

- `compile.rs:10` and `dry_run.rs:38-41` say that cycles are rejected. No check does so, and `step` has no
  iteration budget: `CyclesAreAccepted`; `NeverReturnsIffEndless`, `NeverReturnsIffLasso`.
- `compile.rs:7-8` asks for exactly one Success node and a reachable Failure node; the code wants some reachable
  Success node and nothing more: `TerminalsAreNotCounted`; `VerdictStage`.
- `single_flight.rs:65-67` promises one load per miss: `SecondLoadBeforePut`; `OneLoadPerRegistration`,
  `LoadsAgainIffMissed`. A waiter that enters between the leader's send and exit never returns, because it keeps
  a sender of the channel it waits on: `LateWaiterReachable`; `WaiterReturnsIffServed`. A leader dropped in its
  loader leaves its entry for ever: `StrandedReachable`; `StrandedKeyServesOnlyHits`.
- `local.rs:32-33` promises precise prefix invalidation through the side index; a put records and inserts in two
  steps: `LateInsertReachable`; `TurnCoversIff`.
- `brute_force.rs:77-79` promises to count every failure; it reads and writes in two steps: `BurstCountsOnce`;
  `RaceCountsIffNoneStale`.
- `refresh.rs:61-79` does not look at `used` again when it marks the prior token: `RacingRotationsSplitFamily`;
  `MarkKeepsSingleClaimIff`, `ReuseBurnsFamily`.
- `migrate/src/lib.rs:68` says the lock is released no matter what; the result of the unlock is dropped:
  `LeakReachable`; `LeaderProtocol`, `PollingPodReturnsIffNoLeak`.
- `pool.rs:8-9` describes one half-open trial: `ConcurrentTrials`; `HalfOpenTrialsExact`. An empty URL list is
  indexed: `Dial`.
- `mapper.rs:220-226` emits the remaining text twice after an unclosed `${`:
  `UnclosedComesTwice`; `ExpandsProperlyIffClosed`.
- The comment at `config.rs:160` lets bytes outside ASCII through; the code escapes them: `EscapedIsInert`.
  `10u32.pow(10)` does not fit 32 bits: `ModulusFits`, `CodesAgreeIff`.

## Model

| member | source | states |
|---|---|---|
| FlowCompile.Compile | crates/geonosis-flow/src/compile.rs:95-153 | the verdict is the one the definition calls for: the first failing check decides, the first offender in declaration order is named, and an accepted definition comes with a valid index |
| FlowCompile.VerdictUnique | crates/geonosis-flow/src/compile.rs:95-153 | a definition calls for exactly one verdict, so each clause of `Compile` is an equivalence; in particular a well-formed definition gets `NoSuccessReachable` iff no edge path leads from start to a Success node |
| FlowCompile.VerdictStage | crates/geonosis-flow/src/compile.rs:95-153 | which check an answer names is decided by the definition alone, check by check; Ok iff well-formed and a Success node is reachable |
| FlowCompile.IndexNodes | crates/geonosis-flow/src/compile.rs:96-104 | `by_id` is a bijection between node ids and positions, or the first duplicate in declaration order is reported |
| FlowCompile.IndexEdges | crates/geonosis-flow/src/compile.rs:106-115 | each outbound list is exactly the edges from that node in declaration order, or the first edge with an unknown end is reported, its source before its target |
| FlowCompile.CheckTerminals | crates/geonosis-flow/src/compile.rs:117-124 | the first terminal with an outbound edge, or none has one |
| FlowCompile.SearchSuccess | crates/geonosis-flow/src/compile.rs:126-146 | the worklist search answers yes iff a Success node is reachable from start; it ends on every finite graph, cyclic or not, by (unvisited nodes, queue length) |
| FlowCompile.PushTargets | crates/geonosis-flow/src/compile.rs:138-142 | what is pushed is the targets of the edges out of the node, in order; all are reachable and none is missed |
| FlowCompile.IndexUnique | crates/geonosis-flow/src/compile.rs:95-153 | a definition has one valid index |
| FlowCompile.NextWithGuardExact | crates/geonosis-flow/src/compile.rs:73-92 | the lookup read off the definition: first edge in declaration order with the asked label and a passing guard, else the first passing `Otherwise` edge, else nothing |
| FlowCompile.NextIsEdge | crates/geonosis-flow/src/compile.rs:73-92 | a next node is the target of a definition edge out of this node that was eligible, and is in the index |
| FlowCompile.FallbackAbsorbed | crates/geonosis-flow/src/compile.rs:73-92 | the callers' explicit fallback to `Otherwise` never changes the answer |
| FlowCompile.UnguardedNext | crates/geonosis-flow/src/compile.rs:53-92 | with all guards empty `next_with_guard` equals `next`, whatever the context |
| FlowGuard.ResolvePath | crates/geonosis-flow/src/guard.rs:67-73 | the cursor loop finds the value at the end of the dotted path, or nothing if any segment is missing |
| FlowGuard.LocalGuardExact | crates/geonosis-flow/src/guard.rs:34-91 | a guard on `context.locals.<key>` passes iff that local is present and equal up to coercion |
| FlowGuard.ContextGuardExact | crates/geonosis-flow/src/guard.rs:34-73 | a guard on `context.<key>` passes iff the context has that field and it matches; an absent string is null and the client id is no field |
| FlowGuard.GuardIsConjunction | crates/geonosis-flow/src/guard.rs:34-45 | a guard passes iff each of its entries would on its own |
| FlowGuard.OutsidePathFails | crates/geonosis-flow/src/guard.rs:50-73 | a path that does not begin with `context` never passes |
| FlowGuard.JsonEqualsExact | crates/geonosis-flow/src/guard.rs:78-91 | values match iff they are equal or one is a string that spells the other, a number or a boolean |
| FlowGuard.OneNumberPerString | crates/geonosis-flow/src/guard.rs:83-85 | a string matches at most one integer |
| FlowExecutor.FlowState.Step | crates/geonosis-flow/src/executor.rs:119-302 | the in-place loop returns the result and leaves the state that the specification of a step gives |
| FlowExecutor.FlowState.Turn | crates/geonosis-flow/src/executor.rs:131-299 | one turn of the loop, for every node kind and input, as specified |
| FlowExecutor.FlowState.ApplyAnswer | crates/geonosis-flow/src/executor.rs:171-242 | what each answer of an authenticator does to context, history and position |
| FlowExecutor.FlowState.AddAmr | crates/geonosis-flow/src/executor.rs:184-188 | methods are appended in order, skipping those already present |
| FlowExecutor.FlowState.constructor | crates/geonosis-flow/src/state.rs:72-93 | a fresh state stands at the start with nothing gathered and expires after its lifetime |
| FlowExecutor.AdvanceAsked | crates/geonosis-flow/src/executor.rs:131-299 | whatever the node kind, a move goes along the guarded lookup for the label that kind and answer ask for |
| FlowExecutor.LoopStable | crates/geonosis-flow/src/executor.rs:130-301 | once the loop has returned, more iterations would change nothing, so its meaning does not depend on where it is cut off |
| FlowRuns.RunSoundness | crates/geonosis-flow/src/executor.rs:119-302 | over every sequence of calls from start and every dispatcher: the current node is in the index, the nodes walked form a path of definition edges, every edge taken had its guard true at that moment and the outcome its label names, the context is what successes contributed, history only grows |
| FlowRuns.StepSound | crates/geonosis-flow/src/executor.rs:125-302 | an expired state comes back unchanged; any other call keeps the run sound and only adds history |
| FlowRuns.HistoryExact | crates/geonosis-flow/src/executor.rs:171-242 | the history tells, in order, without omission or invention, how each authenticator dispatch that did not pause turned out |
| FlowRuns.GatheredConserves | crates/geonosis-flow/src/executor.rs:178-193 | `amr` never shrinks, stays duplicate-free and holds exactly the initial methods and those logged successes brought; the level is the initial one plus the logged deltas modulo 2^32 |
| FlowRuns.MergeAmrSnoc | crates/geonosis-flow/src/executor.rs:184-188 | methods are taken up from left to right, each at most once |
| FlowLaws.RunContextExact | crates/geonosis-flow/src/executor.rs:189-193 | in every run the user id and each local are those of the last logged success that brought them, else the initial ones; user name, client, requested level and session never change |
| FlowLaws.DoneNamesLastUser | crates/geonosis-flow/src/executor.rs:273-290 | over the whole run `Done` names the user of the last success that brought one |
| FlowLaws.IterationExact | crates/geonosis-flow/src/executor.rs:131-299 | for every node kind, input and answer: which definition edge is taken, in which context, and what is returned when none is or the node stops the walk |
| FlowLaws.StepHistoryExact | crates/geonosis-flow/src/executor.rs:128-298 | an unexpired call adds to the history exactly the entries of its visits, in order, at the time of the call, and marks that time as the last activity |
| FlowLaws.FreshStateLives | crates/geonosis-flow/src/executor.rs:125-128 | a fresh state takes steps until its lifetime is over and is unchanged by those refused after it |
| FlowRuns.AcyclicStepReturns | crates/geonosis-flow/src/executor.rs:130-301 | on an acyclic flow every step, for every input and dispatcher, visits no node twice and returns within as many iterations as there are nodes |
| FlowRuns.CutTheorem | crates/geonosis-flow/src/executor.rs:119-302 | if deleting the Success edges out of a set of authenticators disconnects start from every Success node, every run that yields `Done` contains a dispatch in the set that succeeded |
| FlowRuns.DoneAtSuccess | crates/geonosis-flow/src/executor.rs:273-290 | `Done` is reported only at a Success node and carries the user id of the context at that point |
| FlowRuns.ClosedSetCuts | crates/geonosis-flow/src/executor.rs:119-302 | a set of nodes closed under the remaining edges, with start and without a Success node, witnesses such a cut |
| FlowCutExact.CutExact | crates/geonosis-flow/src/executor.rs:119-302 | guards included: some run of calls that all return is `Done` with no success in the set iff some sequence of answers leads the node and context from start around the set to a Success node |
| FlowCutExact.DoneGivesBypass | crates/geonosis-flow/src/executor.rs:119-302 | a run that evades the set yields such answers, its pauses, inputs and dead ends left out |
| FlowCutExact.BypassEvades | crates/geonosis-flow/src/executor.rs:119-302 | such answers yield a run of returning calls that evades the set |
| FlowCutExact.BypassIffWayAround | crates/geonosis-flow/src/executor.rs:119-302 | without guards such answers exist iff a route in the graph leads around the set, whatever the context |
| FlowCutExact.UnguardedCutExact | crates/geonosis-flow/src/executor.rs:119-302 | without guards the set can be evaded iff the moves the executor can select lead from start around it to a Success node |
| FlowTraces.IterationFollows | crates/geonosis-flow/src/executor.rs:131-299 | one iteration on a submitted form moves node and context as the answer it is given says, and goes on iff that leads on; at a dead end what a success brought is kept |
| FlowTraces.VisitFollows | crates/geonosis-flow/src/executor.rs:131-299 | conversely every visit that moves or succeeds follows its answer |
| FlowCycles.CyclesAreAccepted | crates/geonosis-flow/src/compile.rs:7-153 | a cyclic flow without a Failure node that the compiler accepts and on which a step from start never returns, for every input and every dispatcher |
| FlowCycles.TerminalsAreNotCounted | crates/geonosis-flow/src/compile.rs:7-153 | a flow with two reachable Success nodes and no Failure node that the compiler accepts |
| FlowCycles.NeverReturnsIffEndless | crates/geonosis-flow/src/executor.rs:130-301 | guards included: some input, dispatcher and clock make a step from a given state never return iff some stream of answers moves node and context on from there for ever |
| FlowCycles.EndlessIffLasso | crates/geonosis-flow/src/executor.rs:130-301 | without guards such a stream exists iff the moves the executor can select lead into a circle |
| FlowCycles.NeverReturnsIffLasso | crates/geonosis-flow/src/executor.rs:130-301 | without guards a step from a given state can fail to return iff the graph leads from there into a circle |
| FlowCycles.LongStepHasLasso | crates/geonosis-flow/src/executor.rs:130-301 | without guards a step that outlasts the number of nodes has run into such a circle, so every other step returns within that many iterations |
| FlowCycles.CutOffMoves | crates/geonosis-flow/src/executor.rs:130-301 | a step that has not returned after n iterations has been moved on n times by its answers |
| FlowDryRun.DryRunCompiled | crates/geonosis-flow/src/dry_run.rs:132-266 | the bounded loop computes the walk within 256 rounds |
| FlowDryRun.Walk | crates/geonosis-flow/src/dry_run.rs:132-266 | the same for any budget |
| FlowDryRun.DryRunSimulatesStep | crates/geonosis-flow/src/dry_run.rs:132-266 | against a dispatcher that answers by the pins, one unexpired submitted step visits the same nodes and ends the same way (`Done`, a Failure node, stuck, unfinished) iff the walk meets no Broker; otherwise it pauses at the first Broker after the same nodes |
| FlowDryRun.RoundMatchesIteration | crates/geonosis-flow/src/dry_run.rs:140-258 | one dry-run round and one executor iteration make the same decision outside Broker nodes |
| FlowDryRun.WalkSimulatesLoop | crates/geonosis-flow/src/dry_run.rs:140-265 | the simulation from any state, with any budget, at any point of a run |
| FlowBrokers.DryRunSimulatesPastBrokers | crates/geonosis-flow/src/dry_run.rs:180-256 | past Brokers too: the dry run has the nodes and the ending of a step of the flow with every Broker turned into an authenticator, pinned or assumed to succeed |
| FlowBrokers.ReportTells | crates/geonosis-flow/src/dry_run.rs:140-265 | each step carries the kind of its node, only the last step of a stuck walk is skipped, and the reason names that node |
| FlowBrokers.KindLabelsDistinct | crates/geonosis-flow/src/dry_run.rs:268-282 | labels tell kinds apart |
| FlowDryRun.OverBudgetExact | crates/geonosis-flow/src/dry_run.rs:38-266 | for flows of at most 256 nodes the budget report appears iff the walk comes back to a node it has already left |
| FlowDryRun.LongWalkRevisits | crates/geonosis-flow/src/dry_run.rs:38-42 | a walk of 256 moves over at most 256 nodes repeats one |
| FlowBuiltin.PassableCompiles | crates/geonosis-flow/src/builtin.rs:54-361 | a drawn flow with a trail of edges from start to Success and no edge out of a terminal is accepted, whatever the drawn ids |
| FlowBuiltin.BrowserPassable | crates/geonosis-flow/src/builtin.rs:68-106 | the browser flow has such a trail, hence compiles |
| FlowBuiltin.RegistrationPassable | crates/geonosis-flow/src/builtin.rs:132-153 | so has registration |
| FlowBuiltin.ResetPassable | crates/geonosis-flow/src/builtin.rs:156-190 | so has reset credentials |
| FlowBuiltin.SingleStepPassable | crates/geonosis-flow/src/builtin.rs:109-269 | so have direct grant, first broker login, client authentication and step-up |
| FlowBuiltin.BlocksRuns | crates/geonosis-flow/src/builtin.rs:54-361 | a finite check on a drawn flow is enough for the cut theorem to apply to all its runs |
| FlowBuiltin.BrowserNeedsCookieOrPassword | crates/geonosis-flow/src/builtin.rs:68-106 | no browser run is `Done` unless the cookie or the password authenticator succeeded |
| FlowBuiltinMoves.BrowserNeedsRequiredActions | crates/geonosis-flow/src/builtin.rs:68-106 | every browser run that is `Done` without a cookie came by the required actions |
| FlowBuiltinMoves.BrowserMoves | crates/geonosis-flow/src/builtin.rs:68-106 | where each answer leads: cookie in or to the form, password to the required actions or to failure and not skippable, required actions in however they turn out |
| FlowBuiltinMoves.RegistrationMoves | crates/geonosis-flow/src/builtin.rs:132-153 | form, then password: in, failure, not skippable |
| FlowBuiltinMoves.ResetMoves | crates/geonosis-flow/src/builtin.rs:156-190 | email, magic link, new password in this order; either failing fails the reset, neither is skippable |
| FlowBuiltinMoves.SingleStepMoves | crates/geonosis-flow/src/builtin.rs:109-269 | the one authenticator lets in, fails the flow or is not skippable |
| FlowBuiltinMoves.DrawnNext | crates/geonosis-flow/src/builtin.rs:334-361 | in a drawn and compiled flow a node leads along its first wire with the label, else its first default wire, else nowhere |
| FlowBuiltinMoves.DoneLeavesEnclosure | crates/geonosis-flow/src/executor.rs:119-302 | a set of nodes that is left only by successes at some authenticators or from given nodes: every run that is `Done` had such a success or visited such a node |
| FlowBuiltin.RegistrationNeedsPassword | crates/geonosis-flow/src/builtin.rs:132-153 | no registration run is `Done` unless the password step succeeded |
| FlowBuiltin.ResetNeedsMagicLinkAndPassword | crates/geonosis-flow/src/builtin.rs:156-190 | no reset run is `Done` unless both magic link and password succeeded |
| FlowBuiltin.SingleStepNeedsItsAuthenticator | crates/geonosis-flow/src/builtin.rs:109-269 | a flow of the shape shared by the four one-authenticator flows needs its authenticator |
| FlowBuiltin.DirectGrantNeedsPassword | crates/geonosis-flow/src/builtin.rs:109-128 | no direct grant run is `Done` unless the password authenticator succeeded |
| FlowBuiltin.FirstBrokerLoginNeedsRedirect | crates/geonosis-flow/src/builtin.rs:194-213 | no first broker login is `Done` unless the redirect to the identity provider succeeded |
| FlowBuiltin.ClientAuthenticationNeedsClient | crates/geonosis-flow/src/builtin.rs:219-242 | no client authentication is `Done` unless the client authenticator succeeded |
| FlowBuiltin.StepUpNeedsOtp | crates/geonosis-flow/src/builtin.rs:250-269 | no step-up is `Done` unless the one-time code succeeded |
| SingleFlight.RunsAreOrderly | crates/geonosis-cache/src/single_flight.rs:41-145 | in every interleaving of any number of callers, dropped calls included: a key is registered exactly while one caller for it has entered as leader and not exited, that caller is the only one, a channel carries at most one message, and a waiter that returned got its leader's result as it came over the wire |
| SingleFlight.CompletedRunsRegisterInFlight | crates/geonosis-cache/src/single_flight.rs:41-145 | if no call is dropped, a key is registered exactly while a caller for it is between enter and exit |
| SingleFlight.OneLoadPerRegistration | crates/geonosis-cache/src/single_flight.rs:107-119 | along every run the loads of a key are exactly as many as the registrations of that key whose leader has its result |
| SingleFlight.LoadsAgainIffMissed | crates/geonosis-cache/src/single_flight.rs:101-123 | with serialization that round-trips, the key stored and nobody registered for it: some continuation without eviction loads it again iff some caller had missed before |
| SingleFlight.PutStores | crates/geonosis-cache/src/single_flight.rs:120-122 | with serialization that round-trips, a put makes its key look up as the loaded value and changes no other key; a loader error changes nothing |
| SingleFlight.HitsExact | crates/geonosis-cache/src/single_flight.rs:101-122 | in every run without eviction: once a leader has returned Ok its key looks up as some value, and every hit returned a value stored to begin with or loaded by a leader of that key |
| SingleFlight.LaterCallsHit | crates/geonosis-cache/src/single_flight.rs:101-104 | so whoever asks for the key after that returns at once with such a value |
| SingleFlight.LookupExact | crates/geonosis-cache/src/single_flight.rs:101-104 | a stored entry that does not decode counts as a miss |
| SingleFlight.StepKeepsInv | crates/geonosis-cache/src/single_flight.rs:41-145 | each atomic step keeps the invariant behind this |
| SingleFlight.ExitRemovesOwnEntry | crates/geonosis-cache/src/single_flight.rs:59-62 | exit removes the entry this leader made, never another's |
| SingleFlight.WaiterReturnsLeadersValue | crates/geonosis-cache/src/single_flight.rs:124-131 | with serialization that round-trips, a waiter returns its leader's own value or error |
| SingleFlight.WaiterReturnsIffServed | crates/geonosis-cache/src/single_flight.rs:107-144 | a waiter can ever return iff it subscribed before its leader's send and that leader was not dropped in its loader |
| SingleFlight.StrandedKeyServesOnlyHits | crates/geonosis-cache/src/single_flight.rs:49-62 | after a leader was dropped in its loader, a later caller for the key can return iff its lookup hits |
| SingleFlight.StrandedReachable | crates/geonosis-cache/src/single_flight.rs:106-119 | an interleaving in which a key is left so |
| SingleFlight.LostNeverReturns | crates/geonosis-cache/src/single_flight.rs:118-144 | a caller that waits for a message that has gone or will never come, or is about to, never returns whatever anybody does |
| SingleFlight.LateWaiterReachable | crates/geonosis-cache/src/single_flight.rs:118-119 | an interleaving in which that happens |
| SingleFlight.EarlyWaiterCanReturn | crates/geonosis-cache/src/single_flight.rs:124-131 | from every reachable state a waiter that subscribed in time can come to return |
| SingleFlight.NeverClosed | crates/geonosis-cache/src/single_flight.rs:132-143 | the fallback for a closed channel is unreachable, because a waiter holds a sender of its own channel |
| SingleFlight.SecondLoadBeforePut | crates/geonosis-cache/src/single_flight.rs:118-121 | for every key and every two results, a run without eviction in which the key is loaded twice |
| SingleFlight.Coalescer.LookUp | crates/geonosis-cache/src/single_flight.rs:101-104 | a hit returns without touching the registry |
| SingleFlight.Coalescer.EnterRegistry | crates/geonosis-cache/src/single_flight.rs:41-57 | leader iff the key was not registered; keeps the invariant |
| SingleFlight.Coalescer.SendResult | crates/geonosis-cache/src/single_flight.rs:112-118 | the encoded result goes to whoever has subscribed; keeps the invariant |
| SingleFlight.Coalescer.ExitRegistry | crates/geonosis-cache/src/single_flight.rs:59-62 | drops the key from the registry; keeps the invariant |
| SingleFlight.Coalescer.PutAndReturn | crates/geonosis-cache/src/single_flight.rs:120-122 | stores a loaded value and returns it; an error is returned without storing |
| SingleFlight.Coalescer.DropCall | crates/geonosis-cache/src/single_flight.rs:102-137 | a dropped call keeps the invariant and leaves registry, channels and cache alone |
| SingleFlight.Coalescer.ReceiveResult | crates/geonosis-cache/src/single_flight.rs:124-131 | takes the one message and returns what it decodes to |
| LocalCache.RunRefinesPlainMap | crates/geonosis-cache/src/local.rs:62-120 | over every run of puts, negative puts, invalidations, prefix invalidations and evictions, each live key is listed in its own bucket and holds what a plain map would hold |
| LocalCache.StepRefines | crates/geonosis-cache/src/local.rs:62-120 | each operation keeps this |
| LocalCache.RunWithoutEvictionLosesNothing | crates/geonosis-cache/src/local.rs:98-119 | without evictions the live map holds all the plain map holds |
| LocalCache.PrefixInvalidationExact | crates/geonosis-cache/src/local.rs:115-119 | prefix invalidation leaves no live key of that realm and class and touches no other |
| LocalCache.PublishedKeyIsDropped | crates/geonosis-cache/src/listen.rs:107-133 | a peer applying a published key payload drops the key and changes nothing outside its realm and class |
| LocalCache.TurnCoversIff | crates/geonosis-cache/src/local.rs:98-119 | under interleaving, a turn keeps a key listed or about to be removed iff it is not an insertion whose key was taken out of the index and removed since it was recorded |
| LocalCache.TimelyRunsCover | crates/geonosis-cache/src/local.rs:98-119 | in every interleaving without such an insertion of it, a key is covered all along |
| LocalCache.QuietMeansListed | crates/geonosis-cache/src/local.rs:98-119 | and once all operations are done, invalidating its class finds it |
| LocalCache.LateInsertReachable | crates/geonosis-cache/src/local.rs:101-118 | a prefix invalidation between the two halves of a put leaves a live key that invalidating its class does not find |
| LocalCache.PrefixFindsIffListed | crates/geonosis-cache/src/local.rs:115-119 | a live key is found by invalidating its class iff it is listed |
| LocalCache.Cache.GetRaw | crates/geonosis-cache/src/local.rs:88-96 | returns what is live and counts one hit or one miss accordingly |
| LocalCache.Cache.RecordKey | crates/geonosis-cache/src/local.rs:63-68 | appends the printed key to its bucket |
| LocalCache.Cache.PutRaw | crates/geonosis-cache/src/local.rs:98-103 | new live entry and new index entry, nothing else |
| LocalCache.Cache.PutNegative | crates/geonosis-cache/src/local.rs:105-108 | stores the empty marker, indexed like any entry |
| LocalCache.Cache.Invalidate | crates/geonosis-cache/src/local.rs:70-113 | the key goes from map and bucket |
| LocalCache.Cache.InvalidatePrefix | crates/geonosis-cache/src/local.rs:79-119 | everything the bucket listed goes, and the bucket |
| LocalCache.Cache.Apply | crates/geonosis-cache/src/listen.rs:107-133 | a payload invalidates the prefix it names, or does nothing |
| CacheKeys.KeyPayloadRoutes | crates/geonosis-cache/src/listen.rs:136-193 | the published payload of a key names exactly its realm and class, even if the id contains colons |
| CacheKeys.PrefixPayloadRoutes | crates/geonosis-cache/src/listen.rs:145-207 | the published payload of a prefix names exactly that prefix |
| CacheKeys.RouteSound | crates/geonosis-cache/src/listen.rs:107-175 | only `k:` or `p:` with `g:`, a realm and a known class is acted on |
| CacheKeys.PrintKeyInjective | crates/geonosis-cache/src/key.rs:70-79 | printed keys determine realm, class and id |
| CacheKeys.FieldsRoundTrip | crates/geonosis-cache/src/listen.rs:136-175 | the realm and class fields parse back whatever follows them |
| CacheKeys.ClassRoundTrip | crates/geonosis-cache/src/key.rs:31-51 | class names parse back and contain no colon |
| CacheKeys.RealmRoundTrip | crates/geonosis-cache/src/listen.rs:153-155 | realm ids parse back from their 26 base-32 digits |
| Lockout.DelayBound | crates/geonosis-authenticators/src/brute_force.rs:93-123 | attempt M+k that passes the gate comes at least the sum of min(j*increment, cap), j=1..k, after attempt M |
| Lockout.CounterExact | crates/geonosis-authenticators/src/brute_force.rs:93-123 | along such a run the counter counts the attempts and, from the threshold on, each sets the next longer lock |
| Lockout.AttemptAnswers | crates/geonosis-authenticators/src/password.rs:47-105 | every answer read off row, clock and hash: success iff enabled, not locked, a password set and matching; locked iff enabled and the lock ends after now; and so on |
| Lockout.RunAnswers | crates/geonosis-authenticators/src/password.rs:68-103 | in every run an attempt succeeds iff the password was right and the row the attempts before left was enabled and not locked |
| Lockout.LockHolds | crates/geonosis-authenticators/src/password.rs:68-74 | while a lock lasts every attempt is answered Locked, right password or not, and the row stays as it is |
| Lockout.AttemptLeaves | crates/geonosis-authenticators/src/password.rs:81-105 | only a mismatch counts, a success leaves a clean row, and the account's own settings are never touched |
| Lockout.PermanentLockHolds | crates/geonosis-authenticators/src/brute_force.rs:117-122 | under permanent lockout the failure that reaches the threshold shuts the account for a century |
| Lockout.DisabledPolicyNeverLocks | crates/geonosis-authenticators/src/brute_force.rs:105-123 | a policy that is not enabled never locks anybody |
| Lockout.DelayConfigured | crates/geonosis-authenticators/src/brute_force.rs:95-116 | waits and reset window are the configured ones, with their fallbacks for durations out of range |
| Lockout.ReachableRowsBounded | crates/geonosis-authenticators/src/brute_force.rs:81-130 | unless lockout is permanent, in every reachable row `locked_until` <= `last_failed_at` + `max_wait` |
| Lockout.RefusedAttemptsDoNotCount | crates/geonosis-authenticators/src/password.rs:68-103 | attempts the gate refuses change nothing, so only those that pass it matter |
| Lockout.SpacedAttemptsNeverLock | crates/geonosis-authenticators/src/brute_force.rs:93-102 | wrong passwords spaced beyond the reset window never lock an account whose threshold is above one |
| Lockout.RaceCountsIffNoneStale | crates/geonosis-authenticators/src/brute_force.rs:88-128 | wrong attempts interleaved at their storage calls, within the reset window, are counted one by one iff no write goes back over another written since its read; the counter never runs ahead |
| Lockout.FreshRaceIsSerial | crates/geonosis-authenticators/src/brute_force.rs:88-128 | without such writes the row is the one the writes make one after the other, resets and locks included |
| Lockout.BurstCountsOnce | crates/geonosis-authenticators/src/password.rs:70-101 | however many wrong attempts race past the gate, a run exists in which all are looked at and written and the row is as after one failure |
| Lockout.Store.CheckLocked | crates/geonosis-authenticators/src/brute_force.rs:35-51 | an error with the end of the lock iff the lock lies in the future |
| Lockout.Store.RecordSuccess | crates/geonosis-authenticators/src/brute_force.rs:55-75 | the row is clean afterwards and no other row changes |
| Lockout.Store.RecordFailure | crates/geonosis-authenticators/src/brute_force.rs:81-130 | the row afterwards, no other changed |
| Lockout.Store.Process | crates/geonosis-authenticators/src/password.rs:24-106 | form shown, field missing, or gate before hash before bookkeeping: the outcome and the row of one attempt, other rows untouched |
| RefreshFamilies.SequentialSingleToken | crates/geonosis-protocol-oauth/src/refresh.rs:33-79 | served one by one, requests possibly stopping between the two rotation writes: each family has at most one unused token |
| RefreshFamilies.SequentialReuseIsFinal | crates/geonosis-protocol-oauth/src/refresh.rs:33-79 | presenting a used, unexpired token ends the family: nothing ever issued in it validates again |
| RefreshFamilies.PromptRunsKeepSingleClaim | crates/geonosis-protocol-oauth/src/refresh.rs:33-79 | under interleaving, at most one unused token or half-done rotation per family as long as no mark comes late |
| RefreshFamilies.StepKeepsSingleClaim | crates/geonosis-protocol-oauth/src/refresh.rs:33-79 | no other storage call can give a family a second claim |
| RefreshFamilies.MarkKeepsSingleClaimIff | crates/geonosis-protocol-oauth/src/refresh.rs:61-79 | a mark keeps it iff the token is gone, still unused, or nothing else has a claim on the family |
| RefreshFamilies.RacingRotationsSplitFamily | crates/geonosis-protocol-oauth/src/refresh.rs:61-79 | two requests that validate before either marks leave two unused tokens |
| RefreshFamilies.ReuseBurnsFamily | crates/geonosis-protocol-oauth/src/refresh.rs:46-53 | revoking the family of a replayed token empties it, and it stays empty in every interleaving iff at the revoke no rotation in it was between its two writes |
| RefreshFamilies.ReuseIsNoticed | crates/geonosis-protocol-oauth/src/refresh.rs:39-50 | presenting a used, unexpired token sets out to revoke its family and changes nothing else |
| RefreshFamilies.ValidateExact | crates/geonosis-protocol-oauth/src/refresh.rs:33-55 | a request gets to hold a token iff it is the stored one it presented, unused and unexpired then; an unknown or expired token, used or not, changes nothing |
| RefreshFamilies.OnlyPresentedTokensRotate | crates/geonosis-protocol-oauth/src/refresh.rs:33-79 | in every interleaving a mark is only of a token that was unused and unexpired when its request presented it |
| RefreshFamilies.RotationHandsOver | crates/geonosis-protocol-oauth/src/refresh.rs:61-79 | after a rotation the replacement validates, the prior token is a replay and every other token answers as before |
| RefreshFamilies.DeadStaysDead | crates/geonosis-protocol-oauth/src/refresh.rs:33-79 | a family burned with no rotation under way never comes back |
| RefreshFamilies.BurnedSecretsNeverValidate | crates/geonosis-protocol-oauth/src/refresh.rs:33-55 | no secret issued in it validates |
| RefreshFamilies.StepCoherent | crates/geonosis-storage/src/memory.rs:388-421 | every storage call keeps tokens, family index and issued ids consistent |
| RefreshFamilies.TokenStore.ValidateRefresh | crates/geonosis-protocol-oauth/src/refresh.rs:33-55 | the token iff it is stored, unused and unexpired; reuse iff used and unexpired, which removes exactly its family; the store changes on nothing else |
| RefreshFamilies.TokenStore.RotateRefreshToken | crates/geonosis-protocol-oauth/src/refresh.rs:61-79 | prior marked and replacement saved, or nothing changed if the prior is gone |
| RefreshFamilies.TokenStore.RevokeTokenFamily | crates/geonosis-storage/src/memory.rs:413-421 | exactly the tokens of the family are removed |
| RefreshFamilies.TokenStore.SaveRefreshToken | crates/geonosis-storage/src/memory.rs:388-396 | the token is stored and listed in its family |
| RefreshFamilies.TokenStore.MarkRefreshUsed | crates/geonosis-storage/src/memory.rs:406-411 | marks a stored token; `used` is not looked at |
| MigrationLeader.LeaderProtocol | crates/geonosis-migrate/src/lib.rs:45-75 | in every interleaving of any number of pods: at most one is between lock and unlock, what is applied is always a duplicate-free initial part of the list, a pod that returned Ok leaves the whole list applied, and a pod that returned holds the lock iff its unlock failed and its session is open |
| MigrationLeader.StepKeepsInv | crates/geonosis-migrate/src/lib.rs:45-75 | each step keeps the invariant behind this |
| MigrationLeader.LeakReachable | crates/geonosis-migrate/src/lib.rs:68-74 | on every migration list some run ends with a pod that returned Ok and still holds the lock |
| MigrationLeader.LeakShutsOut | crates/geonosis-migrate/src/lib.rs:51-74 | until a session is closed such a lock keeps everybody out: nothing more is applied and no pod leaves its polling except by giving up or crashing |
| MigrationLeader.PollingPodReturnsIffNoLeak | crates/geonosis-migrate/src/lib.rs:51-75 | from every state that satisfies the invariant a polling pod can come to return Ok without a session being closed iff no lock was left behind |
| MigrationLeader.Database.RunWithLeaderLock | crates/geonosis-migrate/src/lib.rs:45-75 | times out iff every poll up to the deadline finds the lock taken, fails on the query iff the first poll that does not is an error, holds the lock afterwards iff it got it and the unlock failed, and Ok means all applied |
| MigrationLeader.Database.RunAsLeader | crates/geonosis-migrate/src/lib.rs:66-75 | run, try to unlock either way, report the run |
| MigrationLeader.Database.RunMigrations | crates/geonosis-migrate/src/lib.rs:66-66 | applies what is missing in order; on failure exactly the part before it is applied |
| MigrationLeader.Database.TryAdvisoryLock | crates/geonosis-migrate/src/lib.rs:53-59 | acquired iff free |
| LdapPool.PoolRunsSound | crates/geonosis-federation-ldap/src/pool.rs:44-144 | in every interleaving: Closed iff fewer than 5 consecutive failures, an opening time iff not Closed, backoff within 500 ms and 60 s, dialing plus held connections at most max(pool_size, 1), every other permit free |
| LdapPool.CountsInARow | crates/geonosis-federation-ldap/src/pool.rs:54-68 | in every interleaving the breaker counts the failures since the last success, and the backoff is 500 ms doubled from the fifth failure on, up to 60 s |
| LdapPool.StepKeepsInv | crates/geonosis-federation-ldap/src/pool.rs:44-144 | each step keeps the invariant behind this |
| LdapPool.OpenBreakerAdmitsNobody | crates/geonosis-federation-ldap/src/pool.rs:70-122 | within 30 s of opening, and until a dial already under way succeeds, nobody new gets through |
| LdapPool.HalfOpenTrialsExact | crates/geonosis-federation-ldap/src/pool.rs:70-129 | in every interleaving a half-open breaker has at most m simultaneous trials iff the pool size is at most m; a single trial is guaranteed iff the pool holds one connection |
| LdapPool.ConcurrentTrials | crates/geonosis-federation-ldap/src/pool.rs:70-129 | for every n up to the pool size, a run that stands half open with n acquires dialing |
| LdapPool.Breaker.RecordFailure | crates/geonosis-federation-ldap/src/pool.rs:54-61 | the breaker after a failure, sound |
| LdapPool.Breaker.RecordSuccess | crates/geonosis-federation-ldap/src/pool.rs:63-68 | back to the initial breaker |
| LdapPool.Breaker.TryHalfOpen | crates/geonosis-federation-ldap/src/pool.rs:70-81 | admission and the new state, sound |
| LdapPool.Dialer.Dial | crates/geonosis-federation-ldap/src/pool.rs:146-161 | on a non-empty list tries each URL at most once, in rotation; succeeds iff the last one tried answers; fails only if every URL was tried; indexes out of bounds iff the list is empty |
| LdapPool.PositionIs | crates/geonosis-federation-ldap/src/pool.rs:148-151 | the rotation without the modulus: onwards from the start, then round |
| LdapPool.PositionsCover | crates/geonosis-federation-ldap/src/pool.rs:148-151 | every URL comes up at one of the offsets |
| LdapFilter.EscapeFilter | crates/geonosis-federation-ldap/src/config.rs:150-165 | the loop computes the escaped value |
| LdapFilter.UnescapeEscape | crates/geonosis-federation-ldap/src/config.rs:150-165 | reading the escaped value as RFC 4515 does gives back the original bytes |
| LdapFilter.EscapedIsInert | crates/geonosis-federation-ldap/src/config.rs:150-165 | the escaped value has no bare `*`, `(`, `)` or NUL and is ASCII |
| LdapFilter.PlainTextUnchanged | crates/geonosis-federation-ldap/src/config.rs:152-163 | ASCII text without reserved bytes is left as it is |
| LdapFilter.FirstPlaceholderReplaced | crates/geonosis-federation-ldap/src/config.rs:53-56 | the first `{username}` gives way to the escaped name, what stands before it stays, and the rest is rendered likewise |
| LdapFilter.NothingToReplace | crates/geonosis-federation-ldap/src/config.rs:53-56 | a template without the placeholder is rendered as it stands |
| LdapFilter.UserNameCannotReshapeFilter | crates/geonosis-federation-ldap/src/config.rs:53-56 | the rendered filter has the parentheses and wildcards of the configured one, in order, and none from the user name |
| Totp.VerifyTotp | crates/geonosis-authenticators/src/otp.rs:159-183 | for every 64-bit clock accepts iff some step of the window, in signed 64-bit arithmetic clamped at zero, prints the candidate; error iff the digits are outside 6..10 |
| Totp.StepAtIs | crates/geonosis-authenticators/src/otp.rs:168-172 | as long as nothing overflows those steps are the plain ones |
| Totp.ScanWindow | crates/geonosis-authenticators/src/otp.rs:169-182 | the loop over the window finds a match iff there is one |
| Totp.CodeSpells | crates/geonosis-authenticators/src/otp.rs:173-177 | a code has the configured number of digits and spells the truncated value modulo the code space |
| Totp.ExampleCode | crates/geonosis-authenticators/src/otp.rs:187-226 | the MAC in the example of section 5.4 of RFC 4226 prints as 872921 |
| Totp.TruncateIsLow31Bits | crates/geonosis-authenticators/src/otp.rs:220-226 | truncation is the low 31 bits of the four bytes, from where the low four bits of the last byte point, read as one big-endian number |
| Totp.Offset | crates/geonosis-authenticators/src/otp.rs:220-226 | the four bytes begin inside the MAC, wherever its last byte points |
| Totp.PaddedInjective | crates/geonosis-authenticators/src/otp.rs:187-195 | zero-padded printing is injective below 10^digits |
| Totp.CodesAgreeIff | crates/geonosis-authenticators/src/otp.rs:187-195 | two steps print the same code iff their truncated values agree modulo the 32-bit code space, which is 10^digits up to nine digits |
| Totp.GeneratedCodesVerify | crates/geonosis-authenticators/src/otp.rs:159-195 | a generated code verifies as long as the clocks are within the window |
| Totp.ModulusFits | crates/geonosis-authenticators/src/otp.rs:187-195 | the 32-bit modulus is 10^digits iff there are at most nine digits, and never zero |
| BrokerMapper.OrderOfListingIrrelevant | crates/geonosis-broker/src/mapper.rs:123-129 | with pairwise distinct priorities the mapped draft is the same for every permutation of the bindings |
| BrokerMapper.SortLaws | crates/geonosis-broker/src/mapper.rs:123-129 | the order of application is ascending priority, a permutation of the list |
| BrokerMapper.SortStable | crates/geonosis-broker/src/mapper.rs:123-129 | bindings of equal priority keep their order |
| BrokerMapper.PipelineRoles | crates/geonosis-broker/src/mapper.rs:123-186 | after the whole pipeline roles and organization aliases are duplicate-free, none is taken away, and they are exactly the initial ones and those some listed binding adds |
| BrokerMapper.PipelineExact | crates/geonosis-broker/src/mapper.rs:123-186 | after the whole pipeline an attribute is that of the last overwriting mapper, else the initial one, else that of the first to write it; the user name is that of the last template that expands to something; the email stays and its flag follows the claim; a new organization has the role of the first binding that joins it |
| BrokerMapper.ClaimMatchesExact | crates/geonosis-broker/src/mapper.rs:188-206 | a claim matches iff one of its texts is asked for or, when all must match, every text of a textual claim is |
| BrokerMapper.RenderExact | crates/geonosis-broker/src/mapper.rs:229-240 | integers are written in decimal, texts as they are, a list as its first text, null as nothing |
| Decimal.PrintIntReadsBack | crates/geonosis-broker/src/mapper.rs:229-240 | a printed integer reads back as itself |
| BrokerMapper.ExpandTemplate | crates/geonosis-broker/src/mapper.rs:208-227 | the loop computes the specified expansion, unclosed `${` included |
| BrokerMapper.PlaceholderLaw | crates/geonosis-broker/src/mapper.rs:208-227 | a closed placeholder gives way to its claim and the rest is expanded likewise |
| BrokerMapper.ExpandsProperlyIffClosed | crates/geonosis-broker/src/mapper.rs:208-227 | the expansion leaves everything but closed placeholders as it stands iff no `${` is unclosed |
| BrokerMapper.UnclosedComesTwice | crates/geonosis-broker/src/mapper.rs:220-226 | a text whose first `${` is never closed comes out twice |
| BrokerMapper.DraftUser.Map | crates/geonosis-broker/src/mapper.rs:131-186 | what one mapper does to the draft |
| BrokerMapper.DraftUser.MapAll | crates/geonosis-broker/src/mapper.rs:123-129 | the draft after sorting and applying all |

## Left out

- FlowExecutor.FlowState.Step: requires that some number of iterations suffices, since the source loop has no budget; `AcyclicStepReturns` and `NeverReturnsIffEndless` say when that holds.
- FlowRuns.DoneAtSuccess: says which user id `Done` carries; parsing it into a subject, with a random id when it does not parse, is not modelled.
- RefreshFamilies.SequentialReuseIsFinal: takes ids as drawn fresh, which is collision-freedom of the keyed hash, and the revoke as reaching the store.
- Totp.VerifyTotp: takes a positive period, since the source divides by it, and sums that wrap, as in a build without overflow checks.
- Lockout.DelayBound: counts fewer than 2^31 attempts and unbounded products of durations; the source stops on a 64-bit overflow.
- Lockout.RaceCountsIffNoneStale: races wrong attempts only; a success racing with failures is not modelled.
- CacheKeys.RouteSound: realm ids parse only in the form printing gives; the identifier library's reading of other spellings is not part of this model.
- Clock: one reading per step, where the source reads it again for every history entry.
- Wording of dry-run messages, layout, metadata and configuration fields of nodes, and JSON floats in guards.
- The storage layer is the in-memory one; SQL, row locking and the failure of storage calls inside the lockout and refresh code are not modelled.
- Checks of the migration library beyond the list of applied versions are folded into a run that fails; the 60-second deadline is a nondeterministic give-up or a number of polls.
- Time to live and the eviction policy of the cache are an arbitrary eviction step.
- UI, HTTP, webhooks, CLI, LDAP and database wire formats, JWT, WebAuthn, hashing, SAML and SCIM: interfaces to libraries, or plain data.
- LDAP sync and search, audit, retention, i18n: they would only add easy members.
