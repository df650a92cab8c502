# Verification of the quota gateway

The gateway sells a daily token allowance. One durable object per pool and UTC day keeps the books: what is
reserved, uncertain and confirmed, who holds an in-flight lease, and which relay grants were handed out. Everything
else is a client of that object over calls that can fail. This project models the object and its clients and proves
what they keep over whole runs.

The project has four layers.

- **The object.** `QuotaLedger` gives every RPC as one step on plain values; it has no token counters. `Controller` is
  the class the durable object is: it keeps the counters, patches them with `Max(0, ...)`, and each of its methods is
  proved to act as the step of the same name while `Valid` says that the counters are the sums over the entries. That
  is the conservation law, and it is why no clamp ever changes a value. `LedgerBooks` says what
  the calls move between the columns of the books, `LedgerRuns` proves the joint invariant of entries, leases, grants
  and idempotency mappings for every step, `LedgerHistory` the theorems about runs. `LedgerLeases`, `LedgerOutcomes` and
  `GrantOutcomes` say for every call, in every state that can be reached, what it answers and what it leaves behind,
  in terms of the records and not of the code: which leases are in the list, what a grant says, who is refused and why.
- **The protocols around it.** `QuotaStub`, `Proxy` and `StreamProxy` drive a real controller, which goes on serving
  other callers, over calls that may be lost before or after they are applied. `RelayHandler` does the same for the
  Deno relay. `CpuGateSlot` and `ManualReconciliation` are step machines over several objects; each step is one
  transaction and any of them may be the last.
- **The streams.** `MarkerReplacement`, `PreparedPreflight`, `EventSplitter` and `RingTail` are proved against a
  description of the whole text, so that where the chunks are cut does not matter, or matters exactly when stated.
- **The text formats.** `RelayJson` (RFC 8259 sections 2 and 7, RFC 8785 strings), `RelayCredential` (canonical
  claims), `Base64Url` (RFC 4648 sections 3.5, 4 and 5), `RelayToken`, `Normalize` with `NormalizeEffects`, and the
  arithmetic of `TokenBudget`.

Time is an argument of every step; only lease expiry needs it not to run back, and says so. Methods choose with `*`
whatever the network, the upstream or another caller may do, so a postcondition holds for every such choice.

## Results that are not simply "it holds"

- Two kinds of successful non-stream answers leave a request reserved and its lease not given back: one whose JSON
  text is `null`, on which reading `usage` throws, and one whose `total_tokens` is not a safe non-negative integer, which
  `settle` refuses. Either way the promise of `handleCompletedUpstream`, returned without `await`, is rejected past the
  catch of `handleProxy`. `Proxy.ProxyRun.HandleProxy` proves that when no call is lost and the answer is not streamed
  these are exactly the failing answers (`Strands`); `Proxy.NullBodyStrands` and `Proxy.UnsafeTotalStrands` are the two
  inputs. The stream path closes its books on such totals (`StreamProxy.StreamRun.Finalize`).
- Whether the prefix preflight succeeds can depend on chunking. `PreparedPreflight.ReadinessIgnoresTheCut` gives the
  exact condition under which it does not: either no cut can succeed or every cut does.
  `PreparedPreflight.ReadinessDependsOnTheCut` is an input for which it does.
- Usage extraction stops at the first chunk that yields a usage; the result depends on chunking exactly when two
  complete events carry different usages (`EventSplitter.UsageHoweverCut`).
- `finalizeDay` discards nothing live if no other finalizer is between its flag and its `deleteAll`, and otherwise it
  may (`LedgerHistory.FinalizerIsSafeExactlyAlone`); the run that loses a reservation exists in every state
  (`LedgerHistory.TwoFinalizersLoseWork`).

## Model

| member | source | states |
|---|---|---|
| Controller.QuotaController.Reserve | durable-objects/quota-controller/src/quota-controller.ts:113-221 | `reserve` acts as the ledger step, and the counters still equal the sums over the entries |
| Controller.QuotaController.ApplyTransition | durable-objects/quota-controller/src/quota-lifecycle.ts:88-283 | settle, markUncertain, release and reconcile move an entry as the ledger does and keep the counters exact |
| Controller.QuotaController.PatchCounters | durable-objects/quota-controller/src/quota-lifecycle.ts:88-370 | each branch changes the counters by exactly the difference between the old and the new entry's weights; no clamp bites |
| Controller.QuotaController.Settle | durable-objects/quota-controller/src/quota-lifecycle.ts:315-322 | an unsafe total is refused without any change; otherwise the settle step |
| Controller.QuotaController.AcquireInFlight | durable-objects/quota-controller/src/store.ts:196-222 | a live lease is handed out again, otherwise a new generation within the limit; the list is pruned |
| Controller.QuotaController.RenewInFlight | durable-objects/quota-controller/src/store.ts:224-248 | only an unexpired lease of the same generation is extended |
| Controller.QuotaController.ReleaseInFlight | durable-objects/quota-controller/src/store.ts:250-272 | release acts as the ledger step: the lease of the given generation is dropped and the rest of the unexpired list stays |
| Controller.QuotaController.AdmitRelay | durable-objects/quota-controller/src/relay-admission.ts:90-243 | admission acts as the ledger step on entry, mapping, counters, lease and grant together; a known request is compared field by field |
| Controller.QuotaController.WriteAdmission | durable-objects/quota-controller/src/relay-admission.ts:173-242 | the writes of an admission leave the counters exact and the grant bound to its lease generation |
| Controller.QuotaController.ActivateRelay | durable-objects/quota-controller/src/relay-grant-lifecycle.ts:84-120 | activation acts as the ledger step; an expired authorization is released, an activated grant is never given out twice |
| Controller.QuotaController.RenewRelay | durable-objects/quota-controller/src/relay-grant-lifecycle.ts:122-160 | renewal acts as the ledger step: it extends the lease it answers for; an attempted grant out of time becomes uncertain |
| Controller.QuotaController.FinishRelay | durable-objects/quota-controller/src/relay-grant-lifecycle.ts:162-243 | a terminal report acts as the ledger step, replays of the same report included |
| Controller.QuotaController.ReconcileRequest | durable-objects/quota-controller/src/quota-lifecycle.ts:378-388 | reconciliation settles entry and grant together, once |
| Controller.QuotaController.MarkFinalized | durable-objects/quota-controller/src/quota-lifecycle.ts:390-407 | the flag is set exactly when no entry is reserved or uncertain, read off the counters |
| Controller.QuotaController.FenceRelayCpuGateSetup | durable-objects/quota-controller/src/relay-cpu-gate.ts:74-87 | a fence is written only for a request with neither grant nor entry |
| Controller.ExactAfterWrite | durable-objects/quota-controller/src/quota-lifecycle.ts:110-123 | counters exact before a transition and patched by weights are exact after it |
| Controller.ExactAfterReservation | durable-objects/quota-controller/src/quota-controller.ts:190-219 | counters exact before a reservation are exact after its writes |
| Controller.CountersCountEntries | durable-objects/quota-controller/src/quota-controller.ts:190-219 | the request counter is the number of entries, the unresolved counters the numbers of reserved and of uncertain ones |
| LedgerSums.SumUpdate | durable-objects/quota-controller/src/quota-lifecycle.ts:110-123 | rewriting one entry changes every sum over the entries by that entry's difference |
| LedgerSums.CountIsSize | durable-objects/quota-controller/src/store.ts:133-147 | a count over the entries is the size of the set it counts |
| LedgerBooks.BooksMove | durable-objects/quota-controller/src/quota-lifecycle.ts:88-370 | a live entry's tokens leave their column once and arrive where the call says; a late or repeated call moves nothing |
| LedgerBooks.BooksEnter | durable-objects/quota-controller/src/quota-controller.ts:190-219 | taking a request in adds its tokens to the reserved column and one to the request count |
| LedgerBooks.ReserveTakes | durable-objects/quota-controller/src/quota-controller.ts:141-219 | `reserve` takes tokens only for an unknown request it answers ok, exactly those asked for, and only while they are left |
| LedgerBooks.AcquireGrantsFreshLease | durable-objects/quota-controller/src/store.ts:196-222 | a granted lease is unexpired, and either the live one or fresh for the whole TTL |
| LedgerBooks.RenewMovesOneLease | durable-objects/quota-controller/src/store.ts:224-248 | a granted renewal needs a live lease of that generation, moves it and keeps it in the list with all the others |
| LedgerBooks.SettlementIsBooked | durable-objects/quota-controller/src/relay-grant-lifecycle.ts:204-243 | an accepted settle report books exactly the reported total as confirmed |
| LedgerBooks.ReportTwice | durable-objects/quota-controller/src/relay-grant-lifecycle.ts:183-190 | the same terminal report again is accepted and changes nothing, any other is denied |
| LedgerRuns.StepKeeps | durable-objects/quota-controller/src/quota-controller.ts:113-345 | every RPC, with any number of finalizers under way, keeps the joint invariant of entries, grants, leases and idempotency mappings |
| LedgerRuns.CommitRecordsKeep | durable-objects/quota-controller/src/relay-admission.ts:173-242 | entry, mapping, lease and grant written together keep the invariant |
| LedgerRuns.ActivateKeeps | durable-objects/quota-controller/src/relay-grant-lifecycle.ts:84-120 | activation keeps grant, entry and lease coupled on every branch |
| LedgerRuns.RenewRelayKeeps | durable-objects/quota-controller/src/relay-grant-lifecycle.ts:122-160 | renewal keeps them coupled, and the lease short enough |
| LedgerRuns.FinishKeeps | durable-objects/quota-controller/src/relay-grant-lifecycle.ts:162-243 | a terminal report keeps them coupled on every branch |
| LedgerRuns.ReconcileKeeps | durable-objects/quota-controller/src/relay-grant.ts:214-228 | reconciling an entry terminalizes its grant and takes its lease |
| LedgerRuns.StepMoves | durable-objects/quota-controller/src/quota-lifecycle.ts:88-283 | a step other than `deleteAll` writes at most one entry, by one transition or as one new reservation within what is left |
| LedgerRuns.StepFrame | durable-objects/quota-controller/src/quota-controller.ts:224-345 | a step leaves the entries of requests it does not name alone |
| LedgerRuns.StepWithinLimit | durable-objects/quota-controller/src/quota-controller.ts:182-189 | used tokens stay within the limit plus what settlements exceeded their reservations by |
| LedgerRuns.StepGrants | durable-objects/quota-controller/src/relay-grant-lifecycle.ts:84-243 | how a grant can change in one step: never back to authorized, never released once attempted, never after a terminal state |
| LedgerLeases.AcquireOutcome | durable-objects/quota-controller/src/store.ts:196-222 | every answer by its exact condition, counting the requests that hold a lease; the list afterwards is the unexpired leases and the one granted, if any |
| LedgerLeases.RenewOutcome | durable-objects/quota-controller/src/store.ts:224-248 | every answer by its exact condition; a granted renewal leaves the moved lease and every other unexpired one in the list |
| LedgerLeases.ReleaseOutcome | durable-objects/quota-controller/src/store.ts:250-272 | exactly the unexpired lease of that request and generation is gone, every other one is there, and the answer says whether there was one |
| LedgerLeases.LeaseSurvives | durable-objects/quota-controller/src/store.ts:181-272 | an unexpired lease of a request a step does not name is still in the list after it, `deleteAll` aside |
| LedgerLeases.LeaseOutlivesOthers | durable-objects/quota-controller/src/store.ts:181-272 | until it runs out, a lease outlives any run of calls that name other requests |
| LedgerOutcomes.TransitionOutcome | durable-objects/quota-controller/src/quota-lifecycle.ts:88-370 | the state and the saved answers each transition leaves, in every state of the entry |
| LedgerOutcomes.UncertaintyKeepsItsOrigin | durable-objects/quota-controller/src/quota-lifecycle.ts:155-226 | an entry remembers whether it became uncertain for want of a reserve answer or of an upstream one |
| LedgerOutcomes.ReserveOutcome | durable-objects/quota-controller/src/quota-controller.ts:113-221 | every answer by its exact condition, and everything a granted reservation writes |
| LedgerOutcomes.AdmittedGrantIsOnesOwn | durable-objects/quota-controller/src/relay-admission.ts:136-148 | an admission is only ever answered with an authorized grant that repeats all of it, field by field, and is stored for its request |
| LedgerOutcomes.AdmitKnownOutcome | durable-objects/quota-controller/src/relay-admission.ts:97-148 | a request that has an entry: every answer by its exact condition, and no change |
| LedgerOutcomes.AdmitNewOutcome | durable-objects/quota-controller/src/relay-admission.ts:97-243 | a request without one: every answer by its exact condition, and everything an admission writes into entry, mapping, lease and grant |
| LedgerOutcomes.AdmittedTwice | durable-objects/quota-controller/src/relay-admission.ts:136-148 | an admission made again at once gets the same grant and changes nothing |
| LedgerOutcomes.AdmittedAgain | durable-objects/quota-controller/src/relay-admission.ts:136-148 | and so it does after any run of other calls, as long as the grant is still authorized; no call changes what a grant says |
| GrantOutcomes.BoundExactly | durable-objects/quota-controller/src/relay-grant.ts:126-149 | a credential is accepted for a grant exactly if every one of its claims repeats it and it is used on its own object |
| GrantOutcomes.BoundForEver | durable-objects/quota-controller/src/relay-grant.ts:126-149 | a credential bound once stays bound, whatever calls follow |
| GrantOutcomes.ActivateOutcome | durable-objects/quota-controller/src/relay-grant-lifecycle.ts:84-120 | every answer by its exact condition: activated exactly if bound, authorized, in time and holding its own lease; a late one loses entry, grant and lease, a refused one nothing |
| GrantOutcomes.RenewOutcome | durable-objects/quota-controller/src/relay-grant-lifecycle.ts:122-160 | every answer by its exact condition: renewed exactly if bound, attempted, in time and holding its own lease, which then is in the list for 120000 ms more beside every other unexpired lease |
| GrantOutcomes.FinishOutcome | durable-objects/quota-controller/src/relay-grant-lifecycle.ts:162-243 | every answer by its exact condition; an accepted report puts entry and grant in its state, records itself and takes the lease, and no others |
| GrantOutcomes.ReconcileOutcome | durable-objects/quota-controller/src/relay-grant.ts:214-228 | a live request, its grant and its lease are closed as the operator says, any other is left alone |
| GrantOutcomes.FinalizeOutcome | durable-objects/quota-controller/src/quota-lifecycle.ts:390-407 | the flag is set exactly if no entry is reserved or uncertain; `deleteAll` leaves no record |
| GrantOutcomes.FenceOutcome | durable-objects/quota-controller/src/relay-cpu-gate.ts:39-104 | absent, fixture or neither, told by every field of the fixture; only an absent request is fenced |
| LedgerHistory.ReachableLedger | durable-objects/quota-controller/src/quota-controller.ts:141-219 | after any run: the quota bound, every mapping names an entry, and no two unreleased entries share a key |
| LedgerHistory.ReachableGrant | durable-objects/quota-controller/src/relay-grant-lifecycle.ts:65-243 | after any run: a grant's state fixes its entry's state, and only authorized or attempted grants have a lease, their own, which runs out before the credential |
| LedgerHistory.TerminalForEver | durable-objects/quota-controller/src/quota-lifecycle.ts:96-281 | settled, released and reconciled entries never change state or weight again |
| LedgerHistory.UncertainLeavesOnlyByDecision | durable-objects/quota-controller/src/quota-lifecycle.ts:155-281 | uncertain tokens leave the books only by a settlement or a reconciliation |
| LedgerHistory.AttemptedNeverReleased | durable-objects/quota-controller/src/relay-grant-lifecycle.ts:182-243 | an attempted grant is never released, whatever follows; its entry only by reconciling it as unused |
| LedgerHistory.ActivatedOnce | durable-objects/quota-controller/src/relay-grant-lifecycle.ts:84-120 | no run activates one grant identifier twice, not even across a finalized day |
| LedgerHistory.LeaseSafety | durable-objects/quota-controller/src/store.ts:181-272 | at any instant at most `most` leases are unexpired, one per request, and a stale generation changes none |
| LedgerHistory.LeaseDeathIsFinal | durable-objects/quota-controller/src/store.ts:181-248 | once no lease of a generation is unexpired, none ever is again |
| LedgerHistory.FinalizerDiscardsNothingLive | durable-objects/quota-controller/src/quota-lifecycle.ts:390-407 | between flag and `deleteAll` no entry is created and none is reserved or uncertain |
| LedgerHistory.TwoFinalizersLoseWork | durable-objects/quota-controller/src/quota-lifecycle.ts:390-407 | in every state: once another finalizer deleted, any request that fits the day is reserved, and the pending `deleteAll` discards it |
| LedgerHistory.FinalizerIsSafeExactlyAlone | durable-objects/quota-controller/src/quota-lifecycle.ts:390-407 | a finalizer discards nothing live, whatever calls but a new flag transaction come before its `deleteAll`, if and only if no other finalizer is under way when it sets the flag |
| RequestView.ForeignStep | durable-objects/quota-controller/src/quota-controller.ts:113-345 | calls naming other requests leave a request's entry and its unexpired leases alone |
| RequestView.ReserveOwn | durable-objects/quota-controller/src/quota-controller.ts:141-219 | a repeated reserve changes nothing and answers ok again; the answer is ok exactly when the request is reserved |
| RequestView.ReservedAtMostOnce | apps/gateway-worker/src/quota-reservation.ts:34-49 | of two attempts, each applied or not, at most one adds an entry |
| RequestView.AcquireOwn | durable-objects/quota-controller/src/store.ts:196-222 | a request without leases holds exactly the granted generation afterwards |
| RequestView.ReleaseLeaseOwn | durable-objects/quota-controller/src/store.ts:250-272 | giving back the one generation held leaves none of this request in the list, and every unexpired lease of others |
| QuotaStub.Perform | durable-objects/quota-controller/src/quota-controller.ts:223-370 | one call of the public face is one step of the ledger, for every kind of call |
| QuotaStub.Stub.ServeOthers | durable-objects/quota-controller/src/quota-controller.ts:223-370 | any traffic of others leaves this request's entry alone |
| QuotaStub.Stub.Reserve | apps/gateway-worker/src/quota-reservation.ts:24-32 | over a lossy call: an answer says ok exactly when the request is reserved now |
| Proxy.ProxyRun.ReserveFailClosed | apps/gateway-worker/src/quota-reservation.ts:34-49 | a resolved ok means exactly one reservation is held, no more than two attempts are made, and unknown needs a lost call |
| Proxy.ProxyRun.RejectUnknownReservation | apps/gateway-worker/src/proxy.ts:611-624 | if marking an unknown outcome gets through, the request is absent or uncertain |
| Proxy.ProxyRun.HandleCompletedUpstream | apps/gateway-worker/src/proxy.ts:431-547 | after an answer: settled with its total or uncertain, lease returned, or the stream takes over; on a `null` body it throws before any call; nothing reaches the outer catch |
| Proxy.ProxyRun.CallUpstream | apps/gateway-worker/src/proxy.ts:1055-1119 | a release only when the transport was never invoked, uncertain when it may have been, and an answer is booked; what the call came to fixes the calls sent |
| Proxy.ProxyRun.TryPrepared | apps/gateway-worker/src/proxy.ts:930-1119 | every way out of the prepared path leaves the books as the cleanup expects; the transport is invoked only for a checked body and not after a timeout |
| Proxy.ProxyRun.TryLegacy | apps/gateway-worker/src/proxy.ts:1332-1424 | the same for the path without a prepared body |
| Proxy.ProxyRun.CleanUp | apps/gateway-worker/src/proxy.ts:1425-1466 | the outer catch closes the books from wherever an exception left them, by exactly the calls the reservation, the attempt and the lease ask for |
| Proxy.ProxyRun.HandleProxy | apps/gateway-worker/src/proxy.ts:408-1467 | over every pattern of lost calls: release only if the transport was never invoked, a started call stays reserved, uncertain or settled, an answer that strands the run keeps reservation and lease; without losses nothing of a non-stream run stays reserved or leased exactly if the answer is none of those |
| Proxy.NullBodyStrands | apps/gateway-worker/src/proxy.ts:494-512 | the run in which a `null` body leaves reservation and lease behind although no call was lost |
| Proxy.UnsafeTotalStrands | apps/gateway-worker/src/proxy.ts:512-514 | the run in which a total of -1 leaves the reservation behind and the lease is never given back |
| StreamProxy.StreamRun.Finalize | apps/gateway-worker/src/stream.ts:149-187 | the first ending closes the books; without losses the entry is settled exactly when the stream ended by itself with a safe total |
| StreamProxy.StreamRun.FinalizeUncertain | apps/gateway-worker/src/stream.ts:127-148 | the fallback keeps the tokens on the books and gives the lease back |
| StreamProxy.StreamRun.Flush | apps/gateway-worker/src/stream.ts:244-247 | the total settled is that of the first usage found |
| StreamProxy.StreamRun.Cancel | apps/gateway-worker/src/stream.ts:248-251 | a disconnect never leads to a settlement; it sends the uncertain mark and the lease back, once |
| StreamProxy.StreamRun.StartRenewal | apps/gateway-worker/src/stream.ts:220-238 | one renewal at a time and none after the end; it counts only if the lease was moved |
| StreamProxy.StreamRun.EndRenewal | apps/gateway-worker/src/stream.ts:220-238 | a failed renewal ends the stream as uncertain, and changes nothing once it has ended |
| RelayHandler.Callbacks.Activate | apps/deno-tokenizer/src/relay.ts:211-236 | a confirmed activation or a denial is the controller's answer in the state it met; a spent grant is never moved |
| RelayHandler.Callbacks.ActivationKeeps | durable-objects/quota-controller/src/relay-grant-lifecycle.ts:84-120 | an activated grant was not activated before and cannot be again |
| RelayHandler.StepKeepsBegun | durable-objects/quota-controller/src/relay-grant-lifecycle.ts:84-243 | whatever others do, a grant once activated stays neither authorized nor released |
| RelayHandler.BegunIsNotReleased | durable-objects/quota-controller/src/relay-grant.ts:214-228 | its entry is released only if an operator reconciled it as unused |
| RelayHandler.DenialMappingFits | apps/deno-tokenizer/src/relay.ts:239-251 | release is reported only for a grant nobody activated, uncertainty only for one somebody did, nothing for one that is closed |
| RelayHandler.LostLeaseIsReleased | durable-objects/quota-controller/src/relay-grant-lifecycle.ts:194-243 | that release report frees the entry and the lease |
| RelayHandler.RelayRun.HandleRelay | apps/deno-tokenizer/src/relay.ts:477-566 | at most one upstream call, only after this activation; never for a spent grant; no release report once activated; what the activation and the upstream call came to fixes every callback sent, and only a denial with nothing held open ends without a report |
| RelayHandler.RelayRun.CallUpstream | apps/deno-tokenizer/src/relay.ts:511-566 | uncertain is reported for a failed call, an unsuccessful answer and unusable metadata; a whole body is settled with its total exactly if no renewal failed |
| RelayHandler.RelayRun.StartRenewal | apps/deno-tokenizer/src/relay-usage.ts:209-236 | a renewal is sent when the timer fires, one at a time and none after the end |
| RelayHandler.Callbacks.Renew | apps/deno-tokenizer/src/relay.ts:299-316 | it counts as renewed only if the controller moved the lease in the state it met |
| RelayHandler.Callbacks.Finish | apps/deno-tokenizer/src/relay.ts:281-297 | a report that arrives is one `finishRelay` of the controller |
| RelayHandler.RelayRun.ForwardBoundedBody | apps/deno-tokenizer/src/relay-usage.ts:346-373 | settled exactly when the whole body was read with a total and no renewal failed |
| RelayHandler.RelayRun.PullDone | apps/deno-tokenizer/src/relay-usage.ts:313-333 | a normal end reports once, settle exactly with a safe total; after another ending it reports nothing |
| RelayHandler.RelayRun.Abort | apps/deno-tokenizer/src/relay-usage.ts:328-339 | a failed read or a disconnect reports uncertain, once |
| RelayHandler.RelayRun.EndRenewal | apps/deno-tokenizer/src/relay-usage.ts:209-236 | a failed renewal reports uncertain unless the stream had ended |
| CpuGateSlot.SlotController.ClaimSlot | durable-objects/quota-controller/src/relay-cpu-gate-slot.ts:30-52 | a claim acts as the slot's step: idle slots get a fresh generation, the holder its own back, others busy |
| CpuGateSlot.SlotController.MarkSlot | durable-objects/quota-controller/src/relay-cpu-gate-slot.ts:54-77 | closing starts only for the current owner and generation |
| CpuGateSlot.SlotController.FreeSlot | durable-objects/quota-controller/src/relay-cpu-gate-slot.ts:94-101 | the slot is freed only while closing under the same generation |
| CpuGateSlot.ProofMeansDead | durable-objects/quota-controller/src/relay-cpu-gate-slot.ts:79-93 | what a closer saw in two separate calls means the request can do no more work |
| CpuGateSlot.DeadStaysDead | durable-objects/quota-controller/src/relay-admission.ts:102-148 | and no later call on its quota object can change that |
| CpuGateSlot.AdmitOfDeadDenied | durable-objects/quota-controller/src/relay-admission.ts:102-148 | a delayed admission of such a request is denied |
| CpuGateSlot.NextKeeps | apps/gateway-worker/src/relay-cpu-gate.ts:189-206 | every step of setups, closers and other callers keeps the gate's invariant |
| CpuGateSlot.MutualExclusion | apps/gateway-worker/src/relay-cpu-gate.ts:175-206 | of all owners that ever claimed the slot at most one can still work, and it holds the slot |
| CpuGateSlot.FreedForGood | durable-objects/quota-controller/src/relay-cpu-gate-slot.ts:54-102 | once freed, the owner stays out for ever, a setup of it still under way included |
| CpuGateSlot.OldClosersMissNewClaim | durable-objects/quota-controller/src/relay-cpu-gate-slot.ts:30-102 | a closer begun before a claim can free neither that claim nor a later one, whatever steps follow, as long as it stays under way |
| CpuGateSlot.StaleCloserIsHarmless | durable-objects/quota-controller/src/relay-cpu-gate-slot.ts:54-102 | a closer with the wrong owner or generation never moves the slot |
| CpuGateSlot.ClaimOutcome | durable-objects/quota-controller/src/relay-cpu-gate-slot.ts:30-52 | an idle slot is given under the next generation while there are safe ones, its holder gets it again, anyone else finds it busy |
| CpuGateSlot.CloseOutcome | durable-objects/quota-controller/src/relay-cpu-gate-slot.ts:54-102 | marking and freeing by their exact conditions |
| CpuGateSlot.FullCycle | durable-objects/quota-controller/src/relay-cpu-gate-slot.ts:30-102 | a claim, its mark and its release lead back to a slot the next owner can have, and not before |
| CpuGateSlot.ProofTable | durable-objects/quota-controller/src/relay-cpu-gate-slot.ts:79-93 | what counts as proof: fenced and absent, or a fixture without a lease whose grant is terminal and fits its entry |
| CpuGateSlot.CloserFreesExactly | durable-objects/quota-controller/src/relay-cpu-gate-slot.ts:54-102 | an undisturbed closer frees the slot exactly if the owner's request has no records or is the fixture with a terminal grant; otherwise the slot stays closing |
| CpuGateSlot.SetupAdmits | apps/gateway-worker/src/relay-cpu-gate.ts:189-206 | an undisturbed setup of a request without records takes the idle slot and reaches its admission |
| ManualReconciliation.JudgeOutcome | apps/gateway-worker/src/reconcile.ts:24-36 | who may be reconciled, who is a conflict and who is neither, by what the entry remembers |
| ManualReconciliation.LoneCall | apps/gateway-worker/src/reconcile.ts:15-55 | an undisturbed call on an eligible request succeeds, and entry and row say how |
| ManualReconciliation.ConcurrentCallsAgree | apps/gateway-worker/src/reconcile.ts:15-55 | all successful calls agree with each other, with the entry and with the audit row, which is there; the tokens count once |
| ManualReconciliation.SuccessStays | apps/gateway-worker/src/reconcile.ts:15-55 | no later call, settlement or reconciliation overturns a success or its row |
| MarkerReplacement.ReplaceOneQuotedMarker | apps/gateway-worker/src/prepared-body.ts:58-104 | one pass with batched copies emits and retains what the scan of the buffer says |
| MarkerReplacement.ScanThenReplace | apps/gateway-worker/src/prepared-body.ts:58-104 | retaining the pending suffix loses nothing, whatever bytes follow |
| MarkerReplacement.OutputStream.Pull | apps/gateway-worker/src/prepared-body.ts:412-450 | after any chunks, what was emitted and is pending determine the replacement of everything to come |
| MarkerReplacement.OutputStream.Finish | apps/gateway-worker/src/prepared-body.ts:421-443 | the stream closes normally exactly when one marker was replaced |
| MarkerReplacement.ReplaceOutputMarker | apps/gateway-worker/src/prepared-body.ts:389-464 | for every split, empty chunks included, the output is the leftmost non-overlapping replacement of the whole body |
| MarkerReplacement.OneOccurrenceReplaced | apps/gateway-worker/src/prepared-body.ts:383-388 | a body with one marker comes out with just that one replaced |
| MarkerReplacement.FirstOccurrenceReplaced | apps/gateway-worker/src/prepared-body.ts:58-104 | behind the first occurrence replacing starts anew, so that every occurrence not overlapping an earlier one is replaced and counted |
| PreparedPreflight.FirstPropertyParser.Consume | apps/gateway-worker/src/prepared-body.ts:147-184 | the byte parser is done exactly behind the header and invalid exactly off it |
| PreparedPreflight.CountExactOccurrences | apps/gateway-worker/src/prepared-body.ts:186-193 | the count is the number of positions the marker occurs at, overlapping ones included |
| PreparedPreflight.ReplaceExactOccurrence | apps/gateway-worker/src/prepared-body.ts:195-217 | a single occurrence is replaced where it is |
| PreparedPreflight.PreflightPreparedOutput | apps/gateway-worker/src/prepared-body.ts:225-381 | ready exactly under `IsReady`, and then the output is the input with only the first property's marker replaced |
| PreparedPreflight.ReadyHoweverCut | apps/gateway-worker/src/prepared-body.ts:259-311 | every cut succeeds exactly if the header fits and the first 512 bytes hold one marker |
| PreparedPreflight.ReadinessIgnoresTheCut | apps/gateway-worker/src/prepared-body.ts:259-311 | readiness is the same for all cuts exactly if the body lacks a header that fits and holds its marker once, or that marker is the only one in the first 512 bytes |
| PreparedPreflight.NeverReady | apps/gateway-worker/src/prepared-body.ts:259-311 | the bodies no cut of which succeeds |
| PreparedPreflight.ReadinessDependsOnTheCut | apps/gateway-worker/src/prepared-body.ts:289-311 | two cuts of one body of which one is ready and one is not |
| EventSplitter.CutAgain | apps/gateway-worker/src/stream.ts:193-207 | cutting in two steps with the pending text between is cutting at once, also inside a boundary |
| EventSplitter.EventsHoweverCut | apps/gateway-worker/src/stream.ts:193-207 | the events parsed over any chunking and the flush are the events of the whole text |
| EventSplitter.EventReader.ConsumeEventText | apps/gateway-worker/src/stream.ts:188-207 | the loop parses exactly the complete events, and the rest when flushing |
| EventSplitter.EventReader.Read | apps/gateway-worker/src/stream.ts:239-247 | a whole stream with its early stop finds the usage `ReadUsage` names |
| EventSplitter.UsageHoweverCut | apps/gateway-worker/src/stream.ts:239-247 | with the early stop the usage is independent of chunking exactly if no two complete events carry different usages; if no two events at all do, it is the last event's |
| EventSplitter.BoundaryExactly | apps/gateway-worker/src/stream.ts:193-207 | a boundary is one of four strings: two line ends in a row, each with or without a carriage return |
| EventSplitter.CutRebuilds | apps/gateway-worker/src/stream.ts:193-207 | with such boundaries put back behind the events, the text is there again: cutting loses nothing |
| RingTail.RingTailBuffer.Write | apps/deno-tokenizer/src/relay-usage.ts:137-157 | writing in place around the ring keeps it the tail of everything written |
| RingTail.RingTailBuffer.GetTail | apps/deno-tokenizer/src/relay-usage.ts:159-172 | the result is the last min(total, capacity) bytes written |
| RingTail.TailOf | apps/gateway-worker/src/stream.ts:47-93 | after any writes of any lengths the tail is the end of their concatenation |
| RelayJson.DecodeJsonString | packages/shared/src/relay-json.ts:52-79 | the index loop decodes one token and reports its end, or that it is malformed |
| RelayJson.TokenIsRead | packages/shared/src/relay-json.ts:52-79 | every RFC 8259 string token is decoded to what its pieces say and consumed to its last unit |
| RelayJson.OnlyTokensAreRead | packages/shared/src/relay-json.ts:52-79 | and nothing else is: whatever is decoded is a row of such pieces, or control characters taken as they are, and a closing quote |
| RelayJson.GrammarOfTheStandard | packages/shared/src/relay-json.ts:36-79 | white space, two-character escapes and hexadecimal digits are those of RFC 8259 |
| RelayJson.EscapeCanonicalJsonString | packages/shared/src/relay-credential.ts:80-100 | the loop writes the canonical token of the string |
| RelayJson.EscapeTable | packages/shared/src/relay-credential.ts:80-100 | the escapes are the seven short ones and lower-case hexadecimal below 0x20, and there are no others |
| RelayJson.EscapedIsDecoded | packages/shared/src/relay-credential.ts:80-100 | decoding an escaped string gives it back and consumes the whole token, for every string of code units |
| RelayJson.ScanValue | packages/shared/src/relay-json.ts:86-111 | scanning a value in any scope finds its duplicates and otherwise leaves the scopes as they were |
| RelayJson.ScanMembers | packages/shared/src/relay-json.ts:86-111 | scanning members finds exactly a clash with keys seen, between them, or inside a value |
| RelayJson.ScannerIsExact | packages/shared/src/relay-json.ts:81-111 | on every JSON text the scan answers true exactly if some object repeats a decoded key |
| RelayJson.HasDuplicateJsonKeys | packages/shared/src/relay-json.ts:86-111 | the loop with its stack of key sets computes that scan |
| RelayCredential.SortIgnoresOrder | packages/shared/src/relay-credential.ts:120-132 | entries in any order sort to the same list |
| RelayCredential.SerializeIgnoresOrder | packages/shared/src/relay-credential.ts:102-126 | canonical serialization does not show the order of members |
| RelayCredential.BeforeExactly | packages/shared/src/relay-credential.ts:128-132 | the order of keys: a proper beginning first, else by the first code unit that differs |
| RelayCredential.SerializedUnlessUnsafe | packages/shared/src/relay-credential.ts:104-118 | serializing throws exactly on a number that is no safe integer, at any depth |
| RelayCredential.SortAscends | packages/shared/src/relay-credential.ts:120-132 | the members are in ascending order of code units, each as often as given |
| RelayCredential.CanonicalSpells | packages/shared/src/relay-credential.ts:102-126 | the document written says the claims it was given: words, numbers without leading zeros, strings and members |
| RelayCredential.CanonicalHasNoBlanks | packages/shared/src/relay-credential.ts:102-126 | it is written without white space |
| RelayCredential.CanonicalPassesScanner | packages/shared/src/relay-credential.ts:102-126 | what it writes never trips the duplicate-key scan |
| Base64Url.DecodeBase64UrlNoPadding | packages/shared/src/relay-credential.ts:60-78 | the accumulator loop computes the strict decoding, rejections included |
| Base64Url.EncodedIsDecoded | packages/shared/src/relay-credential.ts:52-78 | decoding what was encoded gives the bytes back, for all bytes |
| Base64Url.AcceptedIsCanonical | packages/shared/src/relay-credential.ts:58-78 | any accepted text re-encodes to itself |
| Base64Url.DigitsOfTheStandard | packages/shared/src/relay-credential.ts:52-56 | the digits are those of RFC 4648 section 5 and four of them are the number their three bytes are |
| RelayToken.VerifiedFacts | packages/shared/src/relay-credential.ts:221-260 | what a token that verifies has passed: length, MAC, UTF-8, no repeated key, canonical spelling |
| RelayToken.Spelled | packages/shared/src/relay-credential.ts:221-260 | a token that verifies is the signature of the claims it verifies to |
| RelayToken.OneSpelling | packages/shared/src/relay-credential.ts:221-260 | two tokens that verify to the same claims are the same string |
| RelayToken.SignedVerifies | packages/shared/src/relay-credential.ts:211-260 | a signed token verifies to its claims exactly if it is at most 4096 units long |
| Normalize.RewriteKeepsMeaning | packages/shared/src/normalize.ts:326-380 | the upstream rewrite never changes what the estimator reads, in errors as well as values |
| Normalize.RewriteTwice | packages/shared/src/normalize.ts:326-380 | the rewrite is idempotent |
| NormalizeEffects.ItemRenamed | packages/shared/src/normalize.ts:344-380 | after the rewrite no part of a known role's message or of a tool output calls itself `text`: those that did carry `output_text` for an assistant and `input_text` otherwise, and every other part, field and item is as it was |
| NormalizeEffects.BodyRenamed | packages/shared/src/normalize.ts:326-342 | every item of an input array is rewritten in its place, and nothing else in the body changes |
| NormalizeEffects.FirstBadPartFails | packages/shared/src/normalize.ts:50-64 | the first part that is not a text part names the error |
| NormalizeEffects.ItemsOneByOne | packages/shared/src/normalize.ts:229-282 | items are read one after the other, the first failure wins, texts follow each other and opaque bytes add up |
| NormalizeEffects.ItemOutcome | packages/shared/src/normalize.ts:200-281 | what an item of each kind counts, and that every other one is refused |
| NormalizeEffects.BodyOutcome | packages/shared/src/normalize.ts:177-324 | which bodies are accepted, and every field of what the estimate gets |
| Normalize.NormalizeTextParts | packages/shared/src/normalize.ts:360-380 | the lazily copied array equals the plain map, and is copied exactly if some part changes |
| Normalize.NormalizeInputItem | packages/shared/src/normalize.ts:344-358 | an item is replaced only where its role or type asks for it |
| Normalize.NormalizeResponsesUpstreamBody | packages/shared/src/normalize.ts:326-342 | the lazily copied items equal the plain map |
| Normalize.WalkContent | packages/shared/src/normalize.ts:50-64 | the loop collects the texts up to the first part that is not allowed |
| Normalize.WalkItems | packages/shared/src/normalize.ts:226-285 | the running texts, tool flag and opaque bytes are those of the items, and the first failure wins |
| TokenBudget.ResolvedBudgetFits | apps/gateway-worker/src/token-budget.ts:24-59 | reservation within what is left and the upper bound, output within the request, so `reserve` never throws on it |
| TokenBudget.MarginIsLeast | packages/shared/src/estimate.ts:1-9 | the margins are the least integers at least 5% and 512, or 2% and 256, by whether a fifth of the limit is left |
| TokenBudget.ArithmeticErrorExactly | apps/gateway-worker/src/token-budget.ts:24-59 | arithmetic fails exactly on arguments that are no token counts and on an unsafe upper bound |
| TokenBudget.ResolvedBudgetIsGranted | durable-objects/quota-controller/src/quota-controller.ts:182-189 | `reserve` grants an unspent budget, except in the strict tier when the upper bound is not left |
| TokenBudget.OutcomeOfValidArguments | packages/shared/src/estimate.ts:1-31 | which comparison leads to which outcome, and that arithmetic fails only on an unsafe bound |

## Left out

- The 5%, 2%, 20% margins and tiers are exact ratios of integers; the code computes them in IEEE doubles, whose rounding the model does not have.
- All token counts are integers. A fractional `total_tokens` is refused by `settle` like an unsafe one, and is that case here.
- `crypto.randomUUID` is a counter that never repeats; SHA-256 of an idempotency key is the flag `digestMatches`; the report fingerprint is any string.
- Idempotency mappings are keyed by the pair of client and key; the code joins them with a colon (durable-objects/quota-controller/src/store.ts:121).
- Relayed requests are never named by the plain settle, mark, release and renew calls: the relay branch of `handleProxy` returns before it touches the quota object. A lease is acquired only for a request that has an entry; a request whose entry a `deleteAll` removed before its lease was asked for is outside.
- Leases kept as a plain list of strings by an older version, and entries written by older versions.
- `resetAt`, creation and update times, retention deadlines, the quota snapshot sent with an admission, and `relayLeaseExpiry` throwing for clocks beyond the safe integers.
- Proxy.ProxyRun.HandleProxy: the request has no entry yet, the budget is valid, nobody else names its id, and no `deleteAll` happens in the day; authentication, preparation and tokenization before the reservation are one choice to return or throw.
- StreamProxy.StreamRun.Finalize: extracting a usage from an event is taken not to throw; other callbacks between the awaits of one finalization are not interleaved, since the flag set first makes them return.
- RelayHandler.RelayRun.HandleRelay: starts at an allowed decision; the checks before it and building the upstream request are not modelled, nor an exception while rewriting the body or while extracting a usage from a whole body.
- CpuGateSlot.MutualExclusion: production setups only, absent `finalizeDay`, which wipes fences; the decision-context route admits without claiming the slot and is outside the claim.
- ManualReconciliation.ConcurrentCallsAgree: the audit row is one value written at once, and `deleteAll` does not happen meanwhile.
- PreparedPreflight.PreflightPreparedOutput: a source that throws while being read, and cancellation of the returned stream.
- EventSplitter.UsageHoweverCut: text decoding and the extraction of a usage from one event are a function of the event.
- RelayJson.ScannerIsExact: scalars are any run of letters, digits, signs and points, which includes every number and literal; what the scan answers on text that is not JSON is not stated.
- RelayToken.SignedVerifies: the MAC, UTF-8, `JSON.parse` and the strict parse of claims are functions assumed to read back what was written; constant-time comparison is equality.
- Normalize.RewriteKeepsMeaning: objects are finite maps, so `JSON.stringify` and the UTF-8 length are functions of the value; chat completions and the body limit of the HTTP layer are not modelled.
- HTTP routing, headers, error bodies, timers, D1 and audit writes, logging, the admin interface and configuration parsing.
