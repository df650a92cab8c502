/**
 * What each call on the object answers and writes, case by case, told by the records themselves.
 */
module LedgerOutcomes {
  import opened Wrappers
  import opened L = QuotaLedger
  import opened LedgerSums
  import opened LedgerRuns
  import opened LedgerHistory
  import opened LedgerLeases

  // ------------------------------------------------------------- transitions

  /** A transition made twice answers and writes as once, and touches no field of the reservation. */
  lemma TransitionTwice(e: Entry, t: Transition, u: Transition)
    requires t == u || (t.ToSettled? && u.ToSettled?) || (t.ToReconciled? && u.ToReconciled?)
    ensures NextEntry(NextEntry(e, t), u) == NextEntry(e, t)
    ensures var f := NextEntry(e, t);
      && f.tokens == e.tokens && f.upperBoundTokens == e.upperBoundTokens && f.reservedTokens == e.reservedTokens
      && f.idempotency == e.idempotency && f.results.reserve == e.results.reserve
  {}

  /**
   * The state a transition leaves behind: a settlement or a reconciliation closes whatever is live, the
   * other three move only what is still reserved, and every one of them leaves a closed request as it was.
   */
  lemma TransitionOutcome(e: Entry, t: Transition)
    requires EntryOk(e)
    ensures var f := NextEntry(e, t);
      && (t.ToSettled? && IsLive(e.state) ==> f.state.Settled? && f.actualTokens == Some(t.actualTokens))
      && (t.ToReconciled? && IsLive(e.state) ==>
            f.state == (if t.disposition.Consumed? then Reconciled else Released) && f.requestedDisposition == Some(t.disposition))
      && ((t.ToUncertain? || t.ToUnknown?) && e.state.Reserved? ==> f.state.Uncertain? && f.actualTokens == e.actualTokens)
      && (t.ToReleased? && e.state.Reserved? ==> f.state.Released? && f.actualTokens == e.actualTokens)
      && (!IsLive(e.state) || (e.state.Uncertain? && !t.ToSettled? && !t.ToReconciled?) ==> f.(results := e.results) == e)
    ensures var before, after := e.results, NextEntry(e, t).results;
      match t
      case ToSettled(_) => after == before.(settle := true)
      case ToUncertain => after == before.(markUncertain := true)
      case ToReleased => after == before.(release := true)
      case ToUnknown =>
        after == before.(markReserveOutcomeUnknown :=
          if before.markReserveOutcomeUnknown.Some? then before.markReserveOutcomeUnknown else Some(e.state.Reserved?))
      case ToReconciled(_) => after == before.(reconcile := before.reconcile || IsLive(e.state))
  {}

  /** Where an entry that became uncertain says it came from, and what the unknown mark answers. */
  lemma UncertaintyKeepsItsOrigin(e: Entry)
    requires EntryOk(e) && e.state.Reserved?
    ensures var f := NextEntry(e, ToUnknown);
      f.state.Uncertain? && f.uncertaintyOrigin == Some(ReserveUnknown) && f.results.markReserveOutcomeUnknown == Some(true)
    ensures var f := NextEntry(e, ToUncertain);
      f.state.Uncertain? && (e.uncertaintyOrigin.None? ==> f.uncertaintyOrigin == Some(UpstreamUncertain))
    ensures forall d :: NextEntry(e, ToReconciled(d)).requestedDisposition == Some(d)
  {}

  // ----------------------------------------------------------------- reserve

  /** Another request holds this key, and was not released. */
  predicate KeyTaken(s: Ledger, id: RequestId, key: Option<IdempotencyKey>) {
    key.Some? && key.value in s.idempotency && s.idempotency[key.value] != id
    && s.idempotency[key.value] in s.entries && !s.entries[s.idempotency[key.value]].state.Released?
  }

  /** Enough is left: the tokens always, and the upper bound too in the last twentieth of the limit. */
  predicate Fits(tokens: int, upperBound: int, remaining: int, limit: int) {
    tokens <= remaining && (limit == 0 || 20 * remaining <= limit ==> upperBound <= remaining)
  }

  /** The key is mapped to some other request, released or not. */
  predicate KeyElsewhere(s: Ledger, id: RequestId, key: Option<IdempotencyKey>) {
    key.Some? && key.value in s.idempotency && s.idempotency[key.value] != id
  }

  /**
   * `reserve`, by cases. A live request that is reserved again under a key some released request used is
   * told that it is its own duplicate.
   */
  lemma ReserveOutcome(
    s: Ledger, id: RequestId, tokens: int, upperBound: int, key: ParsedKey, client: Option<string>, most: nat)
    requires Inv(s, most)
    ensures var (r, answer) := Reserve(s, id, tokens, upperBound, key, client);
      var mapped := if key.KeyValid? then Some(IdempotencyKey(if client.Some? then client.value else "legacy", key.key)) else None;
      var left := s.cfg.limit - Used(s);
      if key.KeyInvalid? || !(0 <= tokens <= upperBound <= MAX_SAFE) then answer == ReserveThrew && r == s
      else if KeyTaken(s, id, mapped) then
        answer == ReserveAnswered(DuplicateIdempotencyKey(s.idempotency[mapped.value])) && r == s
      else if id in s.entries then
        && r == s
        && answer == if KeyElsewhere(s, id, mapped) && !s.entries[id].state.Released?
                     then ReserveAnswered(DuplicateIdempotencyKey(id))
                     else if s.entries[id].tokens == tokens && s.entries[id].upperBoundTokens == upperBound
                     then ReserveAnswered(s.entries[id].results.reserve) else ReserveThrew
      else if s.finalized then answer == ReserveAnswered(InsufficientQuota(0)) && r == s
      else if !Fits(tokens, upperBound, left, s.cfg.limit) then answer == ReserveAnswered(InsufficientQuota(left)) && r == s
      else
        && answer == ReserveAnswered(ReserveOk(left - tokens))
        && r.entries.Keys == s.entries.Keys + {id} && r.entries[id].state.Reserved?
        && r.entries[id].tokens == r.entries[id].reservedTokens == tokens && r.entries[id].upperBoundTokens == upperBound
        && r.entries[id].idempotency == mapped && r.entries[id].results.reserve == ReserveOk(left - tokens)
        && (mapped.Some? ==> r.idempotency == s.idempotency[mapped.value := id])
        && (mapped.None? ==> r.idempotency == s.idempotency)
        && r.leases == s.leases && r.grants == s.grants
  {
    var mk := MappingKey(key, client);
    if mk.Some? && mk.value in s.idempotency {
      assert s.idempotency[mk.value] in s.entries;
    }
  }

  // --------------------------------------------------------------- admission

  /** The grant says about the request exactly what the admission asked for. */
  predicate Carries(g: Grant, input: AdmitInput) {
    && g.clientId == input.clientId && g.idempotencyKeyHash == input.idempotencyKeyHash && g.nonce == input.nonce
    && g.admission.contextIssuedAtMs == input.contextIssuedAtMs && g.admission.contextExpiresAtMs == input.contextExpiresAtMs
    && g.admission.metadata.model == input.metadata.model
    && g.admission.metadata.estimatedInputTokens == input.metadata.estimatedInputTokens
    && g.admission.metadata.maxOutputTokens == input.metadata.maxOutputTokens
    && g.admission.metadata.inputBytes == input.metadata.inputBytes
    && g.admission.metadata.rawBodyBytes == input.metadata.rawBodyBytes
    && g.admission.metadata.isToolUse == input.metadata.isToolUse && g.admission.metadata.stream == input.metadata.stream
    && g.admission.reservedTokens == input.reservedTokens && g.admission.upperBoundTokens == input.upperBoundTokens
    && g.admission.maxOutputTokens == input.maxOutputTokens && g.admission.cacheEnabled == input.cacheEnabled
  }

  /** An admission is answered only with a grant for that very admission, authorized and stored for its request. */
  lemma AdmittedGrantIsOnesOwn(s: Ledger, input: AdmitInput, nowMs: int)
    requires AdmitRelay(s, input, nowMs).1.Admitted?
    ensures var (r, answer) := AdmitRelay(s, input, nowMs);
      && Carries(answer.grant, input) && answer.grant.state.Authorized?
      && input.requestId in r.grants && r.grants[input.requestId] == answer.grant
      && input.requestId in r.entries
  {}

  /** The first reason to refuse an admission that can be seen without the request's own records. */
  function Refusal(s: Ledger, input: AdmitInput): Option<RelayCode> {
    var mapped := if input.rawKey.KeyValid? then Some(IdempotencyKey(input.clientId, input.rawKey.key)) else None;
    if !input.wellFormed then Some(InvalidRequest)
    else if input.requestId in s.fences then Some(InvalidContext)
    else if !(0 <= input.reservedTokens <= input.upperBoundTokens <= MAX_SAFE && 0 <= input.maxOutputTokens <= MAX_SAFE)
      then Some(InternalError)
    else if input.rawKey.KeyInvalid? then Some(InvalidRequest)
    else if s.cfg.environment.None? then Some(InternalError)
    else if s.cfg.environment != Some(input.environment) then Some(EnvironmentMismatch)
    else if input.idempotencyKeyHash.Some? != input.rawKey.KeyValid? || (input.rawKey.KeyValid? && !input.digestMatches)
      then Some(InvalidRequest)
    else if KeyTaken(s, input.requestId, mapped) then Some(DuplicateKey)
    else None
  }

  /** Admitting a request that already has an entry: by cases, and without any change. */
  lemma AdmitKnownOutcome(s: Ledger, input: AdmitInput, nowMs: int, most: nat)
    requires Inv(s, most) && input.requestId in s.entries
    ensures var (r, answer) := AdmitRelay(s, input, nowMs);
      var id := input.requestId;
      && r == s
      && if Refusal(s, input).Some? then answer == AdmitDenied(Refusal(s, input).value)
         else if id !in s.grants || !Carries(s.grants[id], input) then answer == AdmitDenied(InvalidRequest)
         else match s.grants[id].state
              case Authorized => answer == Admitted(s.grants[id])
              case Attempted => answer == AdmitDenied(GrantReplayed)
              case GrantUncertain => answer == AdmitDenied(GrantReplayed)
              case _ => answer == AdmitDenied(GrantTerminalized)
  {
    RefusalIsFirst(s, input, most);
    hide AdmissionPrecheck, Refusal;
  }

  lemma RefusalIsFirst(s: Ledger, input: AdmitInput, most: nat)
    requires Inv(s, most)
    ensures AdmissionPrecheck(s, input) == Refusal(s, input)
  {
    var mk := MappingKey(input.rawKey, Some(input.clientId));
    if mk.Some? && mk.value in s.idempotency {
      assert s.idempotency[mk.value] in s.entries;
    }
  }

  /** Admitting a request without an entry: by cases, with everything a success writes. */
  lemma AdmitNewOutcome(s: Ledger, input: AdmitInput, nowMs: int, most: nat)
    requires Inv(s, most) && input.requestId !in s.entries
    ensures var (r, answer) := AdmitRelay(s, input, nowMs);
      var left := s.cfg.limit - Used(s);
      if Refusal(s, input).Some? then answer == AdmitDenied(Refusal(s, input).value) && r == s
      else if s.finalized || !Fits(input.reservedTokens, input.upperBoundTokens, left, s.cfg.limit) then
        answer == AdmitDenied(QuotaInsufficient) && r == s
      else if |Holders(s, nowMs)| >= s.cfg.maxInFlight then
        answer == AdmitDenied(WorkerConcurrency) && Pruned(s, r, nowMs) && SameRecords(s, r)
      else
        answer.Admitted? && AdmitsGrant(s, r, input, answer.grant, nowMs) && AdmitsEntry(s, r, input)
  {
    hide AdmissionPrecheck, Refusal, AdmitChecked, AdmitsGrant, AdmitsEntry, Fits, Pruned, SameRecords;
    RefusalIsFirst(s, input, most);
    if AdmissionPrecheck(s, input).None? {
      PrecheckedBudget(s, input);
      CheckedOutcome(s, input, nowMs, most);
    }
  }

  lemma PrecheckedBudget(s: Ledger, input: AdmitInput)
    requires AdmissionPrecheck(s, input).None?
    ensures ValidBudget(input)
  {}

  lemma CheckedOutcome(s: Ledger, input: AdmitInput, nowMs: int, most: nat)
    requires Inv(s, most) && ValidBudget(input) && input.requestId !in s.entries
    ensures var (r, answer) := AdmitChecked(s, input, nowMs);
      if s.finalized || !Fits(input.reservedTokens, input.upperBoundTokens, s.cfg.limit - Used(s), s.cfg.limit) then
        answer == AdmitDenied(QuotaInsufficient) && r == s
      else if |Holders(s, nowMs)| >= s.cfg.maxInFlight then
        answer == AdmitDenied(WorkerConcurrency) && Pruned(s, r, nowMs) && SameRecords(s, r)
      else
        answer.Admitted? && AdmitsGrant(s, r, input, answer.grant, nowMs) && AdmitsEntry(s, r, input)
  {
    hide CommitAdmission, AdmitsGrant, AdmitsEntry, EntriesOk, GrantsOk, IdempotencyOk, DistinctIds, Active, Holders;
    ActiveIsHolders(s, nowMs);
    CommitOutcome(s, input, nowMs);
  }

  lemma CommitOutcome(s: Ledger, input: AdmitInput, nowMs: int)
    requires ValidBudget(input)
    ensures var (r, answer) := CommitAdmission(s, input, Active(s.leases, nowMs), nowMs);
      answer.Admitted? && AdmitsGrant(s, r, input, answer.grant, nowMs) && AdmitsEntry(s, r, input)
  {}

  /** The lease and the grant a new admission writes. */
  ghost predicate AdmitsGrant(s: Ledger, r: Ledger, input: AdmitInput, g: Grant, nowMs: int) {
    var lease := Lease(input.requestId, g.leaseGeneration, nowMs + 120_000);
    && Carries(g, input) && g.state.Authorized? && r.grants == s.grants[input.requestId := g]
    && g.environment == input.environment && g.model == input.metadata.model
    && g.pool == s.cfg.pool && g.admissionUtcDay == s.cfg.utcDay && g.issuedAtMs == nowMs
    && g.authorizationExpiresAtMs == nowMs + 3_600_000 && g.credentialExpiresAtMs == nowMs + 3_900_000
    && g.terminalReport.None? && g.terminalFingerprint.None?
    && s.nextUuid <= g.leaseGeneration < r.nextUuid && s.nextUuid <= g.grantId < r.nextUuid && g.grantId != g.leaseGeneration
    && forall l :: l in r.leases <==> l == lease || (l in s.leases && l.expiresAtMs > nowMs)
  }

  /** The entry and the mapping a new admission writes. */
  ghost predicate AdmitsEntry(s: Ledger, r: Ledger, input: AdmitInput) {
    var id := input.requestId;
    && r.entries.Keys == s.entries.Keys + {id} && r.entries[id].state.Reserved?
    && (forall other :: other in s.entries && other != id ==> r.entries[other] == s.entries[other])
    && r.entries[id].tokens == r.entries[id].reservedTokens == input.reservedTokens
    && r.entries[id].upperBoundTokens == input.upperBoundTokens
    && (input.rawKey.KeyAbsent? ==> r.idempotency == s.idempotency && r.entries[id].idempotency.None?)
    && (input.rawKey.KeyValid? ==>
          var key := IdempotencyKey(input.clientId, input.rawKey.key);
          r.idempotency == s.idempotency[key := id] && r.entries[id].idempotency == Some(key))
  }

  /** What an admitted input passed besides the records of requests. */
  predicate Passed(s: Ledger, input: AdmitInput) {
    && input.wellFormed && input.requestId !in s.fences
    && 0 <= input.reservedTokens <= input.upperBoundTokens <= MAX_SAFE && 0 <= input.maxOutputTokens <= MAX_SAFE
    && s.cfg.environment == Some(input.environment)
    && (if input.idempotencyKeyHash.Some? then input.rawKey.KeyValid? && input.digestMatches else input.rawKey.KeyAbsent?)
  }

  function KeyOf(input: AdmitInput): Option<IdempotencyKey> {
    if input.rawKey.KeyValid? then Some(IdempotencyKey(input.clientId, input.rawKey.key)) else None
  }

  lemma AdmittedPassed(s: Ledger, input: AdmitInput, nowMs: int, most: nat)
    requires Inv(s, most) && AdmitRelay(s, input, nowMs).1.Admitted?
    ensures var r := AdmitRelay(s, input, nowMs).0;
      && Passed(r, input) && !KeyTaken(r, input.requestId, KeyOf(input))
      && (input.requestId !in s.entries ==> r.entries[input.requestId].idempotency == KeyOf(input))
  {
    RefusalIsFirst(s, input, most);
    if input.requestId in s.entries {
      AdmitKnownOutcome(s, input, nowMs, most);
    } else {
      hide AdmitRelay, Refusal, AdmissionPrecheck, InvExcept;
      AdmitNewOutcome(s, input, nowMs, most);
      RefusedUnlessPassed(s, input);
    }
  }

  lemma RefusedUnlessPassed(s: Ledger, input: AdmitInput)
    requires Refusal(s, input).None?
    ensures Passed(s, input) && !KeyTaken(s, input.requestId, KeyOf(input))
  {}

  lemma AuthorizedIsAdmitted(s: Ledger, input: AdmitInput, nowMs: int, most: nat)
    requires Inv(s, most) && input.requestId in s.grants && s.grants[input.requestId].state.Authorized?
    requires Carries(s.grants[input.requestId], input) && Passed(s, input)
    requires !KeyTaken(s, input.requestId, KeyOf(input))
    ensures AdmitRelay(s, input, nowMs) == (s, Admitted(s.grants[input.requestId]))
  {
    assert GrantOk(s.entries, input.requestId, s.grants[input.requestId], s.nextUuid);
    AdmitKnownOutcome(s, input, nowMs, most);
  }

  /** An admission made again at once gets the same grant and changes nothing. */
  lemma AdmittedTwice(s: Ledger, input: AdmitInput, nowMs: int, laterMs: int, most: nat)
    requires Inv(s, most) && AdmitRelay(s, input, nowMs).1.Admitted?
    ensures var (r, answer) := AdmitRelay(s, input, nowMs);
      AdmitRelay(r, input, laterMs) == (r, answer)
  {
    hide AdmitRelay, InvExcept, Passed, Carries;
    AdmittedGrantIsOnesOwn(s, input, nowMs);
    AdmittedPassed(s, input, nowMs, most);
    AdmitKeeps(s, most, input, nowMs);
    AuthorizedIsAdmitted(AdmitRelay(s, input, nowMs).0, input, laterMs, most);
  }

  /**
   * As long as the grant stays authorized, the admission that created it is answered with it, whatever
   * other calls came in between; and none of them changes what the grant says.
   */
  lemma AdmittedAgain(s: Ledger, input: AdmitInput, nowMs: int, events: seq<Event>, laterMs: int, most: nat)
    requires Inv(s, most) && AdmitRelay(s, input, nowMs).1.Admitted? && input.requestId !in s.entries
    requires Lawful(AdmitRelay(s, input, nowMs).0, events, most) && KeepsDay(events)
    ensures var (r, first) := AdmitRelay(s, input, nowMs);
      var t, id := Run(r, events), input.requestId;
      && id in t.grants && SameGrant(first.grant, t.grants[id])
      && (t.grants[id].state.Authorized? ==> AdmitRelay(t, input, laterMs) == (t, Admitted(t.grants[id])))
  {
    hide AdmitRelay, InvExcept, EntriesOk, GrantsOk, LeasesOk;
    var (r, first) := AdmitRelay(s, input, nowMs);
    var t, id := Run(r, events), input.requestId;
    AdmittedGrantIsOnesOwn(s, input, nowMs);
    AdmittedPassed(s, input, nowMs, most);
    AdmitKeeps(s, most, input, nowMs);
    RunKeepsInv(r, events, most);
    RunGrants(r, events, most, id);
    RunEvolves(r, events, most);
    RunSparesPresent(r, events, most, id);
    if t.grants[id].state.Authorized? {
      OwnKeyIsFree(t, id, most);
      AuthorizedIsAdmitted(t, input, laterMs, most);
    }
  }

  /** The key of a live entry is never taken by another. */
  lemma OwnKeyIsFree(s: Ledger, id: RequestId, most: nat)
    requires Inv(s, most) && id in s.grants && s.grants[id].state.Authorized? && id in s.entries
    ensures !KeyTaken(s, id, s.entries[id].idempotency)
  {
    assert GrantOk(s.entries, id, s.grants[id], s.nextUuid);
    assert KeyOk(s.idempotency, id, s.entries[id]);
  }

  lemma {:induction false} RunKeepsInv(s: Ledger, events: seq<Event>, most: nat)
    requires Inv(s, most) && Lawful(s, events, most)
    ensures Inv(Run(s, events), most) && Run(s, events).cfg == s.cfg
    decreases |events|
  {
    if events != [] {
      StepKeeps(s, events[0].op, events[0].nowMs, most);
      RunKeepsInv(Step(s, events[0].op, events[0].nowMs), events[1..], most);
    }
  }

  lemma GrantStepsFenceNone(s: Ledger, op: Op, nowMs: int)
    requires IsGrantOp(op)
    ensures GrantStep(s, op, nowMs).fences == s.fences
  {
    hide AdmissionPrecheck, AdmissionReplay, Bound, Active, FindLease, ExtendAll, NextEntry;
    match op {
      case DoReconcile(id, d) =>
      case DoAdmit(input) =>
      case DoActivate(b) =>
      case DoRenewRelay(b) =>
      case DoFinish(b, report, fingerprint) =>
    }
  }

  lemma PlainStepsFenceAbsent(s: Ledger, op: Op, nowMs: int, id: RequestId)
    requires !IsGrantOp(op) && NoDelete(op) && id in s.entries
    ensures id in PlainStep(s, op, nowMs).fences <==> id in s.fences
  {
    hide AnsweringId, Active, FindLease, ExtendLease, DropLease, NextEntry, IsCanonicalFixture;
  }

  /** A request that has records is not fenced by any step. */
  lemma StepSparesPresent(s: Ledger, op: Op, nowMs: int, id: RequestId)
    requires NoDelete(op) && id in s.entries && id !in s.fences
    ensures id !in Step(s, op, nowMs).fences
  {
    hide PlainStep, GrantStep;
    if IsGrantOp(op) { GrantStepsFenceNone(s, op, nowMs); } else { PlainStepsFenceAbsent(s, op, nowMs, id); }
  }

  lemma {:induction false} RunSparesPresent(s: Ledger, events: seq<Event>, most: nat, id: RequestId)
    requires Inv(s, most) && Lawful(s, events, most) && KeepsDay(events) && id in s.entries && id !in s.fences
    ensures id !in Run(s, events).fences
    decreases |events|
  {
    if events != [] {
      assert events[0] in events;
      StepKeeps(s, events[0].op, events[0].nowMs, most);
      StepEvolves(s, events[0].op, events[0].nowMs, most);
      StepSparesPresent(s, events[0].op, events[0].nowMs, id);
      RunSparesPresent(Step(s, events[0].op, events[0].nowMs), events[1..], most, id);
    }
  }
}
