/**
 * What the calls on a relay grant answer and write, case by case, in the states that can be reached.
 */
module GrantOutcomes {
  import opened Wrappers
  import opened L = QuotaLedger
  import opened LedgerSums
  import opened LedgerRuns
  import opened LedgerHistory
  import Leases = LedgerLeases
  import Outcomes = LedgerOutcomes

  // ----------------------------------------------------------------- binding

  /** The claims repeat what was issued: every field of them. */
  predicate ClaimsRepeat(c: Claims, g: Grant) {
    && c.grantId == g.grantId && c.leaseGeneration == g.leaseGeneration && c.environment == g.environment
    && c.clientId == g.clientId && c.idempotencyKeyHash == g.idempotencyKeyHash && c.nonce == g.nonce
    && c.model == g.model && c.pool == g.pool && c.admissionUtcDay == g.admissionUtcDay
    && c.issuedAtMs == g.issuedAtMs && c.expiresAtMs == g.credentialExpiresAtMs
  }

  /** A credential is bound to a stored grant exactly when it names it, repeats it and is used on its object. */
  lemma BoundExactly(s: Ledger, b: Binding)
    ensures Bound(s, b) <==>
              && b.requestId in s.grants
              && b.grantId == s.grants[b.requestId].grantId
              && b.leaseGeneration == s.grants[b.requestId].leaseGeneration
              && b.claims.requestId == b.requestId && ClaimsRepeat(b.claims, s.grants[b.requestId])
              && s.grants[b.requestId].pool == s.cfg.pool && s.grants[b.requestId].admissionUtcDay == s.cfg.utcDay
  {}

  /** A grant says the same for ever, so a credential that is bound once is bound in every later state. */
  lemma BoundForEver(s: Ledger, events: seq<Event>, most: nat, b: Binding)
    requires Inv(s, most) && Lawful(s, events, most) && KeepsDay(events)
    requires Bound(s, b)
    ensures Bound(Run(s, events), b)
  {
    RunGrants(s, events, most, b.requestId);
    hide InvExcept;
    Outcomes.RunKeepsInv(s, events, most);
  }

  // ------------------------------------------------------------ closing a grant

  /** The grant is rewritten, its lease is gone, and its entry went to `state`; nothing else moved. */
  ghost predicate Closed(s: Ledger, r: Ledger, id: RequestId, next: Grant, state: RequestState, nowMs: int) {
    && r.grants == s.grants[id := next]
    && r.entries.Keys == s.entries.Keys && id in s.entries && r.entries[id].state == state
    && (forall other :: other in s.entries && other != id ==> r.entries[other] == s.entries[other])
    && (forall l :: l in r.leases <==> l in s.leases && l.expiresAtMs > nowMs && l.requestId != id)
    && r.idempotency == s.idempotency && r.fences == s.fences && r.finalized == s.finalized && r.nextUuid == s.nextUuid
  }

  lemma CloseOutcome(s: Ledger, most: nat, id: RequestId, t: Transition, next: Grant, nowMs: int)
    requires Inv(s, most) && id in s.grants && id in s.entries
    ensures var r := CloseGrant(s, id, t, s.grants[id], next, nowMs);
      && Closed(s, r, id, next, NextEntry(s.entries[id], t).state, nowMs)
      && r.entries[id] == NextEntry(s.entries[id], t)
  {
    hide EntriesOk, GrantsOk, IdempotencyOk, NextEntry;
    Leases.ReleaseOutcome(Apply(s, id, t), id, Some(s.grants[id].leaseGeneration), nowMs);
    OwnLeases(s, most, id);
  }

  /** Every lease of a relayed request is that of its grant. */
  lemma OwnLeases(s: Ledger, most: nat, id: RequestId)
    requires Inv(s, most) && id in s.grants
    ensures forall l :: l in s.leases && l.requestId == id ==> l.generation == s.grants[id].leaseGeneration
  {
    assert forall l :: l in s.leases ==> LeaseOk(s.entries, s.grants, s.nextUuid, l);
  }

  /** The entry of a stored grant is in the state the grant says. */
  lemma EntryOfGrant(s: Ledger, most: nat, id: RequestId)
    requires Inv(s, most) && id in s.grants
    ensures id in s.entries && Coupled(s.grants[id].state, s.entries[id].state) && EntryOk(s.entries[id])
    ensures s.grants[id].authorizationExpiresAtMs < s.grants[id].credentialExpiresAtMs
  {
    assert GrantOk(s.entries, id, s.grants[id], s.nextUuid);
  }

  /** The search the calls make finds the lease of that generation exactly when the request holds one. */
  lemma OwnLeaseFound(s: Ledger, most: nat, id: RequestId, generation: nat, nowMs: int)
    requires Inv(s, most)
    ensures var found := FindLease(Active(s.leases, nowMs), id);
      found.Some? && found.value.generation == generation <==> Leases.Holds(s, id, generation, nowMs)
  {
    Leases.Found(s, id, nowMs);
  }

  // -------------------------------------------------------------- activation

  /** `activateRelay`, by cases. */
  lemma ActivateOutcome(s: Ledger, b: Binding, nowMs: int, most: nat)
    requires Inv(s, most)
    ensures var (r, answer) := ActivateRelay(s, b, nowMs);
      if !Bound(s, b) then answer == ActivateDenied(GrantNotFound) && r == s
      else
        var id, g := b.requestId, s.grants[b.requestId];
        if nowMs >= g.credentialExpiresAtMs then answer == ActivateDenied(GrantExpired) && r == s
        else if g.state.Attempted? || g.state.GrantUncertain? then answer == ActivateDenied(GrantReplayed) && r == s
        else if !g.state.Authorized? then answer == ActivateDenied(GrantTerminalized) && r == s
        else if nowMs >= g.authorizationExpiresAtMs then
          answer == ActivateDenied(GrantExpired) && Closed(s, r, id, g.(state := GrantReleased), Released, nowMs)
        else if !Leases.Holds(s, id, g.leaseGeneration, nowMs) then answer == ActivateDenied(LeaseLost) && r == s
        else answer == Activated(g.(state := Attempted)) && r == s.(grants := s.grants[id := g.(state := Attempted)])
  {
    hide CloseGrant, Closed, BindingMismatch, InvExcept, Active, FindLease, Leases.Holds;
    if b.requestId in s.grants {
      EntryOfGrant(s, most, b.requestId);
      CloseOutcome(s, most, b.requestId, ToReleased, s.grants[b.requestId].(state := GrantReleased), nowMs);
      OwnLeaseFound(s, most, b.requestId, s.grants[b.requestId].leaseGeneration, nowMs);
    }
  }

  // ----------------------------------------------------------------- renewal

  /** The request's own lease runs until `x`, every other unexpired lease is there, and the rest is as it was. */
  ghost predicate Extended(s: Ledger, r: Ledger, own: Lease, nowMs: int) {
    && (forall l :: l in r.leases <==> l == own || (l in s.leases && l.expiresAtMs > nowMs && l.requestId != own.requestId))
    && r == s.(leases := r.leases)
  }

  /** `renewRelay`, by cases: a granted renewal does move the lease, and moves no other. */
  lemma RenewOutcome(s: Ledger, b: Binding, nowMs: int, most: nat)
    requires Inv(s, most)
    ensures var (r, answer) := RenewRelay(s, b, nowMs);
      if !Bound(s, b) then answer == RenewDenied(GrantNotFound) && r == s
      else
        var id, g := b.requestId, s.grants[b.requestId];
        if nowMs >= g.credentialExpiresAtMs then answer == RenewDenied(GrantExpired) && r == s
        else if g.state.Authorized? then answer == RenewDenied(InvalidRequest) && r == s
        else if !g.state.Attempted? then answer == RenewDenied(GrantTerminalized) && r == s
        else if nowMs >= g.authorizationExpiresAtMs then
          answer == RenewDenied(GrantExpired) && Closed(s, r, id, g.(state := GrantUncertain), Uncertain, nowMs)
        else if !Leases.Holds(s, id, g.leaseGeneration, nowMs) then
          answer == RenewDenied(LeaseLost) && Leases.Pruned(s, r, nowMs) && r == s.(leases := r.leases)
        else
          answer == Renewed(g, nowMs + 120_000) && Extended(s, r, Lease(id, g.leaseGeneration, nowMs + 120_000), nowMs)
  {
    hide CloseGrant, Closed, Extended, BindingMismatch, InvExcept, FindLease, Leases.Holds;
    if b.requestId in s.grants {
      EntryOfGrant(s, most, b.requestId);
      CloseOutcome(s, most, b.requestId, ToUncertain, s.grants[b.requestId].(state := GrantUncertain), nowMs);
      OwnLeaseFound(s, most, b.requestId, s.grants[b.requestId].leaseGeneration, nowMs);
      AllExtended(s, most, b.requestId, s.grants[b.requestId].leaseGeneration, nowMs);
    }
  }

  lemma AllExtended(s: Ledger, most: nat, id: RequestId, generation: nat, nowMs: int)
    requires Inv(s, most)
    ensures Leases.Holds(s, id, generation, nowMs) ==>
              var x := nowMs + DEFAULT_LEASE_TTL_MS;
              Extended(s, s.(leases := ExtendAll(Active(s.leases, nowMs), id, x)), Lease(id, generation, x), nowMs)
  {
    Leases.RenewAllContents(s, id, nowMs + DEFAULT_LEASE_TTL_MS, nowMs);
  }

  // ---------------------------------------------------------- terminal report

  /** The state an accepted report leaves the entry in. */
  function EntryStateFor(o: TerminalOutcome): RequestState {
    match o
    case SettleOutcome => Settled
    case UncertainOutcome => Uncertain
    case ReleaseOutcome => Released
  }

  /** The state it leaves the grant in. */
  function GrantStateFor(o: TerminalOutcome): GrantState {
    match o
    case SettleOutcome => GrantSettled
    case UncertainOutcome => GrantUncertain
    case ReleaseOutcome => GrantReleased
  }

  /** A report is readable and speaks of the grant it is sent with. */
  predicate Readable(b: Binding, report: TerminalReport, fingerprint: string) {
    && report.grantId == b.grantId && report.leaseGeneration == b.leaseGeneration && 0 < |fingerprint| <= 128
    && (report.outcome.SettleOutcome? ==> report.totalTokens.Some? && 0 <= report.totalTokens.value <= MAX_SAFE)
    && (!report.outcome.SettleOutcome? ==> report.totalTokens.None?)
  }

  /** Releasing is for grants not yet activated, settling for activated ones, uncertain for both. */
  predicate InTime(state: GrantState, o: TerminalOutcome) {
    match state
    case Authorized => !o.SettleOutcome?
    case Attempted => !o.ReleaseOutcome?
    case GrantUncertain => !o.ReleaseOutcome?
    case _ => false
  }

  /** `finishRelay`, by cases. */
  lemma FinishOutcome(s: Ledger, b: Binding, report: TerminalReport, fingerprint: string, nowMs: int, most: nat)
    requires Inv(s, most)
    ensures var (r, answer) := FinishRelay(s, b, report, fingerprint, nowMs);
      if !Readable(b, report, fingerprint) then answer == FinishDenied(InvalidRequest, None) && r == s
      else if !Bound(s, b) then answer == FinishDenied(GrantNotFound, None) && r == s
      else
        var id, g := b.requestId, s.grants[b.requestId];
        if nowMs >= g.credentialExpiresAtMs then answer == FinishDenied(GrantExpired, Some(g.state)) && r == s
        else if InTime(g.state, report.outcome) then
          var finished := g.(state := GrantStateFor(report.outcome),
                             terminalReport := Some(report), terminalFingerprint := Some(fingerprint));
          && Closed(s, r, id, finished, EntryStateFor(report.outcome), nowMs)
          && (report.outcome.SettleOutcome? ==> r.entries[id].actualTokens == report.totalTokens)
          && answer == Accepted(finished, r.entries[id])
        else if g.state.Attempted? && nowMs >= g.authorizationExpiresAtMs then
          && answer == FinishDenied(InvalidRequest, Some(GrantUncertain))
          && Closed(s, r, id, g.(state := GrantUncertain), Uncertain, nowMs)
        else if g.state.Authorized? || g.state.Attempted? || g.state.GrantUncertain? then
          answer == FinishDenied(InvalidRequest, Some(g.state)) && r == s
        else
          && r == s && id in s.entries
          && answer == if g.terminalFingerprint == Some(fingerprint) then Accepted(g, s.entries[id])
                       else FinishDenied(GrantTerminalized, Some(g.state))
  {
    hide CloseGrant, Closed, BindingMismatch, InvExcept;
    if b.requestId in s.grants && WellFormedReport(report) {
      var id, g := b.requestId, s.grants[b.requestId];
      var finished := g.(state := GrantStateOf(report.outcome),
                         terminalReport := Some(report), terminalFingerprint := Some(fingerprint));
      EntryOfGrant(s, most, id);
      CloseOutcome(s, most, id, ToUncertain, g.(state := GrantUncertain), nowMs);
      CloseOutcome(s, most, id, TransitionOf(report), finished, nowMs);
    }
  }

  // --------------------------------------------------- reconcile and finalize

  /** The operator's word closes the grant and takes its lease. */
  ghost predicate GrantReconciled(s: Ledger, r: Ledger, id: RequestId, d: Disposition, nowMs: int)
    requires id in s.grants
  {
    && r.grants == s.grants[id := s.grants[id].(
         state := if d.Consumed? then ReconciledConsumed else ReconciledUnused,
         terminalReport := None, terminalFingerprint := Some(if d.Consumed? then "consumed" else "unused"))]
    && forall l :: l in r.leases <==> l in s.leases && l.expiresAtMs > nowMs && l.requestId != id
  }

  /** `reconcile`, by cases: the operator's word closes a live request, its grant and its lease. */
  lemma ReconcileOutcome(s: Ledger, id: RequestId, d: Disposition, nowMs: int, most: nat)
    requires Inv(s, most)
    ensures var (r, ok) := Reconcile(s, id, d, nowMs);
      if id !in s.entries then !ok && r == s
      else if !IsLive(s.entries[id].state) then ok == s.entries[id].requestedDisposition.Some? && r == s
      else
        && ok && r.entries.Keys == s.entries.Keys
        && r.entries[id].state == (if d.Consumed? then Reconciled else Released)
        && r.entries[id].requestedDisposition == Some(d)
        && (forall other :: other in s.entries && other != id ==> r.entries[other] == s.entries[other])
        && r == s.(entries := r.entries, grants := r.grants, leases := r.leases)
        && if id in s.grants then GrantReconciled(s, r, id, d, nowMs) else r.grants == s.grants && r.leases == s.leases
  {
    hide ReleaseInFlight, InvExcept, GrantReconciled;
    EntriesAreOk(s, most);
    if id in s.grants {
      EntryOfGrant(s, most, id);
      if IsLive(s.entries[id].state) {
        TerminalizeOutcome(s, most, id, d, nowMs);
      }
    }
  }

  lemma EntriesAreOk(s: Ledger, most: nat)
    requires Inv(s, most)
    ensures forall id :: id in s.entries ==> EntryOk(s.entries[id])
  {}

  lemma TerminalizeOutcome(s: Ledger, most: nat, id: RequestId, d: Disposition, nowMs: int)
    requires Inv(s, most) && id in s.grants && id in s.entries && IsLive(s.entries[id].state)
    ensures var q := Apply(s, id, ToReconciled(d)); var r := TerminalizeGrant(q, id, d, nowMs);
      GrantReconciled(s, r, id, d, nowMs) && r == q.(grants := r.grants, leases := r.leases)
  {
    hide EntriesOk, GrantsOk, IdempotencyOk, NextEntry;
    EntryOfGrant(s, most, id);
    OwnLeases(s, most, id);
    Leases.ReleaseOutcome(Apply(s, id, ToReconciled(d)), id, Some(s.grants[id].leaseGeneration), nowMs);
  }

  /** `finalizeDay` sets its flag exactly when nothing is reserved or uncertain, and deletes everything. */
  lemma FinalizeOutcome(s: Ledger)
    ensures var (r, ok) := FinalizeMark(s);
      && (ok <==> forall id :: id in s.entries ==> !s.entries[id].state.Reserved? && !s.entries[id].state.Uncertain?)
      && r == if ok then s.(finalized := true, pendingDeletes := s.pendingDeletes + 1) else s
    ensures var r := FinalizeDelete(s);
      && r.entries == map[] && r.idempotency == map[] && r.leases == [] && r.grants == map[]
      && r.fences == {} && !r.finalized
  {
    CountIsSize(s.entries.Keys, s.entries, ReservedCount);
    CountIsSize(s.entries.Keys, s.entries, UncertainCount);
  }

  // ---------------------------------------------------------------- CPU gate

  /** The request and its grant are exactly those of the gate's fixture: no key, no cache, no tokens. */
  predicate IsFixture(s: Ledger, id: RequestId) {
    && id in s.grants && id in s.entries && s.cfg.fixture.Some?
    && var (g, e) := (s.grants[id], s.entries[id]);
    && g.clientId == s.cfg.fixture.value.clientId && g.model == s.cfg.fixture.value.model
    && g.pool == s.cfg.pool && g.admissionUtcDay == s.cfg.utcDay
    && g.idempotencyKeyHash.None? && e.idempotency.None? && !g.admission.cacheEnabled
    && g.admission.metadata.estimatedInputTokens == g.admission.metadata.maxOutputTokens == 0
    && g.admission.metadata.inputBytes == g.admission.metadata.rawBodyBytes == 0
    && !g.admission.metadata.isToolUse && !g.admission.metadata.stream
    && g.admission.reservedTokens == g.admission.upperBoundTokens == g.admission.maxOutputTokens == 0
    && e.tokens == e.upperBoundTokens == e.reservedTokens == 0
  }

  /** What an inspection sees and what a fence writes, by cases. */
  lemma FenceOutcome(s: Ledger, id: RequestId, nowMs: int)
    ensures var seen := Inspect(s, id, nowMs); var (r, answer) := Fence(s, id, nowMs);
      if id !in s.grants && id !in s.entries then
        seen == Absent(id in s.fences) && answer == Fenced && r == s.(fences := s.fences + {id})
      else if IsFixture(s, id) then
        && answer == FenceFixture && r == s
        && seen == FixtureSeen(
             s.grants[id].state, s.entries[id].state, Leases.Holds(s, id, s.grants[id].leaseGeneration, nowMs))
      else seen == NonFixture && answer == FenceNonFixture && r == s
  {
    if id in s.fences {
      assert s.fences + {id} == s.fences;
    }
  }
}
