/**
 * The durable object: token counters kept beside the entries and patched by every RPC.
 *
 * `Valid` says the counters equal the sums over the entries. Each method is proved to keep it and to
 * act as its counterpart in module QuotaLedger, which has no counters and no clamps; so the counters are
 * exact after every sequence of calls, and no `Max(0, ...)` below ever changes a value.
 */
module Controller {
  import opened Wrappers
  import opened L = QuotaLedger
  import opened LedgerSums

  datatype PoolState = PoolState(
    limit: int, confirmedTokens: int, reservedTokens: int, uncertainTokens: int, requestCount: int)
  datatype UnresolvedState = UnresolvedState(uncertainCount: int, reservedCount: int)

  function RemainingOf(p: PoolState): int {
    p.limit - p.confirmedTokens - p.reservedTokens - p.uncertainTokens
  }

  class QuotaController {
    const cfg: Config
    var pool: PoolState
    var unresolved: UnresolvedState
    var entries: map<RequestId, Entry>
    var idempotency: map<IdempotencyKey, RequestId>
    var inFlight: seq<Lease>
    var grants: map<RequestId, Grant>
    var fences: set<RequestId>
    var finalized: bool
    var pendingDeletes: nat
    var nextUuid: nat

    function State(): Ledger
      reads this
    {
      Ledger(cfg, entries, idempotency, inFlight, grants, fences, finalized, pendingDeletes, nextUuid)
    }

    ghost predicate Valid()
      reads this
    {
      && pool.limit == cfg.limit
      && Exact(pool, unresolved, entries)
      && forall k :: k in idempotency ==> idempotency[k] in entries
    }

    constructor (cfg: Config)
      ensures Valid() && State() == Fresh(cfg)
    {
      this.cfg := cfg;
      pool := PoolState(cfg.limit, 0, 0, 0, 0);
      unresolved := UnresolvedState(0, 0);
      entries, idempotency, inFlight, grants, fences := map[], map[], [], map[], {};
      finalized, pendingDeletes, nextUuid := false, 0, 0;
    }

    /** `reserve` (the argument checks and its one transaction). */
    method Reserve(requestId: RequestId, tokens: int, upperBoundTokens: int, key: ParsedKey, clientId: Option<string>)
      returns (answer: ReserveAnswer)
      requires Valid()
      modifies this
      ensures Valid()
      ensures (State(), answer) == L.Reserve(old(State()), requestId, tokens, upperBoundTokens, key, clientId)
    {
      if !IsSafeNat(tokens) || !IsSafeNat(upperBoundTokens) || upperBoundTokens < tokens {
        return ReserveThrew;
      }
      if key.KeyInvalid? {
        return ReserveThrew;
      }
      var mappingKey := MappingKey(key, clientId);
      var mapped := if mappingKey.Some? && mappingKey.value in idempotency then Some(idempotency[mappingKey.value]) else None;
      var entryRequestId := requestId;
      if mapped.Some? && !(mapped.value in entries && entries[mapped.value].state.Released?) {
        entryRequestId := mapped.value;
      }
      if entryRequestId in entries {
        var existing := entries[entryRequestId];
        if mapped.Some? && !existing.state.Released? && mapped.value != requestId {
          return ReserveAnswered(DuplicateIdempotencyKey(entryRequestId));
        }
        if existing.tokens != tokens || existing.upperBoundTokens != upperBoundTokens {
          return ReserveThrew;
        }
        return ReserveAnswered(existing.results.reserve);
      }
      if finalized {
        return ReserveAnswered(InsufficientQuota(0));
      }
      var remaining := RemainingOf(pool);
      if !HasCapacity(tokens, upperBoundTokens, remaining, pool.limit) {
        return ReserveAnswered(InsufficientQuota(remaining));
      }
      WriteReservation(requestId, NewEntry(tokens, upperBoundTokens, mappingKey, remaining));
      answer := ReserveAnswered(ReserveOk(remaining - tokens));
    }

    /** The writes `reserve` and `admitRelay` share: pool, entry, unresolved counter and mapping. */
    method WriteReservation(requestId: RequestId, entry: Entry)
      requires Valid() && requestId !in entries && entry.state.Reserved?
      modifies this
      ensures Valid() && State() == Enter(old(State()), requestId, entry)
    {
      ghost var before := entries;
      pool := pool.(reservedTokens := pool.reservedTokens + entry.reservedTokens, requestCount := pool.requestCount + 1);
      entries := entries[requestId := entry];
      unresolved := unresolved.(reservedCount := unresolved.reservedCount + 1);
      if entry.idempotency.Some? {
        idempotency := idempotency[entry.idempotency.value := requestId];
      }
      ExactAfterReservation(old(pool), old(unresolved), before, requestId, entry);
    }

    /** `settle`. */
    method Settle(requestId: RequestId, actualTokens: int) returns (answer: SettleAnswer)
      requires Valid()
      modifies this`pool, this`unresolved, this`entries
      ensures Valid()
      ensures (State(), answer) == L.Settle(old(State()), requestId, actualTokens)
    {
      if !IsSafeNat(actualTokens) {
        return SettleThrew;
      }
      var known := ApplyTransition(requestId, ToSettled(actualTokens));
      answer := SettleAnswered(known);
    }

    /** `applyQuotaLifecycleTransition`: loads the entry, patches pool and unresolved counters, writes them back. */
    method ApplyTransition(requestId: RequestId, transition: Transition) returns (known: bool)
      requires Valid()
      modifies this`pool, this`unresolved, this`entries
      ensures Valid()
      ensures known == (requestId in old(entries)) && State() == Apply(old(State()), requestId, transition)
    {
      if requestId !in entries {
        return false;
      }
      ghost var before := entries;
      var entry := entries[requestId];
      SumAtLeast(entries, ReservedTokens, requestId);
      SumAtLeast(entries, UncertainTokens, requestId);
      SumAtLeast(entries, ReservedCount, requestId);
      SumAtLeast(entries, UncertainCount, requestId);
      var next := PatchCounters(entry, transition);
      entries := entries[requestId := next];
      ExactAfterWrite(old(pool), old(unresolved), before, requestId, next);
      known := true;
    }

    /** The branches of the transition: each moves the counters by hand and builds the next entry. */
    method PatchCounters(entry: Entry, transition: Transition) returns (next: Entry)
      requires pool.reservedTokens >= Weight(ReservedTokens, entry) && pool.uncertainTokens >= Weight(UncertainTokens, entry)
      requires unresolved.reservedCount >= Weight(ReservedCount, entry)
      requires unresolved.uncertainCount >= Weight(UncertainCount, entry)
      modifies this`pool, this`unresolved
      ensures next == NextEntry(entry, transition)
      ensures pool == PatchPool(old(pool), entry, next) && unresolved == PatchUnresolved(old(unresolved), entry, next)
    {
      next := entry;
      match transition {
        case ToSettled(actualTokens) =>
          if entry.results.settle {
            return;
          }
          next := entry.(results := entry.results.(settle := true));
          if IsLive(entry.state) {
            LeaveUnresolved(entry);
            pool := pool.(confirmedTokens := pool.confirmedTokens + actualTokens);
            next := next.(state := Settled, actualTokens := Some(actualTokens));
          }
        case ToUncertain =>
          if entry.results.markUncertain {
            return;
          }
          next := entry.(results := entry.results.(markUncertain := true));
          if entry.state.Reserved? {
            MoveToUncertain(entry);
            var origin := if entry.uncertaintyOrigin.Some? then entry.uncertaintyOrigin else Some(UpstreamUncertain);
            next := next.(state := Uncertain, uncertaintyOrigin := origin);
          }
        case ToUnknown =>
          if entry.results.markReserveOutcomeUnknown.Some? {
            return;
          }
          next := entry.(results := entry.results.(markReserveOutcomeUnknown := Some(entry.state.Reserved?)));
          if entry.state.Reserved? {
            MoveToUncertain(entry);
            next := next.(state := Uncertain, uncertaintyOrigin := Some(ReserveUnknown));
          }
        case ToReleased =>
          if entry.results.release {
            return;
          }
          next := entry.(results := entry.results.(release := true));
          if entry.state.Reserved? {
            LeaveUnresolved(entry);
            next := next.(state := Released);
          }
        case ToReconciled(disposition) =>
          if entry.results.reconcile || !IsLive(entry.state) {
            return;
          }
          LeaveUnresolved(entry);
          if disposition.Consumed? {
            pool := pool.(confirmedTokens := pool.confirmedTokens + entry.reservedTokens);
          }
          next := entry.(
            state := if disposition.Consumed? then Reconciled else Released,
            requestedDisposition := Some(disposition),
            results := entry.results.(reconcile := true));
      }
    }

    /** The clamped subtraction every transition out of reserved or uncertain performs. */
    method LeaveUnresolved(entry: Entry)
      requires IsLive(entry.state)
      requires pool.reservedTokens >= Weight(ReservedTokens, entry) && pool.uncertainTokens >= Weight(UncertainTokens, entry)
      requires unresolved.reservedCount >= Weight(ReservedCount, entry)
      requires unresolved.uncertainCount >= Weight(UncertainCount, entry)
      modifies this`pool, this`unresolved
      ensures pool == old(pool).(
        reservedTokens := old(pool).reservedTokens - Weight(ReservedTokens, entry),
        uncertainTokens := old(pool).uncertainTokens - Weight(UncertainTokens, entry))
      ensures unresolved == UnresolvedState(
        old(unresolved).uncertainCount - Weight(UncertainCount, entry),
        old(unresolved).reservedCount - Weight(ReservedCount, entry))
    {
      if entry.state.Reserved? {
        pool := pool.(reservedTokens := Max(0, pool.reservedTokens - entry.reservedTokens));
      } else {
        pool := pool.(uncertainTokens := Max(0, pool.uncertainTokens - entry.reservedTokens));
      }
      unresolved := UnresolvedState(
        Max(0, unresolved.uncertainCount - (if entry.state.Uncertain? then 1 else 0)),
        Max(0, unresolved.reservedCount - (if entry.state.Reserved? then 1 else 0)));
    }

    /** The patch of `markUncertain` and `markReserveOutcomeUnknown`. */
    method MoveToUncertain(entry: Entry)
      requires pool.reservedTokens >= entry.reservedTokens && unresolved.reservedCount >= 1
      modifies this`pool, this`unresolved
      ensures pool == old(pool).(
        reservedTokens := old(pool).reservedTokens - entry.reservedTokens,
        uncertainTokens := old(pool).uncertainTokens + entry.reservedTokens)
      ensures unresolved == UnresolvedState(old(unresolved).uncertainCount + 1, old(unresolved).reservedCount - 1)
    {
      pool := pool.(
        reservedTokens := Max(0, pool.reservedTokens - entry.reservedTokens),
        uncertainTokens := pool.uncertainTokens + entry.reservedTokens);
      unresolved := UnresolvedState(unresolved.uncertainCount + 1, Max(0, unresolved.reservedCount - 1));
    }

    /** `acquireInFlightLease`. */
    method AcquireInFlight(requestId: RequestId, limit: int, ttlMs: int, nowMs: int) returns (result: LeaseResult)
      requires Valid()
      modifies this`inFlight, this`nextUuid
      ensures Valid()
      ensures (State(), result) == L.AcquireInFlight(old(State()), requestId, limit, ttlMs, nowMs)
    {
      if !(0 < limit <= MAX_SAFE) || !ValidTtl(ttlMs, nowMs) {
        return LeaseThrew;
      }
      var activeLeases := Active(inFlight, nowMs);
      inFlight := activeLeases;
      var activeLease := FindLease(activeLeases, requestId);
      if activeLease.Some? {
        return LeaseHeld(activeLease.value);
      }
      if |activeLeases| >= limit {
        return ConcurrencyExceeded;
      }
      var lease := Lease(requestId, nextUuid, nowMs + ttlMs);
      nextUuid := nextUuid + 1;
      inFlight := activeLeases + [lease];
      result := LeaseHeld(lease);
    }

    /** `renewInFlightLease`. */
    method RenewInFlight(requestId: RequestId, generation: nat, ttlMs: int, nowMs: int) returns (result: LeaseResult)
      requires Valid()
      modifies this`inFlight
      ensures Valid()
      ensures (State(), result) == L.RenewInFlight(old(State()), requestId, generation, ttlMs, nowMs)
    {
      if !ValidTtl(ttlMs, nowMs) {
        return LeaseThrew;
      }
      var activeLeases := Active(inFlight, nowMs);
      inFlight := activeLeases;
      var activeLease := FindLease(activeLeases, requestId);
      if activeLease.None? {
        return LeaseNotFound;
      }
      if activeLease.value.generation != generation {
        return StaleGeneration;
      }
      inFlight := ExtendLease(activeLeases, requestId, nowMs + ttlMs);
      result := LeaseHeld(activeLease.value.(expiresAtMs := nowMs + ttlMs));
    }

    /** `releaseInFlightLease`. */
    method ReleaseInFlight(requestId: RequestId, generation: Option<nat>, nowMs: int) returns (released: bool)
      requires Valid()
      modifies this`inFlight
      ensures Valid() && State() == L.ReleaseInFlight(old(State()), requestId, generation, nowMs)
      ensures released == CanRelease(FindLease(Active(old(inFlight), nowMs), requestId), generation)
    {
      var activeLeases := Active(inFlight, nowMs);
      released := CanRelease(FindLease(activeLeases, requestId), generation);
      inFlight := if released then DropLease(activeLeases, requestId) else activeLeases;
    }

    /** `admitRelayInTransaction`. */
    method AdmitRelay(input: AdmitInput, nowMs: int) returns (result: AdmitResult)
      requires Valid()
      modifies this
      ensures Valid()
      ensures (State(), result) == L.AdmitRelay(old(State()), input, nowMs)
    {
      var denied := Precheck(input);
      if denied.Some? {
        return AdmitDenied(denied.value);
      }
      result := AdmitChecked(input, nowMs);
    }

    method AdmitChecked(input: AdmitInput, nowMs: int) returns (result: AdmitResult)
      requires Valid() && ValidBudget(input)
      modifies this
      ensures Valid()
      ensures (State(), result) == L.AdmitChecked(old(State()), input, nowMs)
    {
      if input.requestId in entries {
        result := ReplayAdmission(input);
        return;
      }
      if finalized {
        return AdmitDenied(QuotaInsufficient);
      }
      if !HasCapacity(input.reservedTokens, input.upperBoundTokens, RemainingOf(pool), pool.limit) {
        return AdmitDenied(QuotaInsufficient);
      }
      var activeLeases := Active(inFlight, nowMs);
      if |activeLeases| >= cfg.maxInFlight {
        inFlight := activeLeases;
        return AdmitDenied(WorkerConcurrency);
      }
      result := WriteAdmission(input, activeLeases, nowMs);
    }

    /** An exact retry of an authorized admission gets the stored grant back. */
    method ReplayAdmission(input: AdmitInput) returns (result: AdmitResult)
      requires ValidBudget(input)
      ensures result == AdmissionReplay(State(), input)
    {
      if input.requestId !in grants || !MatchesAdmission(grants[input.requestId], input) {
        return AdmitDenied(InvalidRequest);
      }
      var existing := grants[input.requestId];
      if existing.state.Authorized? {
        return Admitted(existing);
      }
      result := if IsTerminalGrant(existing.state) then AdmitDenied(GrantTerminalized) else AdmitDenied(GrantReplayed);
    }

    method WriteAdmission(input: AdmitInput, activeLeases: seq<Lease>, nowMs: int) returns (result: AdmitResult)
      requires Valid() && ValidBudget(input) && input.requestId !in entries
      modifies this
      ensures Valid()
      ensures (State(), result) == CommitAdmission(old(State()), input, activeLeases, nowMs)
    {
      var mappingKey := MappingKey(input.rawKey, Some(input.clientId));
      var leaseGeneration, grantId := nextUuid, nextUuid + 1;
      nextUuid := nextUuid + 2;
      var grant := NewGrant(cfg, input, leaseGeneration, grantId, nowMs);
      WriteReservation(
        input.requestId, NewEntry(input.reservedTokens, input.upperBoundTokens, mappingKey, RemainingOf(pool)));
      inFlight := activeLeases + [Lease(input.requestId, leaseGeneration, nowMs + DEFAULT_LEASE_TTL_MS)];
      grants := grants[input.requestId := grant];
      result := Admitted(grant);
    }

    /** The checks of admission that touch no record of the request itself, in the source's order. */
    method Precheck(input: AdmitInput) returns (denied: Option<RelayCode>)
      ensures denied == AdmissionPrecheck(State(), input)
      ensures denied.None? ==> ValidBudget(input)
    {
      if !input.wellFormed { return Some(InvalidRequest); }
      if input.requestId in fences { return Some(InvalidContext); }
      if !ValidBudget(input) { return Some(InternalError); }
      if input.rawKey.KeyInvalid? { return Some(InvalidRequest); }
      if cfg.environment.None? { return Some(InternalError); }
      if input.environment != cfg.environment.value { return Some(EnvironmentMismatch); }
      if !KeyBindingConsistent(input) { return Some(InvalidRequest); }
      var mappingKey := MappingKey(input.rawKey, Some(input.clientId));
      if mappingKey.Some? && mappingKey.value in idempotency {
        var mapped := idempotency[mappingKey.value];
        if mapped != input.requestId && !(mapped in entries && entries[mapped].state.Released?) {
          return Some(DuplicateKey);
        }
      }
      denied := None;
    }

    /** A lifecycle transition followed by giving the grant's lease back and rewriting the grant. */
    method FinishGrant(requestId: RequestId, transition: Transition, grant: Grant, next: Grant, nowMs: int)
      requires Valid()
      modifies this
      ensures Valid() && State() == CloseGrant(old(State()), requestId, transition, grant, next, nowMs)
    {
      var _ := ApplyTransition(requestId, transition);
      var _ := ReleaseInFlight(requestId, Some(grant.leaseGeneration), nowMs);
      grants := grants[requestId := next];
    }

    /** `activateRelayInTransaction`. */
    method ActivateRelay(binding: Binding, nowMs: int) returns (result: ActivateResult)
      requires Valid()
      modifies this
      ensures Valid()
      ensures (State(), result) == L.ActivateRelay(old(State()), binding, nowMs)
    {
      var requestId := binding.requestId;
      if requestId !in grants || BindingMismatch(cfg, grants[requestId], binding) {
        return ActivateDenied(GrantNotFound);
      }
      var grant := grants[requestId];
      if nowMs >= grant.credentialExpiresAtMs {
        return ActivateDenied(GrantExpired);
      }
      if IsTerminalGrant(grant.state) {
        return ActivateDenied(GrantTerminalized);
      }
      if grant.state.Attempted? || grant.state.GrantUncertain? {
        return ActivateDenied(GrantReplayed);
      }
      if nowMs >= grant.authorizationExpiresAtMs {
        FinishGrant(requestId, ToReleased, grant, grant.(state := GrantReleased), nowMs);
        return ActivateDenied(GrantExpired);
      }
      if requestId !in entries || !entries[requestId].state.Reserved? {
        return ActivateDenied(GrantNotFound);
      }
      var lease := FindLease(Active(inFlight, nowMs), requestId);
      if lease.None? || lease.value.generation != grant.leaseGeneration {
        return ActivateDenied(LeaseLost);
      }
      var activated := grant.(state := Attempted);
      grants := grants[requestId := activated];
      result := Activated(activated);
    }

    /** `renewRelayInTransaction`. */
    method RenewRelay(binding: Binding, nowMs: int) returns (result: RenewResult)
      requires Valid()
      modifies this
      ensures Valid()
      ensures (State(), result) == L.RenewRelay(old(State()), binding, nowMs)
    {
      var requestId := binding.requestId;
      if requestId !in grants || BindingMismatch(cfg, grants[requestId], binding) {
        return RenewDenied(GrantNotFound);
      }
      var grant := grants[requestId];
      if nowMs >= grant.credentialExpiresAtMs {
        return RenewDenied(GrantExpired);
      }
      if IsTerminalGrant(grant.state) || grant.state.GrantUncertain? {
        return RenewDenied(GrantTerminalized);
      }
      if !grant.state.Attempted? {
        return RenewDenied(InvalidRequest);
      }
      if nowMs >= grant.authorizationExpiresAtMs {
        FinishGrant(requestId, ToUncertain, grant, grant.(state := GrantUncertain), nowMs);
        return RenewDenied(GrantExpired);
      }
      if requestId !in entries || !entries[requestId].state.Reserved? {
        return RenewDenied(InvalidRequest);
      }
      var activeLeases := Active(inFlight, nowMs);
      inFlight := activeLeases;
      var lease := FindLease(activeLeases, requestId);
      if lease.None? || lease.value.generation != grant.leaseGeneration {
        return RenewDenied(LeaseLost);
      }
      var expiresAtMs := nowMs + DEFAULT_LEASE_TTL_MS;
      inFlight := ExtendAll(activeLeases, requestId, expiresAtMs);
      result := Renewed(grant, expiresAtMs);
    }

    /** `finishRelayInTransaction`. */
    method FinishRelay(binding: Binding, report: TerminalReport, fingerprint: string, nowMs: int)
      returns (result: FinishResult)
      requires Valid()
      modifies this
      ensures Valid()
      ensures (State(), result) == L.FinishRelay(old(State()), binding, report, fingerprint, nowMs)
    {
      if !WellFormedReport(report) || report.grantId != binding.grantId
         || report.leaseGeneration != binding.leaseGeneration
         || |fingerprint| == 0 || |fingerprint| > MAX_FINGERPRINT_BYTES {
        return FinishDenied(InvalidRequest, None);
      }
      var requestId := binding.requestId;
      if requestId !in grants || BindingMismatch(cfg, grants[requestId], binding) {
        return FinishDenied(GrantNotFound, None);
      }
      var grant := grants[requestId];
      if nowMs >= grant.credentialExpiresAtMs {
        return FinishDenied(GrantExpired, Some(grant.state));
      }
      if IsTerminalGrant(grant.state) {
        if grant.terminalFingerprint == Some(fingerprint) {
          if requestId !in entries {
            return FinishDenied(InvalidRequest, Some(grant.state));
          }
          return Accepted(grant, entries[requestId]);
        }
        return FinishDenied(GrantTerminalized, Some(grant.state));
      }
      if report.outcome.ReleaseOutcome? && !grant.state.Authorized? {
        var state := grant.state;
        if grant.state.Attempted? && nowMs >= grant.authorizationExpiresAtMs {
          FinishGrant(requestId, ToUncertain, grant, grant.(state := GrantUncertain), nowMs);
          state := GrantUncertain;
        }
        return FinishDenied(InvalidRequest, Some(state));
      }
      if report.outcome.SettleOutcome? && grant.state.Authorized? {
        return FinishDenied(InvalidRequest, Some(grant.state));
      }
      if requestId !in entries {
        return FinishDenied(InvalidRequest, Some(grant.state));
      }
      var finished := grant.(
        state := GrantStateOf(report.outcome), terminalReport := Some(report), terminalFingerprint := Some(fingerprint));
      FinishGrant(requestId, TransitionOf(report), grant, finished, nowMs);
      result := Accepted(finished, entries[requestId]);
    }

    /** `reconcileRequest`, with the grant hook of relay-grant.ts. */
    method ReconcileRequest(requestId: RequestId, disposition: Disposition, nowMs: int) returns (applied: bool)
      requires Valid()
      modifies this
      ensures Valid()
      ensures (State(), applied) == L.Reconcile(old(State()), requestId, disposition, nowMs)
    {
      if requestId !in entries {
        return false;
      }
      var entry := entries[requestId];
      if entry.results.reconcile {
        return true;
      }
      if !IsLive(entry.state) {
        return false;
      }
      var _ := ApplyTransition(requestId, ToReconciled(disposition));
      if requestId in grants && !IsTerminalGrant(grants[requestId].state) {
        var grant := grants[requestId];
        var _ := ReleaseInFlight(requestId, Some(grant.leaseGeneration), nowMs);
        grants := grants[requestId := grant.(
          state := if disposition.Consumed? then ReconciledConsumed else ReconciledUnused,
          terminalReport := None, terminalFingerprint := Some(DispositionName(disposition)))];
      }
      applied := true;
    }

    /** `fenceRelayCpuGateSetup`. */
    method FenceRelayCpuGateSetup(requestId: RequestId, nowMs: int) returns (result: FenceResult)
      requires Valid()
      modifies this`fences
      ensures Valid()
      ensures (State(), result) == Fence(old(State()), requestId, nowMs)
    {
      var inspection := Inspect(State(), requestId, nowMs);
      match inspection {
        case FixtureSeen(_, _, _) => return FenceFixture;
        case NonFixture => return FenceNonFixture;
        case Absent(fenced) =>
          if !fenced {
            fences := fences + {requestId};
          }
          return Fenced;
      }
    }

    /** The flag transaction of `finalizeDay`. */
    method MarkFinalized() returns (ok: bool)
      requires Valid()
      modifies this`finalized, this`pendingDeletes
      ensures Valid()
      ensures (State(), ok) == FinalizeMark(old(State()))
    {
      if unresolved.uncertainCount > 0 || unresolved.reservedCount > 0 {
        return false;
      }
      finalized, pendingDeletes := true, pendingDeletes + 1;
      ok := true;
    }

    /** The `deleteAll` of `finalizeDay`. */
    method DeleteAll()
      requires Valid()
      modifies this
      ensures Valid() && State() == FinalizeDelete(old(State()))
    {
      pool := PoolState(cfg.limit, 0, 0, 0, 0);
      unresolved := UnresolvedState(0, 0);
      entries, idempotency, inFlight, grants, fences := map[], map[], [], map[], {};
      finalized := false;
      pendingDeletes := if pendingDeletes == 0 then 0 else pendingDeletes - 1;
    }
  }

  /** Every counter equals the sum it stands for. */
  ghost predicate Exact(p: PoolState, u: UnresolvedState, m: map<RequestId, Entry>) {
    && p.confirmedTokens == Sum(m, ConfirmedTokens)
    && p.reservedTokens == Sum(m, ReservedTokens)
    && p.uncertainTokens == Sum(m, UncertainTokens)
    && p.requestCount == Sum(m, RequestCount)
    && u.uncertainCount == Sum(m, UncertainCount)
    && u.reservedCount == Sum(m, ReservedCount)
  }

  /** The pool after one entry changed, with no clamp. */
  function PatchPool(p: PoolState, before: Entry, after: Entry): PoolState {
    p.(confirmedTokens := p.confirmedTokens - Weight(ConfirmedTokens, before) + Weight(ConfirmedTokens, after),
       reservedTokens := p.reservedTokens - Weight(ReservedTokens, before) + Weight(ReservedTokens, after),
       uncertainTokens := p.uncertainTokens - Weight(UncertainTokens, before) + Weight(UncertainTokens, after))
  }

  function PatchUnresolved(u: UnresolvedState, before: Entry, after: Entry): UnresolvedState {
    UnresolvedState(u.uncertainCount - Weight(UncertainCount, before) + Weight(UncertainCount, after),
                    u.reservedCount - Weight(ReservedCount, before) + Weight(ReservedCount, after))
  }

  lemma ExactAfterWrite(p: PoolState, u: UnresolvedState, m: map<RequestId, Entry>, id: RequestId, next: Entry)
    requires Exact(p, u, m) && id in m
    ensures Exact(PatchPool(p, m[id], next), PatchUnresolved(u, m[id], next), m[id := next])
  {
    SumUpdate(m, ConfirmedTokens, id, next);
    SumUpdate(m, ReservedTokens, id, next);
    SumUpdate(m, UncertainTokens, id, next);
    SumUpdate(m, RequestCount, id, next);
    SumUpdate(m, UncertainCount, id, next);
    SumUpdate(m, ReservedCount, id, next);
  }

  lemma ExactAfterReservation(p: PoolState, u: UnresolvedState, m: map<RequestId, Entry>, id: RequestId, e: Entry)
    requires Exact(p, u, m) && id !in m && e.state.Reserved?
    ensures Exact(
      p.(reservedTokens := p.reservedTokens + e.reservedTokens, requestCount := p.requestCount + 1),
      u.(reservedCount := u.reservedCount + 1),
      m[id := e])
  {
    SumUpdate(m, ConfirmedTokens, id, e);
    SumUpdate(m, ReservedTokens, id, e);
    SumUpdate(m, UncertainTokens, id, e);
    SumUpdate(m, RequestCount, id, e);
    SumUpdate(m, UncertainCount, id, e);
    SumUpdate(m, ReservedCount, id, e);
  }

  /** In a valid object the counts are what their names say: numbers of entries. */
  lemma CountersCountEntries(q: QuotaController)
    requires q.Valid()
    ensures q.pool.requestCount == |q.entries|
    ensures q.unresolved.reservedCount == |set id | id in q.entries && q.entries[id].state.Reserved?|
    ensures q.unresolved.uncertainCount == |set id | id in q.entries && q.entries[id].state.Uncertain?|
  {
    var m := q.entries;
    CountIsSize(m.Keys, m, RequestCount);
    CountIsSize(m.Keys, m, ReservedCount);
    CountIsSize(m.Keys, m, UncertainCount);
    assert Counted(m.Keys, m, RequestCount) == m.Keys;
    assert Counted(m.Keys, m, ReservedCount) == set id | id in m && m[id].state.Reserved?;
    assert Counted(m.Keys, m, UncertainCount) == set id | id in m && m[id].state.Uncertain?;
  }
}
