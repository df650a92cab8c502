/**
 * Runs of the ledger: any interleaving of the public RPCs, each one atomic.
 */
module LedgerRuns {
  import opened Wrappers
  import opened L = QuotaLedger
  import opened LedgerSums

  datatype Op =
    | DoReserve(id: RequestId, tokens: int, upperBound: int, key: ParsedKey, client: Option<string>)
    | DoSettle(id: RequestId, actualTokens: int)
    | DoMarkUncertain(id: RequestId)
    | DoMarkReserveOutcomeUnknown(id: RequestId)
    | DoRelease(id: RequestId)
    | DoReconcile(id: RequestId, disposition: Disposition)
    | DoAcquire(id: RequestId, limit: int, ttlMs: int)
    | DoRenew(id: RequestId, generation: nat, ttlMs: int)
    | DoReleaseLease(id: RequestId, leaseGeneration: Option<nat>)
    | DoAdmit(input: AdmitInput)
    | DoActivate(binding: Binding)
    | DoRenewRelay(binding: Binding)
    | DoFinish(binding: Binding, report: TerminalReport, fingerprint: string)
    | DoFence(id: RequestId)
    | DoFinalizeMark
    | DoFinalizeDelete

  predicate IsGrantOp(op: Op) {
    op.DoReconcile? || op.DoAdmit? || op.DoActivate? || op.DoRenewRelay? || op.DoFinish?
  }

  /** The RPCs that may write a relay grant. */
  ghost function GrantStep(s: Ledger, op: Op, nowMs: int): (r: Ledger)
    requires IsGrantOp(op)
    ensures Follows(s, r)
  {
    match op
    case DoReconcile(id, disposition) => Reconcile(s, id, disposition, nowMs).0
    case DoAdmit(input) => AdmitRelay(s, input, nowMs).0
    case DoActivate(b) => ActivateRelay(s, b, nowMs).0
    case DoRenewRelay(b) => RenewRelay(s, b, nowMs).0
    case DoFinish(b, report, fingerprint) => FinishRelay(s, b, report, fingerprint, nowMs).0
  }

  /** The RPCs that leave the grants alone, `deleteAll` aside. */
  ghost function PlainStep(s: Ledger, op: Op, nowMs: int): (r: Ledger)
    requires !IsGrantOp(op)
    ensures SameObject(s, r)
    ensures NoDelete(op) ==> Follows(s, r) && r.grants == s.grants
  {
    match op
    case DoReserve(id, tokens, upperBound, key, client) => Reserve(s, id, tokens, upperBound, key, client).0
    case DoSettle(id, actual) => Settle(s, id, actual).0
    case DoMarkUncertain(id) => Apply(s, id, ToUncertain)
    case DoMarkReserveOutcomeUnknown(id) => Apply(s, id, ToUnknown)
    case DoRelease(id) => Apply(s, id, ToReleased)
    case DoAcquire(id, limit, ttlMs) => AcquireInFlight(s, id, limit, ttlMs, nowMs).0
    case DoRenew(id, generation, ttlMs) => RenewInFlight(s, id, generation, ttlMs, nowMs).0
    case DoReleaseLease(id, generation) => ReleaseInFlight(s, id, generation, nowMs)
    case DoFence(id) => Fence(s, id, nowMs).0
    case DoFinalizeMark => FinalizeMark(s).0
    case DoFinalizeDelete => FinalizeDelete(s)
  }

  ghost function Step(s: Ledger, op: Op, nowMs: int): (r: Ledger)
    ensures SameObject(s, r)
    ensures NoDelete(op) ==> Follows(s, r)
  {
    if IsGrantOp(op) then GrantStep(s, op, nowMs) else PlainStep(s, op, nowMs)
  }

  predicate NoDelete(op: Op) {
    !op.DoFinalizeDelete?
  }

  /**
   * What the callers respect: the plain RPCs never name a relayed request, a lease is asked for only
   * once the request has an entry and with a limit of at most `most`, and a `deleteAll` follows a flag
   * transaction of its own. Any number of finalizers may be under way at once.
   */
  predicate Allowed(s: Ledger, op: Op, most: nat) {
    match op
    case DoSettle(id, _) => id !in s.grants
    case DoMarkUncertain(id) => id !in s.grants
    case DoMarkReserveOutcomeUnknown(id) => id !in s.grants
    case DoRelease(id) => id !in s.grants
    case DoAcquire(id, limit, _) => id in s.entries && id !in s.grants && limit <= most
    case DoRenew(id, _, _) => id !in s.grants
    case DoFinalizeDelete => s.pendingDeletes > 0
    case _ => true
  }

  // ------------------------------------------------------------- invariants

  predicate EntryOk(e: Entry) {
    && e.reservedTokens == e.tokens <= e.upperBoundTokens
    && (e.results.settle ==> !IsLive(e.state))
    && (e.results.markUncertain || e.results.markReserveOutcomeUnknown.Some? || e.results.release ==> !e.state.Reserved?)
    && (e.results.reconcile ==> !IsLive(e.state))
    && (e.results.reconcile <==> e.requestedDisposition.Some?)
    && (e.state.Settled? <==> e.actualTokens.Some?)
    && (e.state.Reconciled? <==> e.requestedDisposition == Some(Consumed))
    && (e.requestedDisposition == Some(Unused) ==> e.state.Released?)
    && (e.state.Released? ==> e.results.release || e.requestedDisposition == Some(Unused))
    && (e.state.Uncertain? ==> e.uncertaintyOrigin.Some?)
  }

  predicate Coupled(grant: GrantState, request: RequestState) {
    match grant
    case Authorized => request.Reserved?
    case Attempted => request.Reserved?
    case GrantUncertain => request.Uncertain?
    case GrantSettled => request.Settled?
    case GrantReleased => request.Released?
    case ReconciledConsumed => request.Reconciled?
    case ReconciledUnused => request.Released?
  }

  type Entries = map<RequestId, Entry>
  type Grants = map<RequestId, Grant>

  predicate GrantOk(m: Entries, id: RequestId, g: Grant, uuid: nat) {
    && id in m && Coupled(g.state, m[id].state) && GrantFacts(m[id], g, uuid)
  }

  predicate GrantFacts(e: Entry, g: Grant, uuid: nat) {
    && g.authorizationExpiresAtMs == g.issuedAtMs + AUTHORIZATION_TTL_MS
    && g.credentialExpiresAtMs == g.issuedAtMs + CREDENTIAL_TTL_MS
    && g.leaseGeneration < uuid && g.grantId < uuid
    && g.admission.reservedTokens == e.reservedTokens
  }

  predicate DistinctIds(leases: seq<Lease>) {
    leases == [] || ((forall l :: l in leases[1..] ==> l.requestId != leases[0].requestId) && DistinctIds(leases[1..]))
  }

  /** A relayed request holds a lease only while its grant is authorized or attempted, and not for long. */
  predicate LeaseOk(m: Entries, grants: Grants, uuid: nat, l: Lease) {
    && l.requestId in m && l.generation < uuid
    && (l.requestId in grants ==>
          var g := grants[l.requestId];
          && l.generation == g.leaseGeneration
          && (g.state.Authorized? || g.state.Attempted?)
          && l.expiresAtMs < g.authorizationExpiresAtMs + DEFAULT_LEASE_TTL_MS)
  }

  /** An entry with a key has that key mapped, and to itself unless it was released. */
  predicate KeyOk(idempotency: map<IdempotencyKey, RequestId>, id: RequestId, e: Entry) {
    e.idempotency.Some? ==>
      e.idempotency.value in idempotency && (!e.state.Released? ==> idempotency[e.idempotency.value] == id)
  }

  predicate EntriesOk(m: Entries) {
    forall id :: id in m ==> EntryOk(m[id])
  }

  /** Every grant fits its entry, except possibly the odd one in the middle of a grant operation. */
  predicate GrantsOk(m: Entries, grants: Grants, uuid: nat, odd: Option<RequestId>) {
    forall id :: id in grants && odd != Some(id) ==> GrantOk(m, id, grants[id], uuid)
  }

  predicate IdempotencyOk(m: Entries, idempotency: map<IdempotencyKey, RequestId>) {
    && (forall k :: k in idempotency ==> idempotency[k] in m)
    && (forall id :: id in m ==> KeyOk(idempotency, id, m[id]))
  }

  predicate LeasesOk(leases: seq<Lease>, m: Entries, grants: Grants, uuid: nat, most: nat) {
    && |leases| <= most && DistinctIds(leases)
    && (forall l :: l in leases ==> LeaseOk(m, grants, uuid, l))
  }

  predicate NothingLive(m: Entries) {
    forall id :: id in m ==> !IsLive(m[id].state)
  }

  predicate Inv(s: Ledger, most: nat) {
    InvExcept(s, most, None)
  }

  predicate InvExcept(s: Ledger, most: nat, odd: Option<RequestId>) {
    && EntriesOk(s.entries)
    && GrantsOk(s.entries, s.grants, s.nextUuid, odd)
    && IdempotencyOk(s.entries, s.idempotency)
    && s.cfg.maxInFlight <= most
    && LeasesOk(s.leases, s.entries, s.grants, s.nextUuid, most)
    && (s.finalized ==> NothingLive(s.entries))
  }

  /** The quota bound: only a settlement above its reservation can take the pool past its limit. */
  ghost predicate WithinLimit(s: Ledger) {
    Used(s) <= s.cfg.limit + Sum(s.entries, Overage)
  }

  // ------------------------------------------------------------ lease lists

  lemma {:induction false} ActiveDistinct(leases: seq<Lease>, nowMs: int)
    requires DistinctIds(leases)
    ensures DistinctIds(Active(leases, nowMs))
  {
    if leases != [] {
      ActiveDistinct(leases[1..], nowMs);
      var rest := Active(leases[1..], nowMs);
      if leases[0].expiresAtMs > nowMs {
        assert ([leases[0]] + rest)[1..] == rest;
      } else {
        assert Active(leases, nowMs) == rest;
      }
    }
  }

  lemma {:induction false} AppendDistinct(leases: seq<Lease>, l: Lease)
    requires DistinctIds(leases) && forall m :: m in leases ==> m.requestId != l.requestId
    ensures DistinctIds(leases + [l])
  {
    if leases != [] {
      AppendDistinct(leases[1..], l);
      assert (leases + [l])[1..] == leases[1..] + [l];
    } else {
      assert ([] + [l])[1..] == [];
    }
  }

  lemma {:induction false} DropLeaseDrops(leases: seq<Lease>, id: RequestId)
    requires DistinctIds(leases)
    ensures DistinctIds(DropLease(leases, id)) && |DropLease(leases, id)| <= |leases|
    ensures forall l :: l in DropLease(leases, id) <==> l in leases && l.requestId != id
  {
    if leases != [] {
      DropLeaseDrops(leases[1..], id);
      assert leases == [leases[0]] + leases[1..];
      if leases[0].requestId != id {
        assert DropLease(leases, id)[1..] == DropLease(leases[1..], id);
      }
    }
  }

  /** Over distinct ids, extending the first match and extending every match are the same. */
  lemma {:induction false} ExtendLeaseExtends(leases: seq<Lease>, id: RequestId, x: int)
    requires DistinctIds(leases)
    ensures ExtendAll(leases, id, x) == ExtendLease(leases, id, x)
    ensures var r := ExtendLease(leases, id, x);
      && DistinctIds(r) && |r| == |leases|
      && (forall l :: l in r && l.requestId != id ==> l in leases)
      && (forall l :: l in r && l.requestId == id ==> l.expiresAtMs == x)
      && (forall l :: l in r ==> exists o :: o in leases && o.requestId == l.requestId && o.generation == l.generation)
  {
    if leases != [] {
      var head, rest := leases[0], leases[1..];
      ExtendLeaseExtends(rest, id, x);
      assert leases == [head] + rest;
      var r := ExtendLease(leases, id, x);
      if head.requestId == id {
        UntouchedByExtend(rest, id, x);
        assert r[1..] == rest;
      } else {
        assert r[1..] == ExtendLease(rest, id, x);
      }
    }
  }

  lemma {:induction false} UntouchedByExtend(leases: seq<Lease>, id: RequestId, x: int)
    requires forall l :: l in leases ==> l.requestId != id
    ensures ExtendAll(leases, id, x) == leases
  {
    if leases != [] {
      assert leases == [leases[0]] + leases[1..];
      UntouchedByExtend(leases[1..], id, x);
    }
  }

  lemma {:induction false} FindUnique(leases: seq<Lease>, l: Lease)
    requires DistinctIds(leases) && l in leases
    ensures FindLease(leases, l.requestId) == Some(l)
  {
    if leases[0] != l {
      assert l in leases[1..];
      FindUnique(leases[1..], l);
    }
  }

  // ------------------------------------------------ entries under transitions

  /** How one entry may change, over one step and over a whole run. */
  predicate Evolves(e: Entry, f: Entry) {
    && f.tokens == e.tokens && f.upperBoundTokens == e.upperBoundTokens && f.reservedTokens == e.reservedTokens
    && f.idempotency == e.idempotency
    && (!IsLive(e.state) ==>
          f.state == e.state && f.actualTokens == e.actualTokens && f.requestedDisposition == e.requestedDisposition)
    && (e.state.Uncertain? ==> !f.state.Reserved? && (f.state.Released? ==> f.requestedDisposition == Some(Unused)))
    && (e.uncertaintyOrigin.Some? && !e.state.Reserved? ==> f.uncertaintyOrigin == e.uncertaintyOrigin)
  }

  lemma NextEvolves(e: Entry, t: Transition)
    requires EntryOk(e)
    ensures EntryOk(NextEntry(e, t)) && Evolves(e, NextEntry(e, t))
  {}

  lemma EvolvesTransitive(e: Entry, f: Entry, g: Entry)
    requires Evolves(e, f) && Evolves(f, g)
    ensures Evolves(e, g)
  {}

  // -------------------------------------------------- steps keep the invariant

  lemma FreshInv(cfg: Config, most: nat)
    requires cfg.maxInFlight <= most
    ensures forall uuid: nat :: Inv(Fresh(cfg).(nextUuid := uuid), most) && WithinLimit(Fresh(cfg).(nextUuid := uuid))
  {}

  /** A shorter list of the same leases is fine, with or without an odd grant. */
  lemma FewerLeases(s: Ledger, most: nat, odd: Option<RequestId>, leases: seq<Lease>)
    requires InvExcept(s, most, odd)
    requires DistinctIds(leases) && |leases| <= most && forall l :: l in leases ==> l in s.leases
    ensures InvExcept(s.(leases := leases), most, odd)
  {}

  lemma PruneKeeps(s: Ledger, most: nat, odd: Option<RequestId>, nowMs: int)
    requires InvExcept(s, most, odd)
    ensures InvExcept(s.(leases := Active(s.leases, nowMs)), most, odd)
  {
    ActiveDistinct(s.leases, nowMs);
    FewerLeases(s, most, odd, Active(s.leases, nowMs));
  }

  lemma IdempotencyAfterWrite(m: Entries, idempotency: map<IdempotencyKey, RequestId>, id: RequestId, f: Entry)
    requires IdempotencyOk(m, idempotency) && id in m && Evolves(m[id], f)
    ensures IdempotencyOk(m[id := f], idempotency)
  {
    assert forall other :: other in m ==> KeyOk(idempotency, other, m[other]);
  }

  lemma GrantsAfterWrite(m: Entries, grants: Grants, uuid: nat, id: RequestId, f: Entry)
    requires GrantsOk(m, grants, uuid, None)
    ensures GrantsOk(m[id := f], grants, uuid, Some(id))
    ensures id !in grants ==> GrantsOk(m[id := f], grants, uuid, None)
  {
    assert forall other :: other in grants ==> GrantOk(m, other, grants[other], uuid);
  }

  lemma LeasesAfterWrite(leases: seq<Lease>, m: Entries, grants: Grants, uuid: nat, most: nat, id: RequestId, f: Entry)
    requires LeasesOk(leases, m, grants, uuid, most)
    ensures LeasesOk(leases, m[id := f], grants, uuid, most)
  {
    assert forall l :: l in leases ==> LeaseOk(m, grants, uuid, l) && LeaseOk(m[id := f], grants, uuid, l);
  }

  lemma ApplyKeeps(s: Ledger, most: nat, id: RequestId, t: Transition)
    requires Inv(s, most)
    ensures InvExcept(Apply(s, id, t), most, Some(id))
    ensures id !in s.grants ==> Inv(Apply(s, id, t), most)
  {
    if id in s.entries {
      var f := NextEntry(s.entries[id], t);
      NextEvolves(s.entries[id], t);
      IdempotencyAfterWrite(s.entries, s.idempotency, id, f);
      GrantsAfterWrite(s.entries, s.grants, s.nextUuid, id, f);
      LeasesAfterWrite(s.leases, s.entries, s.grants, s.nextUuid, most, id, f);
    }
  }

  /** Giving back the lease of a relayed request with its own generation leaves it no lease at all. */
  lemma ReleaseLeaseKeeps(s: Ledger, most: nat, odd: Option<RequestId>, id: RequestId, generation: Option<nat>, nowMs: int)
    requires InvExcept(s, most, odd)
    ensures InvExcept(ReleaseInFlight(s, id, generation, nowMs), most, odd)
    ensures id in s.grants && generation == Some(s.grants[id].leaseGeneration) ==>
              forall l :: l in ReleaseInFlight(s, id, generation, nowMs).leases ==> l.requestId != id
  {
    var active := Active(s.leases, nowMs);
    ActiveDistinct(s.leases, nowMs);
    DropLeaseDrops(active, id);
    FewerLeases(s, most, odd, ReleaseInFlight(s, id, generation, nowMs).leases);
    forall l | l in active && l.requestId == id
      ensures FindLease(active, id) == Some(l) && LeaseOk(s.entries, s.grants, s.nextUuid, l)
    {
      FindUnique(active, l);
    }
  }

  predicate SameGrant(g: Grant, h: Grant) {
    h.(state := g.state, terminalReport := g.terminalReport, terminalFingerprint := g.terminalFingerprint) == g
  }

  lemma RewriteGrantKeeps(s: Ledger, most: nat, id: RequestId, next: Grant)
    requires InvExcept(s, most, Some(id))
    requires id in s.grants && SameGrant(s.grants[id], next) && id in s.entries
    requires Coupled(next.state, s.entries[id].state)
    requires (next.state.Authorized? || next.state.Attempted?) || forall l :: l in s.leases ==> l.requestId != id
    requires GrantFacts(s.entries[id], s.grants[id], s.nextUuid)
    ensures Inv(s.(grants := s.grants[id := next]), most)
  {
    var grants := s.grants[id := next];
    assert forall other :: other in s.grants && other != id ==> GrantOk(s.entries, other, s.grants[other], s.nextUuid);
    assert forall l :: l in s.leases ==>
      LeaseOk(s.entries, s.grants, s.nextUuid, l) && LeaseOk(s.entries, grants, s.nextUuid, l);
  }

  lemma CloseGrantKeeps(s: Ledger, most: nat, id: RequestId, t: Transition, next: Grant, nowMs: int)
    requires Inv(s, most) && id in s.grants && SameGrant(s.grants[id], next)
    requires id in s.entries && Coupled(next.state, NextEntry(s.entries[id], t).state)
    requires !next.state.Authorized? && !next.state.Attempted?
    ensures Inv(CloseGrant(s, id, t, s.grants[id], next, nowMs), most)
  {
    var g := s.grants[id];
    assert GrantOk(s.entries, id, g, s.nextUuid);
    NextEvolves(s.entries[id], t);
    var s1 := Apply(s, id, t);
    ApplyKeeps(s, most, id, t);
    ReleaseLeaseKeeps(s1, most, Some(id), id, Some(g.leaseGeneration), nowMs);
    RewriteGrantKeeps(ReleaseInFlight(s1, id, Some(g.leaseGeneration), nowMs), most, id, next);
  }

  lemma EnterKeeps(s: Ledger, most: nat, id: RequestId, e: Entry)
    requires Inv(s, most) && id !in s.entries && !s.finalized
    requires EntryOk(e) && e.state.Reserved?
    requires e.idempotency.Some? && e.idempotency.value in s.idempotency ==>
               s.idempotency[e.idempotency.value] in s.entries
               && s.entries[s.idempotency[e.idempotency.value]].state.Released?
    ensures Inv(Enter(s, id, e), most) && id !in s.grants
  {
    GrantsAfterWrite(s.entries, s.grants, s.nextUuid, id, e);
    LeasesAfterWrite(s.leases, s.entries, s.grants, s.nextUuid, most, id, e);
    assert forall other :: other in s.entries ==> KeyOk(s.idempotency, other, s.entries[other]);
    assert id in s.grants ==> GrantOk(s.entries, id, s.grants[id], s.nextUuid);
  }

  /** Handing out identifiers disturbs nothing. */
  lemma MoreUuids(s: Ledger, most: nat, uuid: nat)
    requires Inv(s, most) && s.nextUuid <= uuid
    ensures Inv(s.(nextUuid := uuid), most)
  {
    assert forall id :: id in s.grants ==> GrantOk(s.entries, id, s.grants[id], s.nextUuid);
    assert forall l :: l in s.leases ==>
      LeaseOk(s.entries, s.grants, s.nextUuid, l) && LeaseOk(s.entries, s.grants, uuid, l);
  }

  lemma ReserveKeeps(s: Ledger, most: nat, id: RequestId, tokens: int, upperBound: int, key: ParsedKey, client: Option<string>)
    requires Inv(s, most)
    ensures Inv(Reserve(s, id, tokens, upperBound, key, client).0, most)
  {
    var mk := MappingKey(key, client);
    if ValidReservation(tokens, upperBound) && !key.KeyInvalid? && AnsweringId(s, id, mk) !in s.entries && !s.finalized
       && HasCapacity(tokens, upperBound, Remaining(s), s.cfg.limit) {
      EnterKeeps(s, most, id, NewEntry(tokens, upperBound, mk, Remaining(s)));
    }
  }

  lemma AppendLeaseKeeps(s: Ledger, most: nat, l: Lease)
    requires Inv(s, most) && |s.leases| < most
    requires LeaseOk(s.entries, s.grants, s.nextUuid, l) && forall o :: o in s.leases ==> o.requestId != l.requestId
    ensures Inv(s.(leases := s.leases + [l]), most)
  {
    AppendDistinct(s.leases, l);
  }

  lemma AcquireKeeps(s: Ledger, most: nat, id: RequestId, limit: int, ttlMs: int, nowMs: int)
    requires Inv(s, most) && id in s.entries && id !in s.grants && limit <= most
    ensures Inv(AcquireInFlight(s, id, limit, ttlMs, nowMs).0, most)
  {
    var p := s.(leases := Active(s.leases, nowMs));
    PruneKeeps(s, most, None, nowMs);
    var (r, result) := AcquireInFlight(s, id, limit, ttlMs, nowMs);
    if r.nextUuid != s.nextUuid {
      MoreUuids(p, most, s.nextUuid + 1);
      AppendLeaseKeeps(p.(nextUuid := s.nextUuid + 1), most, result.lease);
    }
  }

  /** Extending the lease of `id`, which is either not relayed or attempted and within its authorization. */
  lemma ExtendKeeps(s: Ledger, most: nat, id: RequestId, x: int)
    requires Inv(s, most)
    requires id in s.grants ==> x < s.grants[id].authorizationExpiresAtMs + DEFAULT_LEASE_TTL_MS
    ensures Inv(s.(leases := ExtendLease(s.leases, id, x)), most)
  {
    var leases := ExtendLease(s.leases, id, x);
    ExtendLeaseExtends(s.leases, id, x);
    forall l | l in leases
      ensures LeaseOk(s.entries, s.grants, s.nextUuid, l)
    {
      var o :| o in s.leases && o.requestId == l.requestId && o.generation == l.generation;
      assert LeaseOk(s.entries, s.grants, s.nextUuid, o);
      if l.requestId != id {
        assert l in s.leases;
      }
    }
  }

  lemma AdmitKeeps(s: Ledger, most: nat, input: AdmitInput, nowMs: int)
    requires Inv(s, most)
    ensures Inv(AdmitRelay(s, input, nowMs).0, most)
  {
    if AdmissionPrecheck(s, input).None? && input.requestId !in s.entries && !s.finalized
       && HasCapacity(input.reservedTokens, input.upperBoundTokens, Remaining(s), s.cfg.limit) {
      PruneKeeps(s, most, None, nowMs);
      var active := Active(s.leases, nowMs);
      if |active| < s.cfg.maxInFlight {
        CommitKeeps(s, most, input, active, nowMs);
      }
    }
  }

  lemma CommitKeeps(s: Ledger, most: nat, input: AdmitInput, active: seq<Lease>, nowMs: int)
    requires Inv(s.(leases := active), most) && |active| < s.cfg.maxInFlight
    requires AdmissionPrecheck(s, input).None? && input.requestId !in s.entries && !s.finalized
    ensures Inv(CommitAdmission(s, input, active, nowMs).0, most)
  {
    var e := NewEntry(
      input.reservedTokens, input.upperBoundTokens, MappingKey(input.rawKey, Some(input.clientId)), Remaining(s));
    var g := NewGrant(s.cfg, input, s.nextUuid, s.nextUuid + 1, nowMs);
    CommitRecordsKeep(s.(leases := active), most, input.requestId, e, g, nowMs);
  }

  /** Entry, grant and lease written together for a request that has none of them. */
  lemma CommitRecordsKeep(p: Ledger, most: nat, id: RequestId, e: Entry, g: Grant, nowMs: int)
    requires Inv(p, most) && |p.leases| < p.cfg.maxInFlight && id !in p.entries && !p.finalized
    requires EntryOk(e) && e.state.Reserved? && g.state.Authorized?
    requires e.idempotency.Some? && e.idempotency.value in p.idempotency ==>
               p.idempotency[e.idempotency.value] in p.entries
               && p.entries[p.idempotency[e.idempotency.value]].state.Released?
    requires GrantFacts(e, g, p.nextUuid + 2) && g.leaseGeneration == p.nextUuid && g.issuedAtMs == nowMs
    ensures
      var lease := Lease(id, p.nextUuid, nowMs + DEFAULT_LEASE_TTL_MS);
      Inv(Enter(p, id, e).(
            leases := p.leases + [lease], grants := p.grants[id := g], nextUuid := p.nextUuid + 2), most)
  {
    EnterKeeps(p, most, id, e);
    MoreUuids(Enter(p, id, e), most, p.nextUuid + 2);
    var q := Enter(p, id, e).(nextUuid := p.nextUuid + 2);
    assert forall l :: l in p.leases ==> LeaseOk(p.entries, p.grants, p.nextUuid, l);
    AddGrantKeeps(q, p.entries, most, id, g);
    AppendLeaseKeeps(
      q.(grants := q.grants[id := g]), most, Lease(id, p.nextUuid, nowMs + DEFAULT_LEASE_TTL_MS));
  }

  lemma AddGrantKeeps(q: Ledger, before: Entries, most: nat, id: RequestId, g: Grant)
    requires Inv(q, most) && id !in q.grants && GrantOk(q.entries, id, g, q.nextUuid)
    requires id !in before && forall l :: l in q.leases ==> l.requestId in before
    ensures Inv(q.(grants := q.grants[id := g]), most)
  {
    var grants := q.grants[id := g];
    assert forall other :: other in q.grants ==> GrantOk(q.entries, other, q.grants[other], q.nextUuid);
    assert forall l :: l in q.leases ==>
      LeaseOk(q.entries, q.grants, q.nextUuid, l) && LeaseOk(q.entries, grants, q.nextUuid, l);
  }

  lemma ActivateKeeps(s: Ledger, most: nat, b: Binding, nowMs: int)
    requires Inv(s, most)
    ensures Inv(ActivateRelay(s, b, nowMs).0, most)
  {
    if Bound(s, b) {
      var id, g := b.requestId, s.grants[b.requestId];
      assert GrantOk(s.entries, id, g, s.nextUuid);
      if g.state.Authorized? && nowMs < g.credentialExpiresAtMs {
        if nowMs >= g.authorizationExpiresAtMs {
          CloseGrantKeeps(s, most, id, ToReleased, g.(state := GrantReleased), nowMs);
        } else {
          RewriteGrantKeeps(s, most, id, g.(state := Attempted));
        }
      }
    }
  }

  lemma RenewBranchKeeps(s: Ledger, most: nat, id: RequestId, nowMs: int)
    requires Inv(s, most) && (id in s.grants ==> nowMs < s.grants[id].authorizationExpiresAtMs)
    ensures Inv(s.(leases := Active(s.leases, nowMs)), most)
    ensures Inv(s.(leases := ExtendAll(Active(s.leases, nowMs), id, nowMs + DEFAULT_LEASE_TTL_MS)), most)
  {
    PruneKeeps(s, most, None, nowMs);
    var p := s.(leases := Active(s.leases, nowMs));
    ExtendLeaseExtends(p.leases, id, nowMs + DEFAULT_LEASE_TTL_MS);
    ExtendKeeps(p, most, id, nowMs + DEFAULT_LEASE_TTL_MS);
  }

  lemma RenewRelayKeeps(s: Ledger, most: nat, b: Binding, nowMs: int)
    requires Inv(s, most)
    ensures Inv(RenewRelay(s, b, nowMs).0, most)
  {
    if Bound(s, b) {
      var id, g := b.requestId, s.grants[b.requestId];
      assert GrantOk(s.entries, id, g, s.nextUuid);
      if g.state.Attempted? && nowMs < g.credentialExpiresAtMs {
        if nowMs >= g.authorizationExpiresAtMs {
          CloseGrantKeeps(s, most, id, ToUncertain, g.(state := GrantUncertain), nowMs);
        } else {
          RenewBranchKeeps(s, most, id, nowMs);
        }
      }
    }
  }

  lemma FinishKeeps(s: Ledger, most: nat, b: Binding, r: TerminalReport, fingerprint: string, nowMs: int)
    requires Inv(s, most)
    ensures Inv(FinishRelay(s, b, r, fingerprint, nowMs).0, most)
  {
    if WellFormedReport(r) && Bound(s, b) {
      var id, g := b.requestId, s.grants[b.requestId];
      assert GrantOk(s.entries, id, g, s.nextUuid);
      if nowMs < g.credentialExpiresAtMs && !IsTerminalGrant(g.state) {
        if r.outcome.ReleaseOutcome? && !g.state.Authorized? {
          if g.state.Attempted? {
            CloseGrantKeeps(s, most, id, ToUncertain, g.(state := GrantUncertain), nowMs);
          }
        } else if !(r.outcome.SettleOutcome? && g.state.Authorized?) {
          var finished := g.(state := GrantStateOf(r.outcome), terminalReport := Some(r), terminalFingerprint := Some(fingerprint));
          CloseGrantKeeps(s, most, id, TransitionOf(r), finished, nowMs);
        }
      }
    }
  }

  lemma ReconcileKeeps(s: Ledger, most: nat, id: RequestId, d: Disposition, nowMs: int)
    requires Inv(s, most)
    ensures Inv(Reconcile(s, id, d, nowMs).0, most)
  {
    if Reconcilable(s, id) {
      ApplyKeeps(s, most, id, ToReconciled(d));
      if id in s.grants {
        var g := s.grants[id];
        assert GrantOk(s.entries, id, g, s.nextUuid);
        CloseGrantKeeps(
          s, most, id, ToReconciled(d),
          g.(state := if d.Consumed? then ReconciledConsumed else ReconciledUnused,
             terminalReport := None, terminalFingerprint := Some(DispositionName(d))),
          nowMs);
      }
    }
  }

  lemma FinalizeMarkKeeps(s: Ledger, most: nat)
    requires Inv(s, most)
    ensures Inv(FinalizeMark(s).0, most)
  {
    SumZero(s.entries.Keys, s.entries, UncertainCount);
    SumZero(s.entries.Keys, s.entries, ReservedCount);
    assert forall id :: id in s.entries ==> (IsLive(s.entries[id].state) <==>
      Weight(UncertainCount, s.entries[id]) + Weight(ReservedCount, s.entries[id]) > 0);
  }

  lemma FenceKeeps(s: Ledger, most: nat, id: RequestId, nowMs: int)
    requires Inv(s, most)
    ensures Inv(Fence(s, id, nowMs).0, most)
  {
    var inspection := Inspect(s, id, nowMs);
    var fences := Fence(s, id, nowMs).0.fences;
    assert Fence(s, id, nowMs).0 == s.(fences := fences);
  }

  lemma RenewKeeps(s: Ledger, most: nat, id: RequestId, generation: nat, ttlMs: int, nowMs: int)
    requires Inv(s, most) && id !in s.grants
    ensures Inv(RenewInFlight(s, id, generation, ttlMs, nowMs).0, most)
  {
    PruneKeeps(s, most, None, nowMs);
    ExtendKeeps(s.(leases := Active(s.leases, nowMs)), most, id, nowMs + ttlMs);
  }

  lemma DeleteKeeps(s: Ledger, most: nat)
    requires Inv(s, most)
    ensures Inv(FinalizeDelete(s), most)
  {}

  /** Every RPC keeps the invariant. */
  lemma StepKeeps(s: Ledger, op: Op, nowMs: int, most: nat)
    requires Inv(s, most) && Allowed(s, op, most)
    ensures Inv(Step(s, op, nowMs), most)
  {
    hide InvExcept, Reserve, Apply, Reconcile, AcquireInFlight, RenewInFlight, ReleaseInFlight, AdmitRelay, ActivateRelay, RenewRelay, FinishRelay, Fence, FinalizeMark, FinalizeDelete;
    match op
    case DoReserve(id, tokens, upperBound, key, client) => ReserveKeeps(s, most, id, tokens, upperBound, key, client);
    case DoSettle(id, actual) => if IsSafeNat(actual) { ApplyKeeps(s, most, id, ToSettled(actual)); }
    case DoMarkUncertain(id) => ApplyKeeps(s, most, id, ToUncertain);
    case DoMarkReserveOutcomeUnknown(id) => ApplyKeeps(s, most, id, ToUnknown);
    case DoRelease(id) => ApplyKeeps(s, most, id, ToReleased);
    case DoReconcile(id, d) => ReconcileKeeps(s, most, id, d, nowMs);
    case DoAcquire(id, limit, ttlMs) => AcquireKeeps(s, most, id, limit, ttlMs, nowMs);
    case DoRenew(id, generation, ttlMs) => RenewKeeps(s, most, id, generation, ttlMs, nowMs);
    case DoReleaseLease(id, generation) => ReleaseLeaseKeeps(s, most, None, id, generation, nowMs);
    case DoAdmit(input) => AdmitKeeps(s, most, input, nowMs);
    case DoActivate(b) => ActivateKeeps(s, most, b, nowMs);
    case DoRenewRelay(b) => RenewRelayKeeps(s, most, b, nowMs);
    case DoFinish(b, r, fingerprint) => FinishKeeps(s, most, b, r, fingerprint, nowMs);
    case DoFence(id) => FenceKeeps(s, most, id, nowMs);
    case DoFinalizeMark => FinalizeMarkKeeps(s, most);
    case DoFinalizeDelete => DeleteKeeps(s, most);
  }

  // ------------------------------------------------------- what one step does

  /** The request a step names. */
  function TargetOf(op: Op): Option<RequestId> {
    match op
    case DoAdmit(input) => Some(input.requestId)
    case DoActivate(b) => Some(b.requestId)
    case DoRenewRelay(b) => Some(b.requestId)
    case DoFinish(b, _, _) => Some(b.requestId)
    case DoFinalizeMark => None
    case DoFinalizeDelete => None
    case _ => Some(op.id)
  }

  /** The one write a step makes to the entries. */
  datatype Move = NoMove | Write(id: RequestId, transition: Transition) | New(id: RequestId, entry: Entry)

  predicate FitsMove(s: Ledger, op: Op, move: Move, m: Entries) {
    match move
    case NoMove => m == s.entries
    case Write(id, t) =>
      id in s.entries && TargetOf(op) == Some(id) && m == s.entries[id := NextEntry(s.entries[id], t)]
    case New(id, e) =>
      id !in s.entries && TargetOf(op) == Some(id) && !s.finalized && m == s.entries[id := e]
      && EntryOk(e) && e.state.Reserved?
  }

  lemma AdmitMoves(s: Ledger, input: AdmitInput, nowMs: int) returns (move: Move)
    ensures FitsMove(s, DoAdmit(input), move, AdmitRelay(s, input, nowMs).0.entries)
    ensures move.New? ==> move.entry.reservedTokens <= Remaining(s)
  {
    move := NoMove;
    if AdmissionPrecheck(s, input).None? && input.requestId !in s.entries && !s.finalized
       && HasCapacity(input.reservedTokens, input.upperBoundTokens, Remaining(s), s.cfg.limit)
       && |Active(s.leases, nowMs)| < s.cfg.maxInFlight {
      move := New(input.requestId, NewEntry(
        input.reservedTokens, input.upperBoundTokens, MappingKey(input.rawKey, Some(input.clientId)), Remaining(s)));
    }
  }

  lemma ActivateMoves(s: Ledger, b: Binding, nowMs: int) returns (move: Move)
    ensures FitsMove(s, DoActivate(b), move, ActivateRelay(s, b, nowMs).0.entries) && !move.New?
  {
    move := NoMove;
    if Bound(s, b) && b.requestId in s.entries {
      var g := s.grants[b.requestId];
      if g.state.Authorized? && g.authorizationExpiresAtMs <= nowMs < g.credentialExpiresAtMs {
        move := Write(b.requestId, ToReleased);
      }
    }
  }

  lemma RenewMoves(s: Ledger, b: Binding, nowMs: int) returns (move: Move)
    ensures FitsMove(s, DoRenewRelay(b), move, RenewRelay(s, b, nowMs).0.entries) && !move.New?
  {
    move := NoMove;
    if Bound(s, b) && b.requestId in s.entries {
      var g := s.grants[b.requestId];
      if g.state.Attempted? && g.authorizationExpiresAtMs <= nowMs < g.credentialExpiresAtMs {
        move := Write(b.requestId, ToUncertain);
      }
    }
  }

  lemma FinishMoves(s: Ledger, b: Binding, report: TerminalReport, fingerprint: string, nowMs: int) returns (move: Move)
    ensures FitsMove(s, DoFinish(b, report, fingerprint), move, FinishRelay(s, b, report, fingerprint, nowMs).0.entries)
    ensures !move.New?
  {
    move := NoMove;
    if FinishRelay(s, b, report, fingerprint, nowMs).0.entries != s.entries {
      var g := s.grants[b.requestId];
      move := Write(
        b.requestId,
        if report.outcome.ReleaseOutcome? && !g.state.Authorized? then ToUncertain else TransitionOf(report));
    }
  }

  lemma PlainMoves(s: Ledger, op: Op, nowMs: int) returns (move: Move)
    requires NoDelete(op) && !IsGrantOp(op) && IdempotencyOk(s.entries, s.idempotency)
    ensures FitsMove(s, op, move, PlainStep(s, op, nowMs).entries)
    ensures move.New? ==> move.entry.reservedTokens <= Remaining(s)
  {
    move := NoMove;
    match op {
      case DoReserve(id, tokens, upperBound, key, client) =>
        if Reserve(s, id, tokens, upperBound, key, client).0.entries != s.entries {
          move := New(id, NewEntry(tokens, upperBound, MappingKey(key, client), Remaining(s)));
        }
      case DoSettle(id, actual) => move := if IsSafeNat(actual) && id in s.entries then Write(id, ToSettled(actual)) else NoMove;
      case DoMarkUncertain(id) => move := if id in s.entries then Write(id, ToUncertain) else NoMove;
      case DoMarkReserveOutcomeUnknown(id) => move := if id in s.entries then Write(id, ToUnknown) else NoMove;
      case DoRelease(id) => move := if id in s.entries then Write(id, ToReleased) else NoMove;
      case _ =>
    }
  }

  lemma GrantMoves(s: Ledger, op: Op, nowMs: int) returns (move: Move)
    requires IsGrantOp(op)
    ensures FitsMove(s, op, move, GrantStep(s, op, nowMs).entries)
    ensures move.New? ==> move.entry.reservedTokens <= Remaining(s)
  {
    match op {
      case DoReconcile(id, d) => move := if Reconcilable(s, id) then Write(id, ToReconciled(d)) else NoMove;
      case DoAdmit(input) => move := AdmitMoves(s, input, nowMs);
      case DoActivate(b) => move := ActivateMoves(s, b, nowMs);
      case DoRenewRelay(b) => move := RenewMoves(s, b, nowMs);
      case DoFinish(b, report, fingerprint) => move := FinishMoves(s, b, report, fingerprint, nowMs);
    }
  }

  /** Apart from `deleteAll`, a step writes at most one entry, by a transition or as a new reservation. */
  lemma StepMoves(s: Ledger, op: Op, nowMs: int, most: nat) returns (move: Move)
    requires Inv(s, most) && NoDelete(op)
    ensures FitsMove(s, op, move, Step(s, op, nowMs).entries)
    ensures move.New? ==> move.entry.reservedTokens <= Remaining(s)
  {
    if IsGrantOp(op) {
      move := GrantMoves(s, op, nowMs);
    } else {
      move := PlainMoves(s, op, nowMs);
    }
  }

  lemma StepEvolves(s: Ledger, op: Op, nowMs: int, most: nat)
    requires Inv(s, most) && NoDelete(op)
    ensures EntriesEvolve(s.entries, Step(s, op, nowMs).entries)
  {
    var move := StepMoves(s, op, nowMs, most);
    MoveEvolves(s, op, move, Step(s, op, nowMs).entries);
  }

  predicate EntriesEvolve(m: Entries, n: Entries) {
    forall id :: id in m ==> id in n && Evolves(m[id], n[id])
  }

  lemma MoveEvolves(s: Ledger, op: Op, move: Move, m: Entries)
    requires EntriesOk(s.entries) && FitsMove(s, op, move, m)
    ensures EntriesEvolve(s.entries, m)
    ensures s.finalized && NothingLive(s.entries) ==> NothingLive(m)
  {
    if move.Write? {
      NextEvolves(s.entries[move.id], move.transition);
    }
  }

  /** A step leaves the entries of the requests it does not name alone. */
  lemma StepFrame(s: Ledger, op: Op, nowMs: int, most: nat, id: RequestId)
    requires Inv(s, most) && NoDelete(op) && TargetOf(op) != Some(id)
    ensures id in Step(s, op, nowMs).entries <==> id in s.entries
    ensures id in s.entries ==> Step(s, op, nowMs).entries[id] == s.entries[id]
  {
    var move := StepMoves(s, op, nowMs, most);
  }

  lemma StepWithinLimit(s: Ledger, op: Op, nowMs: int, most: nat)
    requires Inv(s, most) && WithinLimit(s)
    ensures WithinLimit(Step(s, op, nowMs))
  {
    if NoDelete(op) {
      var move := StepMoves(s, op, nowMs, most);
      MoveWithinLimit(s, op, move, Step(s, op, nowMs));
    }
  }

  lemma MoveWithinLimit(s: Ledger, op: Op, move: Move, r: Ledger)
    requires EntriesOk(s.entries) && WithinLimit(s) && r.cfg == s.cfg
    requires FitsMove(s, op, move, r.entries) && (move.New? ==> move.entry.reservedTokens <= Remaining(s))
    ensures WithinLimit(r)
  {
    if !move.NoMove? {
      var f := if move.New? then move.entry else NextEntry(s.entries[move.id], move.transition);
      UsedAfterWrite(s, move.id, f);
      if move.Write? {
        TransitionWeights(s.entries[move.id], move.transition);
      }
    }
  }

  /** A transition adds to what is used no more than it adds to the overage. */
  lemma TransitionWeights(e: Entry, t: Transition)
    requires EntryOk(e)
    ensures var f := NextEntry(e, t);
      Weight(ConfirmedTokens, f) + Weight(ReservedTokens, f) + Weight(UncertainTokens, f) - Weight(Overage, f)
      <= Weight(ConfirmedTokens, e) + Weight(ReservedTokens, e) + Weight(UncertainTokens, e) - Weight(Overage, e)
  {}

  lemma UsedAfterWrite(s: Ledger, id: RequestId, f: Entry)
    ensures Used(s.(entries := s.entries[id := f])) - Sum(s.entries[id := f], Overage)
         == Used(s) - Sum(s.entries, Overage)
            + Weight(ConfirmedTokens, f) + Weight(ReservedTokens, f) + Weight(UncertainTokens, f) - Weight(Overage, f)
            - WeightAt(s.entries, ConfirmedTokens, id) - WeightAt(s.entries, ReservedTokens, id)
            - WeightAt(s.entries, UncertainTokens, id) + WeightAt(s.entries, Overage, id)
  {
    SumUpdate(s.entries, ConfirmedTokens, id, f);
    SumUpdate(s.entries, ReservedTokens, id, f);
    SumUpdate(s.entries, UncertainTokens, id, f);
    SumUpdate(s.entries, Overage, id, f);
  }

  /** How one grant may change, over one step and over a whole run. */
  predicate GrantEvolves(g: Grant, h: Grant) {
    && SameGrant(g, h)
    && (IsTerminalGrant(g.state) ==> h == g)
    && (g.state.Attempted? ==> !h.state.Authorized? && !h.state.GrantReleased?)
    && (g.state.GrantUncertain? ==> !h.state.Authorized? && !h.state.Attempted? && !h.state.GrantReleased?)
  }

  /** The grants after a step: known ones evolve, new ones carry new identifiers. */
  predicate GrantsMoved(s: Ledger, r: Ledger) {
    && s.nextUuid <= r.nextUuid
    && (forall id :: id in s.grants ==> id in r.grants && GrantEvolves(s.grants[id], r.grants[id]))
    && (forall id :: id in r.grants && id !in s.grants ==> r.grants[id].grantId >= s.nextUuid)
  }

  lemma GrantsSame(s: Ledger, r: Ledger)
    requires r.grants == s.grants && s.nextUuid <= r.nextUuid
    ensures GrantsMoved(s, r)
  {}

  lemma GrantRewritten(s: Ledger, r: Ledger, id: RequestId, next: Grant)
    requires id in s.grants && r.grants == s.grants[id := next] && GrantEvolves(s.grants[id], next)
    requires s.nextUuid <= r.nextUuid
    ensures GrantsMoved(s, r)
  {}

  lemma ReconcileGrants(s: Ledger, id: RequestId, d: Disposition, nowMs: int)
    ensures GrantsMoved(s, Reconcile(s, id, d, nowMs).0)
  {
    var r := Reconcile(s, id, d, nowMs).0;
    if r.grants == s.grants {
      GrantsSame(s, r);
    } else {
      GrantRewritten(s, r, id, r.grants[id]);
    }
  }

  lemma AdmittedGrant(s: Ledger, input: AdmitInput, nowMs: int)
    ensures var r, id := AdmitRelay(s, input, nowMs).0, input.requestId;
      || r.grants == s.grants
      || (id !in s.entries && id in r.grants && r.grants == s.grants[id := r.grants[id]]
          && r.grants[id].grantId >= s.nextUuid)
  {}

  lemma AdmitGrants(s: Ledger, input: AdmitInput, nowMs: int, most: nat)
    requires Inv(s, most)
    ensures GrantsMoved(s, AdmitRelay(s, input, nowMs).0)
  {
    hide AdmitRelay;
    AdmittedGrant(s, input, nowMs);
    assert forall id :: id in s.grants ==> GrantOk(s.entries, id, s.grants[id], s.nextUuid);
  }

  lemma CloseGrants(s: Ledger, id: RequestId, t: Transition, next: Grant, nowMs: int)
    requires id in s.grants && GrantEvolves(s.grants[id], next)
    ensures GrantsMoved(s, CloseGrant(s, id, t, s.grants[id], next, nowMs))
  {
    GrantRewritten(s, CloseGrant(s, id, t, s.grants[id], next, nowMs), id, next);
  }

  lemma ActivateGrants(s: Ledger, b: Binding, nowMs: int)
    ensures GrantsMoved(s, ActivateRelay(s, b, nowMs).0)
  {
    var r := ActivateRelay(s, b, nowMs).0;
    if r == s {
      GrantsSame(s, r);
    } else {
      var g := s.grants[b.requestId];
      if nowMs >= g.authorizationExpiresAtMs {
        CloseGrants(s, b.requestId, ToReleased, g.(state := GrantReleased), nowMs);
      } else {
        GrantRewritten(s, r, b.requestId, g.(state := Attempted));
      }
    }
  }

  lemma RenewGrants(s: Ledger, b: Binding, nowMs: int)
    ensures GrantsMoved(s, RenewRelay(s, b, nowMs).0)
  {
    var r := RenewRelay(s, b, nowMs).0;
    if Bound(s, b) && s.grants[b.requestId].state.Attempted?
       && s.grants[b.requestId].authorizationExpiresAtMs <= nowMs < s.grants[b.requestId].credentialExpiresAtMs {
      CloseGrants(s, b.requestId, ToUncertain, s.grants[b.requestId].(state := GrantUncertain), nowMs);
    } else {
      GrantsSame(s, r);
    }
  }

  lemma FinishGrants(s: Ledger, b: Binding, report: TerminalReport, fingerprint: string, nowMs: int)
    ensures GrantsMoved(s, FinishRelay(s, b, report, fingerprint, nowMs).0)
  {
    var r := FinishRelay(s, b, report, fingerprint, nowMs).0;
    if r == s {
      GrantsSame(s, r);
    } else {
      var g := s.grants[b.requestId];
      if report.outcome.ReleaseOutcome? && !g.state.Authorized? {
        CloseGrants(s, b.requestId, ToUncertain, g.(state := GrantUncertain), nowMs);
      } else {
        var finished := g.(
          state := GrantStateOf(report.outcome), terminalReport := Some(report), terminalFingerprint := Some(fingerprint));
        CloseGrants(s, b.requestId, TransitionOf(report), finished, nowMs);
      }
    }
  }

  lemma StepGrants(s: Ledger, op: Op, nowMs: int, most: nat)
    requires Inv(s, most) && NoDelete(op)
    ensures GrantsMoved(s, Step(s, op, nowMs))
  {
    if IsGrantOp(op) {
      match op {
        case DoReconcile(id, d) => ReconcileGrants(s, id, d, nowMs);
        case DoAdmit(input) => AdmitGrants(s, input, nowMs, most);
        case DoActivate(b) => ActivateGrants(s, b, nowMs);
        case DoRenewRelay(b) => RenewGrants(s, b, nowMs);
        case DoFinish(b, report, fingerprint) => FinishGrants(s, b, report, fingerprint, nowMs);
      }
    } else {
      GrantsSame(s, PlainStep(s, op, nowMs));
    }
  }

  /** Some lease of this generation is unexpired at time `t`. */
  predicate LiveAt(s: Ledger, generation: nat, t: int) {
    exists l :: l in s.leases && l.generation == generation && l.expiresAtMs > t
  }
}
