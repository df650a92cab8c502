/**
 * The ledger as one public request sees it, while any other callers go on using the same object.
 */
module RequestView {
  import opened Wrappers
  import opened L = QuotaLedger
  import opened LedgerRuns
  import opened LedgerHistory
  import LedgerLeases

  function EntryOf(s: Ledger, id: RequestId): Option<Entry> {
    if id in s.entries then Some(s.entries[id]) else None
  }

  /** The generations of the leases the request has in the list, expired ones included. */
  function Generations(s: Ledger, id: RequestId): set<nat> {
    set l | l in s.leases && l.requestId == id :: l.generation
  }

  /** A request that is not relayed, in a sound ledger. */
  predicate Sound(s: Ledger, id: RequestId, most: nat) {
    Inv(s, most) && id !in s.grants
  }

  /** Nobody else writes the request's entry, and others can only take expired leases of it away. */
  predicate Undisturbed(s: Ledger, r: Ledger, id: RequestId) {
    EntryOf(r, id) == EntryOf(s, id) && Generations(r, id) <= Generations(s, id)
  }

  /** What other callers may do: any lawful call but `deleteAll` that names another request. */
  predicate Foreign(s: Ledger, op: Op, id: RequestId, most: nat) {
    NoDelete(op) && Allowed(s, op, most) && TargetOf(op) != Some(id)
  }

  lemma ForeignStep(s: Ledger, op: Op, nowMs: int, id: RequestId, most: nat)
    requires Sound(s, id, most) && Foreign(s, op, id, most)
    ensures Sound(Step(s, op, nowMs), id, most) && Undisturbed(s, Step(s, op, nowMs), id)
    ensures forall l :: l in s.leases && l.requestId == id && l.expiresAtMs > nowMs ==> l in Step(s, op, nowMs).leases
  {
    var r := Step(s, op, nowMs);
    StepKeeps(s, op, nowMs, most);
    StepFrame(s, op, nowMs, most, id);
    OneNewGrant(s, op, nowMs);
    if IsGrantOp(op) { GrantStepLeases(s, op, nowMs); } else { PlainStepLeases(s, op, nowMs); }
    forall l | l in r.leases && l.requestId == id
      ensures l.generation in Generations(s, id)
    {
      assert LeaseFrom(s, l, nowMs, TargetOf(op));
    }
    forall l | l in s.leases && l.requestId == id && l.expiresAtMs > nowMs
      ensures l in r.leases
    {
      LedgerLeases.LeaseSurvives(s, op, nowMs, most, l);
    }
  }

  /** What a reservation leaves behind until the request's next call. */
  predicate JustReserved(e: Entry, tokens: int, upperBound: int, key: Option<IdempotencyKey>) {
    && e.state.Reserved? && e.tokens == tokens && e.upperBoundTokens == upperBound && e.idempotency == key
    && e.results.reserve.ReserveOk?
    && e.results == RpcResults(e.results.reserve, false, false, None, false, false)
  }

  /** The request was never reserved, or once and nothing happened to it since. */
  predicate AtMostReserved(s: Ledger, id: RequestId, tokens: int, upperBound: int, key: ParsedKey, client: Option<string>) {
    id in s.entries ==> JustReserved(s.entries[id], tokens, upperBound, MappingKey(key, client))
  }

  /**
   * A reserve call on such a request: a repeated call changes nothing at all and answers ok again, and
   * the answer is ok exactly when the request is reserved afterwards.
   */
  lemma ReserveOwn(s: Ledger, id: RequestId, tokens: int, upperBound: int, key: ParsedKey, client: Option<string>, most: nat)
    requires Sound(s, id, most) && AtMostReserved(s, id, tokens, upperBound, key, client)
    requires ValidReservation(tokens, upperBound) && !key.KeyInvalid?
    ensures var (r, answer) := Reserve(s, id, tokens, upperBound, key, client);
      && Sound(r, id, most) && AtMostReserved(r, id, tokens, upperBound, key, client)
      && (id in s.entries ==> r == s)
      && answer.ReserveAnswered? && (answer.result.ReserveOk? <==> id in r.entries)
      && Generations(r, id) == Generations(s, id)
  {
    ReserveKeeps(s, most, id, tokens, upperBound, key, client);
    if id in s.entries {
      assert KeyOk(s.idempotency, id, s.entries[id]);
    }
  }

  /**
   * Two attempts of `reserve` for a fresh request, each applied or not, with any calls of others
   * around them: at most one of them changes the ledger's entries, and it adds the reservation.
   */
  lemma ReservedAtMostOnce(
    s1: Ledger, s3: Ledger, id: RequestId, tokens: int, upperBound: int, key: ParsedKey, client: Option<string>,
    most: nat, firstApplied: bool)
    requires Sound(s1, id, most) && id !in s1.entries && ValidReservation(tokens, upperBound) && !key.KeyInvalid?
    requires var s2 := if firstApplied then Reserve(s1, id, tokens, upperBound, key, client).0 else s1;
      Sound(s3, id, most) && Undisturbed(s2, s3, id)
    ensures var s2 := if firstApplied then Reserve(s1, id, tokens, upperBound, key, client).0 else s1;
      var (s4, answer) := Reserve(s3, id, tokens, upperBound, key, client);
      && (s2.entries == s1.entries || s4 == s3)
      && answer.ReserveAnswered? && (answer.result.ReserveOk? <==> id in s4.entries)
  {
    ReserveOwn(s1, id, tokens, upperBound, key, client, most);
    ReserveOwn(s3, id, tokens, upperBound, key, client, most);
  }

  /** The entry is as before the call, or as the call leaves it. */
  predicate MayMove(before: Option<Entry>, after: Option<Entry>, t: Transition) {
    after == before || DidMove(before, after, t)
  }

  predicate DidMove(before: Option<Entry>, after: Option<Entry>, t: Transition) {
    after == if before.Some? then Some(NextEntry(before.value, t)) else None
  }

  lemma ApplyOwn(s: Ledger, id: RequestId, t: Transition, most: nat)
    requires Sound(s, id, most)
    ensures Sound(Apply(s, id, t), id, most) && DidMove(EntryOf(s, id), EntryOf(Apply(s, id, t), id), t)
    ensures Generations(Apply(s, id, t), id) == Generations(s, id)
  {
    ApplyKeeps(s, most, id, t);
  }

  lemma NoLeases(s: Ledger, id: RequestId)
    requires Generations(s, id) == {}
    ensures forall l :: l in s.leases ==> l.requestId != id
  {
    forall l | l in s.leases
      ensures l.requestId == id ==> l.generation in Generations(s, id)
    {}
  }

  lemma AcquireOwn(s: Ledger, id: RequestId, limit: int, ttlMs: int, nowMs: int, most: nat)
    requires Sound(s, id, most) && id in s.entries && limit <= most && Generations(s, id) == {}
    ensures var (r, result) := AcquireInFlight(s, id, limit, ttlMs, nowMs);
      && Sound(r, id, most) && EntryOf(r, id) == EntryOf(s, id)
      && Generations(r, id) == (if result.LeaseHeld? then {result.lease.generation} else {})
      && (result.LeaseHeld? || result.ConcurrencyExceeded? || result.LeaseThrew?)
  {
    AcquireKeeps(s, most, id, limit, ttlMs, nowMs);
    var (r, result) := AcquireInFlight(s, id, limit, ttlMs, nowMs);
    NoLeases(s, id);
    if result.LeaseHeld? {
      assert r.leases[|r.leases| - 1] == result.lease;
    }
  }

  lemma ReleaseLeaseOwn(s: Ledger, id: RequestId, generation: nat, nowMs: int, most: nat)
    requires Sound(s, id, most)
    ensures var r := ReleaseInFlight(s, id, Some(generation), nowMs);
      && Sound(r, id, most) && EntryOf(r, id) == EntryOf(s, id) && Generations(r, id) <= Generations(s, id)
      && (Generations(s, id) <= {generation} ==> Generations(r, id) == {})
      && (forall l :: l in s.leases && l.requestId != id && l.expiresAtMs > nowMs ==> l in r.leases)
  {
    ReleaseLeaseKeeps(s, most, None, id, Some(generation), nowMs);
    ActiveDistinct(s.leases, nowMs);
    DropLeaseDrops(Active(s.leases, nowMs), id);
    LedgerLeases.ReleaseOutcome(s, id, Some(generation), nowMs);
    var r := ReleaseInFlight(s, id, Some(generation), nowMs);
    forall l | l in r.leases && l.requestId == id
      ensures l.generation in Generations(s, id)
    {
      assert l in s.leases;
    }
    var found := FindLease(Active(s.leases, nowMs), id);
    assert found.Some? ==> found.value.generation in Generations(s, id);
  }

  lemma RenewLeaseOwn(s: Ledger, id: RequestId, generation: nat, ttlMs: int, nowMs: int, most: nat)
    requires Sound(s, id, most)
    ensures var (r, result) := RenewInFlight(s, id, generation, ttlMs, nowMs);
      && Sound(r, id, most) && EntryOf(r, id) == EntryOf(s, id) && Generations(r, id) <= Generations(s, id)
      && (result.LeaseHeld? ==> Lease(id, generation, nowMs + ttlMs) in r.leases)
  {
    LedgerLeases.RenewOutcome(s, id, generation, ttlMs, nowMs);
    RenewKeeps(s, most, id, generation, ttlMs, nowMs);
    RenewLeases(s, id, generation, ttlMs, nowMs, None);
    var r := RenewInFlight(s, id, generation, ttlMs, nowMs).0;
    forall l | l in r.leases && l.requestId == id
      ensures l.generation in Generations(s, id)
    {
      assert LeaseFrom(s, l, nowMs, None);
    }
  }
}
