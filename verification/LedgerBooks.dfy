/**
 * What the calls do to the pool's books and to the lease list, told without the entries' bookkeeping.
 */
module LedgerBooks {
  import opened Wrappers
  import opened L = QuotaLedger
  import opened LedgerSums
  import opened LedgerRuns
  import opened LedgerLeases

  /** Token sums of a ledger. */
  datatype Books = Books(confirmed: int, reserved: int, uncertain: int, requests: int)

  ghost function BooksOf(s: Ledger): Books {
    Books(Sum(s.entries, ConfirmedTokens), Sum(s.entries, ReservedTokens), Sum(s.entries, UncertainTokens),
          Sum(s.entries, RequestCount))
  }

  /** The books without the tokens of one live entry. */
  function Without(books: Books, e: Entry): Books {
    if e.state.Reserved? then books.(reserved := books.reserved - e.reservedTokens)
    else books.(uncertain := books.uncertain - e.reservedTokens)
  }

  /**
   * How a transition moves tokens between the three columns: a live entry's tokens leave their column
   * exactly once and arrive where the call says, and a late or repeated call moves nothing.
   */
  lemma BooksMove(s: Ledger, id: RequestId, t: Transition)
    requires id in s.entries && EntryOk(s.entries[id])
    ensures var e, books := s.entries[id], BooksOf(s);
      BooksOf(Apply(s, id, t)) ==
        match t
        case ToSettled(actual) =>
          if IsLive(e.state) then Without(books, e).(confirmed := books.confirmed + actual) else books
        case ToUncertain =>
          if e.state.Reserved? then Without(books, e).(uncertain := books.uncertain + e.reservedTokens) else books
        case ToUnknown =>
          if e.state.Reserved? then Without(books, e).(uncertain := books.uncertain + e.reservedTokens) else books
        case ToReleased => if e.state.Reserved? then Without(books, e) else books
        case ToReconciled(d) =>
          if !IsLive(e.state) then books
          else if d.Consumed? then Without(books, e).(confirmed := books.confirmed + e.reservedTokens)
          else Without(books, e)
  {
    var next := NextEntry(s.entries[id], t);
    SumUpdate(s.entries, ConfirmedTokens, id, next);
    SumUpdate(s.entries, ReservedTokens, id, next);
    SumUpdate(s.entries, UncertainTokens, id, next);
    SumUpdate(s.entries, RequestCount, id, next);
  }

  /** Taking a request in adds its tokens to the reserved column and one to the count. */
  lemma BooksEnter(s: Ledger, id: RequestId, e: Entry)
    requires id !in s.entries && e.state.Reserved?
    ensures var books := BooksOf(s);
      BooksOf(Enter(s, id, e)) == books.(reserved := books.reserved + e.reservedTokens, requests := books.requests + 1)
  {
    SumUpdate(s.entries, ConfirmedTokens, id, e);
    SumUpdate(s.entries, ReservedTokens, id, e);
    SumUpdate(s.entries, UncertainTokens, id, e);
    SumUpdate(s.entries, RequestCount, id, e);
  }

  /**
   * `reserve` takes tokens only if it answers ok to a request it did not know, exactly the tokens asked
   * for, and only while they are left.
   */
  lemma ReserveTakes(s: Ledger, id: RequestId, tokens: int, upperBound: int, key: ParsedKey, client: Option<string>, most: nat)
    requires Inv(s, most)
    ensures var (r, answer) := Reserve(s, id, tokens, upperBound, key, client);
      if r.entries == s.entries then BooksOf(r) == BooksOf(s)
      else
        && answer == ReserveAnswered(ReserveOk(Remaining(s) - tokens)) && tokens <= Remaining(s)
        && id !in s.entries && !s.finalized
        && BooksOf(r) == BooksOf(s).(
             reserved := BooksOf(s).reserved + tokens, requests := BooksOf(s).requests + 1)
  {
    var (r, answer) := Reserve(s, id, tokens, upperBound, key, client);
    if r.entries != s.entries {
      BooksEnter(s, id, NewEntry(tokens, upperBound, MappingKey(key, client), Remaining(s)));
    }
  }

  // ------------------------------------------------------------------ leases

  /** A granted acquire is for `ttlMs` from now, under a generation never used before unless one was live. */
  lemma AcquireGrantsFreshLease(s: Ledger, id: RequestId, limit: int, ttlMs: int, nowMs: int)
    requires AcquireInFlight(s, id, limit, ttlMs, nowMs).1.LeaseHeld?
    ensures var (r, result) := AcquireInFlight(s, id, limit, ttlMs, nowMs);
      && result.lease in r.leases && result.lease.requestId == id && result.lease.expiresAtMs > nowMs
      && (result.lease !in s.leases ==>
            result.lease == Lease(id, s.nextUuid, nowMs + ttlMs) && r.nextUuid > s.nextUuid
            && forall l :: l in s.leases && l.expiresAtMs > nowMs ==> l.requestId != id)
  {
    var (r, result) := AcquireInFlight(s, id, limit, ttlMs, nowMs);
    if result.lease !in s.leases {
      assert r.leases[|r.leases| - 1] == result.lease;
    }
  }

  /** A granted renewal moves the one live lease of that generation, keeps it, and leaves every other live lease alone. */
  lemma RenewMovesOneLease(s: Ledger, id: RequestId, generation: nat, ttlMs: int, nowMs: int)
    requires DistinctIds(s.leases) && RenewInFlight(s, id, generation, ttlMs, nowMs).1.LeaseHeld?
    ensures var r := RenewInFlight(s, id, generation, ttlMs, nowMs).0;
      && (exists l :: l in s.leases && l.requestId == id && l.generation == generation && l.expiresAtMs > nowMs)
      && Lease(id, generation, nowMs + ttlMs) in r.leases
      && (forall l :: l in r.leases && l.requestId == id ==> l == Lease(id, generation, nowMs + ttlMs))
      && (forall l: Lease :: l.requestId != id ==> (l in r.leases <==> l in s.leases && l.expiresAtMs > nowMs))
  {
    RenewOutcome(s, id, generation, ttlMs, nowMs);
  }

  // ----------------------------------------------------------------- reports

  /** An accepted settlement of an attempted grant books exactly the reported total. */
  lemma SettlementIsBooked(s: Ledger, b: Binding, report: TerminalReport, fingerprint: string, nowMs: int, most: nat)
    requires Inv(s, most) && FinishRelay(s, b, report, fingerprint, nowMs).1.Accepted?
    requires report.outcome.SettleOutcome? && !IsTerminalGrant(s.grants[b.requestId].state)
    ensures var r := FinishRelay(s, b, report, fingerprint, nowMs).0;
      && r.entries[b.requestId].state.Settled? && r.entries[b.requestId].actualTokens == Some(report.totalTokens.value)
      && BooksOf(r).confirmed == BooksOf(s).confirmed + report.totalTokens.value
  {
    var id := b.requestId;
    assert GrantOk(s.entries, id, s.grants[id], s.nextUuid);
    BooksMove(s, id, ToSettled(report.totalTokens.value));
  }

  /** A terminal report delivered again is accepted again and changes nothing; any other report is denied. */
  lemma ReportTwice(
    s: Ledger, b: Binding, report: TerminalReport, fingerprint: string, nowMs: int,
    again: TerminalReport, other: string, laterMs: int, most: nat)
    requires Inv(s, most) && FinishRelay(s, b, report, fingerprint, nowMs).1.Accepted? && !report.outcome.UncertainOutcome?
    requires laterMs < s.grants[b.requestId].credentialExpiresAtMs
    requires WellFormedReport(again) && again.grantId == b.grantId && again.leaseGeneration == b.leaseGeneration
    requires 0 < |other| <= MAX_FINGERPRINT_BYTES
    ensures var (r, first) := FinishRelay(s, b, report, fingerprint, nowMs);
      var (t, second) := FinishRelay(r, b, again, other, laterMs);
      && t == r && (if other == fingerprint then second == first else second.FinishDenied?)
  {
    assert GrantOk(s.entries, b.requestId, s.grants[b.requestId], s.nextUuid);
  }
}
