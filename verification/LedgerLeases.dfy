/**
 * What each lease call answers and what it leaves in the list, told by the leases themselves.
 */
module LedgerLeases {
  import opened Wrappers
  import opened L = QuotaLedger
  import opened LedgerRuns
  import opened LedgerHistory

  /** The request holds an unexpired lease of this generation. */
  predicate Holds(s: Ledger, id: RequestId, generation: nat, nowMs: int) {
    exists l :: l in s.leases && l.requestId == id && l.generation == generation && l.expiresAtMs > nowMs
  }

  /** The requests that hold an unexpired lease. */
  function Holders(s: Ledger, nowMs: int): set<RequestId> {
    set l | l in s.leases && l.expiresAtMs > nowMs :: l.requestId
  }

  /** Apart from one request, exactly the unexpired leases are left. */
  ghost predicate OthersKept(s: Ledger, r: Ledger, id: RequestId, nowMs: int) {
    forall l: Lease :: l.requestId != id ==> (l in r.leases <==> l in s.leases && l.expiresAtMs > nowMs)
  }

  /** Exactly the unexpired leases are left. */
  ghost predicate Pruned(s: Ledger, r: Ledger, nowMs: int) {
    forall l :: l in r.leases <==> l in s.leases && l.expiresAtMs > nowMs
  }

  lemma {:induction false} DistinctCount(leases: seq<Lease>)
    requires DistinctIds(leases)
    ensures |set l | l in leases :: l.requestId| == |leases|
  {
    var ids := set l | l in leases :: l.requestId;
    if leases == [] {
      assert ids == {};
    } else {
      var rest := set l | l in leases[1..] :: l.requestId;
      DistinctCount(leases[1..]);
      assert leases == [leases[0]] + leases[1..];
      assert ids == rest + {leases[0].requestId};
    }
  }

  /** The concurrency that is compared with the limit is the number of requests that hold a lease. */
  lemma ActiveIsHolders(s: Ledger, nowMs: int)
    requires DistinctIds(s.leases)
    ensures |Active(s.leases, nowMs)| == |Holders(s, nowMs)|
    ensures DistinctIds(Active(s.leases, nowMs))
  {
    ActiveDistinct(s.leases, nowMs);
    var active := Active(s.leases, nowMs);
    DistinctCount(active);
    assert Holders(s, nowMs) == set l | l in active :: l.requestId;
  }

  /** With distinct ids a search finds the one lease there is. */
  lemma Found(s: Ledger, id: RequestId, nowMs: int)
    requires DistinctIds(s.leases)
    ensures var found := FindLease(Active(s.leases, nowMs), id);
      && (found.Some? <==> id in Holders(s, nowMs))
      && (found.Some? ==> found.value in s.leases && found.value.requestId == id && found.value.expiresAtMs > nowMs)
      && forall l :: l in s.leases && l.requestId == id && l.expiresAtMs > nowMs ==> found == Some(l)
  {
    ActiveDistinct(s.leases, nowMs);
    var active := Active(s.leases, nowMs);
    forall l | l in s.leases && l.requestId == id && l.expiresAtMs > nowMs ensures FindLease(active, id) == Some(l) {
      FindUnique(active, l);
    }
  }

  /**
   * `acquireInFlight`, by cases: invalid settings throw, a live lease is handed out again, a full house
   * refuses, and otherwise one lease is added for the whole TTL under a generation never used before.
   * Whatever the answer, every unexpired lease stays.
   */
  lemma AcquireOutcome(s: Ledger, id: RequestId, limit: int, ttlMs: int, nowMs: int)
    requires DistinctIds(s.leases)
    ensures var (r, answer) := AcquireInFlight(s, id, limit, ttlMs, nowMs);
      var added := Lease(id, s.nextUuid, nowMs + ttlMs);
      if !(0 < limit <= MAX_SAFE && 0 < ttlMs <= MAX_SAFE && 0 - MAX_SAFE <= nowMs + ttlMs <= MAX_SAFE) then
        answer == LeaseThrew && r == s
      else if id in Holders(s, nowMs) then
        && answer.LeaseHeld? && answer.lease.requestId == id && answer.lease in s.leases
        && answer.lease.expiresAtMs > nowMs && Pruned(s, r, nowMs) && r.nextUuid == s.nextUuid
      else if |Holders(s, nowMs)| >= limit then
        answer == ConcurrencyExceeded && Pruned(s, r, nowMs)
      else
        && answer == LeaseHeld(added) && r.nextUuid == s.nextUuid + 1
        && forall l :: l in r.leases <==> l == added || (l in s.leases && l.expiresAtMs > nowMs)
  {
    ActiveIsHolders(s, nowMs);
    Found(s, id, nowMs);
  }

  /**
   * `renewInFlight`, by cases: it needs an unexpired lease of that generation, moves only its expiry, and
   * leaves every unexpired lease in the list.
   */
  lemma RenewOutcome(s: Ledger, id: RequestId, generation: nat, ttlMs: int, nowMs: int)
    requires DistinctIds(s.leases)
    ensures var (r, answer) := RenewInFlight(s, id, generation, ttlMs, nowMs);
      var moved := Lease(id, generation, nowMs + ttlMs);
      if !(0 < ttlMs <= MAX_SAFE && 0 - MAX_SAFE <= nowMs + ttlMs <= MAX_SAFE) then answer == LeaseThrew && r == s
      else if id !in Holders(s, nowMs) then answer == LeaseNotFound && Pruned(s, r, nowMs)
      else if !Holds(s, id, generation, nowMs) then answer == StaleGeneration && Pruned(s, r, nowMs)
      else
        && answer == LeaseHeld(moved) && OthersKept(s, r, id, nowMs)
        && forall l: Lease :: l.requestId == id ==> (l in r.leases <==> l == moved)
  {
    hide ExtendLease, DistinctIds, FindLease, Active;
    Found(s, id, nowMs);
    ActiveDistinct(s.leases, nowMs);
    var active := Active(s.leases, nowMs);
    if id in Holders(s, nowMs) {
      ExtendContents(active, FindLease(active, id).value, nowMs + ttlMs);
    }
  }

  /** Extending a lease of a list with distinct ids replaces it and touches no other. */
  lemma {:induction false} ExtendContents(leases: seq<Lease>, own: Lease, x: int)
    requires DistinctIds(leases) && own in leases
    ensures forall l :: l in ExtendLease(leases, own.requestId, x) <==>
              l == own.(expiresAtMs := x) || (l in leases && l.requestId != own.requestId)
  {
    var head, rest := leases[0], leases[1..];
    assert leases == [head] + rest;
    if head.requestId != own.requestId {
      ExtendContents(rest, own, x);
    }
  }

  /**
   * `releaseInFlight` takes exactly the unexpired lease of that request and generation, if there is one;
   * every other unexpired lease stays.
   */
  lemma ReleaseOutcome(s: Ledger, id: RequestId, generation: Option<nat>, nowMs: int)
    requires DistinctIds(s.leases)
    ensures var r := ReleaseInFlight(s, id, generation, nowMs);
      forall l :: l in r.leases <==>
        l in s.leases && l.expiresAtMs > nowMs && !(l.requestId == id && generation == Some(l.generation))
    ensures CanRelease(FindLease(Active(s.leases, nowMs), id), generation)
       <==> generation.Some? && Holds(s, id, generation.value, nowMs)
  {
    Found(s, id, nowMs);
    ActiveDistinct(s.leases, nowMs);
    DropLeaseDrops(Active(s.leases, nowMs), id);
  }

  // ------------------------------------------------------- leases and steps

  /**
   * An unexpired lease of a request that a step does not name is still there after it: only `deleteAll`
   * takes leases of others.
   */
  lemma LeaseSurvives(s: Ledger, op: Op, nowMs: int, most: nat, l: Lease)
    requires Inv(s, most) && NoDelete(op) && TargetOf(op) != Some(l.requestId)
    requires l in s.leases && l.expiresAtMs > nowMs
    ensures l in Step(s, op, nowMs).leases
  {
    if IsGrantOp(op) { GrantStepSpares(s, op, nowMs, l); } else { PlainStepSpares(s, op, nowMs, l); }
  }

  lemma PlainStepSpares(s: Ledger, op: Op, nowMs: int, l: Lease)
    requires DistinctIds(s.leases) && !IsGrantOp(op) && NoDelete(op) && TargetOf(op) != Some(l.requestId)
    requires l in s.leases && l.expiresAtMs > nowMs
    ensures l in PlainStep(s, op, nowMs).leases
  {
    if op.DoAcquire? {
      AcquireOutcome(s, op.id, op.limit, op.ttlMs, nowMs);
    } else if op.DoRenew? {
      RenewOutcome(s, op.id, op.generation, op.ttlMs, nowMs);
    } else if op.DoReleaseLease? {
      ReleaseOutcome(s, op.id, op.leaseGeneration, nowMs);
    } else {
      OtherPlainLeases(s, op, nowMs);
    }
  }

  lemma OtherPlainLeases(s: Ledger, op: Op, nowMs: int)
    requires !IsGrantOp(op) && NoDelete(op) && !op.DoAcquire? && !op.DoRenew? && !op.DoReleaseLease?
    ensures PlainStep(s, op, nowMs).leases == s.leases
  {}

  lemma CloseSpares(s: Ledger, id: RequestId, t: Transition, g: Grant, next: Grant, nowMs: int, l: Lease)
    requires DistinctIds(s.leases) && l in s.leases && l.expiresAtMs > nowMs && l.requestId != id
    ensures l in CloseGrant(s, id, t, g, next, nowMs).leases
  {
    ReleaseOutcome(Apply(s, id, t), id, Some(g.leaseGeneration), nowMs);
  }

  lemma RelayRenewalSpares(s: Ledger, b: Binding, nowMs: int, l: Lease)
    requires DistinctIds(s.leases) && l in s.leases && l.expiresAtMs > nowMs && l.requestId != b.requestId
    ensures l in RenewRelay(s, b, nowMs).0.leases
  {
    hide CloseGrant, Active, FindLease, ExtendAll, DistinctIds;
    if b.requestId in s.grants {
      var g := s.grants[b.requestId];
      CloseSpares(s, b.requestId, ToUncertain, g, g.(state := GrantUncertain), nowMs, l);
    }
    RenewAllContents(s, b.requestId, nowMs + DEFAULT_LEASE_TTL_MS, nowMs);
  }

  /** The list a granted relay renewal writes: every unexpired lease, the request's own with the new expiry. */
  lemma RenewAllContents(s: Ledger, id: RequestId, x: int, nowMs: int)
    requires DistinctIds(s.leases)
    ensures forall l: Lease :: l.requestId != id ==>
              (l in ExtendAll(Active(s.leases, nowMs), id, x) <==> l in s.leases && l.expiresAtMs > nowMs)
    ensures forall generation :: Holds(s, id, generation, nowMs) ==>
              forall l: Lease :: l.requestId == id ==>
                (l in ExtendAll(Active(s.leases, nowMs), id, x) <==> l == Lease(id, generation, x))
  {
    ActiveDistinct(s.leases, nowMs);
    Found(s, id, nowMs);
    hide ExtendAll, ExtendLease, DistinctIds, Active;
    var active := Active(s.leases, nowMs);
    ExtendLeaseExtends(active, id, x);
    if id in Holders(s, nowMs) {
      ExtendContents(active, FindLease(active, id).value, x);
    } else {
      UntouchedByExtend(active, id, x);
    }
  }

  lemma GrantStepSpares(s: Ledger, op: Op, nowMs: int, l: Lease)
    requires DistinctIds(s.leases) && IsGrantOp(op) && TargetOf(op) != Some(l.requestId)
    requires l in s.leases && l.expiresAtMs > nowMs
    ensures l in GrantStep(s, op, nowMs).leases
  {
    hide AdmitRelay, ActivateRelay, RenewRelay, FinishRelay, Reconcile, DistinctIds;
    match op {
      case DoReconcile(id, d) => ReconcileSpares(s, id, d, nowMs, l);
      case DoAdmit(input) => AdmitSpares(s, input, nowMs, l);
      case DoActivate(b) => ActivateSpares(s, b, nowMs, l);
      case DoRenewRelay(b) => RelayRenewalSpares(s, b, nowMs, l);
      case DoFinish(b, report, fingerprint) => FinishSpares(s, b, report, fingerprint, nowMs, l);
    }
  }

  lemma ReconcileSpares(s: Ledger, id: RequestId, d: Disposition, nowMs: int, l: Lease)
    requires DistinctIds(s.leases) && l in s.leases && l.expiresAtMs > nowMs && l.requestId != id
    ensures l in Reconcile(s, id, d, nowMs).0.leases
  {
    if id in s.grants {
      ReleaseOutcome(Apply(s, id, ToReconciled(d)), id, Some(s.grants[id].leaseGeneration), nowMs);
    }
  }

  lemma AdmitSpares(s: Ledger, input: AdmitInput, nowMs: int, l: Lease)
    requires l in s.leases && l.expiresAtMs > nowMs
    ensures l in AdmitRelay(s, input, nowMs).0.leases
  {
    hide AdmissionPrecheck, AdmissionReplay, HasCapacity;
  }

  lemma ActivateSpares(s: Ledger, b: Binding, nowMs: int, l: Lease)
    requires DistinctIds(s.leases) && l in s.leases && l.expiresAtMs > nowMs && l.requestId != b.requestId
    ensures l in ActivateRelay(s, b, nowMs).0.leases
  {
    hide CloseGrant, DistinctIds;
    if b.requestId in s.grants {
      var g := s.grants[b.requestId];
      CloseSpares(s, b.requestId, ToReleased, g, g.(state := GrantReleased), nowMs, l);
    }
  }

  lemma FinishSpares(s: Ledger, b: Binding, report: TerminalReport, fingerprint: string, nowMs: int, l: Lease)
    requires DistinctIds(s.leases) && l in s.leases && l.expiresAtMs > nowMs && l.requestId != b.requestId
    ensures l in FinishRelay(s, b, report, fingerprint, nowMs).0.leases
  {
    hide CloseGrant, DistinctIds;
    if b.requestId in s.grants && WellFormedReport(report) {
      var g := s.grants[b.requestId];
      CloseSpares(s, b.requestId, ToUncertain, g, g.(state := GrantUncertain), nowMs, l);
      var finished := g.(
        state := GrantStateOf(report.outcome), terminalReport := Some(report), terminalFingerprint := Some(fingerprint));
      CloseSpares(s, b.requestId, TransitionOf(report), g, finished, nowMs, l);
    }
  }

  /** Calls that leave a request alone until its lease runs out. */
  predicate Foreign(events: seq<Event>, l: Lease) {
    forall e :: e in events ==> NoDelete(e.op) && TargetOf(e.op) != Some(l.requestId) && e.nowMs < l.expiresAtMs
  }

  /** Until it runs out, a lease outlives any run of calls that name other requests. */
  lemma {:induction false} LeaseOutlivesOthers(s: Ledger, events: seq<Event>, most: nat, l: Lease)
    requires Inv(s, most) && Lawful(s, events, most) && Foreign(events, l) && l in s.leases
    ensures l in Run(s, events).leases
    decreases |events|
  {
    if events != [] {
      assert events[0] in events;
      StepKeeps(s, events[0].op, events[0].nowMs, most);
      LeaseSurvives(s, events[0].op, events[0].nowMs, most, l);
      LeaseOutlivesOthers(Step(s, events[0].op, events[0].nowMs), events[1..], most, l);
    }
  }
}
