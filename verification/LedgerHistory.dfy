/**
 * Theorems over whole runs: any number of RPCs, in any order, at any times.
 */
module LedgerHistory {
  import opened Wrappers
  import opened L = QuotaLedger
  import opened LedgerSums
  import opened LedgerRuns

  datatype Event = Event(nowMs: int, op: Op)

  ghost function Run(s: Ledger, events: seq<Event>): Ledger
    decreases |events|
  {
    if events == [] then s else Run(Step(s, events[0].op, events[0].nowMs), events[1..])
  }

  /** Every call respects what its caller promises, in the state it meets. */
  ghost predicate Lawful(s: Ledger, events: seq<Event>, most: nat)
    decreases |events|
  {
    events == []
    || (Allowed(s, events[0].op, most) && Lawful(Step(s, events[0].op, events[0].nowMs), events[1..], most))
  }

  predicate KeepsDay(events: seq<Event>) {
    forall e :: e in events ==> NoDelete(e.op)
  }

  /** The clock never runs back. */
  predicate From(t: int, events: seq<Event>)
    decreases |events|
  {
    events == [] || (t <= events[0].nowMs && From(events[0].nowMs, events[1..]))
  }

  lemma {:induction false} RunKeeps(s: Ledger, events: seq<Event>, most: nat)
    requires Inv(s, most) && WithinLimit(s) && Lawful(s, events, most)
    ensures Inv(Run(s, events), most) && WithinLimit(Run(s, events)) && Run(s, events).cfg == s.cfg
    decreases |events|
  {
    if events != [] {
      StepKeeps(s, events[0].op, events[0].nowMs, most);
      StepWithinLimit(s, events[0].op, events[0].nowMs, most);
      RunKeeps(Step(s, events[0].op, events[0].nowMs), events[1..], most);
    }
  }

  /**
   * In every reachable state: confirmed, reserved and uncertain tokens stay within the limit up to
   * what settlements exceeded their reservations by, and no two unreleased entries share a key.
   */
  lemma ReachableLedger(cfg: Config, events: seq<Event>, most: nat, i: RequestId, j: RequestId)
    requires cfg.maxInFlight <= most && Lawful(Fresh(cfg), events, most)
    ensures var s := Run(Fresh(cfg), events);
      && Used(s) <= cfg.limit + Sum(s.entries, Overage)
      && (i in s.entries && j in s.entries && !s.entries[i].state.Released? && !s.entries[j].state.Released?
          && s.entries[i].idempotency.Some? && s.entries[i].idempotency == s.entries[j].idempotency
          ==> i == j)
      && (forall k :: k in s.idempotency ==> s.idempotency[k] in s.entries)
  {
    FreshInv(cfg, most);
    assert Fresh(cfg) == Fresh(cfg).(nextUuid := 0);
    RunKeeps(Fresh(cfg), events, most);
    var s := Run(Fresh(cfg), events);
    if i in s.entries && j in s.entries {
      assert KeyOk(s.idempotency, i, s.entries[i]) && KeyOk(s.idempotency, j, s.entries[j]);
    }
  }

  /**
   * In every reachable state a grant, its entry and its lease fit together: the entry is in the state
   * the grant says, and only an authorized or attempted grant has a lease, its own, which runs out
   * before the credential does.
   */
  lemma ReachableGrant(cfg: Config, events: seq<Event>, most: nat, id: RequestId, l: Lease)
    requires cfg.maxInFlight <= most && Lawful(Fresh(cfg), events, most)
    requires id in Run(Fresh(cfg), events).grants
    ensures var s := Run(Fresh(cfg), events); var g := s.grants[id];
      && id in s.entries && Coupled(g.state, s.entries[id].state)
      && s.entries[id].reservedTokens == g.admission.reservedTokens
      && (l in s.leases && l.requestId == id ==>
            && l.generation == g.leaseGeneration
            && (g.state.Authorized? || g.state.Attempted?)
            && l.expiresAtMs < g.authorizationExpiresAtMs + DEFAULT_LEASE_TTL_MS < g.credentialExpiresAtMs)
  {
    FreshInv(cfg, most);
    assert Fresh(cfg) == Fresh(cfg).(nextUuid := 0);
    RunKeeps(Fresh(cfg), events, most);
    var s := Run(Fresh(cfg), events);
    assert GrantOk(s.entries, id, s.grants[id], s.nextUuid);
    assert l in s.leases ==> LeaseOk(s.entries, s.grants, s.nextUuid, l);
  }

  lemma {:induction false} RunEvolves(s: Ledger, events: seq<Event>, most: nat)
    requires Inv(s, most) && Lawful(s, events, most) && KeepsDay(events)
    ensures EntriesEvolve(s.entries, Run(s, events).entries)
    decreases |events|
  {
    if events != [] {
      var r := Step(s, events[0].op, events[0].nowMs);
      StepKeeps(s, events[0].op, events[0].nowMs, most);
      StepEvolves(s, events[0].op, events[0].nowMs, most);
      RunEvolves(r, events[1..], most);
      forall id | id in s.entries
        ensures id in Run(s, events).entries && Evolves(s.entries[id], Run(s, events).entries[id])
      {
        EvolvesTransitive(s.entries[id], r.entries[id], Run(s, events).entries[id]);
      }
    }
  }

  /** A settled, released or reconciled entry never changes state, and weighs the same in every sum for ever. */
  lemma TerminalForEver(s: Ledger, events: seq<Event>, most: nat, id: RequestId, k: Measure)
    requires Inv(s, most) && Lawful(s, events, most) && KeepsDay(events)
    requires id in s.entries && !IsLive(s.entries[id].state)
    ensures var m := Run(s, events).entries;
      && id in m && m[id].state == s.entries[id].state && m[id].actualTokens == s.entries[id].actualTokens
      && m[id].requestedDisposition == s.entries[id].requestedDisposition
      && Weight(k, m[id]) == Weight(k, s.entries[id])
  {
    RunEvolves(s, events, most);
  }

  /** Once uncertain, tokens leave the pool's books only by a settlement or a reconciliation. */
  lemma UncertainLeavesOnlyByDecision(s: Ledger, events: seq<Event>, most: nat, id: RequestId)
    requires Inv(s, most) && Lawful(s, events, most) && KeepsDay(events)
    requires id in s.entries && s.entries[id].state.Uncertain?
    ensures var m := Run(s, events).entries;
      && id in m && !m[id].state.Reserved?
      && (m[id].state.Released? ==> m[id].requestedDisposition == Some(Unused))
  {
    RunEvolves(s, events, most);
  }

  // ------------------------------------------------------------ grants over runs

  lemma GrantEvolvesTransitive(g: Grant, h: Grant, i: Grant)
    requires GrantEvolves(g, h) && GrantEvolves(h, i)
    ensures GrantEvolves(g, i)
  {}

  lemma {:induction false} RunGrants(s: Ledger, events: seq<Event>, most: nat, id: RequestId)
    requires Inv(s, most) && Lawful(s, events, most) && KeepsDay(events) && id in s.grants
    ensures id in Run(s, events).grants && GrantEvolves(s.grants[id], Run(s, events).grants[id])
    decreases |events|
  {
    if events != [] {
      var r := Step(s, events[0].op, events[0].nowMs);
      StepKeeps(s, events[0].op, events[0].nowMs, most);
      StepGrants(s, events[0].op, events[0].nowMs, most);
      RunGrants(r, events[1..], most, id);
      GrantEvolvesTransitive(s.grants[id], r.grants[id], Run(s, events).grants[id]);
    }
  }

  /**
   * Once a grant is attempted, an upstream call may have happened: whatever follows, the grant is never
   * released, and its entry is released only by an explicit reconciliation as unused.
   */
  lemma AttemptedNeverReleased(s: Ledger, events: seq<Event>, most: nat, id: RequestId)
    requires Inv(s, most) && WithinLimit(s) && Lawful(s, events, most) && KeepsDay(events)
    requires id in s.grants && (s.grants[id].state.Attempted? || s.grants[id].state.GrantUncertain?)
    ensures var r := Run(s, events);
      && id in r.grants && id in r.entries && !r.grants[id].state.GrantReleased?
      && (r.entries[id].state.Released? ==> r.grants[id].state.ReconciledUnused?)
  {
    RunKeeps(s, events, most);
    RunGrants(s, events, most, id);
    var r := Run(s, events);
    assert GrantOk(r.entries, id, r.grants[id], r.nextUuid);
  }

  /** No grant with this identifier can be activated any more. */
  predicate Spent(s: Ledger, grantId: nat) {
    grantId < s.nextUuid && forall id :: id in s.grants && s.grants[id].grantId == grantId ==> !s.grants[id].state.Authorized?
  }

  lemma StepKeepsSpent(s: Ledger, op: Op, nowMs: int, most: nat, grantId: nat)
    requires Inv(s, most) && Spent(s, grantId)
    ensures Spent(Step(s, op, nowMs), grantId)
  {
    var r := Step(s, op, nowMs);
    if NoDelete(op) {
      StepGrants(s, op, nowMs, most);
    } else {
      assert r.grants == map[];
    }
  }

  lemma {:induction false} RunKeepsSpent(s: Ledger, events: seq<Event>, most: nat, grantId: nat)
    requires Inv(s, most) && Lawful(s, events, most) && Spent(s, grantId)
    ensures Spent(Run(s, events), grantId)
    decreases |events|
  {
    if events != [] {
      StepKeeps(s, events[0].op, events[0].nowMs, most);
      StepKeepsSpent(s, events[0].op, events[0].nowMs, most, grantId);
      RunKeepsSpent(Step(s, events[0].op, events[0].nowMs), events[1..], most, grantId);
    }
  }

  /** Different grants carry different identifiers. */
  predicate DistinctGrants(s: Ledger) {
    forall i, j :: i in s.grants && j in s.grants && s.grants[i].grantId == s.grants[j].grantId ==> i == j
  }

  lemma DeletedGrants(s: Ledger, op: Op, nowMs: int)
    requires !NoDelete(op)
    ensures Step(s, op, nowMs).grants == map[]
  {}

  lemma StepKeepsDistinctGrants(s: Ledger, op: Op, nowMs: int, most: nat)
    requires Inv(s, most) && DistinctGrants(s)
    ensures DistinctGrants(Step(s, op, nowMs))
  {
    hide Step;
    var r := Step(s, op, nowMs);
    if NoDelete(op) {
      StepGrants(s, op, nowMs, most);
      assert forall i :: i in s.grants ==> GrantOk(s.entries, i, s.grants[i], s.nextUuid);
      OneNewGrant(s, op, nowMs);
    } else {
      DeletedGrants(s, op, nowMs);
    }
  }

  /** A step adds at most one grant, for the request it names. */
  lemma OneNewGrant(s: Ledger, op: Op, nowMs: int)
    requires NoDelete(op)
    ensures forall i :: i in Step(s, op, nowMs).grants && i !in s.grants ==> TargetOf(op) == Some(i)
  {
    hide Active, FindLease, AdmissionPrecheck, HasCapacity;
  }

  lemma {:induction false} RunKeepsDistinctGrants(s: Ledger, events: seq<Event>, most: nat)
    requires Inv(s, most) && Lawful(s, events, most) && DistinctGrants(s)
    ensures DistinctGrants(Run(s, events))
    decreases |events|
  {
    if events != [] {
      StepKeeps(s, events[0].op, events[0].nowMs, most);
      StepKeepsDistinctGrants(s, events[0].op, events[0].nowMs, most);
      RunKeepsDistinctGrants(Step(s, events[0].op, events[0].nowMs), events[1..], most);
    }
  }

  lemma ActivationSpends(s: Ledger, b: Binding, nowMs: int, most: nat)
    requires Inv(s, most) && DistinctGrants(s) && ActivateRelay(s, b, nowMs).1.Activated?
    ensures Spent(ActivateRelay(s, b, nowMs).0, b.grantId)
  {
    assert GrantOk(s.entries, b.requestId, s.grants[b.requestId], s.nextUuid);
    var r := ActivateRelay(s, b, nowMs).0;
    assert r.grants == s.grants[b.requestId := s.grants[b.requestId].(state := Attempted)];
  }

  lemma SpentCannotActivate(s: Ledger, c: Binding, nowMs: int)
    requires Spent(s, c.grantId)
    ensures !ActivateRelay(s, c, nowMs).1.Activated?
  {}

  /** A grant is activated at most once, even across a `finalizeDay`. */
  lemma ActivatedOnce(
    cfg: Config, before: seq<Event>, b: Binding, nowMs: int, after: seq<Event>, c: Binding, laterMs: int, most: nat)
    requires cfg.maxInFlight <= most && Lawful(Fresh(cfg), before, most)
    requires var s := Run(Fresh(cfg), before);
      ActivateRelay(s, b, nowMs).1.Activated? && Lawful(ActivateRelay(s, b, nowMs).0, after, most)
    requires c.grantId == b.grantId
    ensures !ActivateRelay(Run(ActivateRelay(Run(Fresh(cfg), before), b, nowMs).0, after), c, laterMs).1.Activated?
  {
    var s := Run(Fresh(cfg), before);
    assert Inv(s, most) && DistinctGrants(s) by {
      FreshInv(cfg, most);
      assert Fresh(cfg) == Fresh(cfg).(nextUuid := 0);
      RunKeeps(Fresh(cfg), before, most);
      RunKeepsDistinctGrants(Fresh(cfg), before, most);
    }
    var r := ActivateRelay(s, b, nowMs).0;
    ActivateKeeps(s, most, b, nowMs);
    ActivationSpends(s, b, nowMs, most);
    RunKeepsSpent(r, after, most, b.grantId);
    SpentCannotActivate(Run(r, after), c, laterMs);
  }

  // ------------------------------------------------------------ leases over runs

  /** Each lease after a step is new and for the request the step names, unchanged, or one that had not expired. */
  predicate LeasesMoved(s: Ledger, leases: seq<Lease>, nowMs: int, who: Option<RequestId>) {
    forall l :: l in leases ==> LeaseFrom(s, l, nowMs, who)
  }

  predicate LeaseFrom(s: Ledger, l: Lease, nowMs: int, who: Option<RequestId>) {
    (l.generation >= s.nextUuid && who == Some(l.requestId))
    || l in s.leases
    || exists o :: o in s.leases && o.generation == l.generation && o.requestId == l.requestId && o.expiresAtMs > nowMs
  }

  lemma ReleaseLeases(s: Ledger, id: RequestId, generation: Option<nat>, nowMs: int, who: Option<RequestId>)
    requires DistinctIds(s.leases)
    ensures LeasesMoved(s, ReleaseInFlight(s, id, generation, nowMs).leases, nowMs, who)
  {
    ActiveDistinct(s.leases, nowMs);
    DropLeaseDrops(Active(s.leases, nowMs), id);
  }

  lemma ExtendLeases(s: Ledger, id: RequestId, x: int, nowMs: int, who: Option<RequestId>)
    requires DistinctIds(s.leases)
    ensures LeasesMoved(s, ExtendLease(Active(s.leases, nowMs), id, x), nowMs, who)
    ensures LeasesMoved(s, ExtendAll(Active(s.leases, nowMs), id, x), nowMs, who)
  {
    ActiveDistinct(s.leases, nowMs);
    ExtendLeaseExtends(Active(s.leases, nowMs), id, x);
  }

  lemma SameLeases(s: Ledger, leases: seq<Lease>, nowMs: int, who: Option<RequestId>)
    requires forall l :: l in leases ==> l in s.leases
    ensures LeasesMoved(s, leases, nowMs, who)
  {}

  lemma CloseLeases(s: Ledger, id: RequestId, t: Transition, g: Grant, next: Grant, nowMs: int, who: Option<RequestId>)
    requires DistinctIds(s.leases)
    ensures LeasesMoved(s, CloseGrant(s, id, t, g, next, nowMs).leases, nowMs, who)
  {
    ReleaseLeases(s, id, Some(g.leaseGeneration), nowMs, who);
  }

  lemma ReconcileLeases(s: Ledger, id: RequestId, d: Disposition, nowMs: int, who: Option<RequestId>)
    requires DistinctIds(s.leases)
    ensures LeasesMoved(s, Reconcile(s, id, d, nowMs).0.leases, nowMs, who)
  {
    if id in s.grants {
      ReleaseLeases(s, id, Some(s.grants[id].leaseGeneration), nowMs, who);
    }
    SameLeases(s, s.leases, nowMs, who);
  }

  lemma AdmitLeases(s: Ledger, input: AdmitInput, nowMs: int)
    ensures LeasesMoved(s, AdmitRelay(s, input, nowMs).0.leases, nowMs, Some(input.requestId))
  {
    SameLeases(s, s.leases, nowMs, Some(input.requestId));
  }

  lemma ActivateLeases(s: Ledger, b: Binding, nowMs: int, who: Option<RequestId>)
    requires DistinctIds(s.leases)
    ensures LeasesMoved(s, ActivateRelay(s, b, nowMs).0.leases, nowMs, who)
  {
    SameLeases(s, s.leases, nowMs, who);
    if b.requestId in s.grants {
      var g := s.grants[b.requestId];
      CloseLeases(s, b.requestId, ToReleased, g, g.(state := GrantReleased), nowMs, who);
    }
  }

  lemma RenewRelayLeases(s: Ledger, b: Binding, nowMs: int, who: Option<RequestId>)
    requires DistinctIds(s.leases)
    ensures LeasesMoved(s, RenewRelay(s, b, nowMs).0.leases, nowMs, who)
  {
    hide Active, ExtendAll, ExtendLease, LeaseFrom, LeasesMoved;
    SameLeases(s, s.leases, nowMs, who);
    SameLeases(s, Active(s.leases, nowMs), nowMs, who);
    ExtendLeases(s, b.requestId, nowMs + DEFAULT_LEASE_TTL_MS, nowMs, who);
    if b.requestId in s.grants {
      var g := s.grants[b.requestId];
      CloseLeases(s, b.requestId, ToUncertain, g, g.(state := GrantUncertain), nowMs, who);
    }
  }

  lemma FinishLeases(s: Ledger, b: Binding, report: TerminalReport, fingerprint: string, nowMs: int, who: Option<RequestId>)
    requires DistinctIds(s.leases)
    ensures LeasesMoved(s, FinishRelay(s, b, report, fingerprint, nowMs).0.leases, nowMs, who)
  {
    hide Active, LeaseFrom, LeasesMoved;
    SameLeases(s, s.leases, nowMs, who);
    if b.requestId in s.grants && WellFormedReport(report) {
      var g := s.grants[b.requestId];
      CloseLeases(s, b.requestId, ToUncertain, g, g.(state := GrantUncertain), nowMs, who);
      var finished := g.(
        state := GrantStateOf(report.outcome), terminalReport := Some(report), terminalFingerprint := Some(fingerprint));
      CloseLeases(s, b.requestId, TransitionOf(report), g, finished, nowMs, who);
    }
  }

  lemma GrantStepLeases(s: Ledger, op: Op, nowMs: int)
    requires DistinctIds(s.leases) && IsGrantOp(op)
    ensures LeasesMoved(s, GrantStep(s, op, nowMs).leases, nowMs, TargetOf(op))
  {
    match op {
      case DoReconcile(id, d) => ReconcileLeases(s, id, d, nowMs, TargetOf(op));
      case DoAdmit(input) => AdmitLeases(s, input, nowMs);
      case DoActivate(b) => ActivateLeases(s, b, nowMs, TargetOf(op));
      case DoRenewRelay(b) => RenewRelayLeases(s, b, nowMs, TargetOf(op));
      case DoFinish(b, report, fingerprint) => FinishLeases(s, b, report, fingerprint, nowMs, TargetOf(op));
    }
  }

  lemma AcquireLeases(s: Ledger, id: RequestId, limit: int, ttlMs: int, nowMs: int)
    ensures LeasesMoved(s, AcquireInFlight(s, id, limit, ttlMs, nowMs).0.leases, nowMs, Some(id))
  {}

  lemma RenewLeases(s: Ledger, id: RequestId, generation: nat, ttlMs: int, nowMs: int, who: Option<RequestId>)
    requires DistinctIds(s.leases)
    ensures LeasesMoved(s, RenewInFlight(s, id, generation, ttlMs, nowMs).0.leases, nowMs, who)
  {
    hide ExtendLease, LeaseFrom, LeasesMoved;
    var leases := RenewInFlight(s, id, generation, ttlMs, nowMs).0.leases;
    if leases == s.leases || leases == Active(s.leases, nowMs) {
      SameLeases(s, leases, nowMs, who);
    } else {
      ExtendLeases(s, id, nowMs + ttlMs, nowMs, who);
    }
  }

  lemma PlainStepLeases(s: Ledger, op: Op, nowMs: int)
    requires DistinctIds(s.leases) && !IsGrantOp(op)
    ensures LeasesMoved(s, PlainStep(s, op, nowMs).leases, nowMs, TargetOf(op))
  {
    if op.DoAcquire? {
      AcquireLeases(s, op.id, op.limit, op.ttlMs, nowMs);
    } else if op.DoReleaseLease? {
      ReleaseLeases(s, op.id, op.leaseGeneration, nowMs, TargetOf(op));
    } else if op.DoRenew? {
      RenewLeases(s, op.id, op.generation, op.ttlMs, nowMs, TargetOf(op));
    } else {
      SameLeases(s, PlainStep(s, op, nowMs).leases, nowMs, TargetOf(op));
    }
  }

  /** Once no lease of a generation is unexpired, none ever is again: an expired lease is never renewed. */
  lemma {:induction false} LeaseDeathIsFinal(s: Ledger, events: seq<Event>, most: nat, generation: nat, t: int)
    requires Inv(s, most) && Lawful(s, events, most) && From(t, events)
    requires generation < s.nextUuid && !LiveAt(s, generation, t)
    ensures !LiveAt(Run(s, events), generation, t)
    decreases |events|
  {
    if events != [] {
      var op, nowMs := events[0].op, events[0].nowMs;
      var r := Step(s, op, nowMs);
      StepKeeps(s, op, nowMs, most);
      if IsGrantOp(op) { GrantStepLeases(s, op, nowMs); } else { PlainStepLeases(s, op, nowMs); }
      forall l | l in r.leases && l.generation == generation
        ensures l.expiresAtMs <= t
      {
        assert LeaseFrom(s, l, nowMs, TargetOf(op));
      }
      FromLater(t, nowMs, events[1..]);
      LeaseDeathIsFinal(r, events[1..], most, generation, t);
    }
  }

  lemma FromLater(t: int, u: int, events: seq<Event>)
    requires t <= u && From(u, events)
    ensures From(t, events)
  {}

  /**
   * At any instant of a run whose limits are at most `most`, at most `most` leases are unexpired and at
   * most one per request; a renewal or a release that names another generation leaves the unexpired
   * leases exactly as they were.
   */
  lemma LeaseSafety(cfg: Config, events: seq<Event>, most: nat, nowMs: int, a: Lease, b: Lease, generation: nat, ttlMs: int)
    requires cfg.maxInFlight <= most && Lawful(Fresh(cfg), events, most)
    ensures var s := Run(Fresh(cfg), events); var live := Active(s.leases, nowMs);
      && |live| <= most
      && (a in live && b in live && a.requestId == b.requestId ==> a == b)
      && (a in live && a.generation != generation ==>
            && Active(RenewInFlight(s, a.requestId, generation, ttlMs, nowMs).0.leases, nowMs) == live
            && Active(ReleaseInFlight(s, a.requestId, Some(generation), nowMs).leases, nowMs) == live)
  {
    FreshInv(cfg, most);
    assert Fresh(cfg) == Fresh(cfg).(nextUuid := 0);
    RunKeeps(Fresh(cfg), events, most);
    var s := Run(Fresh(cfg), events);
    var live := Active(s.leases, nowMs);
    ActiveDistinct(s.leases, nowMs);
    ActiveTwice(s.leases, nowMs);
    if a in live {
      FindUnique(live, a);
      if b in live { FindUnique(live, b); }
    }
  }

  lemma {:induction false} ActiveTwice(leases: seq<Lease>, nowMs: int)
    ensures Active(Active(leases, nowMs), nowMs) == Active(leases, nowMs)
  {
    if leases != [] {
      ActiveTwice(leases[1..], nowMs);
      var rest := Active(leases[1..], nowMs);
      if leases[0].expiresAtMs > nowMs {
        assert ([leases[0]] + rest)[1..] == rest;
      } else {
        assert Active(leases, nowMs) == rest;
      }
    }
  }

  // ------------------------------------------------------------ finalizing a day

  lemma {:induction false} FinalizedStaysQuiet(s: Ledger, events: seq<Event>, most: nat)
    requires Inv(s, most) && Lawful(s, events, most) && KeepsDay(events)
    requires s.finalized && NothingLive(s.entries)
    ensures NothingLive(Run(s, events).entries) && Run(s, events).entries.Keys == s.entries.Keys
    decreases |events|
  {
    if events != [] {
      var r := Step(s, events[0].op, events[0].nowMs);
      StepKeeps(s, events[0].op, events[0].nowMs, most);
      var move := StepMoves(s, events[0].op, events[0].nowMs, most);
      MoveEvolves(s, events[0].op, move, r.entries);
      FinalizedStaysQuiet(r, events[1..], most);
    }
  }

  /**
   * Between a successful flag transaction and its `deleteAll`, as long as no other `deleteAll` gets
   * in, no entry is created and none is reserved or uncertain: nothing live is discarded.
   */
  lemma FinalizerDiscardsNothingLive(s: Ledger, events: seq<Event>, most: nat)
    requires Inv(s, most) && FinalizeMark(s).1
    requires Lawful(FinalizeMark(s).0, events, most) && KeepsDay(events)
    ensures NothingLive(Run(FinalizeMark(s).0, events).entries)
    ensures Run(FinalizeMark(s).0, events).entries.Keys == s.entries.Keys
  {
    FinalizeMarkKeeps(s, most);
    FinalizedStaysQuiet(FinalizeMark(s).0, events, most);
  }

  /**
   * Another finalizer's `deleteAll` clears the flag, in whatever state it comes: any request that fits
   * the day is then reserved, and the `deleteAll` still pending discards that live reservation.
   */
  lemma TwoFinalizersLoseWork(s: Ledger, id: RequestId, tokens: int)
    requires IsSafeNat(tokens) && tokens <= s.cfg.limit
    ensures var (r, answer) := Reserve(FinalizeDelete(s), id, tokens, tokens, KeyAbsent, None);
      && answer == ReserveAnswered(ReserveOk(s.cfg.limit - tokens))
      && id in r.entries && r.entries[id].state.Reserved? && r.entries[id].reservedTokens == tokens
      && r.pendingDeletes == FinalizeDelete(s).pendingDeletes
      && id !in FinalizeDelete(r).entries
  {
    var e: Entry := NewEntry(tokens, tokens, None, s.cfg.limit);
  }

  /** What may happen while one finalizer is between its flag and its `deleteAll`: others may delete, none begins. */
  ghost predicate OnePending(s: Ledger, events: seq<Event>)
    decreases |events|
  {
    events == []
    || (!events[0].op.DoFinalizeMark? && (events[0].op.DoFinalizeDelete? ==> s.pendingDeletes >= 2)
        && OnePending(Step(s, events[0].op, events[0].nowMs), events[1..]))
  }

  lemma {:induction false} NobodyElseDeletes(s: Ledger, events: seq<Event>)
    requires s.pendingDeletes == 1 && OnePending(s, events)
    ensures KeepsDay(events)
    decreases |events|
  {
    if events != [] {
      StepKeepsPending(s, events[0].op, events[0].nowMs);
      NobodyElseDeletes(Step(s, events[0].op, events[0].nowMs), events[1..]);
      assert events == [events[0]] + events[1..];
    }
  }

  lemma StepKeepsPending(s: Ledger, op: Op, nowMs: int)
    requires NoDelete(op) && !op.DoFinalizeMark?
    ensures Step(s, op, nowMs).pendingDeletes == s.pendingDeletes
  {
    hide Active, FindLease, AdmissionPrecheck, HasCapacity;
  }

  /**
   * The exact condition, in the state in which a finalizer sets its flag: whatever lawful calls follow
   * before its `deleteAll`, none of them another flag transaction, it discards nothing live, if and
   * only if no other finalizer is between its flag and its `deleteAll`.
   */
  lemma FinalizerIsSafeExactlyAlone(s: Ledger, most: nat)
    requires Inv(s, most) && FinalizeMark(s).1
    ensures (forall events :: Lawful(FinalizeMark(s).0, events, most) && OnePending(FinalizeMark(s).0, events) ==>
               NothingLive(Run(FinalizeMark(s).0, events).entries))
       <==> s.pendingDeletes == 0
  {
    var m := FinalizeMark(s).0;
    if s.pendingDeletes == 0 {
      forall events | Lawful(m, events, most) && OnePending(m, events) ensures NothingLive(Run(m, events).entries) {
        NobodyElseDeletes(m, events);
        FinalizerDiscardsNothingLive(s, events, most);
      }
    } else {
      var events := LoseOne(m, "", most);
    }
  }

  /** With another finalizer under way: it deletes, a request gets in, and the run ends with that request reserved. */
  lemma LoseOne(m: Ledger, id: RequestId, most: nat) returns (events: seq<Event>)
    requires m.pendingDeletes >= 2
    ensures Lawful(m, events, most) && OnePending(m, events)
    ensures !NothingLive(Run(m, events).entries)
  {
    var delete, reserve := Event(0, DoFinalizeDelete), Event(0, DoReserve(id, 0, 0, KeyAbsent, None));
    events := [delete, reserve];
    TwoFinalizersLoseWork(m, id, 0);
    var d := Step(m, delete.op, 0);
    assert events[1..] == [reserve] && events[1..][1..] == [];
    assert Lawful(d, [reserve], most) && OnePending(d, [reserve]);
    assert Run(m, events) == Run(d, [reserve]) == Step(d, reserve.op, 0);
  }
}
