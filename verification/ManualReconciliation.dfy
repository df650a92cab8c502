/**
 * Any number of manual reconciliations of one request, running at the same time with mixed
 * dispositions, while settlements and every other RPC reach the quota object in between.
 */
module ManualReconciliation {
  import opened Wrappers
  import opened L = QuotaLedger
  import opened LedgerRuns

  /** Where one `reconcileReserveUnknown` call stands between its awaits. */
  datatype Progress =
    | Begun(disposition: Disposition)
    | Eligible(disposition: Disposition)
    | Called(disposition: Disposition)
    | Confirmed(disposition: Disposition, reservedTokens: nat)
    | Succeeded(disposition: Disposition, reservedTokens: nat)
    | NotFound | NotReserveUnknown | DispositionConflict

  /** The columns the call writes to the request's audit row. */
  datatype Row = Row(completed: bool, totalTokens: nat, free: bool)

  datatype Desk = Desk(ledger: Ledger, id: RequestId, calls: map<nat, Progress>, row: Option<Row>)

  datatype DeskStep =
    | Arrive(call: nat, disposition: Disposition)
    | ReadTarget(call: nat)
    | CallReconcile(call: nat, nowMs: int)
    | ReadBack(call: nat)
    | Project(call: nat)
    | Rpc(op: Op, nowMs: int)

  function ExpectedState(d: Disposition): RequestState {
    if d.Consumed? then Reconciled else Released
  }

  function RowOf(d: Disposition, reservedTokens: nat): Row {
    Row(d.Consumed?, if d.Consumed? then reservedTokens else 0, d.Consumed?)
  }

  /** The first read: uncertain since its reserve, or already reconciled that way by an earlier call. */
  function Judge(s: Ledger, id: RequestId, d: Disposition): Progress {
    if id !in s.entries then NotFound
    else
      var e := s.entries[id];
      var unknown := e.uncertaintyOrigin == Some(ReserveUnknown);
      var replayable := unknown && (e.state.Reconciled? || e.state.Released?) && e.requestedDisposition.Some?;
      if !(e.state.Uncertain? && unknown) && !replayable then NotReserveUnknown
      else if replayable && e.requestedDisposition != Some(d) then DispositionConflict
      else Eligible(d)
  }

  /** The second read decides, whatever the reconcile call itself answered. */
  function Confirm(s: Ledger, id: RequestId, d: Disposition): Progress {
    if id !in s.entries || s.entries[id].state != ExpectedState(d) || s.entries[id].requestedDisposition != Some(d)
    then DispositionConflict
    else Confirmed(d, s.entries[id].reservedTokens)
  }

  predicate Enabled(k: Desk, step: DeskStep, most: nat) {
    match step
    case Arrive(c, _) => c !in k.calls
    case ReadTarget(c) => c in k.calls && k.calls[c].Begun?
    case CallReconcile(c, _) => c in k.calls && k.calls[c].Eligible?
    case ReadBack(c) => c in k.calls && k.calls[c].Called?
    case Project(c) => c in k.calls && k.calls[c].Confirmed?
    case Rpc(op, _) => Allowed(k.ledger, op, most) && NoDelete(op)
  }

  ghost function Next(k: Desk, step: DeskStep, most: nat): Desk
    requires Enabled(k, step, most)
  {
    match step
    case Arrive(c, d) => k.(calls := k.calls[c := Begun(d)])
    case ReadTarget(c) => k.(calls := k.calls[c := Judge(k.ledger, k.id, k.calls[c].disposition)])
    case CallReconcile(c, nowMs) =>
      k.(ledger := Step(k.ledger, DoReconcile(k.id, k.calls[c].disposition), nowMs),
         calls := k.calls[c := Called(k.calls[c].disposition)])
    case ReadBack(c) => k.(calls := k.calls[c := Confirm(k.ledger, k.id, k.calls[c].disposition)])
    case Project(c) =>
      var p := k.calls[c];
      k.(row := Some(RowOf(p.disposition, p.reservedTokens)),
         calls := k.calls[c := Succeeded(p.disposition, p.reservedTokens)])
    case Rpc(op, nowMs) => k.(ledger := Step(k.ledger, op, nowMs))
  }

  /** The entry was reconciled with this disposition and this many tokens; no later step can change that. */
  predicate Decided(s: Ledger, id: RequestId, d: Disposition, tokens: nat) {
    id in s.entries && s.entries[id].state == ExpectedState(d) && s.entries[id].requestedDisposition == Some(d)
    && s.entries[id].reservedTokens == tokens
  }

  ghost predicate DeskInv(k: Desk, most: nat) {
    && Inv(k.ledger, most)
    && (forall c :: c in k.calls && (k.calls[c].Confirmed? || k.calls[c].Succeeded?) ==>
          Decided(k.ledger, k.id, k.calls[c].disposition, k.calls[c].reservedTokens))
    && (forall c :: c in k.calls && k.calls[c].Succeeded? ==> k.row.Some?)
    && (k.row.Some? ==> exists d, n :: Decided(k.ledger, k.id, d, n) && k.row == Some(RowOf(d, n)))
  }

  lemma DecidedStays(s: Ledger, op: Op, nowMs: int, most: nat, id: RequestId, d: Disposition, tokens: nat)
    requires Inv(s, most) && NoDelete(op) && Decided(s, id, d, tokens)
    ensures Decided(Step(s, op, nowMs), id, d, tokens)
  {
    StepEvolves(s, op, nowMs, most);
    assert Evolves(s.entries[id], Step(s, op, nowMs).entries[id]);
  }

  /** The ledger taking a step, with the calls and the row as they were. */
  lemma LedgerStepKeeps(k: Desk, op: Op, nowMs: int, most: nat)
    requires DeskInv(k, most) && Allowed(k.ledger, op, most) && NoDelete(op)
    ensures DeskInv(k.(ledger := Step(k.ledger, op, nowMs)), most)
  {
    var r := Step(k.ledger, op, nowMs);
    StepKeeps(k.ledger, op, nowMs, most);
    forall d, n | Decided(k.ledger, k.id, d, n)
      ensures Decided(r, k.id, d, n)
    {
      DecidedStays(k.ledger, op, nowMs, most, k.id, d, n);
    }
  }

  lemma NextKeeps(k: Desk, step: DeskStep, most: nat)
    requires DeskInv(k, most) && Enabled(k, step, most)
    ensures DeskInv(Next(k, step, most), most)
  {
    match step {
      case CallReconcile(c, nowMs) =>
        LedgerStepKeeps(k, DoReconcile(k.id, k.calls[c].disposition), nowMs, most);
      case Rpc(op, nowMs) => LedgerStepKeeps(k, op, nowMs, most);
      case Project(c) => assert Decided(k.ledger, k.id, k.calls[c].disposition, k.calls[c].reservedTokens);
      case _ =>
    }
  }

  ghost predicate Possible(k: Desk, steps: seq<DeskStep>, most: nat)
    decreases |steps|
  {
    steps == [] || (Enabled(k, steps[0], most) && Possible(Next(k, steps[0], most), steps[1..], most))
  }

  ghost function RunDesk(k: Desk, steps: seq<DeskStep>, most: nat): Desk
    requires Possible(k, steps, most)
    decreases |steps|
  {
    if steps == [] then k else RunDesk(Next(k, steps[0], most), steps[1..], most)
  }

  lemma {:induction false} RunDeskKeeps(k: Desk, steps: seq<DeskStep>, most: nat)
    requires DeskInv(k, most) && Possible(k, steps, most)
    ensures DeskInv(RunDesk(k, steps, most), most) && RunDesk(k, steps, most).id == k.id
    decreases |steps|
  {
    if steps != [] {
      NextKeeps(k, steps[0], most);
      RunDeskKeeps(Next(k, steps[0], most), steps[1..], most);
    }
  }

  /**
   * All calls that succeed agree on the disposition, the entry ends in the state it asks for with its
   * tokens counted under that disposition alone, and the audit row says the same as the entry.
   */
  lemma ConcurrentCallsAgree(s: Ledger, id: RequestId, steps: seq<DeskStep>, most: nat, a: nat, b: nat)
    requires Inv(s, most) && Possible(Desk(s, id, map[], None), steps, most)
    requires var k := RunDesk(Desk(s, id, map[], None), steps, most);
      a in k.calls && b in k.calls && k.calls[a].Succeeded? && k.calls[b].Succeeded?
    ensures var k := RunDesk(Desk(s, id, map[], None), steps, most);
      var d := k.calls[a].disposition;
      && k.calls[b] == k.calls[a]
      && id in k.ledger.entries && k.ledger.entries[id].state == ExpectedState(d)
      && Weight(ConfirmedTokens, k.ledger.entries[id]) == RowOf(d, k.calls[a].reservedTokens).totalTokens
      && Weight(ReservedTokens, k.ledger.entries[id]) == Weight(UncertainTokens, k.ledger.entries[id]) == 0
      && k.row == Some(RowOf(d, k.ledger.entries[id].reservedTokens))
  {
    RunDeskKeeps(Desk(s, id, map[], None), steps, most);
  }

  /** A call that projected keeps having succeeded, so the row is there for good. */
  lemma {:induction false} SuccessStays(k: Desk, steps: seq<DeskStep>, most: nat, c: nat)
    requires DeskInv(k, most) && Possible(k, steps, most) && c in k.calls && k.calls[c].Succeeded?
    ensures var r := RunDesk(k, steps, most);
      c in r.calls && r.calls[c] == k.calls[c] && r.row == k.row && r.row.Some?
    decreases |steps|
  {
    if steps != [] {
      var next := Next(k, steps[0], most);
      NextKeeps(k, steps[0], most);
      assert next.row == k.row by {
        if steps[0].Project? {
          assert Decided(k.ledger, k.id, k.calls[c].disposition, k.calls[c].reservedTokens);
          assert Decided(k.ledger, k.id, k.calls[steps[0].call].disposition, k.calls[steps[0].call].reservedTokens);
        }
      }
      SuccessStays(next, steps[1..], most, c);
    }
  }

  /**
   * Who may be reconciled: a request that became uncertain because its reserve had no answer, or one that
   * was reconciled the same way before; the other way is a conflict.
   */
  lemma JudgeOutcome(s: Ledger, id: RequestId, d: Disposition, most: nat)
    requires Inv(s, most)
    ensures Judge(s, id, d) ==
              if id !in s.entries then NotFound
              else if s.entries[id].uncertaintyOrigin != Some(ReserveUnknown) then NotReserveUnknown
              else if s.entries[id].requestedDisposition.Some? then
                if s.entries[id].requestedDisposition.value == d then Eligible(d) else DispositionConflict
              else if s.entries[id].state.Uncertain? then Eligible(d)
              else NotReserveUnknown
  {
    assert id in s.entries ==> EntryOk(s.entries[id]);
  }

  /** A call that nobody disturbs reconciles an eligible request, and the audit row says how. */
  lemma LoneCall(s: Ledger, id: RequestId, d: Disposition, nowMs: int, most: nat)
    requires Inv(s, most) && Judge(s, id, d) == Eligible(d)
    ensures var steps := [Arrive(0, d), ReadTarget(0), CallReconcile(0, nowMs), ReadBack(0), Project(0)];
      var k := Desk(s, id, map[], None);
      && Possible(k, steps, most)
      && var r := RunDesk(k, steps, most);
         && r.calls == map[0 := Succeeded(d, s.entries[id].reservedTokens)]
         && r.row == Some(if d.Consumed? then Row(true, s.entries[id].reservedTokens, true) else Row(false, 0, false))
         && id in r.ledger.entries && r.ledger.entries[id].state == (if d.Consumed? then Reconciled else Released)
         && r.ledger.entries[id].requestedDisposition == Some(d)
  {
    hide Inv, Step, Judge, Confirm, Possible, RunDesk;
    var k := Desk(s, id, map[], None);
    var k1 := Next(k, Arrive(0, d), most);
    var k2 := Next(k1, ReadTarget(0), most);
    var k3 := Next(k2, CallReconcile(0, nowMs), most);
    EligibleIsReconciled(s, id, d, nowMs, most);
    var k4 := Next(k3, ReadBack(0), most);
    var k5 := Next(k4, Project(0), most);
    NoMore(k5, most);
    var last := [Project(0)];
    OneMore(k4, Project(0), [], most);
    assert [Project(0)] + [] == last;
    OneMore(k3, ReadBack(0), last, most);
    OneMore(k2, CallReconcile(0, nowMs), [ReadBack(0)] + last, most);
    OneMore(k1, ReadTarget(0), [CallReconcile(0, nowMs)] + ([ReadBack(0)] + last), most);
    OneMore(k, Arrive(0, d), [ReadTarget(0)] + ([CallReconcile(0, nowMs)] + ([ReadBack(0)] + last)), most);
    assert [Arrive(0, d)] + ([ReadTarget(0)] + ([CallReconcile(0, nowMs)] + ([ReadBack(0)] + last)))
        == [Arrive(0, d), ReadTarget(0), CallReconcile(0, nowMs), ReadBack(0), Project(0)];
  }

  lemma NoMore(k: Desk, most: nat)
    ensures Possible(k, [], most) && RunDesk(k, [], most) == k
  {}

  lemma OneMore(k: Desk, step: DeskStep, rest: seq<DeskStep>, most: nat)
    requires Enabled(k, step, most) && Possible(Next(k, step, most), rest, most)
    ensures Possible(k, [step] + rest, most) && RunDesk(k, [step] + rest, most) == RunDesk(Next(k, step, most), rest, most)
  {
    assert ([step] + rest)[1..] == rest;
  }

  lemma EligibleIsReconciled(s: Ledger, id: RequestId, d: Disposition, nowMs: int, most: nat)
    requires Inv(s, most) && Judge(s, id, d) == Eligible(d)
    ensures id in s.entries
    ensures var r := Step(s, DoReconcile(id, d), nowMs);
      && id in r.entries && Confirm(r, id, d) == Confirmed(d, s.entries[id].reservedTokens)
      && r.entries[id].state == ExpectedState(d) && r.entries[id].requestedDisposition == Some(d)
  {
    assert EntryOk(s.entries[id]);
  }

  /** The second read confirms exactly what is decided, in any state of the entry. */
  lemma ConfirmExactly(s: Ledger, id: RequestId, d: Disposition, tokens: nat)
    ensures Confirm(s, id, d) == Confirmed(d, tokens) <==>
              && id in s.entries && s.entries[id].state == (if d.Consumed? then Reconciled else Released)
              && s.entries[id].requestedDisposition == Some(d) && s.entries[id].reservedTokens == tokens
    ensures !Confirm(s, id, d).Confirmed? ==> Confirm(s, id, d) == DispositionConflict
  {}
}
