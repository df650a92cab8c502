/**
 * The CPU-gate slot: one singleton object whose slot a setup claims before it admits its fixture
 * request, and which a closer frees once that request can never do work again. A setup and a closer
 * are several transactions on two objects, interleaved with everything else, and may stop anywhere.
 */
module CpuGateSlot {
  import opened Wrappers
  import opened L = QuotaLedger
  import opened LedgerRuns
  import Outcomes = GrantOutcomes

  datatype Owner = Owner(pool: PoolName, requestId: RequestId)
  datatype Slot = Idle | Held(owner: Owner, generation: nat) | Closing(owner: Owner, generation: nat)
  datatype SlotObject = SlotObject(slot: Slot, lastGeneration: nat)

  datatype ClaimResult = ClaimThrew | Claimed(slot: Slot) | Busy
  datatype MarkResult = MarkedIdle | MarkedBlocked | MarkedClosing

  // ------------------------------------------- the transactions of the slot object

  function Claim(o: SlotObject, owner: Owner): (SlotObject, ClaimResult) {
    if !o.slot.Idle? then
      (o, if o.slot.Held? && o.slot.owner == owner then Claimed(o.slot) else Busy)
    else if !IsSafeNat(o.lastGeneration + 1) then (o, ClaimThrew)
    else
      var slot := Held(owner, o.lastGeneration + 1);
      (SlotObject(slot, o.lastGeneration + 1), Claimed(slot))
  }

  function MarkClosing(o: SlotObject, owner: Owner, generation: int): (SlotObject, MarkResult) {
    if !(1 <= generation <= MAX_SAFE) then (o, MarkedBlocked)
    else if o.slot.Idle? then (o, MarkedIdle)
    else if o.slot.owner != owner || o.slot.generation != generation then (o, MarkedBlocked)
    else (o.(slot := Closing(owner, generation)), MarkedClosing)
  }

  function Free(o: SlotObject, owner: Owner, generation: int): (SlotObject, bool) {
    if o.slot.Closing? && o.slot.generation == generation && o.slot.owner == owner then (o.(slot := Idle), true)
    else (o, false)
  }

  /** The singleton, whose storage keys are overwritten in place. */
  class SlotController {
    var slot: Slot
    var lastGeneration: nat

    ghost function State(): SlotObject
      reads this
    {
      SlotObject(slot, lastGeneration)
    }

    constructor ()
      ensures State() == SlotObject(Idle, 0)
    {
      slot, lastGeneration := Idle, 0;
    }

    /** `claimRelayCpuGateSlot`. */
    method ClaimSlot(owner: Owner) returns (result: ClaimResult)
      modifies this
      ensures (State(), result) == Claim(old(State()), owner)
    {
      if !slot.Idle? {
        return if slot.Held? && slot.owner == owner then Claimed(slot) else Busy;
      }
      var generation := lastGeneration + 1;
      if !IsSafeNat(generation) {
        return ClaimThrew;
      }
      lastGeneration := generation;
      slot := Held(owner, generation);
      result := Claimed(slot);
    }

    /** The first transaction of `closeRelayCpuGateSlot`. */
    method MarkSlot(owner: Owner, generation: int) returns (result: MarkResult)
      modifies this`slot
      ensures (State(), result) == MarkClosing(old(State()), owner, generation)
    {
      if !(1 <= generation <= MAX_SAFE) {
        return MarkedBlocked;
      }
      match slot {
        case Idle => return MarkedIdle;
        case Held(current, held) =>
          if current != owner || held != generation {
            return MarkedBlocked;
          }
          slot := Closing(current, held);
        case Closing(current, held) =>
          if current != owner || held != generation {
            return MarkedBlocked;
          }
      }
      result := MarkedClosing;
    }

    /** The last transaction of `closeRelayCpuGateSlot`. */
    method FreeSlot(owner: Owner, generation: int) returns (closed: bool)
      modifies this`slot
      ensures (State(), closed) == Free(old(State()), owner, generation)
    {
      match slot {
        case Closing(current, held) =>
          if held != generation || current != owner {
            return false;
          }
          slot := Idle;
          return true;
        case _ => return false;
      }
    }
  }

  /** What a closer must have seen, in two separate calls to the quota object, before it may free the slot. */
  predicate Proof(fence: FenceResult, seen: Inspection) {
    || (fence.Fenced? && seen == Absent(true))
    || (fence.FenceFixture? && seen.FixtureSeen? && !seen.activeLease
        && (|| (seen.state.GrantSettled? && seen.requestState.Settled?)
            || (seen.state.GrantReleased? && seen.requestState.Released?)
            || (seen.state.ReconciledConsumed? && (seen.requestState.Reconciled? || seen.requestState.Settled?))
            || (seen.state.ReconciledUnused? && seen.requestState.Released?)))
  }

  // -------------------------------------------------------------------- protocol

  /** The quota object a request belongs to: its pool and the UTC day in its identifier. */
  datatype Target = Target(pool: PoolName, utcDay: string)

  /** A setup that has claimed the slot, and whether it has seen its request absent and unfenced. */
  datatype Setup = Setup(owner: Owner, seenAbsent: bool)

  datatype Closer =
    | Marked(owner: Owner, generation: int)
    | FenceSeen(owner: Owner, generation: int, fence: FenceResult)
    | Proved(owner: Owner, generation: int)

  datatype Gate = Gate(
    dayOf: RequestId -> Option<string>,
    singleton: SlotObject,
    quotas: Target -> Ledger,
    setups: map<nat, Setup>,
    closers: map<nat, Closer>,
    /** Every owner that ever claimed the slot. */
    claimed: set<Owner>)

  datatype GateStep =
    | ClaimStep(setup: nat, owner: Owner)
    | InspectStep(setup: nat, nowMs: int)
    | AdmitStep(setup: nat, input: AdmitInput, nowMs: int)
    | MarkStep(closer: nat, owner: Owner, generation: int)
    | FenceStep(closer: nat, nowMs: int)
    | ProveStep(closer: nat, nowMs: int)
    | FreeStep(closer: nat)
    | RpcStep(target: Target, op: Op, nowMs: int)

  function TargetFor(g: Gate, owner: Owner): Option<Target> {
    var day := g.dayOf(owner.requestId);
    if day.Some? then Some(Target(owner.pool, day.value)) else None
  }

  function SetQuota(g: Gate, t: Target, s: Ledger): Gate {
    var quotas := g.quotas;
    g.(quotas := u => if u == t then s else quotas(u))
  }

  /** The calls other clients make on the quota objects; fences name relay requests only, which plain reservations do not. */
  predicate OtherCall(s: Ledger, op: Op, most: nat) {
    Allowed(s, op, most) && NoDelete(op) && (op.DoReserve? ==> op.id !in s.fences)
  }

  predicate Enabled(g: Gate, step: GateStep, most: nat) {
    match step
    case ClaimStep(p, owner) => p !in g.setups && TargetFor(g, owner).Some?
    case InspectStep(p, _) => p in g.setups && TargetFor(g, g.setups[p].owner).Some?
    case AdmitStep(p, input, _) =>
      p in g.setups && g.setups[p].seenAbsent && TargetFor(g, g.setups[p].owner).Some?
      && input.requestId == g.setups[p].owner.requestId
    case MarkStep(p, _, _) => p !in g.closers
    case FenceStep(p, _) => p in g.closers && g.closers[p].Marked? && TargetFor(g, g.closers[p].owner).Some?
    case ProveStep(p, _) => p in g.closers && g.closers[p].FenceSeen? && TargetFor(g, g.closers[p].owner).Some?
    case FreeStep(p) => p in g.closers && g.closers[p].Proved?
    case RpcStep(t, op, _) => OtherCall(g.quotas(t), op, most)
  }

  ghost function Next(g: Gate, step: GateStep, most: nat): Gate
    requires Enabled(g, step, most)
  {
    match step
    case ClaimStep(p, owner) =>
      var (singleton, result) := Claim(g.singleton, owner);
      if result.Claimed? then
        g.(singleton := singleton, setups := g.setups[p := Setup(owner, false)], claimed := g.claimed + {owner})
      else g
    case InspectStep(p, nowMs) =>
      var setup := g.setups[p];
      var seen := Inspect(g.quotas(TargetFor(g, setup.owner).value), setup.owner.requestId, nowMs);
      g.(setups := if seen == Absent(false) then g.setups[p := setup.(seenAbsent := true)] else g.setups - {p})
    case AdmitStep(p, input, nowMs) =>
      var t := TargetFor(g, g.setups[p].owner).value;
      SetQuota(g, t, AdmitRelay(g.quotas(t), input, nowMs).0).(setups := g.setups - {p})
    case MarkStep(p, owner, generation) =>
      var (singleton, result) := MarkClosing(g.singleton, owner, generation);
      g.(singleton := singleton, closers := if result.MarkedClosing? then g.closers[p := Marked(owner, generation)] else g.closers)
    case FenceStep(p, nowMs) =>
      var c := g.closers[p];
      var t := TargetFor(g, c.owner).value;
      var (s, fence) := Fence(g.quotas(t), c.owner.requestId, nowMs);
      SetQuota(g, t, s).(closers := g.closers[p := FenceSeen(c.owner, c.generation, fence)])
    case ProveStep(p, nowMs) =>
      var c := g.closers[p];
      var seen := Inspect(g.quotas(TargetFor(g, c.owner).value), c.owner.requestId, nowMs);
      g.(closers := if Proof(c.fence, seen) then g.closers[p := Proved(c.owner, c.generation)] else g.closers - {p})
    case FreeStep(p) =>
      var c := g.closers[p];
      g.(singleton := Free(g.singleton, c.owner, c.generation).0, closers := g.closers - {p})
    case RpcStep(t, op, nowMs) => SetQuota(g, t, Step(g.quotas(t), op, nowMs))
  }

  /**
   * A request that can do no work ever again: fenced before it got any record, or carrying a terminal
   * grant and no lease.
   */
  predicate Dead(s: Ledger, id: RequestId) {
    || (id in s.fences && id !in s.entries && id !in s.grants)
    || (id in s.grants && IsTerminalGrant(s.grants[id].state) && forall l :: l in s.leases ==> l.requestId != id)
  }

  predicate DeadOwner(g: Gate, owner: Owner) {
    TargetFor(g, owner).Some? && Dead(g.quotas(TargetFor(g, owner).value), owner.requestId)
  }

  ghost predicate GateInv(g: Gate, most: nat) {
    && (forall t :: Inv(g.quotas(t), most))
    && (forall owner :: owner in g.claimed && !(!g.singleton.slot.Idle? && g.singleton.slot.owner == owner) ==> DeadOwner(g, owner))
    && (!g.singleton.slot.Idle? ==> g.singleton.slot.owner in g.claimed && g.singleton.slot.generation <= g.singleton.lastGeneration)
    && (forall p :: p in g.setups ==> g.setups[p].owner in g.claimed)
    && (forall p :: p in g.closers ==> g.closers[p].generation <= g.singleton.lastGeneration)
    && (forall p :: p in g.closers && g.closers[p].Proved? ==> DeadOwner(g, g.closers[p].owner))
  }

  // ------------------------------------------------------------- death is final

  lemma AdmitOfDeadDenied(s: Ledger, most: nat, input: AdmitInput, nowMs: int)
    requires Inv(s, most) && Dead(s, input.requestId)
    ensures AdmitRelay(s, input, nowMs).1.AdmitDenied? && AdmitRelay(s, input, nowMs).0 == s
  {
    if input.requestId in s.grants {
      assert GrantOk(s.entries, input.requestId, s.grants[input.requestId], s.nextUuid);
    }
  }

  lemma DeathCarries(s: Ledger, r: Ledger, most: nat, id: RequestId)
    requires Inv(r, most) && GrantsMoved(s, r) && s.fences <= r.fences && Dead(s, id)
    requires id in s.fences && id !in s.entries ==> id !in r.entries
    ensures Dead(r, id)
  {
    assert id in r.grants ==> GrantOk(r.entries, id, r.grants[id], r.nextUuid);
    assert forall l :: l in r.leases ==> LeaseOk(r.entries, r.grants, r.nextUuid, l);
  }

  lemma FencedStaysAbsent(s: Ledger, op: Op, nowMs: int, most: nat, id: RequestId)
    requires Inv(s, most) && OtherCall(s, op, most) && id in s.fences && id !in s.entries
    ensures id !in Step(s, op, nowMs).entries
  {
    var move := StepMoves(s, op, nowMs, most);
    if move.New? && move.id == id {
      OnlyAdmissionsAndReservesEnter(s, op, nowMs, most, move);
    }
  }

  lemma OnlyAdmissionsAndReservesEnter(s: Ledger, op: Op, nowMs: int, most: nat, move: Move)
    requires Inv(s, most) && NoDelete(op) && move.New? && FitsMove(s, op, move, Step(s, op, nowMs).entries)
    ensures op.DoAdmit? || op.DoReserve?
  {
    assert move.id in Step(s, op, nowMs).entries && move.id !in s.entries;
    match op {
      case DoActivate(b) => var _ := ActivateMoves(s, b, nowMs);
      case DoRenewRelay(b) => var _ := RenewMoves(s, b, nowMs);
      case DoFinish(b, report, fingerprint) => var _ := FinishMoves(s, b, report, fingerprint, nowMs);
      case _ =>
    }
  }

  lemma DeadStaysDead(s: Ledger, op: Op, nowMs: int, most: nat, id: RequestId)
    requires Inv(s, most) && OtherCall(s, op, most) && Dead(s, id)
    ensures Dead(Step(s, op, nowMs), id)
  {
    StepKeeps(s, op, nowMs, most);
    StepGrants(s, op, nowMs, most);
    if id in s.fences && id !in s.entries {
      FencedStaysAbsent(s, op, nowMs, most, id);
    }
    DeathCarries(s, Step(s, op, nowMs), most, id);
  }

  lemma ProofMeansDead(s: Ledger, most: nat, id: RequestId, fence: FenceResult, nowMs: int)
    requires Inv(s, most) && Proof(fence, Inspect(s, id, nowMs))
    ensures Dead(s, id)
  {
    if id in s.grants {
      assert forall l :: l in s.leases ==> LeaseOk(s.entries, s.grants, s.nextUuid, l);
    }
  }

  /** One quota object moving on keeps every other one and every death. */
  lemma QuotaMoves(g: Gate, t: Target, op: Op, nowMs: int, most: nat)
    requires forall u :: Inv(g.quotas(u), most)
    requires OtherCall(g.quotas(t), op, most)
    ensures forall u :: Inv(SetQuota(g, t, Step(g.quotas(t), op, nowMs)).quotas(u), most)
    ensures forall owner :: DeadOwner(g, owner) ==> DeadOwner(SetQuota(g, t, Step(g.quotas(t), op, nowMs)), owner)
  {
    StepKeeps(g.quotas(t), op, nowMs, most);
    forall owner | DeadOwner(g, owner)
      ensures DeadOwner(SetQuota(g, t, Step(g.quotas(t), op, nowMs)), owner)
    {
      if TargetFor(g, owner).value == t {
        DeadStaysDead(g.quotas(t), op, nowMs, most, owner.requestId);
      }
    }
  }

  lemma QuotaStepKeeps(g: Gate, t: Target, op: Op, nowMs: int, most: nat)
    requires GateInv(g, most) && OtherCall(g.quotas(t), op, most)
    ensures GateInv(SetQuota(g, t, Step(g.quotas(t), op, nowMs)), most)
    ensures forall owner :: DeadOwner(g, owner) ==> DeadOwner(SetQuota(g, t, Step(g.quotas(t), op, nowMs)), owner)
  {
    QuotaMoves(g, t, op, nowMs, most);
  }

  /** Only the slot or the bookkeeping of setups and closers changed. */
  ghost predicate SameQuotas(g: Gate, h: Gate) {
    h.quotas == g.quotas && h.dayOf == g.dayOf
  }

  lemma SameDeaths(g: Gate, h: Gate)
    requires SameQuotas(g, h)
    ensures forall owner :: DeadOwner(g, owner) == DeadOwner(h, owner)
  {}

  lemma ClaimKeeps(g: Gate, p: nat, owner: Owner, most: nat)
    requires GateInv(g, most) && Enabled(g, ClaimStep(p, owner), most)
    ensures GateInv(Next(g, ClaimStep(p, owner), most), most) && SameQuotas(g, Next(g, ClaimStep(p, owner), most))
  {
    SameDeaths(g, Next(g, ClaimStep(p, owner), most));
  }

  lemma MarkKeeps(g: Gate, p: nat, owner: Owner, generation: int, most: nat)
    requires GateInv(g, most) && Enabled(g, MarkStep(p, owner, generation), most)
    ensures GateInv(Next(g, MarkStep(p, owner, generation), most), most)
    ensures SameQuotas(g, Next(g, MarkStep(p, owner, generation), most))
  {
    SameDeaths(g, Next(g, MarkStep(p, owner, generation), most));
  }

  lemma FreeKeeps(g: Gate, p: nat, most: nat)
    requires GateInv(g, most) && Enabled(g, FreeStep(p), most)
    ensures GateInv(Next(g, FreeStep(p), most), most) && SameQuotas(g, Next(g, FreeStep(p), most))
  {
    SameDeaths(g, Next(g, FreeStep(p), most));
  }

  lemma SetupsKeep(g: Gate, setups: map<nat, Setup>, most: nat)
    requires GateInv(g, most) && forall p :: p in setups ==> setups[p].owner in g.claimed
    ensures GateInv(g.(setups := setups), most)
  {
    SameDeaths(g, g.(setups := setups));
  }

  lemma InspectKeeps(g: Gate, p: nat, nowMs: int, most: nat)
    requires GateInv(g, most) && Enabled(g, InspectStep(p, nowMs), most)
    ensures var h := Next(g, InspectStep(p, nowMs), most); GateInv(h, most) && SameQuotas(g, h)
  {
    SetupsKeep(g, Next(g, InspectStep(p, nowMs), most).setups, most);
  }

  lemma CloserKeeps(g: Gate, p: nat, c: Closer, most: nat)
    requires GateInv(g, most) && c.generation <= g.singleton.lastGeneration
    requires c.Proved? ==> DeadOwner(g, c.owner)
    ensures GateInv(g.(closers := g.closers[p := c]), most) && GateInv(g.(closers := g.closers - {p}), most)
  {
    SameDeaths(g, g.(closers := g.closers[p := c]));
    SameDeaths(g, g.(closers := g.closers - {p}));
  }

  lemma ProveKeeps(g: Gate, p: nat, nowMs: int, most: nat)
    requires GateInv(g, most) && Enabled(g, ProveStep(p, nowMs), most)
    ensures GateInv(Next(g, ProveStep(p, nowMs), most), most) && SameQuotas(g, Next(g, ProveStep(p, nowMs), most))
  {
    var c := g.closers[p];
    var s := g.quotas(TargetFor(g, c.owner).value);
    if Proof(c.fence, Inspect(s, c.owner.requestId, nowMs)) {
      ProofMeansDead(s, most, c.owner.requestId, c.fence, nowMs);
      CloserKeeps(g, p, Proved(c.owner, c.generation), most);
    } else {
      CloserKeeps(g, p, Marked(c.owner, c.generation), most);
    }
  }

  lemma AdmitStepKeeps(g: Gate, p: nat, input: AdmitInput, nowMs: int, most: nat)
    requires GateInv(g, most) && Enabled(g, AdmitStep(p, input, nowMs), most)
    ensures GateInv(Next(g, AdmitStep(p, input, nowMs), most), most)
    ensures forall owner :: DeadOwner(g, owner) ==> DeadOwner(Next(g, AdmitStep(p, input, nowMs), most), owner)
  {
    var t := TargetFor(g, g.setups[p].owner).value;
    QuotaStepKeeps(g, t, DoAdmit(input), nowMs, most);
    var h := SetQuota(g, t, Step(g.quotas(t), DoAdmit(input), nowMs));
    SetupsKeep(h, h.setups - {p}, most);
    SameDeaths(h, Next(g, AdmitStep(p, input, nowMs), most));
  }

  lemma FenceStepKeeps(g: Gate, p: nat, nowMs: int, most: nat)
    requires GateInv(g, most) && Enabled(g, FenceStep(p, nowMs), most)
    ensures GateInv(Next(g, FenceStep(p, nowMs), most), most)
    ensures forall owner :: DeadOwner(g, owner) ==> DeadOwner(Next(g, FenceStep(p, nowMs), most), owner)
  {
    hide GateInv, Inv, DeadOwner, Fence;
    var c := g.closers[p];
    var t := TargetFor(g, c.owner).value;
    QuotaStepKeeps(g, t, DoFence(c.owner.requestId), nowMs, most);
    var h := SetQuota(g, t, Step(g.quotas(t), DoFence(c.owner.requestId), nowMs));
    CloserKeeps(h, p, FenceSeen(c.owner, c.generation, Fence(g.quotas(t), c.owner.requestId, nowMs).1), most);
    SameDeaths(h, Next(g, FenceStep(p, nowMs), most));
  }

  /** Every step keeps the invariant and brings no dead request back. */
  lemma NextKeeps(g: Gate, step: GateStep, most: nat)
    requires GateInv(g, most) && Enabled(g, step, most)
    ensures GateInv(Next(g, step, most), most)
    ensures forall owner :: DeadOwner(g, owner) ==> DeadOwner(Next(g, step, most), owner)
  {
    hide GateInv, DeadOwner;
    var h := Next(g, step, most);
    match step {
      case ClaimStep(p, owner) => ClaimKeeps(g, p, owner, most); SameDeaths(g, h);
      case InspectStep(p, nowMs) => InspectKeeps(g, p, nowMs, most); SameDeaths(g, h);
      case AdmitStep(p, input, nowMs) => AdmitStepKeeps(g, p, input, nowMs, most);
      case MarkStep(p, owner, generation) => MarkKeeps(g, p, owner, generation, most); SameDeaths(g, h);
      case FenceStep(p, nowMs) => FenceStepKeeps(g, p, nowMs, most);
      case ProveStep(p, nowMs) => ProveKeeps(g, p, nowMs, most); SameDeaths(g, h);
      case FreeStep(p) => FreeKeeps(g, p, most); SameDeaths(g, h);
      case RpcStep(t, op, nowMs) => QuotaStepKeeps(g, t, op, nowMs, most);
    }
  }

  // -------------------------------------------------------------------- theorems

  ghost predicate Possible(g: Gate, steps: seq<GateStep>, most: nat)
    decreases |steps|
  {
    steps == [] || (Enabled(g, steps[0], most) && Possible(Next(g, steps[0], most), steps[1..], most))
  }

  ghost function RunGate(g: Gate, steps: seq<GateStep>, most: nat): Gate
    requires Possible(g, steps, most)
    decreases |steps|
  {
    if steps == [] then g else RunGate(Next(g, steps[0], most), steps[1..], most)
  }

  ghost predicate Start(g: Gate, most: nat) {
    && g.singleton == SlotObject(Idle, 0) && g.setups == map[] && g.closers == map[] && g.claimed == {}
    && forall t :: Inv(g.quotas(t), most)
  }

  lemma {:induction false} RunGateKeeps(g: Gate, steps: seq<GateStep>, most: nat)
    requires GateInv(g, most) && Possible(g, steps, most)
    ensures GateInv(RunGate(g, steps, most), most)
    ensures forall owner :: DeadOwner(g, owner) ==> DeadOwner(RunGate(g, steps, most), owner)
    decreases |steps|
  {
    if steps != [] {
      NextKeeps(g, steps[0], most);
      RunGateKeeps(Next(g, steps[0], most), steps[1..], most);
    }
  }

  /** Of all the owners that ever claimed the slot, at most one can still do work, and it is the slot's owner. */
  lemma MutualExclusion(g: Gate, steps: seq<GateStep>, most: nat, a: Owner, b: Owner)
    requires Start(g, most) && Possible(g, steps, most)
    requires var h := RunGate(g, steps, most);
      && a in h.claimed && b in h.claimed && !DeadOwner(h, a) && !DeadOwner(h, b)
    ensures var slot := RunGate(g, steps, most).singleton.slot; a == b && !slot.Idle? && slot.owner == a
  {
    RunGateKeeps(g, steps, most);
  }

  /**
   * When a closer frees the slot, the owner it names is dead, stays dead whatever happens next, and a
   * setup of that owner still under way is denied admission.
   */
  lemma FreedForGood(
    g: Gate, steps: seq<GateStep>, closer: nat, after: seq<GateStep>, most: nat, input: AdmitInput, nowMs: int)
    requires Start(g, most) && Possible(g, steps, most)
    requires var h := RunGate(g, steps, most);
      && !h.singleton.slot.Idle? && Enabled(h, FreeStep(closer), most)
      && Next(h, FreeStep(closer), most).singleton.slot.Idle?
      && Possible(Next(h, FreeStep(closer), most), after, most)
      && input.requestId == h.singleton.slot.owner.requestId
    ensures
      var h := RunGate(g, steps, most);
      var owner := h.singleton.slot.owner;
      var later := RunGate(Next(h, FreeStep(closer), most), after, most);
      && DeadOwner(later, owner)
      && AdmitRelay(later.quotas(TargetFor(later, owner).value), input, nowMs).1.AdmitDenied?
  {
    RunGateKeeps(g, steps, most);
    var h := RunGate(g, steps, most);
    var freed := Next(h, FreeStep(closer), most);
    NextKeeps(h, FreeStep(closer), most);
    assert DeadOwner(freed, h.singleton.slot.owner);
    RunGateKeeps(freed, after, most);
    var later := RunGate(freed, after, most);
    AdmitOfDeadDenied(later.quotas(TargetFor(later, h.singleton.slot.owner).value), most, input, nowMs);
  }

  /**
   * Claiming: an idle slot goes to whoever asks, under the next generation, until there are no more safe
   * ones; its holder gets it again, and anyone else finds it busy.
   */
  lemma ClaimOutcome(o: SlotObject, owner: Owner)
    ensures var (r, result) := Claim(o, owner);
      if o.slot.Idle? && o.lastGeneration < MAX_SAFE then
        && result == Claimed(r.slot) && r.slot == Held(owner, o.lastGeneration + 1)
        && r.lastGeneration == o.lastGeneration + 1
      else
        && r == o
        && result == (if o.slot.Idle? then ClaimThrew
                      else if o.slot.Held? && o.slot.owner == owner then Claimed(o.slot) else Busy)
  {}

  /** Closing and freeing both take the owner and the generation of the claim; freeing needs a slot that is closing. */
  lemma CloseOutcome(o: SlotObject, owner: Owner, generation: int)
    ensures var (r, result) := MarkClosing(o, owner, generation);
      if !(1 <= generation <= MAX_SAFE) then result.MarkedBlocked? && r == o
      else if o.slot.Idle? then result.MarkedIdle? && r == o
      else if o.slot.owner == owner && o.slot.generation == generation then
        result.MarkedClosing? && r.slot == Closing(owner, generation) && r.lastGeneration == o.lastGeneration
      else result.MarkedBlocked? && r == o
    ensures var (r, freed) := Free(o, owner, generation);
      && (freed <==> o.slot == Closing(owner, if generation < 0 then 0 else generation) && generation >= 0)
      && (if freed then r.slot.Idle? && r.lastGeneration == o.lastGeneration else r == o)
  {}

  /** A claim, its mark and its release lead back to an idle slot, which the next owner can have. */
  lemma FullCycle(o: SlotObject, owner: Owner, next: Owner)
    requires o.slot.Idle? && o.lastGeneration + 1 < MAX_SAFE
    ensures var (claimed, claim) := Claim(o, owner);
      var generation := o.lastGeneration + 1;
      var (closing, mark) := MarkClosing(claimed, owner, generation);
      var (free, freed) := Free(closing, owner, generation);
      && claim == Claimed(Held(owner, generation)) && mark.MarkedClosing? && freed
      && Claim(claimed, next).1 == (if next == owner then claim else Busy) && Claim(closing, next).1 == Busy
      && Claim(free, next).1 == Claimed(Held(next, generation + 1))
  {}

  /** A closer that carries another generation, or names another owner, never moves the slot. */
  lemma StaleCloserIsHarmless(o: SlotObject, owner: Owner, generation: int)
    requires !o.slot.Idle? && (o.slot.generation != generation || o.slot.owner != owner)
    ensures MarkClosing(o, owner, generation).0 == o && Free(o, owner, generation).0 == o
  {}

  /** The slot is idle, or held under a generation given out after `generation`. */
  predicate Above(g: Gate, generation: nat) {
    generation <= g.singleton.lastGeneration && (g.singleton.slot.Idle? || generation < g.singleton.slot.generation)
  }

  lemma NextKeepsAbove(g: Gate, step: GateStep, most: nat, generation: nat)
    requires Enabled(g, step, most) && Above(g, generation)
    ensures Above(Next(g, step, most), generation)
  {
    hide Inspect, Fence, AdmitRelay, Step, Proof;
  }

  lemma {:induction false} RunKeepsAbove(g: Gate, steps: seq<GateStep>, most: nat, generation: nat)
    requires Possible(g, steps, most) && Above(g, generation)
    ensures Above(RunGate(g, steps, most), generation)
    decreases |steps|
  {
    if steps != [] {
      NextKeepsAbove(g, steps[0], most, generation);
      RunKeepsAbove(Next(g, steps[0], most), steps[1..], most, generation);
    }
  }

  /** The closer stays under way through all the steps. */
  ghost predicate UnderWay(g: Gate, steps: seq<GateStep>, most: nat, closer: nat)
    requires Possible(g, steps, most)
    decreases |steps|
  {
    closer in g.closers && (steps != [] ==> UnderWay(Next(g, steps[0], most), steps[1..], most, closer))
  }

  /** A closer never changes whom and which generation it closes. */
  lemma {:induction false} CloserKeepsItsClaim(g: Gate, steps: seq<GateStep>, most: nat, closer: nat)
    requires Possible(g, steps, most) && UnderWay(g, steps, most, closer)
    ensures var h := RunGate(g, steps, most);
      && closer in h.closers && h.closers[closer].owner == g.closers[closer].owner
      && h.closers[closer].generation == g.closers[closer].generation
    decreases |steps|
  {
    if steps != [] {
      var next := Next(g, steps[0], most);
      SameCloser(g, steps[0], most, closer);
      CloserKeepsItsClaim(next, steps[1..], most, closer);
    }
  }

  lemma SameCloser(g: Gate, step: GateStep, most: nat, closer: nat)
    requires Enabled(g, step, most) && closer in g.closers && closer in Next(g, step, most).closers
    ensures var d, c := Next(g, step, most).closers[closer], g.closers[closer];
      d.owner == c.owner && d.generation == c.generation
  {
    hide Inspect, Fence, AdmitRelay, Step, Proof;
  }

  /**
   * A closer begun before a claim of the idle slot can touch neither that claim nor any later one,
   * whatever steps are taken from the claim on, for as long as it stays under way: it carries a
   * generation below that of every claim since.
   */
  lemma OldClosersMissNewClaim(
    g: Gate, steps: seq<GateStep>, setup: nat, owner: Owner, closer: nat, after: seq<GateStep>, most: nat)
    requires Start(g, most) && Possible(g, steps, most)
    requires var h := RunGate(g, steps, most);
      && h.singleton.slot.Idle? && Enabled(h, ClaimStep(setup, owner), most) && Claim(h.singleton, owner).1.Claimed?
      && closer in h.closers
      && var next := Next(h, ClaimStep(setup, owner), most);
      Possible(next, after, most) && UnderWay(next, after, most, closer)
    ensures var h := RunGate(g, steps, most);
      var next := Next(h, ClaimStep(setup, owner), most);
      var later := RunGate(next, after, most);
      && next.singleton.slot.Held? && next.singleton.slot.owner == owner
      && closer in later.closers
      && (Enabled(later, FreeStep(closer), most) ==> Next(later, FreeStep(closer), most).singleton == later.singleton)
      && (!later.singleton.slot.Idle? ==> later.closers[closer].generation < later.singleton.slot.generation)
  {
    RunGateKeeps(g, steps, most);
    var h := RunGate(g, steps, most);
    var next := Next(h, ClaimStep(setup, owner), most);
    RunKeepsAbove(next, after, most, h.singleton.lastGeneration);
    CloserKeepsItsClaim(next, after, most, closer);
  }

  // ------------------------------------------------------------------ progress

  /** The request can be closed: it has no records, or it is the fixture and its grant is terminal. */
  predicate Closable(s: Ledger, id: RequestId) {
    (id !in s.grants && id !in s.entries) || (Outcomes.IsFixture(s, id) && IsTerminalGrant(s.grants[id].state))
  }

  /** A closer that nobody disturbs gets its proof exactly if the owner's request can be closed, and then frees the slot. */
  lemma CloserFreesExactly(g: Gate, closer: nat, nowMs: int, most: nat)
    requires GateInv(g, most) && !g.singleton.slot.Idle? && closer !in g.closers
    requires 1 <= g.singleton.slot.generation <= MAX_SAFE && TargetFor(g, g.singleton.slot.owner).Some?
    ensures var owner, generation := g.singleton.slot.owner, g.singleton.slot.generation;
      var mark, fence, prove := MarkStep(closer, owner, generation), FenceStep(closer, nowMs), ProveStep(closer, nowMs);
      && Enabled(g, mark, most) && Enabled(Next(g, mark, most), fence, most)
      && Enabled(Next(Next(g, mark, most), fence, most), prove, most)
      && var proved := Next(Next(Next(g, mark, most), fence, most), prove, most);
      if Closable(g.quotas(TargetFor(g, owner).value), owner.requestId) then
        && Enabled(proved, FreeStep(closer), most)
        && Next(proved, FreeStep(closer), most).singleton == SlotObject(Idle, g.singleton.lastGeneration)
      else closer !in proved.closers && proved.singleton.slot == Closing(owner, generation)
  {
    hide Fence, Inspect, Proof;
    var owner := g.singleton.slot.owner;
    ProofExactly(g.quotas(TargetFor(g, owner).value), owner.requestId, nowMs, most);
  }

  /** What counts as proof: fenced and absent, or a fixture without a lease whose grant is terminal and fits its entry. */
  lemma ProofTable(fence: FenceResult, seen: Inspection)
    ensures Proof(fence, seen) <==>
              || (fence == Fenced && seen == Absent(true))
              || (&& fence == FenceFixture && seen.FixtureSeen? && !seen.activeLease && IsTerminalGrant(seen.state)
                  && (Coupled(seen.state, seen.requestState) || (seen.state.ReconciledConsumed? && seen.requestState.Settled?)))
  {}

  lemma ProofExactly(s: Ledger, id: RequestId, nowMs: int, most: nat)
    requires Inv(s, most)
    ensures var (r, fence) := Fence(s, id, nowMs);
      Proof(fence, Inspect(r, id, nowMs)) <==> Closable(s, id)
  {
    Outcomes.FenceOutcome(s, id, nowMs);
    Outcomes.FenceOutcome(Fence(s, id, nowMs).0, id, nowMs);
    if id in s.grants {
      Outcomes.EntryOfGrant(s, most, id);
      assert forall l :: l in s.leases ==> LeaseOk(s.entries, s.grants, s.nextUuid, l);
    }
    hide Fence, Inspect, InvExcept;
  }

  /** A setup that nobody disturbs gets an idle slot, and its admission reaches a request without records. */
  lemma SetupAdmits(g: Gate, setup: nat, owner: Owner, input: AdmitInput, nowMs: int, most: nat)
    requires g.singleton.slot.Idle? && g.singleton.lastGeneration < MAX_SAFE && setup !in g.setups
    requires TargetFor(g, owner).Some? && input.requestId == owner.requestId
    requires var s := g.quotas(TargetFor(g, owner).value);
      owner.requestId !in s.grants && owner.requestId !in s.entries && owner.requestId !in s.fences
    ensures var claim, inspect, admit := ClaimStep(setup, owner), InspectStep(setup, nowMs), AdmitStep(setup, input, nowMs);
      var t := TargetFor(g, owner).value;
      && Enabled(g, claim, most) && Enabled(Next(g, claim, most), inspect, most)
      && var seen := Next(Next(g, claim, most), inspect, most);
         && Enabled(seen, admit, most) && owner in seen.claimed
         && seen.singleton == SlotObject(Held(owner, g.singleton.lastGeneration + 1), g.singleton.lastGeneration + 1)
         && Next(seen, admit, most).quotas(t) == AdmitRelay(g.quotas(t), input, nowMs).0
         && setup !in Next(seen, admit, most).setups
  {
    hide AdmitRelay;
  }
}
