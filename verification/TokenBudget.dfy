/**
 * The budget arithmetic in front of `reserve`, with exact ceilings of 5% and 2%.
 */
module TokenBudget {
  import opened Wrappers
  import L = QuotaLedger

  datatype OutputLimitMode = Reject | Clamp

  datatype Budget =
    | Resolved(margin: int, upperBound: int, maxOutputTokens: int, reservation: int)
    | RequestTooLarge
    | QuotaExceeded
    | ArithmeticError

  /** The least integer at least `n / d`. */
  function Ceiling(n: nat, d: nat): (c: nat)
    requires d > 0
    ensures c * d >= n && (c == 0 || (c - 1) * d < n)
  {
    (n + d - 1) / d
  }

  /** A larger margin when at most a fifth of the limit is left. */
  function SafetyMargin(estimatedInput: nat, remaining: int, limit: int): int {
    if 5 * remaining <= limit then Max(512, Ceiling(estimatedInput, 20)) else Max(256, Ceiling(estimatedInput, 50))
  }

  function UpperBoundOf(estimatedInput: nat, maxOutput: int): int {
    estimatedInput + maxOutput + Max(512, Ceiling(estimatedInput, 20))
  }

  /** `decideOutput`: the output to allow, if any. */
  function DecideOutput(estimatedInput: nat, maxOutput: int, margin: int, remaining: int, mode: OutputLimitMode): Option<int> {
    if estimatedInput + maxOutput + margin <= remaining then Some(maxOutput)
    else if mode.Clamp? && remaining - estimatedInput - margin > 0 then Some(remaining - estimatedInput - margin)
    else None
  }

  predicate ValidArguments(estimatedInput: int, maxOutput: int, remaining: int, limit: int) {
    IsSafeNat(estimatedInput) && IsSafeNat(maxOutput) && IsSafeNat(remaining) && 0 < limit <= MAX_SAFE && remaining <= limit
  }

  function ResolveTokenBudget(
    estimatedInput: int, maxOutput: int, remaining: int, limit: int, mode: OutputLimitMode): Budget
  {
    if !ValidArguments(estimatedInput, maxOutput, remaining, limit) then ArithmeticError
    else
      var margin := SafetyMargin(estimatedInput, remaining, limit);
      var upperBound := UpperBoundOf(estimatedInput, maxOutput);
      if !IsSafeNat(margin) || !IsSafeNat(upperBound) then ArithmeticError
      else if upperBound > limit then RequestTooLarge
      else
        var output := DecideOutput(estimatedInput, maxOutput, margin, remaining, mode);
        if output.None? then QuotaExceeded
        else
          var reservation := estimatedInput + output.value + margin;
          if IsSafeNat(output.value) && IsSafeNat(reservation) then Resolved(margin, upperBound, output.value, reservation)
          else ArithmeticError
  }

  /** The margin is the least integer that is at least 5% of the estimate and 512, or 2% of it and 256. */
  lemma MarginIsLeast(estimatedInput: nat, remaining: int, limit: int, maxOutput: int)
    ensures var m := SafetyMargin(estimatedInput, remaining, limit);
      if 5 * remaining <= limit then
        m >= 512 && 20 * m >= estimatedInput && (m == 512 || 20 * (m - 1) < estimatedInput)
      else
        m >= 256 && 50 * m >= estimatedInput && (m == 256 || 50 * (m - 1) < estimatedInput)
    ensures var m := UpperBoundOf(estimatedInput, maxOutput) - estimatedInput - maxOutput;
      m >= 512 && 20 * m >= estimatedInput && (m == 512 || 20 * (m - 1) < estimatedInput)
  {}

  /** Arguments that are no counts of tokens, or leave more than the limit, are refused before anything is compared. */
  lemma ArithmeticErrorExactly(estimatedInput: int, maxOutput: int, remaining: int, limit: int, mode: OutputLimitMode)
    ensures ResolveTokenBudget(estimatedInput, maxOutput, remaining, limit, mode).ArithmeticError? <==>
              || !(0 <= estimatedInput <= MAX_SAFE && 0 <= maxOutput <= MAX_SAFE && 0 <= remaining <= limit <= MAX_SAFE && limit > 0)
              || UpperBoundOf(estimatedInput, maxOutput) > MAX_SAFE
  {
    if estimatedInput >= 0 {
      MarginWithinUpperBound(estimatedInput, remaining, limit);
    }
  }

  /** The 2% margin never exceeds the 5% one, so no margin exceeds the one in the upper bound. */
  lemma MarginWithinUpperBound(estimatedInput: nat, remaining: int, limit: int)
    ensures 256 <= SafetyMargin(estimatedInput, remaining, limit) <= Max(512, Ceiling(estimatedInput, 20))
  {}

  /**
   * A resolved budget fits: the reservation is within what is left and within the upper bound, which
   * is within the limit; no more output is allowed than was asked for, and less only in clamping mode,
   * where the reservation then takes exactly what is left. `reserve` never throws on it.
   */
  lemma ResolvedBudgetFits(estimatedInput: int, maxOutput: int, remaining: int, limit: int, mode: OutputLimitMode)
    requires ResolveTokenBudget(estimatedInput, maxOutput, remaining, limit, mode).Resolved?
    ensures var b := ResolveTokenBudget(estimatedInput, maxOutput, remaining, limit, mode);
      && b.reservation <= remaining && b.reservation <= b.upperBound <= limit
      && 0 <= b.maxOutputTokens <= maxOutput && b.reservation == estimatedInput + b.maxOutputTokens + b.margin
      && (b.maxOutputTokens < maxOutput ==> mode.Clamp? && b.reservation == remaining && b.maxOutputTokens > 0)
      && L.ValidReservation(b.reservation, b.upperBound)
  {
    MarginWithinUpperBound(estimatedInput, remaining, limit);
  }

  /**
   * If nothing changed in between, `reserve` grants a resolved budget, except that in the last
   * twentieth of the limit it also wants the upper bound to be left.
   */
  lemma ResolvedBudgetIsGranted(estimatedInput: int, maxOutput: int, remaining: int, limit: int, mode: OutputLimitMode)
    requires ResolveTokenBudget(estimatedInput, maxOutput, remaining, limit, mode).Resolved?
    ensures var b := ResolveTokenBudget(estimatedInput, maxOutput, remaining, limit, mode);
      L.HasCapacity(b.reservation, b.upperBound, remaining, limit)
      <==> (L.IsStrict(remaining, limit) ==> b.upperBound <= remaining)
  {
    MarginWithinUpperBound(estimatedInput, remaining, limit);
  }

  /** On valid arguments the outcome is settled by two comparisons, and arithmetic fails only on an unsafe bound. */
  lemma OutcomeOfValidArguments(estimatedInput: int, maxOutput: int, remaining: int, limit: int, mode: OutputLimitMode)
    requires ValidArguments(estimatedInput, maxOutput, remaining, limit)
    ensures var margin := SafetyMargin(estimatedInput, remaining, limit);
      var upperBound := UpperBoundOf(estimatedInput, maxOutput);
      match ResolveTokenBudget(estimatedInput, maxOutput, remaining, limit, mode)
      case ArithmeticError => upperBound > MAX_SAFE
      case RequestTooLarge => limit < upperBound <= MAX_SAFE
      case QuotaExceeded =>
        upperBound <= limit && estimatedInput + maxOutput + margin > remaining
        && (mode.Clamp? ==> estimatedInput + margin >= remaining)
      case Resolved(_, _, _, _) =>
        upperBound <= limit
        && (estimatedInput + maxOutput + margin <= remaining || (mode.Clamp? && estimatedInput + margin < remaining))
  {
    MarginWithinUpperBound(estimatedInput, remaining, limit);
  }
}
