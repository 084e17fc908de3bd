/** How one USDC payment is divided between the two Safes.

    Amounts are base units (non-negative bigints in the program). The slider runs
    from 0 to 10000 and shows the EEZ-X share; the draft stores the L1 part. */
module FundingSplit {
  import opened Prelude
  import opened Arithmetic

  const FULL_SCALE: nat := 10_000

  datatype Chain = L1 | L2

  /** The capacity facts of one budget read; allowances are (granted, spent). */
  datatype PaymentState = PaymentState(
    balanceL1: nat, grantedL1: nat, spentL1: nat,
    balanceL2: nat, grantedL2: nat, spentL2: nat)

  datatype Allocation = Allocation(amount: nat, fromL1: nat)

  function Min(a: nat, b: nat): nat {
    if a < b then a else b
  }

  function Remaining(granted: nat, spent: nat): nat {
    if granted > spent then granted - spent else 0
  }

  function DefaultSplit(s: PaymentState, amount: nat, destination: Chain): nat {
    if destination.L1? then
      Min(amount, Min(s.balanceL1, Remaining(s.grantedL1, s.spentL1)))
    else
      amount - Min(amount, Min(s.balanceL2, Remaining(s.grantedL2, s.spentL2)))
  }

  function SliderToL1(amount: nat, position: nat): nat
    requires position <= FULL_SCALE
  {
    amount * (FULL_SCALE - position) / FULL_SCALE
  }

  /** The L1 share in basis points, rounded half up. */
  function BasisPoints(amount: nat, fromL1: nat): nat
    requires amount > 0
  {
    (fromL1 * FULL_SCALE + amount / 2) / amount
  }

  function SliderPosition(amount: nat, fromL1: nat): int
    requires amount > 0
  {
    FULL_SCALE - BasisPoints(amount, fromL1)
  }

  function Rescale(a: Allocation, amount: nat): nat
    requires a.amount > 0
  {
    a.fromL1 * amount / a.amount
  }

  /** x is within the amount, the balance and the allowance left. */
  predicate Payable(x: nat, amount: nat, balance: nat, granted: nat, spent: nat) {
    x <= amount && x <= balance && (x == 0 || spent + x <= granted)
  }

  /** By default the Safe on the destination's chain pays as much as it can. */
  lemma DefaultSplitIsGreedy(s: PaymentState, amount: nat, other: nat)
    ensures var l1 := DefaultSplit(s, amount, L1);
      Payable(l1, amount, s.balanceL1, s.grantedL1, s.spentL1)
      && (Payable(other, amount, s.balanceL1, s.grantedL1, s.spentL1) ==> other <= l1)
    ensures var l2 := amount - DefaultSplit(s, amount, L2);
      l2 >= 0 && Payable(l2, amount, s.balanceL2, s.grantedL2, s.spentL2)
      && (Payable(other, amount, s.balanceL2, s.grantedL2, s.spentL2) ==> other <= l2)
  {
  }

  /** The position is the EEZ-X share in hundredths of a percent; L1 pays the rest, rounded down. */
  lemma SliderIsL2Share(amount: nat, position: nat)
    requires position <= 10_000
    ensures 10_000 * SliderToL1(amount, position) <= amount * (10_000 - position) < 10_000 * (SliderToL1(amount, position) + 1)
  {
  }

  /** The position shown is the nearest to the stored split. */
  lemma PositionIsNearest(amount: nat, fromL1: nat)
    requires 0 < amount && fromL1 <= amount
    ensures var l1 := 10_000 - SliderPosition(amount, fromL1);
      0 <= l1 <= 10_000 && -(amount as int) <= 2 * (l1 * amount - fromL1 * 10_000) <= amount
  {
    var n := fromL1 * 10_000 + amount / 2;
    DivMod(n, amount);
    if n / amount > 10_000 {
      MulMonotone(10_001, n / amount, amount);
    }
  }

  // ---------------------------------------------------------------------------
  // Slider round trip
  // ---------------------------------------------------------------------------

  /** Where the slider shows after it was moved to `position`, the allocation was
      stored, rescaled to the same amount and rounded back to basis points. */
  function ShownAfterMove(amount: nat, position: nat): int
    requires amount > 0 && position <= FULL_SCALE
  {
    SliderPosition(amount, Rescale(Allocation(amount, SliderToL1(amount, position)), amount))
  }

  /** The part of a slider move that integer division throws away. */
  function Residue(amount: nat, position: nat): nat
    requires position <= FULL_SCALE
  {
    amount * (FULL_SCALE - position) % FULL_SCALE
  }

  ghost predicate SliderIsStable(amount: nat)
    requires amount > 0
  {
    forall position: nat :: position <= FULL_SCALE ==> ShownAfterMove(amount, position) == position
  }

  lemma RescaleSameAmount(a: Allocation)
    requires a.amount > 0
    ensures Rescale(a, a.amount) == a.fromL1
  {
    DivisionUnique(a.fromL1 * a.amount, a.amount, a.fromL1, 0);
  }

  /** One position survives exactly when the discarded residue is at most half the amount. */
  lemma PositionSurvives(amount: nat, position: nat)
    requires amount > 0 && position <= FULL_SCALE
    ensures ShownAfterMove(amount, position) == position <==> Residue(amount, position) <= amount / 2
  {
    var q := FULL_SCALE - position;
    var fromL1 := SliderToL1(amount, position);
    var r := Residue(amount, position);
    RescaleSameAmount(Allocation(amount, fromL1));
    var n := fromL1 * FULL_SCALE + amount / 2;
    assert fromL1 * FULL_SCALE == amount * q - r;
    QuotientIs(n, amount, q);
    assert q * amount == amount * q;
    assert (q + 1) * amount == amount * q + amount;
  }

  // ---------------------------------------------------------------------------
  // Exactly which amounts make every position stable
  // ---------------------------------------------------------------------------

  function Gcd(a: nat, b: nat): (g: nat)
    requires a > 0 || b > 0
    ensures g > 0
    decreases b
  {
    if b == 0 then a else Gcd(b, a % b)
  }

  /** One Euclid step, for multiples: from b and a % b back to a. */
  lemma StepMultiple(a: nat, b: nat, g: nat, m: nat, n: nat)
    requires b > 0 && b == m * g && a % b == n * g
    ensures a == (m * (a / b) + n) * g
  {
  }

  /** One Euclid step, for the combination that yields the divisor. */
  lemma StepCombination(a: nat, b: nat, g: nat, u: int, v: int)
    requires b > 0 && b * u + (a % b) * v == g
    ensures a * v + b * (u - (a / b) * v) == g
  {
  }

  lemma {:induction false} GcdDivides(a: nat, b: nat) returns (ka: nat, kb: nat)
    requires a > 0 || b > 0
    ensures a == ka * Gcd(a, b) && b == kb * Gcd(a, b)
    decreases b
  {
    if b == 0 {
      ka, kb := 1, 0;
    } else {
      var m, n := GcdDivides(b, a % b);
      StepMultiple(a, b, Gcd(a, b), m, n);
      ka, kb := m * (a / b) + n, m;
    }
  }

  lemma {:induction false} Bezout(a: nat, b: nat) returns (x: int, y: int)
    requires a > 0 || b > 0
    ensures a * x + b * y == Gcd(a, b)
    decreases b
  {
    if b == 0 {
      x, y := 1, 0;
    } else {
      var u, v := Bezout(b, a % b);
      StepCombination(a, b, Gcd(a, b), u, v);
      x, y := v, u - (a / b) * v;
    }
  }

  /** A multiple of -x, reduced to the scale, lands g below a multiple of the scale. */
  lemma ReducedMultiple(amount: nat, g: nat, x: int, y: int)
    requires 1 <= g <= FULL_SCALE && amount * x + FULL_SCALE * y == g
    ensures amount * ((-x) % FULL_SCALE) % FULL_SCALE == FULL_SCALE - g
  {
    var t := (-x) / FULL_SCALE;
    var q := (-x) % FULL_SCALE;
    assert q == -x - FULL_SCALE * t;
    assert amount * q == -(amount * x) - FULL_SCALE * (amount * t);
    DivisionUnique(amount * q, FULL_SCALE, y - amount * t - 1, FULL_SCALE - g);
  }

  /** Some position throws away a residue as large as FULL_SCALE - gcd. */
  lemma WorstPosition(amount: nat) returns (position: nat)
    requires amount > 0
    ensures position <= FULL_SCALE
    ensures Gcd(amount, FULL_SCALE) <= FULL_SCALE
    ensures Residue(amount, position) == FULL_SCALE - Gcd(amount, FULL_SCALE)
  {
    hide Gcd;
    var g := Gcd(amount, FULL_SCALE);
    var x, y := Bezout(amount, FULL_SCALE);
    var ka, kb := GcdDivides(amount, FULL_SCALE);
    MulAtLeast(kb, g);
    ReducedMultiple(amount, g, x, y);
    position := FULL_SCALE - (-x) % FULL_SCALE;
  }

  /** A remainder of a multiple of g by a larger multiple of g stays at least g below it. */
  lemma ResidueIsMultiple(ka: nat, kb: nat, g: nat, q: nat)
    requires g > 0 && kb > 0
    ensures kb * g > 0 && (ka * g * q) % (kb * g) <= kb * g - g
  {
    MulAtLeast(kb, g);
    var n, d := ka * g * q, kb * g;
    var t, r := n / d, n % d;
    DivMod(n, d);
    var m := ka * q - kb * t;
    DifferenceTimes(ka, q, kb, t, g);
    assert t * d == kb * g * t;
    assert r == m * g;
    if m >= kb {
      MulMonotone(kb, m, g);
    } else {
      MulMonotone(m, kb - 1, g);
      MulDistributes(kb - 1, 1, g);
    }
  }

  /** No position throws away more than that. */
  lemma ResidueBound(amount: nat, position: nat)
    requires amount > 0 && position <= FULL_SCALE
    ensures Residue(amount, position) <= FULL_SCALE - Gcd(amount, FULL_SCALE)
  {
    hide Gcd;
    var g := Gcd(amount, FULL_SCALE);
    var ka, kb := GcdDivides(amount, FULL_SCALE);
    ResidueIsMultiple(ka, kb, g, FULL_SCALE - position);
  }

  /** Every slider position round-trips if and only if the amount's greatest common
      divisor with the scale is large enough for its size. */
  lemma SliderStability(amount: nat)
    requires amount > 0
    ensures SliderIsStable(amount) <==> FULL_SCALE - Gcd(amount, FULL_SCALE) <= amount / 2
  {
    if SliderIsStable(amount) {
      var worst := WorstPosition(amount);
      PositionSurvives(amount, worst);
      assert ShownAfterMove(amount, worst) == worst;
    }
    if FULL_SCALE - Gcd(amount, FULL_SCALE) <= amount / 2 {
      forall position: nat | position <= FULL_SCALE
        ensures ShownAfterMove(amount, position) == position
      {
        ResidueBound(amount, position);
        PositionSurvives(amount, position);
      }
    }
  }

  /** 19998 base units always suffice. */
  lemma LargeAmountsAreStable(amount: nat)
    requires amount >= 19_998
    ensures SliderIsStable(amount)
  {
    hide SliderIsStable;
    SliderStability(amount);
  }

  /** That bound is tight: one unit less loses position 3333. Some smaller amounts are
      stable all the same, because they share a large factor with the scale. */
  lemma BoundIsTight()
    ensures ShownAfterMove(19_997, 3333) != 3333 && !SliderIsStable(19_997)
    ensures SliderIsStable(10_000)
  {
  }

  // ---------------------------------------------------------------------------
  // Drafts: edits between one slider move and the review
  // ---------------------------------------------------------------------------

  /** The unsent payment form: entered amount, stored allocation, latest balances. */
  datatype Draft = Draft(amount: nat, allocation: Option<Allocation>, balances: PaymentState, destination: Chain)

  datatype DraftEvent =
    | EditAmount(amount: nat)
    | MoveSlider(position: nat)
    | UseAvailableFunds
    | ChangeDestination(destination: Chain)
    | BalancesRead(balances: PaymentState)
    | Reviewed

  ghost predicate DraftOk(d: Draft) {
    d.allocation.Some? ==> 0 < d.allocation.value.amount && d.allocation.value.fromL1 <= d.allocation.value.amount
  }

  /** The part of the entered amount that the L1 Safe pays. */
  ghost function Contribution(d: Draft): nat
    requires DraftOk(d)
  {
    match d.allocation
    case Some(a) => Rescale(a, d.amount)
    case None => DefaultSplit(d.balances, d.amount, d.destination)
  }

  /** The slider and the review exist only for a positive amount; without one they do nothing. */
  ghost function NextDraft(d: Draft, e: DraftEvent): Draft
    requires DraftOk(d)
  {
    match e
    case EditAmount(amount) => d.(amount := amount)
    case MoveSlider(position) =>
      if d.amount == 0 || position > FULL_SCALE then d
      else d.(allocation := Some(Allocation(d.amount, SliderToL1(d.amount, position))))
    case UseAvailableFunds => d.(allocation := None)
    case ChangeDestination(destination) => d.(destination := destination, allocation := None)
    case BalancesRead(balances) => d.(balances := balances)
    case Reviewed => if d.amount == 0 then d else d.(allocation := Some(Allocation(d.amount, Contribution(d))))
  }

  lemma FloorWithin(part: nat, whole: nat, amount: nat)
    requires part <= whole && whole > 0
    ensures part * amount / whole <= amount
  {
  }

  /** Both contributions are non-negative: the L1 part never exceeds the amount. */
  lemma ContributionWithinAmount(d: Draft)
    requires DraftOk(d)
    ensures Contribution(d) <= d.amount
  {
    if d.allocation.Some? {
      var a := d.allocation.value;
      FloorWithin(a.fromL1, a.amount, d.amount);
    }
  }

  lemma DraftStepKeepsBounds(d: Draft, e: DraftEvent)
    requires DraftOk(d)
    ensures DraftOk(NextDraft(d, e))
  {
    ContributionWithinAmount(d);
    if e.MoveSlider? && e.position <= FULL_SCALE {
      var q: nat := FULL_SCALE - e.position;
      FloorWithin(q, FULL_SCALE, d.amount);
      assert q * d.amount == d.amount * q;
    }
  }

  /** The draft after a whole sequence of edits. */
  ghost function RunDraft(d: Draft, es: seq<DraftEvent>): (r: Draft)
    requires DraftOk(d)
    ensures DraftOk(r)
  {
    if es == [] then d
    else
      var before := RunDraft(d, es[..|es| - 1]);
      DraftStepKeepsBounds(before, es[|es| - 1]);
      NextDraft(before, es[|es| - 1])
  }

  /** The L1 part shown after an edit. */
  ghost function ShownAfter(d: Draft, e: DraftEvent): nat
    requires DraftOk(d)
  {
    DraftStepKeepsBounds(d, e);
    Contribution(NextDraft(d, e))
  }

  /** What each edit shows. Moving the slider fixes the share; a change of destination and the
      reset go back to the default; a review keeps what is shown. */
  lemma WhatEditsShow(d: Draft, position: nat, destination: Chain, balances: PaymentState)
    requires DraftOk(d)
    ensures d.amount > 0 && position <= 10_000 ==>
              var shown := ShownAfter(d, MoveSlider(position));
              10_000 * shown <= d.amount * (10_000 - position) < 10_000 * (shown + 1)
    ensures ShownAfter(d, UseAvailableFunds) == DefaultSplit(d.balances, d.amount, d.destination)
    ensures ShownAfter(d, ChangeDestination(destination)) == DefaultSplit(d.balances, d.amount, destination)
    ensures ShownAfter(d, Reviewed) == Contribution(d)
    ensures ShownAfter(d, BalancesRead(balances))
            == if d.allocation.Some? then Contribution(d) else DefaultSplit(balances, d.amount, d.destination)
  {
    hide DefaultSplit, Rescale, SliderToL1;
    if d.amount == 0 && d.allocation.Some? {
      assert ShownAfter(d, Reviewed) == Contribution(d);
    }
    if d.amount > 0 {
      RescaleSameAmount(Allocation(d.amount, Contribution(d)));
      if position <= 10_000 {
        RescaleSameAmount(Allocation(d.amount, SliderToL1(d.amount, position)));
        SliderIsL2Share(d.amount, position);
      }
    }
  }

  /** In every run of edits the split shown is a division of the entered amount. */
  lemma SplitAlwaysDividesAmount(d: Draft, es: seq<DraftEvent>)
    requires DraftOk(d)
    ensures Contribution(RunDraft(d, es)) <= RunDraft(d, es).amount
  {
    ContributionWithinAmount(RunDraft(d, es));
  }

  /** Amount edits and balance reads leave a moved slider's allocation alone, so
      coming back to the amount it was moved at shows the same split again. */
  lemma {:induction false} EditingBackRestoresSplit(d: Draft, es: seq<DraftEvent>)
    requires DraftOk(d) && d.allocation.Some?
    requires forall e :: e in es ==> e.EditAmount? || e.BalancesRead?
    ensures RunDraft(d, es).allocation == d.allocation
    ensures RunDraft(d, es).amount == d.allocation.value.amount
            ==> Contribution(RunDraft(d, es)) == d.allocation.value.fromL1
  {
    if es != [] {
      EditingBackRestoresSplit(d, es[..|es| - 1]);
      assert es[|es| - 1] in es;
    }
    RescaleSameAmount(d.allocation.value);
  }

  /** After an edit the L1 part is the exact proportion, short by less than one base unit. */
  lemma RescaleError(a: Allocation, amount: nat)
    requires a.amount > 0
    ensures 0 <= a.fromL1 * amount - Rescale(a, amount) * a.amount < a.amount
  {
  }
}
