/** Amount text in the bridge form: what typing accepts, how it is parsed to base
    units, and how balances are printed (rounded for display, exact for MAX). */
module BridgeAmounts {
  import opened Prelude
  import opened Numerals

  const DISPLAY_DECIMALS: nat := 4

  predicate IsAmountChar(c: char) {
    '0' <= c <= '9' || c == '.'
  }

  function CountDots(s: string): nat {
    if s == [] then 0 else CountDots(s[1..]) + if s[0] == '.' then 1 else 0
  }

  /** The pattern an edit must match: digits with at most one dot, possibly empty. */
  predicate Accepted(s: string) {
    (forall i :: 0 <= i < |s| ==> IsAmountChar(s[i])) && CountDots(s) <= 1
  }

  /** s.split("."): the pieces between dots, at least one. */
  function SplitDots(s: string): (parts: seq<string>)
    ensures |parts| == CountDots(s) + 1
  {
    if s == [] then [""]
    else
      var rest := SplitDots(s[1..]);
      if s[0] == '.' then [""] + rest else [[s[0]] + rest[0]] + rest[1..]
  }

  /** BigInt of text made of amount characters: only digit strings (or "") convert. */
  function BigIntOf(s: string): Option<nat> {
    if AllDigits(s, Decimal) then Some(Value(s, Decimal)) else None
  }

  /** whole * 10^decimals + fraction, when both converted. */
  function Combine(whole: Option<nat>, fraction: Option<nat>, decimals: nat): Option<nat> {
    if whole.Some? && fraction.Some? then Some(Shift(whole.value, decimals, Decimal) + fraction.value) else None
  }

  function ParseParts(whole: string, fraction: string, decimals: nat): Option<nat> {
    Combine(BigIntOf(if whole == "" then "0" else whole),
            BigIntOf(Take(PadEnd(fraction, decimals), decimals)),
            decimals)
  }

  function ParseAmount(amount: string, decimals: nat): Option<nat> {
    var parts := SplitDots(amount);
    if |parts| > 2 then None
    else ParseParts(parts[0], if |parts| == 2 then parts[1] else "", decimals)
  }

  // ---------------------------------------------------------------------------
  // Reference meaning of an amount: digits, read as one integer, over a power of ten
  // ---------------------------------------------------------------------------

  /** The digits of an amount with the dot left out. */
  ghost function DigitsOf(s: string): string {
    if s == [] then [] else (if s[0] == '.' then [] else [s[0]]) + DigitsOf(s[1..])
  }

  /** How many digits stand after the dot. */
  ghost function FractionLength(s: string): nat {
    if s == [] then 0 else if s[0] == '.' then |s| - 1 else FractionLength(s[1..])
  }

  lemma {:induction false} SplitWithoutDot(s: string)
    requires CountDots(s) == 0
    ensures SplitDots(s) == [s] && DigitsOf(s) == s && FractionLength(s) == 0
  {
    if s != [] {
      SplitWithoutDot(s[1..]);
      assert s == [s[0]] + s[1..];
    }
  }

  lemma {:induction false} SplitWithDot(s: string)
    requires CountDots(s) == 1
    ensures var p := SplitDots(s);
            DigitsOf(s) == p[0] + p[1] && FractionLength(s) == |p[1]| && CountDots(p[0]) == 0 && s == p[0] + "." + p[1]
  {
    if s[0] == '.' {
      SplitWithoutDot(s[1..]);
      assert s == "" + "." + s[1..];
    } else {
      SplitWithDot(s[1..]);
      var p, q := SplitDots(s), SplitDots(s[1..]);
      assert p == [[s[0]] + q[0], q[1]];
      assert p[0][1..] == q[0];
    }
  }

  lemma {:induction false} NoDotsAllDigits(s: string)
    requires forall i :: 0 <= i < |s| ==> IsAmountChar(s[i])
    ensures CountDots(s) == 0 ==> AllDigits(s, Decimal)
  {
    if s != [] {
      NoDotsAllDigits(s[1..]);
      assert forall i :: 1 <= i < |s| ==> s[i] == s[1..][i - 1];
    }
  }

  lemma {:induction false} DotFreeSuffix(s: string, t: string)
    ensures CountDots(s + t) == CountDots(s) + CountDots(t)
  {
    if s == [] {
      assert s + t == t;
    } else {
      DotFreeSuffix(s[1..], t);
      assert (s + t)[1..] == s[1..] + t;
    }
  }

  lemma ZeroForEmpty(whole: string)
    ensures Value(if whole == "" then "0" else whole, Decimal) == Value(whole, Decimal)
    ensures AllDigits(whole, Decimal) ==> AllDigits(if whole == "" then "0" else whole, Decimal)
  {
  }

  /** What parsing computes once the pieces around the dot are known to be digits. */
  lemma ParsePieces(whole: string, fraction: string, decimals: nat)
    requires AllDigits(whole, Decimal) && AllDigits(fraction, Decimal)
    ensures ParseParts(whole, fraction, decimals)
         == Some(Shift(Value(whole, Decimal), decimals, Decimal)
                 + Value(Take(PadEnd(fraction, decimals), decimals), Decimal))
  {
  }

  /** With room for all f fraction digits, scaling to d decimals loses nothing. */
  lemma ScaledWithRoom(whole: nat, v: nat, f: nat, d: nat)
    requires f <= d
    ensures Drop(Shift(Shift(whole, f, Decimal) + v, d, Decimal), f, Decimal)
         == Shift(whole, d, Decimal) + Shift(v, d - f, Decimal)
  {
    hide *;
    var kept := Shift(whole, d, Decimal) + Shift(v, d - f, Decimal);
    ShiftAdds(Shift(whole, f, Decimal), v, d, Decimal);
    ShiftTwice(whole, f, d, Decimal);
    ShiftAdds(Shift(whole, d, Decimal), Shift(v, d - f, Decimal), f, Decimal);
    ShiftTwice(whole, d, f, Decimal);
    ShiftTwice(v, d - f, f, Decimal);
    ShiftMonotone(0, 1, f, Decimal);
    DropShift(kept, 0, f, Decimal);
  }

  /** Without room, exactly the digits that do not fit are floored away. */
  lemma ScaledWithCut(whole: nat, first: nat, rest: nat, f: nat, d: nat)
    requires d <= f && rest < Shift(1, f - d, Decimal)
    ensures Drop(Shift(Shift(whole, f, Decimal) + (Shift(first, f - d, Decimal) + rest), d, Decimal), f, Decimal)
         == Shift(whole, d, Decimal) + first
  {
    hide *;
    var kept := Shift(whole, d, Decimal) + first;
    var v := Shift(first, f - d, Decimal) + rest;
    ShiftAdds(Shift(whole, f, Decimal), v, d, Decimal);
    ShiftTwice(whole, f, d, Decimal);
    ShiftAdds(Shift(first, f - d, Decimal), rest, d, Decimal);
    ShiftTwice(first, f - d, d, Decimal);
    ShiftAdds(Shift(whole, d, Decimal), first, f, Decimal);
    ShiftTwice(whole, d, f, Decimal);
    ShiftMonotone(rest, Shift(1, f - d, Decimal), d, Decimal);
    ShiftTwice(1, f - d, d, Decimal);
    DropShift(kept, Shift(rest, d, Decimal), f, Decimal);
  }

  /** Padding or cutting the fraction to the token precision scales and floors it. */
  lemma FractionTaken(whole: nat, fraction: string, decimals: nat)
    requires AllDigits(fraction, Decimal)
    ensures Drop(Shift(Shift(whole, |fraction|, Decimal) + Value(fraction, Decimal), decimals, Decimal),
                 |fraction|, Decimal)
         == Shift(whole, decimals, Decimal) + Value(Take(PadEnd(fraction, decimals), decimals), Decimal)
  {
    hide Shift, Drop, Value, Zeros;
    if |fraction| < decimals {
      assert Take(PadEnd(fraction, decimals), decimals) == PadEnd(fraction, decimals);
      PadEndValue(fraction, decimals, Decimal);
      ScaledWithRoom(whole, Value(fraction, Decimal), |fraction|, decimals);
    } else {
      CutValue(fraction, decimals, Decimal);
      ScaledWithCut(whole, Value(fraction[..decimals], Decimal), Value(fraction[decimals..], Decimal),
                    |fraction|, decimals);
    }
  }

  /** The whole part and the fraction of an accepted text. */
  lemma PiecesOf(s: string) returns (whole: string, fraction: string)
    requires Accepted(s)
    ensures AllDigits(whole, Decimal) && AllDigits(fraction, Decimal)
    ensures DigitsOf(s) == whole + fraction && FractionLength(s) == |fraction|
    ensures forall decimals :: ParseAmount(s, decimals) == ParseParts(whole, fraction, decimals)
  {
    var parts := SplitDots(s);
    whole, fraction := parts[0], if |parts| == 2 then parts[1] else "";
    if CountDots(s) == 0 {
      SplitWithoutDot(s);
      NoDotsAllDigits(s);
      assert s == whole + fraction;
    } else {
      SplitWithDot(s);
      PiecesAreDigits(s, whole, fraction);
    }
  }

  lemma PartsAreFloor(whole: string, fraction: string, decimals: nat)
    requires AllDigits(whole, Decimal) && AllDigits(fraction, Decimal)
    ensures ParseParts(whole, fraction, decimals)
         == Some(Drop(Shift(Value(whole + fraction, Decimal), decimals, Decimal), |fraction|, Decimal))
  {
    hide *;
    ParsePieces(whole, fraction, decimals);
    ValueConcat(whole, fraction, Decimal);
    FractionTaken(Value(whole, Decimal), fraction, decimals);
  }

  /** Parsing is the floor of the exact decimal value times 10^decimals, for every
      text the form accepts and every token precision. */
  lemma ParseIsFloor(s: string, decimals: nat)
    requires Accepted(s)
    ensures ParseAmount(s, decimals)
         == Some(Drop(Shift(Value(DigitsOf(s), Decimal), decimals, Decimal), FractionLength(s), Decimal))
  {
    hide *;
    var whole, fraction := PiecesOf(s);
    PartsAreFloor(whole, fraction, decimals);
  }

  /** The same, in plain arithmetic. */
  lemma ParseIsFloorQuotient(s: string, decimals: nat)
    requires Accepted(s)
    ensures Pow(10, FractionLength(s)) > 0
    ensures ParseAmount(s, decimals)
         == Some(Value(DigitsOf(s), Decimal) * Pow(10, decimals) / Pow(10, FractionLength(s)))
  {
    ParseIsFloor(s, decimals);
    ShiftIsProduct(Value(DigitsOf(s), Decimal), decimals, Decimal);
    DropIsQuotient(Shift(Value(DigitsOf(s), Decimal), decimals, Decimal), FractionLength(s), Decimal);
  }

  lemma PiecesAreDigits(s: string, whole: string, fraction: string)
    requires Accepted(s) && s == whole + "." + fraction
    ensures AllDigits(whole, Decimal) && AllDigits(fraction, Decimal)
  {
    DotFreeSuffix(whole + ".", fraction);
    DotFreeSuffix(whole, ".");
    assert CountDots(".") == 1 + CountDots([]);
    forall i | 0 <= i < |whole| ensures IsAmountChar(whole[i]) { assert s[i] == whole[i]; }
    forall i | 0 <= i < |fraction| ensures IsAmountChar(fraction[i]) { assert s[|whole| + 1 + i] == fraction[i]; }
    NoDotsAllDigits(whole);
    NoDotsAllDigits(fraction);
  }

  /** Over digits and dots, exactly the texts with at most one dot parse. */
  lemma ParsesIffAccepted(s: string, decimals: nat)
    requires forall i :: 0 <= i < |s| ==> IsAmountChar(s[i])
    ensures ParseAmount(s, decimals).Some? <==> Accepted(s)
  {
    if Accepted(s) {
      ParseIsFloor(s, decimals);
    }
  }

  // ---------------------------------------------------------------------------
  // Printing
  // ---------------------------------------------------------------------------

  /** Joins a whole part and a fraction, leaving out trailing zeros and an empty fraction. */
  function Join(whole: string, fraction: string): string {
    var trimmed := TrimZeros(fraction);
    if trimmed == "" then whole else whole + "." + trimmed
  }

  /** The rounded balance: at most four decimals, cut not rounded. */
  function FormatBalance(raw: nat, decimals: nat): string {
    var whole := Drop(raw, decimals, Decimal);
    DropLeaves(raw, decimals, Decimal);
    PrintRounded(whole, raw - Shift(whole, decimals, Decimal), decimals)
  }

  function PrintRounded(whole: nat, frac: nat, decimals: nat): string {
    if frac == 0 then Print(whole, Decimal)
    else Join(Print(whole, Decimal), Take(PadStart(Print(frac, Decimal), decimals), DISPLAY_DECIMALS))
  }

  /** The exact decimal printing MAX puts into the form. */
  function FormatUnits(raw: nat, decimals: nat): string {
    var display := PadStart(Print(raw, Decimal), decimals);
    var cut := |display| - decimals;
    Join(if cut == 0 then "0" else display[..cut], display[cut..])
  }

  lemma {:induction false} DigitsHaveNoDots(s: string)
    requires AllDigits(s, Decimal)
    ensures CountDots(s) == 0
  {
    if s != [] {
      assert IsDigit(s[0], Decimal);
      DigitsHaveNoDots(s[1..]);
    }
  }

  /** Reading back a joined text: the trimmed zeros do not change the number, and the
      fraction keeps its place value as long as the token has that many decimals. */
  lemma ParseJoin(whole: string, fraction: string, decimals: nat)
    requires AllDigits(whole, Decimal) && AllDigits(fraction, Decimal) && whole != "" && |fraction| <= decimals
    ensures Accepted(Join(whole, fraction))
    ensures ParseAmount(Join(whole, fraction), decimals)
         == Some(Shift(Value(whole, Decimal), decimals, Decimal)
                 + Shift(Value(fraction, Decimal), decimals - |fraction|, Decimal))
  {
    hide *;
    JoinSplits(whole, fraction);
    TrimmedParts(whole, fraction, decimals);
  }

  lemma TrimmedParts(whole: string, fraction: string, decimals: nat)
    requires AllDigits(whole, Decimal) && AllDigits(fraction, Decimal) && |fraction| <= decimals
    ensures ParseParts(whole, TrimZeros(fraction), decimals)
         == Some(Shift(Value(whole, Decimal), decimals, Decimal)
                 + Shift(Value(fraction, Decimal), decimals - |fraction|, Decimal))
  {
    hide Shift, Value, ParseParts;
    ParsePieces(whole, TrimZeros(fraction), decimals);
    TrimmedPlaceValue(fraction, decimals);
  }

  /** A joined text is accepted and splits back into its two parts. */
  lemma JoinSplits(whole: string, fraction: string)
    requires AllDigits(whole, Decimal) && AllDigits(fraction, Decimal)
    ensures Accepted(Join(whole, fraction))
    ensures forall decimals ::
              ParseAmount(Join(whole, fraction), decimals) == ParseParts(whole, TrimZeros(fraction), decimals)
  {
    var t := TrimZeros(fraction);
    var s := Join(whole, fraction);
    DigitsHaveNoDots(whole);
    if t == "" {
      SplitWithoutDot(s);
    } else {
      assert AllDigits(t, Decimal);
      JoinedByDot(whole, t);
      hide ParseParts, CountDots;
    }
  }

  lemma JoinedByDot(whole: string, t: string)
    requires AllDigits(whole, Decimal) && AllDigits(t, Decimal)
    ensures Accepted(whole + "." + t) && SplitDots(whole + "." + t) == [whole, t]
  {
    var s := whole + "." + t;
    DigitsHaveNoDots(whole);
    DigitsHaveNoDots(t);
    DotFreeSuffix(whole + ".", t);
    DotFreeSuffix(whole, ".");
    assert CountDots(".") == 1 + CountDots([]);
    SplitAt(s, whole, t);
    hide CountDots, SplitDots;
    forall i | 0 <= i < |s| ensures IsAmountChar(s[i]) {
      if i > |whole| {
        assert s[i] == t[i - |whole| - 1];
      }
    }
  }

  /** Trailing zeros can be dropped and padded back without changing the number. */
  lemma TrimmedPlaceValue(fraction: string, decimals: nat)
    requires |fraction| <= decimals
    ensures Value(Take(PadEnd(TrimZeros(fraction), decimals), decimals), Decimal)
         == Shift(Value(fraction, Decimal), decimals - |fraction|, Decimal)
  {
    var t := TrimZeros(fraction);
    assert Take(PadEnd(t, decimals), decimals) == PadEnd(t, decimals);
    PadEndValue(t, decimals, Decimal);
    TrimZerosValue(fraction, Decimal);
    ShiftTwice(Value(t, Decimal), |fraction| - |t|, decimals - |fraction|, Decimal);
  }

  /** A text with one dot splits in only one way. */
  lemma {:induction false} SplitAt(s: string, a: string, b: string)
    requires s == a + "." + b && CountDots(a) == 0 && CountDots(s) == 1
    ensures SplitDots(s) == [a, b]
  {
    if a == "" {
      assert s[1..] == b;
      SplitWithoutDot(b);
    } else {
      assert s[1..] == a[1..] + "." + b;
      SplitAt(s[1..], a[1..], b);
      assert [s[0]] + a[1..] == a;
    }
  }

  /** The printed digits, cut `decimals` places from the right, still denote the balance. */
  lemma CutDigits(raw: nat, decimals: nat) returns (whole: string, fraction: string)
    ensures AllDigits(whole, Decimal) && AllDigits(fraction, Decimal) && |fraction| == decimals
    ensures FormatUnits(raw, decimals) == Join(if whole == "" then "0" else whole, fraction)
    ensures Shift(Value(whole, Decimal), decimals, Decimal) + Value(fraction, Decimal) == raw
  {
    var display := PadStart(Print(raw, Decimal), decimals);
    var cut := |display| - decimals;
    PrintValue(raw, Decimal);
    PadStartValue(Print(raw, Decimal), decimals, Decimal);
    assert AllDigits(display, Decimal);
    CutValue(display, cut, Decimal);
    whole, fraction := display[..cut], display[cut..];
  }

  /** MAX recovers the raw balance exactly, at every precision. */
  lemma MaxRecoversBalance(raw: nat, decimals: nat)
    ensures Accepted(FormatUnits(raw, decimals))
    ensures ParseAmount(FormatUnits(raw, decimals), decimals) == Some(raw)
  {
    var whole, fraction := CutDigits(raw, decimals);
    ZeroForEmpty(whole);
    ParseJoin(if whole == "" then "0" else whole, fraction, decimals);
  }

  /** One unit of the last shown decimal, in base units; 1 when every decimal is shown. */
  function DisplayUnit(decimals: nat): nat {
    if decimals <= DISPLAY_DECIMALS then 1 else Shift(1, decimals - DISPLAY_DECIMALS, Decimal)
  }

  /** The shown decimals of a fraction, put back at their place value. */
  lemma ShownFraction(frac: nat, decimals: nat) returns (back: nat)
    requires 0 < frac < Shift(1, decimals, Decimal)
    ensures var shown := Take(PadStart(Print(frac, Decimal), decimals), DISPLAY_DECIMALS);
            && AllDigits(shown, Decimal) && |shown| <= decimals
            && back == Shift(Value(shown, Decimal), decimals - |shown|, Decimal)
    ensures back <= frac < back + DisplayUnit(decimals)
  {
    PrintValue(frac, Decimal);
    PrintWidth(frac, decimals, Decimal);
    var text := PadStart(Print(frac, Decimal), decimals);
    assert AllDigits(text, Decimal) && |text| == decimals;
    PadStartValue(Print(frac, Decimal), decimals, Decimal);
    if decimals > DISPLAY_DECIMALS {
      CutValue(text, DISPLAY_DECIMALS, Decimal);
      back := Shift(Value(text[..DISPLAY_DECIMALS], Decimal), decimals - DISPLAY_DECIMALS, Decimal);
    } else {
      assert Take(text, DISPLAY_DECIMALS) == text;
      back := frac;
    }
  }

  lemma ReenteredWhole(whole: nat, decimals: nat)
    ensures ParseAmount(Print(whole, Decimal), decimals) == Some(Shift(whole, decimals, Decimal))
  {
    hide Shift, SplitDots, ParseParts, Print;
    PrintValue(whole, Decimal);
    JoinSplits(Print(whole, Decimal), "");
    TrimmedParts(Print(whole, Decimal), "", decimals);
    assert Value("", Decimal) == 0;
    ShiftZero(decimals, Decimal);
  }

  lemma ReenteredParts(whole: nat, shown: string, decimals: nat)
    requires AllDigits(shown, Decimal) && |shown| <= decimals
    ensures ParseAmount(Join(Print(whole, Decimal), shown), decimals)
         == Some(Shift(whole, decimals, Decimal) + Shift(Value(shown, Decimal), decimals - |shown|, Decimal))
  {
    hide *;
    PrintValue(whole, Decimal);
    ParseJoin(Print(whole, Decimal), shown, decimals);
  }

  /** What re-entering a rounded printing parses to. */
  lemma Reentered(whole: nat, frac: nat, decimals: nat) returns (back: nat)
    requires frac < Shift(1, decimals, Decimal)
    ensures back <= frac < back + DisplayUnit(decimals)
    ensures ParseAmount(PrintRounded(whole, frac, decimals), decimals) == Some(Shift(whole, decimals, Decimal) + back)
  {
    hide Shift, ParseAmount, Print, Value;
    if frac == 0 {
      back := 0;
      ReenteredWhole(whole, decimals);
      if decimals > DISPLAY_DECIMALS {
        ShiftMonotone(0, 1, decimals - DISPLAY_DECIMALS, Decimal);
      }
    } else {
      back := ShownFraction(frac, decimals);
      ReenteredParts(whole, Take(PadStart(Print(frac, Decimal), decimals), DISPLAY_DECIMALS), decimals);
    }
  }

  /** Re-entering the displayed balance never asks for more than is there and falls short
      by less than one unit of the last shown decimal; with at most four decimals that
      unit is 1, so nothing is lost. */
  lemma DisplayedBalanceBound(raw: nat, decimals: nat)
    ensures var entered := ParseAmount(FormatBalance(raw, decimals), decimals);
            entered.Some? && entered.value <= raw < entered.value + DisplayUnit(decimals)
  {
    var whole := Drop(raw, decimals, Decimal);
    DropLeaves(raw, decimals, Decimal);
    var back := Reentered(whole, raw - Shift(whole, decimals, Decimal), decimals);
  }

  // ---------------------------------------------------------------------------
  // The printed texts themselves
  // ---------------------------------------------------------------------------

  /** A decimal numeral without superfluous zeros or dot. */
  predicate Canonical(s: string) {
    && Accepted(s) && s != "" && s[0] != '.'
    && (s[0] == '0' ==> |s| == 1 || s[1] == '.')
    && (CountDots(s) > 0 ==> s[|s| - 1] != '0' && s[|s| - 1] != '.')
  }

  lemma {:induction false} TrimZerosEnd(s: string)
    ensures TrimZeros(s) != "" ==> TrimZeros(s)[|TrimZeros(s)| - 1] != '0'
  {
    if s != "" && s[|s| - 1] == '0' {
      TrimZerosEnd(s[..|s| - 1]);
    }
  }

  lemma {:induction false} DotAt(a: string, b: string)
    requires CountDots(a) == 0
    ensures FractionLength(a + "." + b) == |b|
  {
    var s := a + "." + b;
    if a != "" {
      assert s[1..] == a[1..] + "." + b;
      DotAt(a[1..], b);
    }
  }

  /** A joined text is canonical if its whole part is, and has at most the given decimals. */
  lemma JoinIsCanonical(whole: string, fraction: string)
    requires AllDigits(whole, Decimal) && AllDigits(fraction, Decimal) && whole != ""
    requires whole[0] == '0' ==> |whole| == 1
    ensures Canonical(Join(whole, fraction)) && FractionLength(Join(whole, fraction)) <= |fraction|
  {
    JoinSplits(whole, fraction);
    TrimZerosEnd(fraction);
    DigitsHaveNoDots(whole);
    var trimmed, s := TrimZeros(fraction), Join(whole, fraction);
    assert IsDigit(whole[0], Decimal);
    if trimmed == "" {
      SplitWithoutDot(s);
    } else {
      assert s[|s| - 1] == trimmed[|trimmed| - 1] == fraction[|trimmed| - 1];
      assert IsDigit(fraction[|trimmed| - 1], Decimal);
      assert s[0] == whole[0] && s[|whole|] == '.';
      DotAt(whole, trimmed);
    }
  }

  /** The shown fraction is the exact one, cut to four places. */
  lemma ShownIsCut(whole: nat, frac: nat, decimals: nat) returns (shown: string)
    requires frac < Shift(1, decimals, Decimal)
    ensures AllDigits(shown, Decimal) && |shown| <= 4
    ensures PrintRounded(whole, frac, decimals) == Join(Print(whole, Decimal), shown)
    ensures Shift(whole, 4, Decimal) + Shift(Value(shown, Decimal), 4 - |shown|, Decimal)
         == Drop(Shift(Shift(whole, decimals, Decimal) + frac, 4, Decimal), decimals, Decimal)
  {
    hide Shift, Drop, Print, PadStart, Value;
    if frac == 0 {
      shown := "";
      assert TrimZeros("") == "";
      assert Value("", Decimal) == 0 by { NoDigits(); }
      ShiftZero(4, Decimal);
      WholeScaled(whole, decimals);
    } else {
      shown := CutFraction(whole, frac, decimals);
    }
  }

  lemma NoDigits()
    ensures Value("", Decimal) == 0
  {
  }

  lemma WholeScaled(whole: nat, decimals: nat)
    ensures Drop(Shift(Shift(whole, decimals, Decimal), 4, Decimal), decimals, Decimal) == Shift(whole, 4, Decimal)
  {
    hide *;
    ShiftTwice(whole, decimals, 4, Decimal);
    ShiftTwice(whole, 4, decimals, Decimal);
    ShiftMonotone(0, 1, decimals, Decimal);
    ShiftZero(decimals, Decimal);
    DropShift(Shift(whole, 4, Decimal), 0, decimals, Decimal);
  }

  lemma CutFraction(whole: nat, frac: nat, decimals: nat) returns (shown: string)
    requires 0 < frac < Shift(1, decimals, Decimal)
    ensures shown == Take(PadStart(Print(frac, Decimal), decimals), 4) && AllDigits(shown, Decimal) && |shown| <= 4
    ensures Shift(whole, 4, Decimal) + Shift(Value(shown, Decimal), 4 - |shown|, Decimal)
         == Drop(Shift(Shift(whole, decimals, Decimal) + frac, 4, Decimal), decimals, Decimal)
  {
    PaddedFraction(frac, decimals);
    hide Shift, Drop, Print, PadStart, Value;
    var text := PadStart(Print(frac, Decimal), decimals);
    shown := Take(text, 4);
    if decimals > 4 {
      CutValue(text, 4, Decimal);
      ScaledWithCut(whole, Value(text[..4], Decimal), Value(text[4..], Decimal), decimals, 4);
      assert Shift(Value(shown, Decimal), 0, Decimal) == Value(shown, Decimal) by { NoShift(Value(shown, Decimal)); }
    } else {
      assert shown == text;
      ScaledWithRoom(whole, frac, decimals, 4);
    }
  }

  lemma NoShift(n: nat)
    ensures Shift(n, 0, Decimal) == n
  {
  }

  lemma PaddedFraction(frac: nat, decimals: nat)
    requires 0 < frac < Shift(1, decimals, Decimal)
    ensures var text := PadStart(Print(frac, Decimal), decimals);
      AllDigits(text, Decimal) && |text| == decimals && Value(text, Decimal) == frac
  {
    PrintValue(frac, Decimal);
    PrintWidth(frac, decimals, Decimal);
    PadStartValue(Print(frac, Decimal), decimals, Decimal);
  }

  /** The displayed balance is a canonical numeral with at most four decimals, and denotes the
      balance cut, not rounded, to four decimals. */
  lemma DisplayedBalanceIsCut(raw: nat, decimals: nat)
    ensures var text := FormatBalance(raw, decimals);
      && Canonical(text) && FractionLength(text) <= 4 && Pow(10, decimals) > 0
      && ParseAmount(text, 4) == Some(raw * Pow(10, 4) / Pow(10, decimals))
  {
    hide *;
    DropLeaves(raw, decimals, Decimal);
    var whole := Drop(raw, decimals, Decimal);
    var frac := raw - Shift(whole, decimals, Decimal);
    var shown := ShownIsCut(whole, frac, decimals);
    assert FormatBalance(raw, decimals) == PrintRounded(whole, frac, decimals) by { BalanceParts(raw, decimals); }
    PrintValue(whole, Decimal);
    WholeIsCanonical(whole);
    JoinIsCanonical(Print(whole, Decimal), shown);
    ParseJoin(Print(whole, Decimal), shown, 4);
    ScaledQuotient(raw, decimals);
  }

  lemma BalanceParts(raw: nat, decimals: nat)
    ensures var whole := Drop(raw, decimals, Decimal);
      && Shift(whole, decimals, Decimal) <= raw
      && FormatBalance(raw, decimals) == PrintRounded(whole, raw - Shift(whole, decimals, Decimal), decimals)
  {
    hide Shift, Drop, PrintRounded;
    DropLeaves(raw, decimals, Decimal);
  }

  lemma ScaledQuotient(raw: nat, decimals: nat)
    ensures Pow(10, decimals) > 0
    ensures Drop(Shift(raw, 4, Decimal), decimals, Decimal) == raw * Pow(10, 4) / Pow(10, decimals)
  {
    hide Shift, Drop, Pow;
    ShiftIsProduct(raw, 4, Decimal);
    DropIsQuotient(Shift(raw, 4, Decimal), decimals, Decimal);
  }

  lemma WholeIsCanonical(n: nat)
    ensures Print(n, Decimal)[0] == '0' ==> |Print(n, Decimal)| == 1
  {
    PrintLeads(n, Decimal);
  }

  /** MAX prints the balance as a canonical numeral, with at most the token's decimals. */
  lemma MaxIsCanonical(raw: nat, decimals: nat)
    ensures Canonical(FormatUnits(raw, decimals)) && FractionLength(FormatUnits(raw, decimals)) <= decimals
  {
    hide Canonical, FractionLength, Print;
    var display := PadStart(Print(raw, Decimal), decimals);
    var cut := |display| - decimals;
    PrintValue(raw, Decimal);
    WholeIsCanonical(raw);
    assert AllDigits(display, Decimal);
    var whole := if cut == 0 then "0" else display[..cut];
    assert cut > 0 ==> display == Print(raw, Decimal) && whole[0] == Print(raw, Decimal)[0];
    JoinIsCanonical(whole, display[cut..]);
  }
}
