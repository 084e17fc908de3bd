/** Positional numerals over text: printing, reading, padding and trimming.

    Scaling by powers of the base is written with Shift and Drop, which move a number
    by whole digits; ShiftIsProduct and DropIsQuotient relate them to `*`, `/` and `%`. */
module Numerals {
  import opened Arithmetic

  datatype Base = Decimal | Hex

  function Radix(b: Base): nat {
    if b.Decimal? then 10 else 16
  }

  function Times(n: nat, b: Base): nat {
    if b.Decimal? then 10 * n else 16 * n
  }

  function DivBy(n: nat, b: Base): nat {
    if b.Decimal? then n / 10 else n / 16
  }

  function ModBy(n: nat, b: Base): nat {
    if b.Decimal? then n % 10 else n % 16
  }

  /** n moved k digits to the left: n times the base to the k. */
  function Shift(n: nat, k: nat, b: Base): nat {
    if k == 0 then n else Times(Shift(n, k - 1, b), b)
  }

  /** n without its last k digits: n divided by the base to the k, rounded down. */
  function Drop(n: nat, k: nat, b: Base): nat {
    if k == 0 then n else Drop(DivBy(n, b), k - 1, b)
  }

  function Pow(base: nat, exponent: nat): nat {
    if exponent == 0 then 1 else base * Pow(base, exponent - 1)
  }

  lemma {:induction false} ShiftAdds(m: nat, n: nat, k: nat, b: Base)
    ensures Shift(m + n, k, b) == Shift(m, k, b) + Shift(n, k, b)
  {
    if k > 0 {
      ShiftAdds(m, n, k - 1, b);
    }
  }

  lemma {:induction false} ShiftTwice(n: nat, j: nat, k: nat, b: Base)
    ensures Shift(Shift(n, j, b), k, b) == Shift(n, j + k, b)
  {
    if k > 0 {
      ShiftTwice(n, j, k - 1, b);
    }
  }

  lemma {:induction false} ShiftZero(k: nat, b: Base)
    ensures Shift(0, k, b) == 0
  {
    if k > 0 {
      ShiftZero(k - 1, b);
    }
  }

  lemma {:induction false} ShiftMonotone(m: nat, n: nat, k: nat, b: Base)
    requires m <= n
    ensures Shift(m, k, b) <= Shift(n, k, b)
    ensures m < n ==> Shift(m, k, b) < Shift(n, k, b)
  {
    if k > 0 {
      ShiftMonotone(m, n, k - 1, b);
    }
  }

  /** Dropping k digits undoes a shift by k, whatever the dropped digits are. */
  lemma {:induction false} DropShift(n: nat, r: nat, k: nat, b: Base)
    requires r < Shift(1, k, b)
    ensures Drop(Shift(n, k, b) + r, k, b) == n
  {
    if k > 0 {
      assert DivBy(Shift(n, k, b) + r, b) == Shift(n, k - 1, b) + DivBy(r, b);
      DropShift(n, DivBy(r, b), k - 1, b);
    }
  }

  /** The digits that Drop removes are what is left after shifting back. */
  lemma {:induction false} DropLeaves(n: nat, k: nat, b: Base)
    ensures Shift(Drop(n, k, b), k, b) <= n < Shift(Drop(n, k, b), k, b) + Shift(1, k, b)
  {
    if k > 0 {
      DropLeaves(DivBy(n, b), k - 1, b);
    }
  }

  lemma {:induction false} ShiftIsProduct(n: nat, k: nat, b: Base)
    ensures Shift(n, k, b) == n * Pow(Radix(b), k)
  {
    if k > 0 {
      ShiftIsProduct(n, k - 1, b);
      var p := Pow(Radix(b), k - 1);
      if b.Decimal? { ScaledProduct(10, n, p); } else { ScaledProduct(16, n, p); }
    }
  }

  lemma ScaledProduct(r: nat, n: nat, p: nat)
    ensures r * (n * p) == n * (r * p)
  {
  }

  lemma DropIsQuotient(n: nat, k: nat, b: Base)
    ensures Pow(Radix(b), k) > 0
    ensures Drop(n, k, b) == n / Pow(Radix(b), k)
    ensures n - Shift(Drop(n, k, b), k, b) == n % Pow(Radix(b), k)
  {
    var q := Drop(n, k, b);
    DropLeaves(n, k, b);
    ShiftIsProduct(q, k, b);
    ShiftIsProduct(1, k, b);
    DivisionUnique(n, Pow(Radix(b), k), q, n - Shift(q, k, b));
  }

  // ---------------------------------------------------------------------------
  // Digits
  // ---------------------------------------------------------------------------

  function DigitValue(c: char): nat {
    if '0' <= c <= '9' then (c - '0') as nat
    else if 'a' <= c <= 'f' then 10 + (c - 'a') as nat
    else if 'A' <= c <= 'F' then 10 + (c - 'A') as nat
    else 0
  }

  predicate IsDigit(c: char, b: Base) {
    '0' <= c <= '9' || (b.Hex? && ('a' <= c <= 'f' || 'A' <= c <= 'F'))
  }

  predicate AllDigits(s: string, b: Base) {
    forall i :: 0 <= i < |s| ==> IsDigit(s[i], b)
  }

  function DigitChar(d: nat): (c: char)
    requires d < 16
  {
    if d < 10 then '0' + d as char else 'a' + (d - 10) as char
  }

  lemma DigitRoundTrip(d: nat, b: Base)
    requires d < Radix(b)
    ensures DigitValue(DigitChar(d)) == d && IsDigit(DigitChar(d), b)
  {
  }

  /** The shortest numeral of n, like BigInt.prototype.toString(radix). */
  function Print(n: nat, b: Base): (s: string)
    ensures s != []
  {
    if n < Radix(b) then [DigitChar(n)]
    else Print(DivBy(n, b), b) + [DigitChar(ModBy(n, b))]
  }

  /** The number a digit string denotes; the empty string denotes 0, as BigInt("") does. */
  function Value(s: string, b: Base): nat {
    if s == [] then 0 else Times(Value(s[..|s| - 1], b), b) + DigitValue(s[|s| - 1])
  }

  lemma ValueSnoc(s: string, c: char, b: Base)
    ensures Value(s + [c], b) == Times(Value(s, b), b) + DigitValue(c)
  {
  }

  lemma DivisionParts(n: nat, b: Base)
    ensures Times(DivBy(n, b), b) + ModBy(n, b) == n && ModBy(n, b) < Radix(b)
    ensures n >= Radix(b) ==> DivBy(n, b) < n
  {
  }

  lemma {:induction false} PrintValue(n: nat, b: Base)
    ensures Value(Print(n, b), b) == n && AllDigits(Print(n, b), b)
  {
    hide DigitValue, IsDigit, DigitChar, Value, Times, DivBy, ModBy;
    DivisionParts(n, b);
    if n < Radix(b) {
      DigitRoundTrip(n, b);
      SingleDigit(DigitChar(n), b);
    } else {
      var q, r := DivBy(n, b), ModBy(n, b);
      PrintValue(q, b);
      DigitRoundTrip(r, b);
      ValueSnoc(Print(q, b), DigitChar(r), b);
    }
  }

  lemma SingleDigit(c: char, b: Base)
    ensures Value([c], b) == DigitValue(c)
  {
  }

  lemma {:induction false} PrintWidth(n: nat, k: nat, b: Base)
    requires k >= 1 && n < Shift(1, k, b)
    ensures |Print(n, b)| <= k
  {
    if n >= Radix(b) {
      assert k != 1 by { assert Shift(1, 0, b) == 1; }
      PrintWidth(DivBy(n, b), k - 1, b);
    }
  }

  /** A numeral has no leading zero, unless it is zero. */
  lemma {:induction false} PrintLeads(n: nat, b: Base)
    ensures Print(n, b)[0] == '0' ==> n == 0
    ensures n < Radix(b) ==> |Print(n, b)| == 1
  {
    if n >= Radix(b) {
      PrintLeads(DivBy(n, b), b);
    }
  }

  lemma {:induction false} ValueConcat(s: string, t: string, b: Base)
    ensures Value(s + t, b) == Shift(Value(s, b), |t|, b) + Value(t, b)
  {
    if t == [] {
      assert s + t == s;
    } else {
      var r, c := t[..|t| - 1], t[|t| - 1];
      ValueConcat(s, r, b);
      assert s + t == (s + r) + [c];
      ValueSnoc(s + r, c, b);
    }
  }

  lemma {:induction false} ValueBound(s: string, b: Base)
    requires AllDigits(s, b)
    ensures Value(s, b) < Shift(1, |s|, b)
  {
    if s != [] {
      ValueBound(s[..|s| - 1], b);
      assert IsDigit(s[|s| - 1], b);
    }
  }

  // ---------------------------------------------------------------------------
  // Padding and trimming
  // ---------------------------------------------------------------------------

  function Zeros(k: nat): (z: string)
    ensures |z| == k && forall i :: 0 <= i < k ==> z[i] == '0'
  {
    seq(k, _ => '0')
  }

  lemma {:induction false} ValueZeros(k: nat, b: Base)
    ensures Value(Zeros(k), b) == 0
  {
    if k > 0 {
      ValueZeros(k - 1, b);
      assert Zeros(k)[..k - 1] == Zeros(k - 1);
    }
  }

  /** String.prototype.padStart(width, "0"). */
  function PadStart(s: string, width: nat): string {
    if |s| < width then Zeros(width - |s|) + s else s
  }

  /** String.prototype.padEnd(width, "0"). */
  function PadEnd(s: string, width: nat): string {
    if |s| < width then s + Zeros(width - |s|) else s
  }

  /** s.slice(0, width). */
  function Take(s: string, width: nat): string {
    if width <= |s| then s[..width] else s
  }

  /** Drops trailing zeros: s.replace(/0+$/, ""). */
  function TrimZeros(s: string): (t: string)
    ensures |t| <= |s| && t == s[..|t|]
  {
    if s != [] && s[|s| - 1] == '0' then TrimZeros(s[..|s| - 1]) else s
  }

  lemma PadStartValue(s: string, width: nat, b: Base)
    ensures Value(PadStart(s, width), b) == Value(s, b)
  {
    if |s| < width {
      ValueConcat(Zeros(width - |s|), s, b);
      ValueZeros(width - |s|, b);
      ShiftZero(|s|, b);
    }
  }

  lemma PadEndValue(s: string, width: nat, b: Base)
    requires |s| <= width
    ensures Value(PadEnd(s, width), b) == Shift(Value(s, b), width - |s|, b)
  {
    if |s| < width {
      ValueConcat(s, Zeros(width - |s|), b);
      ValueZeros(width - |s|, b);
    }
  }

  lemma {:induction false} TrimZerosValue(s: string, b: Base)
    ensures Value(s, b) == Shift(Value(TrimZeros(s), b), |s| - |TrimZeros(s)|, b)
  {
    if s != [] && s[|s| - 1] == '0' {
      TrimZerosValue(s[..|s| - 1], b);
    }
  }

  /** Cutting a digit string drops the digits' value. */
  lemma CutValue(s: string, width: nat, b: Base)
    requires AllDigits(s, b) && width <= |s|
    ensures Value(s, b) == Shift(Value(s[..width], b), |s| - width, b) + Value(s[width..], b)
    ensures Value(s[width..], b) < Shift(1, |s| - width, b)
    ensures Value(s[..width], b) == Drop(Value(s, b), |s| - width, b)
  {
    assert s == s[..width] + s[width..];
    ValueConcat(s[..width], s[width..], b);
    ValueBound(s[width..], b);
    DropShift(Value(s[..width], b), Value(s[width..], b), |s| - width, b);
  }

  /** A padded numeral determines its number. */
  lemma PaddedInjective(m: nat, n: nat, width: nat, b: Base)
    requires PadStart(Print(m, b), width) == PadStart(Print(n, b), width)
    ensures m == n
  {
    PadStartValue(Print(m, b), width, b);
    PadStartValue(Print(n, b), width, b);
    PrintValue(m, b);
    PrintValue(n, b);
  }

  const ADDRESS_LENGTH: nat := 42

  /** /^0x[0-9a-fA-F]{40}$/ */
  predicate IsAddress(a: string) {
    |a| == ADDRESS_LENGTH && a[..2] == "0x" && AllDigits(a[2..], Hex)
  }
}
