/** What the checks on the texts of a capture let through: exactly the numerals of 256-bit
    numbers, and exactly the bytes of at most 4096. */
module TraceTexts {
  import opened Prelude
  import opened Numerals
  import opened TraceModel
  import opened ErrorDecoding

  predicate Prefixed(s: string) {
    |s| >= 2 && s[0] == '0' && (s[1] == 'x' || s[1] == 'X')
  }

  /** Digits without a superfluous zero are the numeral of their value, up to letter case. */
  lemma {:induction false} ShortestDigits(s: string)
    requires s != "" && AllDigits(s, Hex) && (s[0] == '0' ==> |s| == 1)
    ensures Lower(s) == Print(Value(s, Hex), Hex)
  {
    var init, last := s[..|s| - 1], s[|s| - 1];
    assert s == init + [last] && IsDigit(last, Hex);
    LowerDigit(last);
    if |s| > 1 {
      hide Lower, DigitValue, DigitChar, LowerChar;
      ShortestDigits(init);
      LowerConcat(init, [last]);
      LowerSingle(last);
      assert Value(init, Hex) > 0 by { LeadingDigitCounts(init); }
    } else {
      assert init == "";
    }
  }

  lemma {:induction false} LeadingDigitCounts(s: string)
    requires s != "" && AllDigits(s, Hex) && s[0] != '0'
    ensures Value(s, Hex) > 0
  {
    if |s| > 1 {
      LeadingDigitCounts(s[..|s| - 1]);
    } else {
      assert IsDigit(s[0], Hex) && Value(s[..0], Hex) == 0;
    }
  }

  lemma DigitCase(c: char)
    ensures IsDigit(LowerChar(c), Hex) <==> IsDigit(c, Hex)
  {
  }

  lemma DigitsCase(s: string)
    ensures AllDigits(Lower(s), Hex) <==> AllDigits(s, Hex)
  {
    hide IsDigit;
    forall i | 0 <= i < |s| ensures IsDigit(Lower(s)[i], Hex) <==> IsDigit(s[i], Hex) {
      DigitCase(s[i]);
    }
  }

  /** 0x and the shortest numeral, in either letter case, of a number below 2^256. */
  ghost predicate Numeral(s: string) {
    Prefixed(s) && exists n: nat :: n < Shift(1, 64, Hex) && Lower(s[2..]) == Print(n, Hex)
  }

  lemma QuantityIffNumeral(s: string)
    ensures Quantity(s) <==> Numeral(s)
  {
    hide Print, Value, Shift, Lower;
    if Quantity(s) {
      var digits := s[2..];
      ShortestDigits(digits);
      ValueBound(digits, Hex);
      ShiftGrows(|digits|, 64);
      assert Value(digits, Hex) < Shift(1, 64, Hex);
    }
    if Prefixed(s) {
      if n: nat :| n < Shift(1, 64, Hex) && Lower(s[2..]) == Print(n, Hex) {
        PrintValue(n, Hex);
        PrintWidth(n, 64, Hex);
        PrintLeads(n, Hex);
        ZeroIsOneDigit(n);
        DigitsCase(s[2..]);
        LowerFirst(s[2..]);
      }
    }
  }

  lemma ZeroIsOneDigit(n: nat)
    ensures n == 0 ==> |Print(n, Hex)| == 1
  {
  }

  lemma LowerFirst(s: string)
    requires s != ""
    ensures Lower(s)[0] == '0' <==> s[0] == '0'
  {
  }

  lemma {:induction false} ShiftGrows(j: nat, k: nat)
    requires j <= k
    ensures Shift(1, j, Hex) <= Shift(1, k, Hex)
  {
    if j < k {
      ShiftGrows(j, k - 1);
    }
  }

  lemma {:induction false} EncodedDigits(bytes: seq<Byte>)
    ensures AllDigits(HexOf(bytes), Hex)
  {
    if bytes != [] {
      EncodedDigits(bytes[..|bytes| - 1]);
      DigitRoundTrip(bytes[|bytes| - 1] / 16, Hex);
      DigitRoundTrip(bytes[|bytes| - 1] % 16, Hex);
    }
  }

  /** A text that encodes at most 4096 bytes, no more than the stated length, and a flag that
      says whether bytes are missing. */
  ghost predicate Encoded(b: Bytes) {
    Prefixed(b.hex) && exists bytes: seq<Byte> ::
      && |bytes| <= 4096 && Lower(b.hex[2..]) == HexOf(bytes)
      && |bytes| <= b.length <= 9_007_199_254_740_991 && b.truncated == (|bytes| < b.length)
  }

  lemma ValidBytesIffEncoded(b: Bytes)
    ensures ValidBytes(b) <==> Encoded(b)
  {
    hide Lower, HexOf, BytesOf;
    if ValidBytes(b) {
      BytesRoundTrip(b.hex[2..]);
      assert |BytesOf(b.hex[2..])| == Captured(b);
    }
    if Prefixed(b.hex) {
      if bytes: seq<Byte> :| && |bytes| <= 4096 && Lower(b.hex[2..]) == HexOf(bytes)
                             && |bytes| <= b.length <= 9_007_199_254_740_991 && b.truncated == (|bytes| < b.length) {
        EncodedDigits(bytes);
        DigitsCase(b.hex[2..]);
      }
    }
  }

  predicate AddressOrNull(a: Option<string>) {
    a.None? || (|a.value| == 42 && Prefixed(a.value) && AllDigits(a.value[2..], Hex))
  }

  /** What is asked of call i: its place, an earlier parent, a cross-chain flag that tells the
      truth, numerals, addresses, short texts, and encoded input and output, the output absent
      at most for an unfinished call. */
  ghost predicate SoundFrame(frames: seq<Frame>, i: nat)
    requires i < |frames|
  {
    var f := frames[i];
    && f.id == i && (f.parentId.Some? ==> 0 <= f.parentId.value < i)
    && (f.crossChain <==> f.parentId.Some? && f.chainId != frames[f.parentId.value].chainId)
    && Numeral(f.chainId) && Numeral(f.value) && Numeral(f.gas) && (f.gasUsed.Some? ==> Numeral(f.gasUsed.value))
    && AddressOrNull(f.from) && AddressOrNull(f.to) && AddressOrNull(f.codeAddress)
    && |f.kind| <= 32 && (f.result.Some? ==> |f.result.value| <= 64)
    && Encoded(f.input) && (f.output.Some? ==> Encoded(f.output.value)) && (f.output.None? ==> f.status.Incomplete?)
  }

  lemma FrameIffSound(frames: seq<Frame>, i: nat)
    requires i < |frames|
    ensures ValidFrame(frames, i) <==> SoundFrame(frames, i)
  {
    hide Quantity, Numeral, ValidBytes, Encoded, NullableAddress, AddressOrNull;
    var f := frames[i];
    TextsIffSound(f);
    QuantityIffNumeral(f.chainId);
    ValidBytesIffEncoded(f.input);
    if f.output.Some? { ValidBytesIffEncoded(f.output.value); }
  }

  lemma TextsIffSound(f: Frame)
    ensures ValidTexts(f) <==>
            && Numeral(f.value) && Numeral(f.gas) && (f.gasUsed.Some? ==> Numeral(f.gasUsed.value))
            && AddressOrNull(f.from) && AddressOrNull(f.to) && AddressOrNull(f.codeAddress)
            && (f.result.Some? ==> |f.result.value| <= 64)
  {
    hide Quantity, Numeral;
    QuantityIffNumeral(f.value);
    QuantityIffNumeral(f.gas);
    if f.gasUsed.Some? { QuantityIffNumeral(f.gasUsed.value); }
  }

  /** The runs of a capture are accepted iff there are at most 128, with at most 4096 calls in
      all, each in its place with sound fields and calls. */
  lemma RunsIffSound(runs: seq<Run>)
    ensures ValidRuns(runs) <==>
            && |runs| <= 128 && FrameCount(runs) <= 4096
            && forall r :: 0 <= r < |runs| ==>
                 && runs[r].id == r && |runs[r].phase| <= 64 && |runs[r].purpose| <= 64
                 && 0 <= runs[r].pass <= 9_007_199_254_740_991 && runs[r].txType in {"0x0", "0x2"}
                 && Numeral(runs[r].chainId) && Encoded(runs[r].input)
                 && forall i :: 0 <= i < |runs[r].frames| ==> SoundFrame(runs[r].frames, i)
  {
    hide Quantity, Numeral, ValidBytes, Encoded, ValidFrame, SoundFrame;
    forall r | 0 <= r < |runs|
      ensures Quantity(runs[r].chainId) <==> Numeral(runs[r].chainId)
      ensures ValidBytes(runs[r].input) <==> Encoded(runs[r].input)
      ensures ValidFrames(runs[r].frames) <==> forall i :: 0 <= i < |runs[r].frames| ==> SoundFrame(runs[r].frames, i)
    {
      QuantityIffNumeral(runs[r].chainId);
      ValidBytesIffEncoded(runs[r].input);
      forall i | 0 <= i < |runs[r].frames| ensures ValidFrame(runs[r].frames, i) <==> SoundFrame(runs[r].frames, i) {
        FrameIffSound(runs[r].frames, i);
      }
    }
  }
}
