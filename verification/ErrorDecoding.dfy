/** Reading the reason out of a failed call's output, and the Error(string) encoding of
    the Solidity Contract ABI Specification that it reads. */
module ErrorDecoding {
  import opened Prelude
  import opened Numerals
  import opened TraceModel

  const ERROR_SELECTOR: string := "08c379a0"
  const PANIC_SELECTOR: string := "4e487b71"
  const SELECTOR_DIGITS: nat := 8
  const WORD_DIGITS: nat := 64
  const MESSAGE_START: nat := 136
  const MAX_MESSAGE_BYTES: nat := 4096

  type Byte = b: nat | b < 256

  // ---------------------------------------------------------------------------
  // Bytes and words as hexadecimal text
  // ---------------------------------------------------------------------------

  function ByteText(b: Byte): (t: string)
    ensures |t| == 2
  {
    [DigitChar(b / 16), DigitChar(b % 16)]
  }

  function HexOf(bytes: seq<Byte>): (t: string)
    ensures |t| == 2 * |bytes|
  {
    if bytes == [] then "" else HexOf(bytes[..|bytes| - 1]) + ByteText(bytes[|bytes| - 1])
  }

  /** Two digits to a byte: hex.match(/../g).map(byte => parseInt(byte, 16)). */
  function BytesOf(hex: string): (bytes: seq<Byte>)
    requires |hex| % 2 == 0 && AllDigits(hex, Hex)
    ensures |bytes| == |hex| / 2
  {
    if hex == "" then []
    else
      assert IsDigit(hex[|hex| - 2], Hex) && IsDigit(hex[|hex| - 1], Hex);
      BytesOf(hex[..|hex| - 2]) + [16 * DigitValue(hex[|hex| - 2]) + DigitValue(hex[|hex| - 1])]
  }

  /** n in exactly `width` digits, most significant first. */
  function Fixed(n: nat, width: nat): (t: string)
    ensures |t| == width
  {
    if width == 0 then "" else Fixed(n / 16, width - 1) + [DigitChar(n % 16)]
  }

  /** A 32-byte big-endian word. */
  function Word(n: nat): (t: string)
    ensures |t| == WORD_DIGITS
  {
    Fixed(n, WORD_DIGITS)
  }

  lemma LowerDigit(c: char)
    requires IsDigit(c, Hex)
    ensures DigitValue(c) < 16 && DigitChar(DigitValue(c)) == LowerChar(c) && DigitValue(LowerChar(c)) == DigitValue(c)
  {
  }

  lemma LowerSlices(s: string, i: nat, j: nat)
    requires i <= j <= |s|
    ensures Lower(s)[i..j] == Lower(s[i..j])
  {
  }

  lemma LowerConcat(s: string, t: string)
    ensures Lower(s + t) == Lower(s) + Lower(t)
  {
  }

  lemma {:induction false} FixedValue(n: nat, width: nat)
    requires n < Shift(1, width, Hex)
    ensures Value(Fixed(n, width), Hex) == n && AllDigits(Fixed(n, width), Hex)
  {
    if width > 0 {
      FixedValue(n / 16, width - 1);
      DigitRoundTrip(n % 16, Hex);
      ValueSnoc(Fixed(n / 16, width - 1), DigitChar(n % 16), Hex);
    }
  }

  /** Digits of a fixed width are determined by their value, up to letter case. */
  lemma {:induction false} FixedUnique(s: string)
    requires AllDigits(s, Hex)
    ensures Lower(s) == Fixed(Value(s, Hex), |s|)
  {
    if s != "" {
      var init, last := s[..|s| - 1], s[|s| - 1];
      assert IsDigit(last, Hex);
      LowerDigit(last);
      hide Lower, LowerChar, DigitValue, DigitChar, IsDigit;
      FixedUnique(init);
      assert s == init + [last];
      LowerConcat(init, [last]);
      LowerSingle(last);
    }
  }

  lemma LowerSingle(c: char)
    ensures Lower([c]) == [LowerChar(c)]
  {
  }

  lemma {:induction false} LowerValue(s: string)
    requires AllDigits(s, Hex)
    ensures Value(Lower(s), Hex) == Value(s, Hex)
  {
    if s != "" {
      var init, last := s[..|s| - 1], s[|s| - 1];
      LowerValue(init);
      assert IsDigit(last, Hex);
      LowerDigit(last);
      assert s == init + [last];
      LowerConcat(init, [last]);
      ValueSnoc(Lower(init), LowerChar(last), Hex);
      assert Lower([last]) == [LowerChar(last)];
    }
  }

  lemma ByteOfDigits(high: char, low: char)
    requires IsDigit(high, Hex) && IsDigit(low, Hex)
    ensures 16 * DigitValue(high) + DigitValue(low) < 256
    ensures ByteText(16 * DigitValue(high) + DigitValue(low)) == Lower([high, low])
  {
    LowerDigit(high);
    LowerDigit(low);
  }

  /** Reading bytes out of captured digits and writing them back differs only in case. */
  lemma {:induction false} BytesRoundTrip(hex: string)
    requires |hex| % 2 == 0 && AllDigits(hex, Hex)
    ensures HexOf(BytesOf(hex)) == Lower(hex)
  {
    if hex != "" {
      hide Lower, ByteText, DigitValue, HexOf;
      var init, high, low := hex[..|hex| - 2], hex[|hex| - 2], hex[|hex| - 1];
      assert IsDigit(high, Hex) && IsDigit(low, Hex);
      ByteOfDigits(high, low);
      LastByte(hex, 16 * DigitValue(high) + DigitValue(low));
      BytesRoundTrip(init);
      hide BytesOf, IsDigit;
      assert hex == init + [high, low];
      LowerConcat(init, [high, low]);
      HexOfSnoc(BytesOf(init), 16 * DigitValue(high) + DigitValue(low));
    }
  }

  lemma LastByte(hex: string, b: Byte)
    requires hex != "" && |hex| % 2 == 0 && AllDigits(hex, Hex)
    requires b == 16 * DigitValue(hex[|hex| - 2]) + DigitValue(hex[|hex| - 1])
    ensures BytesOf(hex) == BytesOf(hex[..|hex| - 2]) + [b]
  {
    hide DigitValue;
  }

  lemma HexOfSnoc(bytes: seq<Byte>, b: Byte)
    ensures HexOf(bytes + [b]) == HexOf(bytes) + ByteText(b)
  {
  }

  lemma {:induction false} HexOfInjective(a: seq<Byte>, b: seq<Byte>)
    requires HexOf(a) == HexOf(b)
    ensures a == b
  {
    assert |a| == |b|;
    if a != [] {
      var x, y := a[|a| - 1], b[|b| - 1];
      assert HexOf(a)[..2 * |a| - 2] == HexOf(a[..|a| - 1]);
      assert HexOf(b)[..2 * |b| - 2] == HexOf(b[..|b| - 1]);
      HexOfInjective(a[..|a| - 1], b[..|b| - 1]);
      assert ByteText(x) == HexOf(a)[2 * |a| - 2..] == ByteText(y);
      ByteTextInjective(x, y);
    }
  }

  lemma ByteTextInjective(x: Byte, y: Byte)
    requires ByteText(x) == ByteText(y)
    ensures x == y
  {
  }

  // ---------------------------------------------------------------------------
  // decodeError
  // ---------------------------------------------------------------------------

  datatype Reading =
    | NotFailed
    | Halted(reason: string)
    | DataIncomplete
    | NoData
    | Message(text: string)
    | Panic(code: nat)
    | UnknownSelector(selector: string)
    | Unrecognized

  /** The digits handed to the text decoder, if the data is read as Error(string). */
  function MessageDigits(data: string): (hex: Option<string>)
    requires AllDigits(data, Hex)
    ensures hex.Some? ==> |hex.value| % 2 == 0 && |hex.value| <= 2 * MAX_MESSAGE_BYTES && AllDigits(hex.value, Hex)
                          && MESSAGE_START + |hex.value| <= |data|
  {
    if Lower(Take(data, SELECTOR_DIGITS)) == ERROR_SELECTOR && |data| >= MESSAGE_START then
      var offset := Value(data[8..72], Hex);
      var length := Value(data[72..136], Hex);
      if offset == 32 && length <= MAX_MESSAGE_BYTES && MESSAGE_START + length * 2 <= |data| then
        Some(data[136..136 + length * 2])
      else None
    else None
  }

  function MessageBytes(data: string): Option<seq<Byte>>
    requires AllDigits(data, Hex)
  {
    var hex := MessageDigits(data);
    if hex.None? then None else Some(BytesOf(hex.value))
  }

  /** Data that carries no readable message. */
  function DecodeOther(data: string): Reading
  {
    var selector := Lower(Take(data, SELECTOR_DIGITS));
    if selector == PANIC_SELECTOR && |data| == 72 then Panic(Value(data[8..], Hex))
    else if |data| >= SELECTOR_DIGITS then UnknownSelector(selector)
    else Unrecognized
  }

  /** `utf8` is the text decoder; None is its refusal of malformed bytes. */
  function DecodeError(f: Frame, utf8: seq<Byte> -> Option<string>): Reading
    requires f.output.Some? ==> ValidBytes(f.output.value)
  {
    if !Failed(f) then NotFailed
    else if f.status.Halt? then Halted(if f.result.Some? then f.result.value else "Execution halted")
    else if f.output.None? || f.output.value.truncated then DataIncomplete
    else
      var data := f.output.value.hex[2..];
      if data == "" then NoData
      else
        var bytes := MessageBytes(data);
        if bytes.Some? && utf8(bytes.value).Some? then Message(utf8(bytes.value).value)
        else DecodeOther(data)
  }

  // ---------------------------------------------------------------------------
  // What is read is what was encoded
  // ---------------------------------------------------------------------------

  /** The encoding of Error(string) up to the end of the message. */
  function Head(message: seq<Byte>): (t: string)
    ensures |t| == MESSAGE_START + 2 * |message|
  {
    ERROR_SELECTOR + Word(32) + Word(|message|) + HexOf(message)
  }

  /** ... and padded with zero bytes to a multiple of 32. */
  function EncodeError(message: seq<Byte>): string {
    Head(message) + Zeros((WORD_DIGITS - 2 * |message| % WORD_DIGITS) % WORD_DIGITS)
  }

  /** Starting with four joined parts is having each part at its place. */
  lemma StartsWithParts(a: string, b: string, c: string, d: string, s: string)
    ensures a + b + c + d <= s <==>
            |s| >= |a| + |b| + |c| + |d|
            && s[..|a|] == a
            && s[|a|..|a| + |b|] == b
            && s[|a| + |b|..|a| + |b| + |c|] == c
            && s[|a| + |b| + |c|..|a| + |b| + |c| + |d|] == d
  {
  }

  /** Exactly the digits spelling n denote n. */
  lemma WordIff(s: string, n: nat)
    requires AllDigits(s, Hex) && |s| == WORD_DIGITS && n <= MAX_MESSAGE_BYTES
    ensures Value(s, Hex) == n <==> Lower(s) == Word(n)
  {
    FixedUnique(s);
    if Lower(s) == Word(n) {
      SmallFitsWord(n);
      FixedValue(n, WORD_DIGITS);
      LowerValue(s);
    }
  }

  lemma SmallFitsWord(n: nat)
    requires n <= MAX_MESSAGE_BYTES
    ensures n < Shift(1, WORD_DIGITS, Hex)
  {
    ShiftTwice(1, 4, 60, Hex);
    assert Shift(1, 1, Hex) == 16;
    assert Shift(1, 2, Hex) == 256;
    assert Shift(1, 3, Hex) == 4096;
    assert Shift(1, 4, Hex) == 65536;
    ShiftAtLeast(65536, 60);
  }

  lemma {:induction false} ShiftAtLeast(n: nat, k: nat)
    ensures Shift(n, k, Hex) >= n
  {
    if k > 0 {
      ShiftAtLeast(n, k - 1);
    }
  }

  ghost predicate PartsAt(lower: string, message: seq<Byte>) {
    && |lower| >= MESSAGE_START + 2 * |message|
    && lower[..8] == ERROR_SELECTOR
    && lower[8..72] == Word(32)
    && lower[72..136] == Word(|message|)
    && lower[136..136 + 2 * |message|] == HexOf(message)
  }

  lemma HeadInParts(lower: string, message: seq<Byte>)
    ensures Head(message) <= lower <==> PartsAt(lower, message)
  {
    hide HexOf, Word;
    StartsWithParts(ERROR_SELECTOR, Word(32), Word(|message|), HexOf(message), lower);
    assert |ERROR_SELECTOR| == 8;
  }

  lemma WordAt(data: string, i: nat, n: nat)
    requires AllDigits(data, Hex) && i + WORD_DIGITS <= |data| && n <= MAX_MESSAGE_BYTES
    ensures Lower(data)[i..i + WORD_DIGITS] == Word(n) <==> Value(data[i..i + WORD_DIGITS], Hex) == n
  {
    hide Value, Word;
    WordIff(data[i..i + WORD_DIGITS], n);
    LowerSlices(data, i, i + WORD_DIGITS);
  }

  lemma PartsPresent(data: string, message: seq<Byte>)
    requires AllDigits(data, Hex) && |message| <= MAX_MESSAGE_BYTES && |data| >= MESSAGE_START + 2 * |message|
    ensures PartsAt(Lower(data), message) <==> DataHas(data, message)
  {
    hide Value, HexOf, Word, Lower, Head, AllDigits;
    LowerSlices(data, 0, 8);
    LowerSlices(data, 136, 136 + 2 * |message|);
    WordAt(data, 8, 32);
    WordAt(data, 72, |message|);
  }

  /** What the decoder checks, for one message. */
  ghost predicate DataHas(data: string, message: seq<Byte>)
  {
    && |data| >= MESSAGE_START + 2 * |message|
    && Lower(data[0..8]) == ERROR_SELECTOR
    && Value(data[8..72], Hex) == 32
    && Value(data[72..136], Hex) == |message|
    && Lower(data[136..136 + 2 * |message|]) == HexOf(message)
  }

  lemma HeadPresent(data: string, message: seq<Byte>)
    requires AllDigits(data, Hex) && |message| <= MAX_MESSAGE_BYTES
    ensures Head(message) <= Lower(data) <==> DataHas(data, message)
  {
    hide Value, HexOf, Word, Lower, Head, AllDigits;
    HeadInParts(Lower(data), message);
    if |data| >= MESSAGE_START + 2 * |message| {
      hide DataHas, PartsAt;
      PartsPresent(data, message);
    }
  }

  /** For arbitrary captured data, a message is handed to the text decoder exactly when the
      data starts with the encoding of that message, in either letter case; the message is
      at most 4096 bytes, and what follows it is ignored. */
  lemma ReadsExactlyEncodedMessages(data: string, message: seq<Byte>)
    requires AllDigits(data, Hex)
    ensures MessageBytes(data) == Some(message) <==> |message| <= MAX_MESSAGE_BYTES && Head(message) <= Lower(data)
  {
    hide Value, HexOf, Word, Lower, BytesOf, Head;
    if |message| <= MAX_MESSAGE_BYTES {
      HeadPresent(data, message);
      if Head(message) <= Lower(data) {
        BytesRoundTrip(data[136..136 + 2 * |message|]);
        HexOfInjective(BytesOf(data[136..136 + 2 * |message|]), message);
      }
    }
    if MessageBytes(data) == Some(message) {
      BytesRoundTrip(MessageDigits(data).value);
    }
  }

  /** Panic(uint256) is read exactly from its selector and one word. */
  lemma PanicIffEncoded(data: string, code: nat)
    requires AllDigits(data, Hex)
    ensures DecodeOther(data) == Panic(code) <==> code < Shift(1, 64, Hex) && Lower(data) == "4e487b71" + Word(code)
  {
    hide Value, Lower, Fixed, Shift;
    if |data| == 72 {
      var word := data[8..72];
      assert data == data[..8] + word && data[8..] == word && Take(data, 8) == data[..8];
      assert AllDigits(word, Hex);
      LowerConcat(data[..8], word);
      FixedUnique(word);
      ValueBound(word, Hex);
      assert Lower(data)[..8] == Lower(data[..8]) && Lower(data)[8..] == Lower(word);
      if code < Shift(1, 64, Hex) && Lower(data) == "4e487b71" + Word(code) {
        assert Lower(word) == Word(code);
        FixedValue(code, 64);
        LowerValue(word);
      }
    }
  }

  /** Without complete data of a revert nothing is decoded. */
  lemma ReadingByStatus(f: Frame, utf8: seq<Byte> -> Option<string>)
    requires f.output.Some? ==> ValidBytes(f.output.value)
    ensures var r := DecodeError(f, utf8);
      && (r.NotFailed? <==> f.status.Success? || f.status.Incomplete?)
      && (r.Halted? <==> f.status.Halt?) && (f.result.Some? && f.status.Halt? ==> r.reason == f.result.value)
      && (r.DataIncomplete? <==> f.status.Revert? && (f.output.None? || |f.output.value.hex| < 2 + 2 * f.output.value.length))
  {
    hide MessageBytes, Lower;
  }

  /** What every failed call is reported as. */
  lemma EveryReading(f: Frame, utf8: seq<Byte> -> Option<string>, text: string, code: nat)
    requires f.status.Revert? && f.output.Some? && ValidBytes(f.output.value) && !f.output.value.truncated
    ensures AllDigits(f.output.value.hex[2..], Hex)
    ensures var r, data := DecodeError(f, utf8), f.output.value.hex[2..];
      && (r == Message(text) <==> exists m :: |m| <= 4096 && Head(m) <= Lower(data) && utf8(m) == Some(text))
      && (r == Panic(code) <==> code < Shift(1, 64, Hex) && Lower(data) == "4e487b71" + Word(code))
      && (r.NoData? <==> data == "") && (r.Unrecognized? <==> 0 < |data| < 8)
      && (r.UnknownSelector? ==> |data| >= 8 && r.selector == Lower(data)[..8])
      && !r.NotFailed? && !r.Halted? && !r.DataIncomplete?
  {
    hide Value, Lower, Word, Shift, Head, HexOf;
    var data := f.output.value.hex[2..];
    PanicIffEncoded(data, code);
    forall m ensures MessageBytes(data) == Some(m) <==> |m| <= 4096 && Head(m) <= Lower(data) {
      ReadsExactlyEncodedMessages(data, m);
    }
    assert |data| >= 8 ==> Lower(data)[..8] == Lower(Take(data, 8)) by {
      if |data| >= 8 { LowerSlices(data, 0, 8); }
    }
  }

  /** Every encodable message that fits the capture limit is shown as its own text, or, if
      its bytes are not text, is reported by its selector. */
  lemma EncodedErrorIsShown(message: seq<Byte>, f: Frame, utf8: seq<Byte> -> Option<string>)
    requires f.status.Revert? && f.output.Some? && ValidBytes(f.output.value) && !f.output.value.truncated
    requires Lower(f.output.value.hex[2..]) == EncodeError(message)
    ensures DecodeError(f, utf8) ==
            if utf8(message).Some? then Message(utf8(message).value) else UnknownSelector(ERROR_SELECTOR)
  {
    hide HexOf, Word, Lower, Head;
    var data := f.output.value.hex[2..];
    assert |Lower(data)| == |data| <= 2 * MAX_CAPTURED_BYTES;
    assert Head(message) <= EncodeError(message);
    ReadsExactlyEncodedMessages(data, message);
    HeadPresent(data, message);
  }
}
