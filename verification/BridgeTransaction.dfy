/** The transaction a bridge form stands for, and why two forms with the same transaction
    mean the same transfer. */
module BridgeTransaction {
  import opened Prelude
  import opened Numerals
  import opened BridgeAmounts

  datatype Direction = L1ToL2 | L2ToL1

  datatype Asset = Eth | Erc20

  /** The inputs of the form that decide its transaction. */
  datatype Form = Form(direction: Direction, asset: Asset, amount: string, tokenAddress: string,
                       decimals: Option<nat>, destination: string)

  datatype Config = Config(l1Bridge: string, l2Bridge: string, rollupId: nat, l1Rpc: string, l2Rpc: string)

  datatype Transaction = Transaction(from: string, to: string, data: string, value: string)

  /** What an estimate is asked for: which RPC, and exactly which transaction. */
  datatype Request = Request(rpc: string, transaction: Transaction)

  const BRIDGE_ETHER: string := "0x5d81310b"
  const BRIDGE_TOKENS: string := "0xd2c2fa0f"
  const WORD: nat := 64
  const DEFAULT_DECIMALS: nat := 18

  function EncodeUint256(n: nat): string {
    PadStart(Print(n, Hex), WORD)
  }

  /** s.replace("0x", ""): without the first "0x". */
  function WithoutPrefix(s: string): string {
    if |s| < 2 then s
    else if s[0] == '0' && s[1] == 'x' then s[2..]
    else [s[0]] + WithoutPrefix(s[1..])
  }

  function Pad32(hex: string): string {
    PadStart(WithoutPrefix(hex), WORD)
  }

  function RawAmount(f: Form): Option<nat> {
    ParseAmount(f.amount, if f.asset.Erc20? && f.decimals.Some? then f.decimals.value else DEFAULT_DECIMALS)
  }

  function BridgeAddress(f: Form, c: Config): string {
    if f.direction.L1ToL2? then c.l1Bridge else c.l2Bridge
  }

  function ComposerRpc(f: Form, c: Config): string {
    if f.direction.L1ToL2? then c.l1Rpc else c.l2Rpc
  }

  function TargetRollup(f: Form, c: Config): nat {
    if f.direction.L2ToL1? then 0 else c.rollupId
  }

  /** An empty destination means the sender. */
  function Recipient(f: Form, from: string): string {
    if f.destination == "" then from else f.destination
  }

  function BridgeCall(f: Form, from: string, c: Config): Transaction
    requires RawAmount(f).Some?
  {
    var raw := RawAmount(f).value;
    var rollup := EncodeUint256(TargetRollup(f, c));
    var destination := Pad32(Recipient(f, from));
    Transaction(
      from,
      BridgeAddress(f, c),
      if f.asset.Eth? then BRIDGE_ETHER + rollup + destination
      else BRIDGE_TOKENS + Pad32(f.tokenAddress) + EncodeUint256(raw) + rollup + destination,
      if f.asset.Eth? then "0x" + Print(raw, Hex) else "0x0")
  }

  function RequestOf(f: Form, from: string, c: Config): Request
    requires RawAmount(f).Some?
  {
    Request(ComposerRpc(f, c), BridgeCall(f, from, c))
  }

  /** The form describes a transfer: a bridge, a positive amount, valid addresses. */
  predicate Complete(f: Form, c: Config) {
    && BridgeAddress(f, c) != "" && f.amount != ""
    && (f.destination == "" || IsAddress(f.destination))
    && RawAmount(f).Some? && RawAmount(f).value > 0
    && (f.asset.Erc20? ==> IsAddress(f.tokenAddress))
  }

  // ---------------------------------------------------------------------------
  // The transaction determines the transfer
  // ---------------------------------------------------------------------------

  lemma PadAddress(a: string, b: string)
    requires IsAddress(a) && IsAddress(b)
    ensures |Pad32(a)| == WORD && (Pad32(a) == Pad32(b) ==> a == b)
  {
    assert a[0] == a[..2][0] && a[1] == a[..2][1] && b[0] == b[..2][0] && b[1] == b[..2][1];
    assert a == a[..2] + a[2..] && b == b[..2] + b[2..];
    assert Pad32(a)[24..] == a[2..] && Pad32(b)[24..] == b[2..];
  }

  lemma EncodeWord(n: nat)
    requires n < Shift(1, WORD, Hex)
    ensures |EncodeUint256(n)| == WORD
  {
    PrintWidth(n, WORD, Hex);
  }

  lemma EncodeInjective(m: nat, n: nat)
    requires EncodeUint256(m) == EncodeUint256(n)
    ensures m == n
  {
    PaddedInjective(m, n, WORD, Hex);
  }

  // ---------------------------------------------------------------------------
  // What a transaction says
  // ---------------------------------------------------------------------------

  /** The word that ends at `end` is an address: 24 zeros and its 40 digits. */
  predicate AddressWord(data: string, end: nat, address: string)
    requires 64 <= end <= |data| && |address| == 42
  {
    data[end - 64..end - 40] == Zeros(24) && data[end - 40..end] == address[2..]
  }

  predicate NumberWord(data: string, start: nat, end: nat, n: nat)
    requires start <= end <= |data|
  {
    AllDigits(data[start..end], Hex) && Value(data[start..end], Hex) == n
  }

  lemma PaddedAddress(a: string)
    requires IsAddress(a)
    ensures |Pad32(a)| == 64 && AddressWord(Pad32(a), 64, a)
  {
    assert a[0] == a[..2][0] && a[1] == a[..2][1];
  }

  lemma PaddedNumber(n: nat)
    ensures |EncodeUint256(n)| >= 64 && NumberWord(EncodeUint256(n), 0, |EncodeUint256(n)|, n)
    ensures |EncodeUint256(n)| == 64 <==> n < Shift(1, 64, Hex)
  {
    var digits := Print(n, Hex);
    PrintValue(n, Hex);
    PadStartValue(digits, 64, Hex);
    assert EncodeUint256(n)[0..|EncodeUint256(n)|] == EncodeUint256(n);
    if n < Shift(1, 64, Hex) {
      EncodeWord(n);
    } else if |EncodeUint256(n)| == 64 {
      ValueBound(EncodeUint256(n), Hex);
    }
  }

  lemma WordsOfEther(rollup: string, recipient: string, address: string, n: nat)
    requires |rollup| == 64 && NumberWord(rollup, 0, 64, n) && |address| == 42
    requires |recipient| == 64 && AddressWord(recipient, 64, address)
    ensures var data := "0x5d81310b" + rollup + recipient;
      |data| == 138 && data[..10] == "0x5d81310b" && NumberWord(data, 10, 74, n) && AddressWord(data, 138, address)
  {
    hide Value;
    var data := "0x5d81310b" + rollup + recipient;
    assert data[10..74] == rollup == rollup[0..64];
    assert data[74..98] == recipient[0..24] && data[98..138] == recipient[24..64];
  }

  lemma WordsOfToken(token: string, amount: string, rollup: string, recipient: string,
                     tokenAddress: string, raw: nat, n: nat, address: string)
    requires |token| == 64 && |tokenAddress| == 42 && AddressWord(token, 64, tokenAddress)
    requires NumberWord(amount, 0, |amount|, raw)
    requires |rollup| == 64 && NumberWord(rollup, 0, 64, n)
    requires |recipient| == 64 && |address| == 42 && AddressWord(recipient, 64, address)
    ensures var data := "0xd2c2fa0f" + token + amount + rollup + recipient; var end := |data|;
      && end == 202 + |amount| && data[..10] == "0xd2c2fa0f" && AddressWord(data, 74, tokenAddress)
      && NumberWord(data, 74, end - 128, raw) && NumberWord(data, end - 128, end - 64, n) && AddressWord(data, end, address)
  {
    hide Value;
    var data := "0xd2c2fa0f" + token + amount + rollup + recipient;
    var end := |data|;
    assert data[10..34] == token[0..24] && data[34..74] == token[24..64];
    assert data[74..end - 128] == amount == amount[0..|amount|];
    assert data[end - 128..end - 64] == rollup == rollup[0..64];
    assert data[end - 64..end - 40] == recipient[0..24] && data[end - 40..end] == recipient[24..64];
  }

  /** What the transaction of a complete form says when it is read word by word: the call for
      its asset, the token and the raw amount, the rollup, the recipient, the ether sent; and
      where it goes. Only an amount beyond 256 bits takes more than its word. */
  lemma CallReadsBack(f: Form, from: string, c: Config)
    requires Complete(f, c) && IsAddress(from) && c.rollupId < Shift(1, 64, Hex)
    ensures var request := RequestOf(f, from, c); var call := request.transaction; var data, end := call.data, |call.data|;
      var raw := ParseAmount(f.amount, if f.asset.Erc20? && f.decimals.Some? then f.decimals.value else 18).value;
      var recipient := if f.destination == "" then from else f.destination;
      && call.from == from
      && (f.direction.L1ToL2? ==> request.rpc == c.l1Rpc && call.to == c.l1Bridge)
      && (f.direction.L2ToL1? ==> request.rpc == c.l2Rpc && call.to == c.l2Bridge)
      && end >= 138 && |recipient| == 42 && AddressWord(data, end, recipient)
      && NumberWord(data, end - 128, end - 64, if f.direction.L1ToL2? then c.rollupId else 0)
      && (f.asset.Eth? ==>
            && end == 138 && data[..10] == "0x5d81310b"
            && |call.value| > 2 && call.value[..2] == "0x" && NumberWord(call.value, 2, |call.value|, raw))
      && (f.asset.Erc20? ==>
            && end >= 266 && (end == 266 <==> raw < Shift(1, 64, Hex)) && data[..10] == "0xd2c2fa0f"
            && |f.tokenAddress| == 42 && AddressWord(data, 74, f.tokenAddress)
            && NumberWord(data, 74, end - 128, raw) && call.value == "0x0")
  {
    hide EncodeUint256, Pad32, Value, Print, ParseAmount;
    var raw := RawAmount(f).value;
    var recipient, rollup := Recipient(f, from), TargetRollup(f, c);
    PaddedAddress(recipient);
    PaddedNumber(rollup);
    if f.asset.Eth? {
      WordsOfEther(EncodeUint256(rollup), Pad32(recipient), recipient, rollup);
      PrintValue(raw, Hex);
      var value := "0x" + Print(raw, Hex);
      assert value[2..|value|] == Print(raw, Hex);
    } else {
      PaddedAddress(f.tokenAddress);
      PaddedNumber(raw);
      WordsOfToken(Pad32(f.tokenAddress), EncodeUint256(raw), EncodeUint256(rollup), Pad32(recipient),
                   f.tokenAddress, raw, rollup, recipient);
    }
  }

  /** Joined texts agree part by part when all parts but one have known lengths. */
  lemma SplitEqual(a: string, b: string, c: string, d: string, a': string, b': string, c': string, d': string)
    requires a + b + c + d == a' + b' + c' + d' && |a| == |a'| && |c| == |c'| && |d| == |d'|
    ensures a == a' && b == b' && c == c' && d == d'
  {
    var s, t := a + b + c + d, a' + b' + c' + d';
    assert |s| == |t|;
    assert s[..|a|] == a && t[..|a|] == a';
    assert s[|a|..|a| + |b|] == b && t[|a|..|a| + |b|] == b';
    assert s[|a| + |b|..|a| + |b| + |c|] == c && t[|a| + |b|..|a| + |b| + |c|] == c';
    assert s[|a| + |b| + |c|..] == d && t[|a| + |b| + |c|..] == d';
  }

  lemma SelectorTells(f: Form, g: Form, from: string, other: string, c: Config)
    requires RawAmount(f).Some? && RawAmount(g).Some?
    requires BridgeCall(f, from, c).data == BridgeCall(g, other, c).data
    ensures f.asset == g.asset
  {
    hide RawAmount, EncodeUint256, Pad32, Recipient;
    var d, e := BridgeCall(f, from, c).data, BridgeCall(g, other, c).data;
    assert d[2] == (if f.asset.Eth? then BRIDGE_ETHER else BRIDGE_TOKENS)[2];
    assert e[2] == (if g.asset.Eth? then BRIDGE_ETHER else BRIDGE_TOKENS)[2];
  }

  lemma EtherParts(p: nat, q: nat, x: string, y: string, m: nat, n: nat)
    requires |EncodeUint256(p)| == |EncodeUint256(q)| == WORD && IsAddress(x) && IsAddress(y)
    requires BRIDGE_ETHER + EncodeUint256(p) + Pad32(x) == BRIDGE_ETHER + EncodeUint256(q) + Pad32(y)
    requires "0x" + Print(m, Hex) == "0x" + Print(n, Hex)
    ensures p == q && x == y && m == n
  {
    hide EncodeUint256, Pad32, Print, IsAddress;
    PadAddress(x, y);
    PadAddress(y, x);
    SplitEqual(BRIDGE_ETHER, EncodeUint256(p), Pad32(x), "", BRIDGE_ETHER, EncodeUint256(q), Pad32(y), "");
    EncodeInjective(p, q);
    assert ("0x" + Print(m, Hex))[2..] == Print(m, Hex) && ("0x" + Print(n, Hex))[2..] == Print(n, Hex);
    PrintValue(m, Hex);
    PrintValue(n, Hex);
  }

  lemma TokenParts(t: string, u: string, p: nat, q: nat, x: string, y: string, m: nat, n: nat)
    requires |EncodeUint256(p)| == |EncodeUint256(q)| == WORD && IsAddress(x) && IsAddress(y) && IsAddress(t) && IsAddress(u)
    requires BRIDGE_TOKENS + Pad32(t) + EncodeUint256(m) + EncodeUint256(p) + Pad32(x)
             == BRIDGE_TOKENS + Pad32(u) + EncodeUint256(n) + EncodeUint256(q) + Pad32(y)
    ensures t == u && p == q && x == y && m == n
  {
    hide EncodeUint256, Pad32, IsAddress;
    PadAddress(x, y);
    PadAddress(y, x);
    PadAddress(t, u);
    PadAddress(u, t);
    var a, b := BRIDGE_TOKENS + Pad32(t), BRIDGE_TOKENS + Pad32(u);
    SplitEqual(a, EncodeUint256(m), EncodeUint256(p), Pad32(x), b, EncodeUint256(n), EncodeUint256(q), Pad32(y));
    assert a[10..] == Pad32(t) && b[10..] == Pad32(u);
    EncodeInjective(m, n);
    EncodeInjective(p, q);
  }

  /** Two complete forms stand for the same transaction exactly when they mean the same
      transfer: sender, bridge, asset, raw amount, recipient, token and target rollup. */
  lemma SameCallIffSameTransfer(f: Form, g: Form, from: string, other: string, c: Config)
    requires Complete(f, c) && Complete(g, c) && IsAddress(from) && IsAddress(other)
    requires c.rollupId < Shift(1, WORD, Hex)
    ensures BridgeCall(f, from, c) == BridgeCall(g, other, c) <==>
            && from == other && BridgeAddress(f, c) == BridgeAddress(g, c)
            && f.asset == g.asset && RawAmount(f) == RawAmount(g)
            && Recipient(f, from) == Recipient(g, other) && TargetRollup(f, c) == TargetRollup(g, c)
            && (f.asset.Erc20? ==> f.tokenAddress == g.tokenAddress)
  {
    if BridgeCall(f, from, c) == BridgeCall(g, other, c) {
      SelectorTells(f, g, from, other, c);
      hide RawAmount, EncodeUint256, Pad32, IsAddress, Print;
      var x, y := Recipient(f, from), Recipient(g, other);
      var m, n := RawAmount(f).value, RawAmount(g).value;
      var p, q := TargetRollup(f, c), TargetRollup(g, c);
      RollupFits(f, c);
      RollupFits(g, c);
      if f.asset.Eth? {
        EtherParts(p, q, x, y, m, n);
      } else {
        TokenParts(f.tokenAddress, g.tokenAddress, p, q, x, y, m, n);
      }
    }
  }

  lemma RollupFits(f: Form, c: Config)
    requires c.rollupId < Shift(1, WORD, Hex)
    ensures |EncodeUint256(TargetRollup(f, c))| == WORD
  {
    EncodeWord(TargetRollup(f, c));
  }
}
