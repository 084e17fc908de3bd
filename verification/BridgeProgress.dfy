/** What the bridge form achieves when nothing interferes: a complete form is estimated and
    sent, with the gas the Composer gave or the user chose. */
module BridgeProgress {
  import opened Prelude
  import opened Numerals
  import opened BridgeAmounts
  import opened BridgeTransaction
  import opened BridgeKey
  import opened BridgeGas

  /** A bridge to call, a positive amount, an address or nothing as recipient, and for tokens
      an address. */
  predicate FilledIn(f: Form, c: Config) {
    && (if f.direction.L1ToL2? then c.l1Bridge else c.l2Bridge) != ""
    && Accepted(f.amount) && ParseAmount(f.amount, if f.asset.Erc20? && f.decimals.Some? then f.decimals.value else 18) != Some(0)
    && (f.destination == "" || IsAddress(f.destination))
    && (f.asset.Erc20? ==> IsAddress(f.tokenAddress))
  }

  /** Over digits and dots, the effect and the click go ahead exactly with such a form. */
  lemma CompleteIffFilledIn(f: Form, c: Config)
    requires forall i :: 0 <= i < |f.amount| ==> IsAmountChar(f.amount[i])
    ensures Complete(f, c) <==> FilledIn(f, c)
    ensures Complete(f, c) ==> RawAmount(f).Some?
  {
    hide ParseAmount, IsAddress, Accepted;
    ParsesIffAccepted(f.amount, if f.asset.Erc20? && f.decimals.Some? then f.decimals.value else 18);
    EmptyIsZero(if f.asset.Erc20? && f.decimals.Some? then f.decimals.value else 18);
  }

  lemma FilledInChars(f: Form, c: Config)
    requires FilledIn(f, c)
    ensures forall i :: 0 <= i < |f.amount| ==> IsAmountChar(f.amount[i])
  {
  }

  lemma EmptyIsZero(decimals: nat)
    ensures ParseAmount("", decimals) == Some(0)
  {
    assert CountDots("") == 0;
    ParseIsFloor("", decimals);
    assert DigitsOf("") == "" && FractionLength("") == 0;
    assert Value("", Decimal) == 0;
    ShiftZero(decimals, Decimal);
  }

  /** One run of the form: an edit, its effect, the debounce, the Composer's answer (None where
      it has no estimation), the click, and the fee data. */
  function Sending(s: Bridge, f: Form, answer: Option<nat>): Bridge {
    var k, m := |s.jobs|, |s.submissions|;
    var asked := Next(Next(Next(s, Edits(f)), EffectRuns), TimerFires(k));
    var answered := Next(asked, if answer.Some? then Estimates(k, answer.value) else Unsupports(k));
    Next(Next(answered, Clicks(true, true)), FeesArrive(m))
  }

  /** Whatever happened before and whatever is still under way: if the form is filled in, a
      wallet is connected and the Composer answers or the user has chosen the gas, this run
      sends exactly the form's transaction, with the chosen gas if there is one and the
      Composer's otherwise. */
  lemma UndisturbedBridgeSends(s: Bridge, f: Form, from: string, answer: Option<nat>)
    requires s.loaded && s.wallet == Some(from) && FilledIn(f, s.config)
    requires answer.Some? || s.gasOverride.Some?
    ensures RawAmount(f).Some?
    ensures var t := Sending(s, f, answer);
      && |t.sends| == |s.sends| + 1 && t.sends[..|s.sends|] == s.sends
      && var sent := t.sends[|s.sends|];
      && sent.request == RequestOf(f, from, s.config)
      && sent.gas == (if s.gasOverride.Some? then s.gasOverride.value else answer.value)
      && sent.overridden == s.gasOverride.Some?
  {
    hide RawAmount, RequestOf, Complete, FilledIn, Key, CancelLast;
    assert forall i :: 0 <= i < |f.amount| ==> IsAmountChar(f.amount[i]) by { FilledInChars(f, s.config); }
    CompleteIffFilledIn(f, s.config);
    SenderIsKept(f, from, s.config);
    var k, m := |s.jobs|, |s.submissions|;
    var started := Next(Next(s, Edits(f)), EffectRuns);
    assert started == s.(form := f, due := false, estimated := None, gas := Estimating,
                         jobs := CancelLast(s.jobs) + [Job(f, from, false, None, None)]);
    var request := RequestOf(f, from, s.config);
    var asked := Next(started, TimerFires(k));
    assert asked == started.(jobs := CancelLast(s.jobs) + [Job(f, from, false, Some(request), None)]);
    AnsweredFormIsSent(s, asked, f, from, answer);
  }

  lemma AnsweredFormIsSent(s: Bridge, asked: Bridge, f: Form, from: string, answer: Option<nat>)
    requires RawAmount(f).Some? && Complete(f, s.config) && s.wallet == Some(from) && RequestOf(f, from, s.config).transaction.from == from
    requires answer.Some? || s.gasOverride.Some?
    requires asked == s.(form := f, due := false, estimated := None, gas := Estimating,
                         jobs := CancelLast(s.jobs) + [Job(f, from, false, Some(RequestOf(f, from, s.config)), None)])
    ensures var k, m := |s.jobs|, |s.submissions|;
      var answered := Next(asked, if answer.Some? then Estimates(k, answer.value) else Unsupports(k));
      var t := Next(Next(answered, Clicks(true, true)), FeesArrive(m));
      && |t.sends| == |s.sends| + 1 && t.sends[..|s.sends|] == s.sends
      && var sent := t.sends[|s.sends|];
      && sent.request == RequestOf(f, from, s.config)
      && sent.gas == (if s.gasOverride.Some? then s.gasOverride.value else answer.value)
      && sent.overridden == s.gasOverride.Some?
  {
    hide RawAmount, RequestOf, Complete, Key, CancelLast;
  }
}
