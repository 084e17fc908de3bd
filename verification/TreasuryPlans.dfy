/** Whole payments: any list of payments, each reviewed, approved by as many owners as the
    Safe asks for, sent, and observed settled before the next. */
module TreasuryPlans {
  import opened Prelude
  import opened Numerals
  import opened SafeQuorum
  import opened TreasuryProtocol
  import opened TreasurySafety
  import opened TreasuryCalm
  import opened TreasuryProgress

  datatype Plan = Plan(snapshot: Snapshot, payload: int, payment: Option<Terms>, identity: Identity, hash: string)

  /** Any owners with different addresses, and any threshold that they can reach. */
  predicate Payable(p: Plan, payments: bool) {
    && 0 < p.snapshot.threshold <= |p.snapshot.owners|
    && (forall i :: 0 <= i < |p.snapshot.owners| ==> IsAddress(p.snapshot.owners[i]))
    && (forall i, j :: 0 <= i < j < |p.snapshot.owners| ==> Lower(p.snapshot.owners[i]) != Lower(p.snapshot.owners[j]))
    && p.payment.Some? == payments
  }

  lemma PayableIsValid(p: Plan, payments: bool)
    requires Payable(p, payments)
    ensures ValidSnapshot(p.snapshot) && DistinctAddresses(p.snapshot.owners) && p.payment.Some? == payments
  {
  }

  function PlanCall(p: Plan): SafeTransaction {
    SafeTransaction(p.payload, p.snapshot.nonce)
  }

  function Period(p: Plan): nat {
    if p.payment.Some? then p.payment.value.epoch else 0
  }

  function OwnersApproval(p: Plan, k: nat): Approval
    requires k < |p.snapshot.owners|
  {
    Approval(p.snapshot.owners[k], PlanCall(p), p.snapshot, p.snapshot)
  }

  /** The approvals of the first k owners. */
  function FirstApprovals(p: Plan, k: nat): (r: seq<Approval>)
    requires k <= |p.snapshot.owners|
    ensures |r| == k && forall i :: 0 <= i < k ==> r[i] == OwnersApproval(p, i)
  {
    seq(k, i requires 0 <= i < k => OwnersApproval(p, i))
  }

  /** A send that pays the plan: its transaction, under its snapshot and terms, approved by
      exactly the first owners up to the threshold. */
  ghost predicate Pays(d: Send, p: Plan)
    requires p.snapshot.threshold <= |p.snapshot.owners|
  {
    && d.review.transaction == SafeTransaction(p.payload, p.snapshot.nonce)
    && d.review.snapshot == p.snapshot && d.review.payment == p.payment
    && d.approvals == FirstApprovals(p, p.snapshot.threshold)
    && d.intent.identity == p.identity
  }

  /** At rest, with no unfinished request. */
  predicate Ready(s: Screen) {
    AtRest(s) && (s.intent.None? || Terminal(s.outcome))
  }

  lemma {:induction false} InParts(s: Screen, a: seq<ScreenEvent>, b: seq<ScreenEvent>)
    ensures After(s, a + b) == After(After(s, a), b)
  {
    if b == [] {
      assert a + b == a;
    } else {
      hide Next;
      var init, last := b[..|b| - 1], b[|b| - 1];
      InParts(s, a, init);
      assert a + b == (a + init) + [last];
      AfterOneMore(s, a + init, last);
    }
  }

  lemma OneEvent(s: Screen, e: ScreenEvent)
    ensures After(s, [e]) == Next(s, e)
  {
    hide Next;
    assert [e][..0] == [];
  }

  lemma AgreesWithItself(p: Plan, ticket: nat)
    requires ValidSnapshot(p.snapshot)
    ensures Supports(Review(ticket, PlanCall(p), p.snapshot, p.payment), p.snapshot, Period(p))
    ensures Unchanged(p.snapshot, p.snapshot)
  {
    hide Fingerprint, ValidSnapshot;
  }

  /** The next owner connects and signs. */
  lemma NextApproval(s: Screen, p: Plan, ticket: nat, k: nat) returns (run: seq<ScreenEvent>)
    requires AtRest(s) && s.intent.None? && k < |p.snapshot.owners|
    requires ValidSnapshot(p.snapshot) && DistinctAddresses(p.snapshot.owners)
    requires s.review == Some(Review(ticket, PlanCall(p), p.snapshot, p.payment)) && s.approvals == FirstApprovals(p, k)
    ensures After(s, run) == s.(wallet := Wallet(Some(0), Some(p.snapshot.owners[k])), approvals := FirstApprovals(p, k + 1))
  {
    hide After, Supports, SameAddress, ValidSnapshot;
    var owner := p.snapshot.owners[k];
    var signing := SignRun(p.snapshot, Period(p), p.snapshot, Period(p));
    var connected := s.(wallet := Wallet(Some(0), Some(owner)));
    run := [WalletChanges(connected.wallet)] + signing;
    OneEvent(s, WalletChanges(connected.wallet));
    InParts(s, [WalletChanges(connected.wallet)], signing);
    AgreesWithItself(p, ticket);
    NotYetApproved(connected, p, k);
    SignAlone(connected, p.snapshot, Period(p), p.snapshot, Period(p));
    assert FirstApprovals(p, k + 1) == FirstApprovals(p, k) + [OwnersApproval(p, k)];
  }

  lemma NotYetApproved(s: Screen, p: Plan, k: nat)
    requires s.review.Some? && s.review.value.snapshot == p.snapshot && k < |p.snapshot.owners|
    requires s.wallet.address == Some(p.snapshot.owners[k]) && s.approvals == FirstApprovals(p, k)
    requires DistinctAddresses(p.snapshot.owners)
    ensures CanApprove(s)
  {
    hide Lower;
    assert SameAddress(p.snapshot.owners[k], p.snapshot.owners[k]);
  }

  lemma {:induction false} Collects(s: Screen, p: Plan, ticket: nat, k: nat) returns (run: seq<ScreenEvent>)
    requires AtRest(s) && s.intent.None? && 0 < k <= |p.snapshot.owners|
    requires ValidSnapshot(p.snapshot) && DistinctAddresses(p.snapshot.owners)
    requires s.review == Some(Review(ticket, PlanCall(p), p.snapshot, p.payment)) && s.approvals == []
    ensures After(s, run) == s.(wallet := Wallet(Some(0), Some(p.snapshot.owners[k - 1])), approvals := FirstApprovals(p, k))
  {
    hide After, ValidSnapshot, DistinctAddresses;
    if k == 1 {
      run := NextApproval(s, p, ticket, 0);
    } else {
      var first := Collects(s, p, ticket, k - 1);
      var last := NextApproval(After(s, first), p, ticket, k - 1);
      run := first + last;
      InParts(s, first, last);
    }
  }

  /** With the quorum on screen, the submission goes through and is answered with a hash. */
  lemma Sends(s: Screen, p: Plan, ticket: nat) returns (run: seq<ScreenEvent>)
    requires AtRest(s) && s.intent.None? && ValidSnapshot(p.snapshot) && DistinctAddresses(p.snapshot.owners)
    requires s.review == Some(Review(ticket, PlanCall(p), p.snapshot, p.payment))
    requires s.approvals == FirstApprovals(p, p.snapshot.threshold)
    requires s.wallet == Wallet(Some(0), Some(p.snapshot.owners[p.snapshot.threshold - 1]))
    ensures var t := After(s, run);
      && AtRest(t) && t.intent.Some? && t.intent.value.tag == |s.sends| && t.released == s.released && t.payments == s.payments
      && |t.sends| == |s.sends| + 1 && t.sends[..|s.sends|] == s.sends && Pays(t.sends[|s.sends|], p)
  {
    hide After, Quorum, Unchanged;
    var sender := p.snapshot.owners[p.snapshot.threshold - 1];
    var submission := SubmitRun(p.snapshot, p.identity, sender, true);
    AgreesWithItself(p, ticket);
    FirstAreQuorum(p);
    SubmitAlone(s, p.snapshot, p.identity, sender, true);
    assert Agreed(s, p.snapshot, sender, true);
    run := submission + [WalletReturns(p.hash, true)];
    InParts(s, submission, [WalletReturns(p.hash, true)]);
    OneEvent(After(s, submission), WalletReturns(p.hash, true));
  }

  lemma FirstAreQuorum(p: Plan)
    requires ValidSnapshot(p.snapshot) && DistinctAddresses(p.snapshot.owners)
    ensures Quorum(PlanCall(p), p.snapshot, FirstApprovals(p, p.snapshot.threshold))
  {
    hide Lower;
    forall i | 0 <= i < p.snapshot.threshold ensures Owns(p.snapshot, p.snapshot.owners[i]) {
      assert SameAddress(p.snapshot.owners[i], p.snapshot.owners[i]);
    }
  }

  /** From every state at rest without an unfinished request, every payable plan can be
      reviewed, approved, sent and settled, and the screen is ready for the next. */
  lemma PlanIsPaid(payments: bool, events: seq<ScreenEvent>, p: Plan) returns (run: seq<ScreenEvent>)
    requires var s := After(Mounted(payments), events); Ready(s) && Payable(p, s.payments)
    ensures var s := After(Mounted(payments), events); var t := After(s, run);
      && Ready(t) && t.payments == s.payments && t.outcome == Some(Settled) && t.released == s.released + {|s.sends|}
      && |t.sends| == |s.sends| + 1 && t.sends[..|s.sends|] == s.sends && Pays(t.sends[|s.sends|], p)
  {
    hide After, Inv, Pays, Terminal, ValidSnapshot, DistinctAddresses, Payable;
    var s := After(Mounted(payments), events);
    PayableIsValid(p, s.payments);
    var review := ReviewRun(p.snapshot, Period(p), p.payload, p.payment);
    ReviewAlone(s, p.snapshot, Period(p), p.payload, p.payment);
    var reviewed := After(s, review);
    ThresholdFits(p);
    var approve := Collects(reviewed, p, s.nextTicket, p.snapshot.threshold);
    var approved := After(reviewed, approve);
    var send := Sends(approved, p, s.nextTicket);
    var sent := After(approved, send);
    var settle := PollRun(p.snapshot, Period(p), Result(Settled, None), true, true, true);
    run := review + approve + send + settle;
    InParts(s, review, approve);
    InParts(s, review + approve, send);
    InParts(s, review + approve + send, settle);
    InParts(Mounted(payments), events, review + approve + send);
    InvAlways(payments, events + (review + approve + send));
    PollAlone(sent, p.snapshot, Period(p), Result(Settled, None), true, true, true);
    assert Terminal(Some(Settled)) by { SettledIsFinal(); }
  }

  lemma SettledIsFinal()
    ensures Terminal(Some(Settled))
  {
  }

  lemma ThresholdFits(p: Plan)
    requires ValidSnapshot(p.snapshot)
    ensures 0 < p.snapshot.threshold <= |p.snapshot.owners|
  {
  }

  /** Every list of payable plans, of any length and with any thresholds, is paid by some run:
      one send each, in order, all of them released at the end. */
  lemma {:induction false} EveryPlanIsPaid(payments: bool, plans: seq<Plan>) returns (events: seq<ScreenEvent>)
    requires forall i :: 0 <= i < |plans| ==> Payable(plans[i], payments)
    ensures var t := After(Mounted(payments), events);
      && Ready(t) && t.payments == payments && Unreleased(t) == {} && AllPaid(t.sends, plans)
  {
    hide After, Pays, ValidSnapshot, DistinctAddresses, Unreleased, Ready, Mounted, Payable;
    if plans == [] {
      events := [];
      NothingPaid(payments);
    } else {
      var n := |plans| - 1;
      var earlier := EveryPlanIsPaid(payments, plans[..n]);
      var run := PlanIsPaid(payments, earlier, plans[n]);
      events := earlier + run;
      InParts(Mounted(payments), earlier, run);
      PayableIsValid(plans[n], payments);
      ThresholdFits(plans[n]);
      var s, t := After(Mounted(payments), earlier), After(Mounted(payments), events);
      OneMorePaid(s.sends, t.sends, plans);
      AllReleased(s, t, n);
    }
  }

  lemma NothingPaid(payments: bool)
    ensures var t := After(Mounted(payments), []);
      Ready(t) && t.payments == payments && Unreleased(t) == {} && AllPaid(t.sends, [])
  {
  }

  ghost predicate AllPaid(sends: seq<Send>, plans: seq<Plan>) {
    && |sends| == |plans|
    && forall i :: 0 <= i < |plans| ==> plans[i].snapshot.threshold <= |plans[i].snapshot.owners| && Pays(sends[i], plans[i])
  }

  lemma OneMorePaid(earlier: seq<Send>, sends: seq<Send>, plans: seq<Plan>)
    requires plans != [] && AllPaid(earlier, plans[..|plans| - 1]) && |sends| == |plans| && sends[..|plans| - 1] == earlier
    requires var last := plans[|plans| - 1];
      last.snapshot.threshold <= |last.snapshot.owners| && Pays(sends[|plans| - 1], last)
    ensures AllPaid(sends, plans)
  {
    hide Pays;
    var n := |plans| - 1;
    forall i | 0 <= i < |plans| ensures plans[i].snapshot.threshold <= |plans[i].snapshot.owners| && Pays(sends[i], plans[i]) {
      if i < n {
        assert plans[..n][i] == plans[i] && sends[i] == sends[..n][i] == earlier[i];
      }
    }
  }

  lemma AllReleased(s: Screen, t: Screen, n: nat)
    requires |s.sends| == n && |t.sends| == n + 1 && Unreleased(s) == {} && t.released == s.released + {n}
    ensures Unreleased(t) == {}
  {
    forall k | k in Unreleased(t) ensures k in Unreleased(s) {
    }
  }
}
