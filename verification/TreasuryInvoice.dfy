/** A submission that pays an invoice waits for the invoice fixture after its last look at
    the review, so, unlike every other submission, it can be sent after the review was
    cleared, or from a wallet that is no longer connected. The runs below show both, for
    every owner, payload, nonce and budget period. */
module TreasuryInvoice {
  import opened Prelude
  import opened Numerals
  import opened SafeQuorum
  import opened TreasuryProtocol
  import opened TreasurySafety
  import opened TreasuryRuns

  function AtFixture(u: Setup): Screen {
    Busy(Resting(u, Some(ReviewOf(u)), [ApprovalOf(u)], 2), Arming(Captured(u), RequestOf(u)))
  }

  lemma Reach(u: Setup) returns (events: seq<ScreenEvent>)
    requires IsAddress(u.owner) && u.terms.kind == Invoice
    ensures After(Mounted(true), events) == AtFixture(u)
  {
    hide ValidSnapshot, Unchanged, After, Owns, Approved, SameAddress, Quorum;
    Facts(u);
    events := Submission(u);
    events := Then(events, Busy(Resting(u, Some(ReviewOf(u)), [ApprovalOf(u)], 1), Preparing(Captured(u))),
                   Prepared(Before(u), u.identity, u.owner, true), AtFixture(u));
  }

  /** While the fixture is armed the poll reads a snapshot that differs, and clears the review. */
  lemma Clearing(u: Setup, later: Snapshot) returns (events: seq<ScreenEvent>)
    requires IsAddress(u.owner) && u.terms.kind == Invoice && ValidSnapshot(later) && !Unchanged(Before(u), later)
    ensures After(Mounted(true), events) == ClearReview(AtFixture(u)).(poll := ReadingBudget)
  {
    hide ValidSnapshot, Unchanged, After, Owns, Quorum;
    events := Reach(u);
    events := Then(events, AtFixture(u), PollStarts, AtFixture(u).(poll := ReadingSnapshot));
    events := Then(events, AtFixture(u).(poll := ReadingSnapshot), PollSnapshot(later), ClearReview(AtFixture(u)).(poll := ReadingBudget));
  }

  /** A reachable step that sends an invoice payment whose review is no longer on screen. */
  lemma InvoiceCanBeSentAfterItsReviewWasCleared(u: Setup, later: Snapshot) returns (events: seq<ScreenEvent>)
    requires IsAddress(u.owner) && u.terms.kind == Invoice && ValidSnapshot(later) && !Unchanged(Before(u), later)
    ensures var s := After(Mounted(true), events); var t := Next(s, Armed(true));
      && s.review.None? && s.approvals == []
      && t.sends == s.sends + [Send(RequestOf(u), ReviewOf(u), [ApprovalOf(u)])]
  {
    hide After;
    events := Clearing(u, later);
  }

  /** Another reachable step: while the fixture is armed the wallet changes to any other
      account, and the request still names the earlier one as its sender. */
  lemma InvoiceCanBeSentFromADisconnectedSender(u: Setup, other: Wallet) returns (events: seq<ScreenEvent>)
    requires IsAddress(u.owner) && u.terms.kind == Invoice
    requires other.address.None? || !SameAddress(other.address.value, u.owner)
    ensures var s := After(Mounted(true), events); var t := Next(s, Armed(true));
      && s.review == Some(ReviewOf(u)) && !Connected(s, u.owner)
      && t.sends == s.sends + [Send(RequestOf(u), ReviewOf(u), [ApprovalOf(u)])]
  {
    hide After, SameAddress;
    events := Reach(u);
    events := Then(events, AtFixture(u), WalletChanges(other), AtFixture(u).(wallet := other));
  }
}
