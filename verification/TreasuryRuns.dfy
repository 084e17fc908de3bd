/** Runs of the treasury screen up to a submission, for any single owner, payload, nonce,
    payment terms and request identity. */
module TreasuryRuns {
  import opened Prelude
  import opened Numerals
  import opened SafeQuorum
  import opened TreasuryProtocol

  datatype Setup = Setup(owner: string, payload: int, nonce: nat, terms: Terms, identity: Identity)

  function Before(u: Setup): Snapshot {
    Snapshot(L2, [u.owner], 1, u.nonce)
  }

  function Signer(u: Setup): Wallet {
    Wallet(Some(0), Some(u.owner))
  }

  function Call(u: Setup): SafeTransaction {
    SafeTransaction(u.payload, u.nonce)
  }

  function ReviewOf(u: Setup): Review {
    Review(0, Call(u), Before(u), Some(u.terms))
  }

  function ApprovalOf(u: Setup): Approval {
    Approval(u.owner, Call(u), Before(u), Before(u))
  }

  function RequestOf(u: Setup): Intent {
    Intent(1, 0, u.identity, u.owner, true, None)
  }

  lemma Facts(u: Setup)
    requires IsAddress(u.owner)
    ensures ValidSnapshot(Before(u)) && Unchanged(Before(u), Before(u))
    ensures Owns(Before(u), u.owner) && !Approved([], u.owner) && SameAddress(u.owner, u.owner)
    ensures Quorum(Call(u), Before(u), [ApprovalOf(u)])
  {
    assert SameAddress(Before(u).owners[0], u.owner);
  }

  /** The screen with a wallet connected, nothing in flight, and the given work done. */
  function Resting(u: Setup, review: Option<Review>, approvals: seq<Approval>, ticket: nat): Screen {
    Mounted(true).(wallet := Signer(u), review := review, approvals := approvals, nextTicket := ticket)
  }

  function Busy(s: Screen, a: Action): Screen {
    s.(busy := true, action := a)
  }

  /** One more event after a run that ended in `from`. */
  lemma Then(events: seq<ScreenEvent>, from: Screen, e: ScreenEvent, to: Screen) returns (longer: seq<ScreenEvent>)
    requires After(Mounted(true), events) == from && Next(from, e) == to
    ensures After(Mounted(true), longer) == to
  {
    hide Next;
    longer := events + [e];
    AfterOneMore(Mounted(true), events, e);
  }

  lemma Reviewing(u: Setup) returns (events: seq<ScreenEvent>)
    requires IsAddress(u.owner)
    ensures After(Mounted(true), events) == Resting(u, Some(ReviewOf(u)), [], 1)
  {
    hide ValidSnapshot, Unchanged, After;
    Facts(u);
    var rest := Resting(u, None, [], 0);
    events := Nothing();
    events := Then(events, Mounted(true), WalletChanges(Signer(u)), rest);
    events := Then(events, rest, Click(ReviewButton), Busy(rest, Queued(ReviewButton, [])));
    events := Then(events, Busy(rest, Queued(ReviewButton, [])), GuardPasses, Busy(rest, RefreshSnapshot(ThenReview)));
    events := Then(events, Busy(rest, RefreshSnapshot(ThenReview)), ActionSnapshot(Before(u)), Busy(rest, RefreshBudget(ThenReview, Before(u))));
    events := Then(events, Busy(rest, RefreshBudget(ThenReview, Before(u))), ActionBudget(u.terms.epoch), Busy(rest, Building(Before(u))));
    events := Then(events, Busy(rest, Building(Before(u))), ReviewBuilt(u.payload, Some(u.terms)), Resting(u, Some(ReviewOf(u)), [], 1));
  }

  lemma Nothing() returns (events: seq<ScreenEvent>)
    ensures After(Mounted(true), events) == Mounted(true)
  {
    events := [];
  }

  lemma Approving(u: Setup) returns (events: seq<ScreenEvent>)
    requires IsAddress(u.owner)
    ensures After(Mounted(true), events) == Resting(u, Some(ReviewOf(u)), [ApprovalOf(u)], 1)
  {
    hide ValidSnapshot, Unchanged, After, Owns, Approved, SameAddress;
    Facts(u);
    var rest := Resting(u, Some(ReviewOf(u)), [], 1);
    var ctx := Context(ReviewOf(u), Signer(u), []);
    events := Reviewing(u);
    events := Then(events, rest, Click(SignButton), Busy(rest, Queued(SignButton, [])));
    events := Then(events, Busy(rest, Queued(SignButton, [])), GuardPasses, Busy(rest, CheckingNetwork(Signing, ctx)));
    events := Then(events, Busy(rest, CheckingNetwork(Signing, ctx)), NetworkIsReady, Busy(rest, RefreshSnapshot(ThenSign(ctx))));
    events := Then(events, Busy(rest, RefreshSnapshot(ThenSign(ctx))), ActionSnapshot(Before(u)), Busy(rest, RefreshBudget(ThenSign(ctx), Before(u))));
    events := Then(events, Busy(rest, RefreshBudget(ThenSign(ctx), Before(u))), ActionBudget(u.terms.epoch), Busy(rest, FundingSign(ctx, Before(u))));
    events := Signed(u, events);
  }

  lemma Signed(u: Setup, before: seq<ScreenEvent>) returns (events: seq<ScreenEvent>)
    requires IsAddress(u.owner)
    requires After(Mounted(true), before) == Busy(Resting(u, Some(ReviewOf(u)), [], 1), FundingSign(Context(ReviewOf(u), Signer(u), []), Before(u)))
    ensures After(Mounted(true), events) == Resting(u, Some(ReviewOf(u)), [ApprovalOf(u)], 1)
  {
    hide ValidSnapshot, Unchanged, After, Owns, Approved, SameAddress;
    Facts(u);
    var rest := Resting(u, Some(ReviewOf(u)), [], 1);
    var ctx := Context(ReviewOf(u), Signer(u), []);
    events := before;
    events := Then(events, Busy(rest, FundingSign(ctx, Before(u))), FundingCovers, Busy(rest, WalletSigning(ctx, Before(u))));
    events := Then(events, Busy(rest, WalletSigning(ctx, Before(u))), WalletSigns, Busy(rest, RefreshSnapshot(ThenApprove(ctx, ApprovalOf(u)))));
    events := Then(events, Busy(rest, RefreshSnapshot(ThenApprove(ctx, ApprovalOf(u)))), ActionSnapshot(Before(u)),
                   Busy(rest, RefreshBudget(ThenApprove(ctx, ApprovalOf(u)), Before(u))));
    assert [] + [ApprovalOf(u)] == [ApprovalOf(u)];
    events := Then(events, Busy(rest, RefreshBudget(ThenApprove(ctx, ApprovalOf(u)), Before(u))), ActionBudget(u.terms.epoch), Resting(u, Some(ReviewOf(u)), [ApprovalOf(u)], 1));
  }

  function Captured(u: Setup): Context {
    Context(ReviewOf(u), Signer(u), [ApprovalOf(u)])
  }

  /** Reviewed, approved, and the submission about to be prepared. */
  lemma Submission(u: Setup) returns (events: seq<ScreenEvent>)
    requires IsAddress(u.owner)
    ensures After(Mounted(true), events) == Busy(Resting(u, Some(ReviewOf(u)), [ApprovalOf(u)], 1), Preparing(Captured(u)))
  {
    hide ValidSnapshot, Unchanged, After, Owns, Approved, SameAddress, Quorum;
    Facts(u);
    var rest, ctx := Resting(u, Some(ReviewOf(u)), [ApprovalOf(u)], 1), Captured(u);
    events := Approving(u);
    events := Then(events, rest, Click(SubmitButton), Busy(rest, Queued(SubmitButton, [ApprovalOf(u)])));
    events := Then(events, Busy(rest, Queued(SubmitButton, [ApprovalOf(u)])), GuardPasses, Busy(rest, CheckingNetwork(Submitting, ctx)));
    events := Then(events, Busy(rest, CheckingNetwork(Submitting, ctx)), NetworkIsReady, Busy(rest, FundingSubmit(ctx)));
    events := Then(events, Busy(rest, FundingSubmit(ctx)), FundingCovers, Busy(rest, Preparing(ctx)));
  }
}
