/** What an action achieves when nothing stops it: a review is shown, an owner's approval is
    added, a quorum is sent. All the while the poll may go on around it. */
module TreasuryProgress {
  import opened Prelude
  import opened SafeQuorum
  import opened TreasuryProtocol
  import opened TreasurySafety
  import opened TreasuryCalm

  predicate AtRest(s: Screen) {
    !s.busy && s.action.Idle?
  }

  // ---------------------------------------------------------------------------
  // Reviewing
  // ---------------------------------------------------------------------------

  /** The answers that carry a review through. Only payments wait for the budget. */
  function ReviewRun(snapshot: Snapshot, epoch: nat, payload: int, payment: Option<Terms>): seq<ScreenEvent> {
    [Click(ReviewButton), GuardPasses, ActionSnapshot(snapshot), ActionBudget(epoch), ReviewBuilt(payload, payment)]
  }

  /** With a finished request dropped. */
  function Released(s: Screen): Screen {
    if s.intent.Some? then s.(storage := None, intent := None, outcome := None) else s
  }

  lemma ReviewAlone(s: Screen, snapshot: Snapshot, epoch: nat, payload: int, payment: Option<Terms>)
    requires AtRest(s) && (s.intent.None? || Terminal(s.outcome)) && ValidSnapshot(snapshot) && payment.Some? == s.payments
    ensures After(s, ReviewRun(snapshot, epoch, payload, payment))
            == Released(s).(review := Some(Review(s.nextTicket, SafeTransaction(payload, snapshot.nonce), snapshot, payment)),
                            approvals := [], nextTicket := s.nextTicket + 1)
  {
    hide After, Next, ValidSnapshot;
    var run := ReviewRun(snapshot, epoch, payload, payment);
    var reading := Released(s).(busy := true, action := RefreshSnapshot(ThenReview));
    AfterNothing(s);
    StepAt(s, run, 0, s);
    StepAt(s, run, 1, Next(s, Click(ReviewButton)));
    ReviewBegins(s);
    StepAt(s, run, 2, reading);
    StepAt(s, run, 3, Next(reading, ActionSnapshot(snapshot)));
    StepAt(s, run, 4, Next(Next(reading, ActionSnapshot(snapshot)), ActionBudget(epoch)));
    ReviewEnds(Released(s), reading, snapshot, epoch, payload, payment);
  }

  lemma ReviewBegins(s: Screen)
    requires AtRest(s) && (s.intent.None? || Terminal(s.outcome))
    ensures Next(Next(s, Click(ReviewButton)), GuardPasses) == Released(s).(busy := true, action := RefreshSnapshot(ThenReview))
  {
  }

  lemma ReviewEnds(base: Screen, reading: Screen, snapshot: Snapshot, epoch: nat, payload: int, payment: Option<Terms>)
    requires reading == base.(busy := true, action := RefreshSnapshot(ThenReview))
    requires ValidSnapshot(snapshot) && payment.Some? == base.payments
    ensures Next(Next(Next(reading, ActionSnapshot(snapshot)), ActionBudget(epoch)), ReviewBuilt(payload, payment))
            == base.(review := Some(Review(base.nextTicket, SafeTransaction(payload, snapshot.nonce), snapshot, payment)),
                     approvals := [], nextTicket := base.nextTicket + 1, busy := false, action := Idle)
  {
    hide ValidSnapshot, Unchanged;
  }

  /** From every reachable state at rest without an unfinished request, a review that is
      carried through is shown: of the payload built, at the snapshot's nonce, without
      approvals. A finished request is no longer tracked. */
  lemma UndisturbedReviewIsShown(payments: bool, events: seq<ScreenEvent>, run: seq<ScreenEvent>,
                                 snapshot: Snapshot, epoch: nat, payload: int, payment: Option<Terms>)
    requires var s := After(Mounted(payments), events);
      && AtRest(s) && (s.intent.None? || Terminal(s.outcome)) && Undisturbed(s, run)
      && ValidSnapshot(snapshot) && payment.Some? == s.payments
    requires Actions(run) == ReviewRun(snapshot, epoch, payload, payment)
    ensures var s := After(Mounted(payments), events); var t := After(s, run);
      && AtRest(t) && t.intent.None? && t.storage.None? && t.sends == s.sends
      && t.review == Some(Review(s.nextTicket, SafeTransaction(payload, snapshot.nonce), snapshot, payment)) && t.approvals == []
  {
    hide After, Undisturbed, ValidSnapshot;
    var s := After(Mounted(payments), events);
    InvAlways(payments, events);
    RestingIsAlike(s);
    Follows(s, run);
    ReviewAlone(s, snapshot, epoch, payload, payment);
    NothingJournalled(After(s, run));
  }

  lemma NothingJournalled(s: Screen)
    requires Inv(s) && s.intent.None?
    ensures s.storage.None?
  {
  }

  // ---------------------------------------------------------------------------
  // Approving
  // ---------------------------------------------------------------------------

  function SignRun(before: Snapshot, epoch: nat, after: Snapshot, later: nat): seq<ScreenEvent> {
    [Click(SignButton), GuardPasses, NetworkIsReady, ActionSnapshot(before), ActionBudget(epoch), FundingCovers,
     WalletSigns, ActionSnapshot(after), ActionBudget(later)]
  }

  /** A snapshot and a budget period that the review agrees with. */
  predicate Supports(r: Review, snapshot: Snapshot, epoch: nat) {
    && ValidSnapshot(snapshot) && Unchanged(r.snapshot, snapshot)
    && (r.payment.Some? && r.payment.value.kind != Transfer ==> r.payment.value.epoch == epoch)
  }

  /** The connected wallet is an owner that has not approved yet. */
  ghost predicate CanApprove(s: Screen)
    requires s.review.Some? && s.wallet.address.Some?
  {
    && (exists i :: 0 <= i < |s.review.value.snapshot.owners| && SameAddress(s.review.value.snapshot.owners[i], s.wallet.address.value))
    && (forall i :: 0 <= i < |s.approvals| ==> !SameAddress(s.approvals[i].owner, s.wallet.address.value))
  }

  lemma AsksWallet(s: Screen, ctx: Context, before: Snapshot, epoch: nat)
    requires s.review == Some(ctx.current) && s.intent.None? && s.wallet == ctx.wallet && s.approvals == ctx.approvals
    requires s.wallet.provider.Some? && s.wallet.address.Some? && s.action.Idle? && !s.busy
    requires Supports(ctx.current, before, epoch)
    ensures var read := s.(busy := true, action := RefreshSnapshot(ThenSign(ctx)));
      Next(Next(Next(read, ActionSnapshot(before)), ActionBudget(epoch)), FundingCovers)
      == if Approved(s.approvals, s.wallet.address.value) then s else s.(busy := true, action := WalletSigning(ctx, before))
  {
    hide ValidSnapshot, Unchanged, Approved, SameAddress;
  }

  lemma TakesApproval(s: Screen, ctx: Context, before: Snapshot, after: Snapshot, later: nat)
    requires s.review == Some(ctx.current) && s.intent.None? && s.wallet == ctx.wallet && s.approvals == ctx.approvals
    requires s.wallet.provider.Some? && s.wallet.address.Some? && s.action.Idle? && !s.busy
    requires Supports(ctx.current, after, later)
    ensures var asked := s.(busy := true, action := WalletSigning(ctx, before));
      Next(Next(Next(asked, WalletSigns), ActionSnapshot(after)), ActionBudget(later))
      == if Owns(before, s.wallet.address.value)
         then s.(approvals := s.approvals + [Approval(s.wallet.address.value, ctx.current.transaction, before, after)]) else s
  {
    hide ValidSnapshot, Unchanged, Owns;
  }

  /** The answers to a wallet that is not asked, or does not own the Safe, change nothing. */
  lemma NothingToTake(s: Screen, after: Snapshot, later: nat)
    requires s.action.Idle?
    ensures Next(Next(Next(s, WalletSigns), ActionSnapshot(after)), ActionBudget(later)) == s
  {
  }

  lemma OpensSigning(s: Screen, run: seq<ScreenEvent>)
    requires AtRest(s) && s.review.Some? && s.intent.None? && s.wallet.provider.Some? && s.wallet.address.Some?
    requires |run| > 3 && run[..3] == [Click(SignButton), GuardPasses, NetworkIsReady]
    ensures var ctx := Context(s.review.value, s.wallet, s.approvals);
      After(s, run[..3]) == s.(busy := true, action := RefreshSnapshot(ThenSign(ctx)))
  {
    hide After, Next;
    assert run[0] == run[..3][0] && run[1] == run[..3][1] && run[2] == run[..3][2];
    AfterNothing(s);
    StepAt(s, run, 0, s);
    StepAt(s, run, 1, Next(s, Click(SignButton)));
    StepAt(s, run, 2, Next(Next(s, Click(SignButton)), GuardPasses));
    ReachesReading(s);
  }

  lemma ReachesReading(s: Screen)
    requires AtRest(s) && s.review.Some? && s.intent.None? && s.wallet.provider.Some? && s.wallet.address.Some?
    ensures var ctx := Context(s.review.value, s.wallet, s.approvals);
      Next(Next(Next(s, Click(SignButton)), GuardPasses), NetworkIsReady) == s.(busy := true, action := RefreshSnapshot(ThenSign(ctx)))
  {
  }

  /** The whole signing run, by itself. */
  lemma SignAlone(s: Screen, before: Snapshot, epoch: nat, after: Snapshot, later: nat)
    requires AtRest(s) && s.review.Some? && s.intent.None? && s.wallet.provider.Some? && s.wallet.address.Some?
    requires ValidSnapshot(s.review.value.snapshot)
    requires Supports(s.review.value, before, epoch) && Supports(s.review.value, after, later)
    ensures After(s, SignRun(before, epoch, after, later))
            == if CanApprove(s)
               then s.(approvals := s.approvals + [Approval(s.wallet.address.value, s.review.value.transaction, before, after)]) else s
  {
    hide After, Next, Supports, SameAddress;
    var run, ctx := SignRun(before, epoch, after, later), Context(s.review.value, s.wallet, s.approvals);
    var reading := s.(busy := true, action := RefreshSnapshot(ThenSign(ctx)));
    assert run[..3] == [Click(SignButton), GuardPasses, NetworkIsReady];
    OpensSigning(s, run);
    StepAt(s, run, 3, reading);
    StepAt(s, run, 4, Next(reading, ActionSnapshot(before)));
    StepAt(s, run, 5, Next(Next(reading, ActionSnapshot(before)), ActionBudget(epoch)));
    AsksWallet(s, ctx, before, epoch);
    var asked := After(s, run[..6]);
    StepAt(s, run, 6, asked);
    StepAt(s, run, 7, Next(asked, WalletSigns));
    StepAt(s, run, 8, Next(Next(asked, WalletSigns), ActionSnapshot(after)));
    TakesApproval(s, ctx, before, after, later);
    NothingToTake(s, after, later);
    OwnsAgree(s.review.value.snapshot, before, s.wallet.address.value, epoch, s.review.value);
  }

  lemma OwnsAgree(a: Snapshot, b: Snapshot, owner: string, epoch: nat, r: Review)
    requires r.snapshot == a && ValidSnapshot(a) && Supports(r, b, epoch)
    ensures Owns(a, owner) <==> Owns(b, owner)
  {
    hide Unchanged, SameAddress;
    UnchangedSymmetric(a, b);
    if Owns(b, owner) { UnchangedOwns(a, b, owner); }
    if Owns(a, owner) { UnchangedOwns(b, a, owner); }
  }

  lemma UnchangedSymmetric(a: Snapshot, b: Snapshot)
    ensures Unchanged(a, b) <==> Unchanged(b, a)
  {
  }

  /** From every reachable state at rest with a review and no tracked request: when snapshots
      and periods agree, the funding covers and the wallet signs, exactly the approval of the
      connected wallet is appended iff it is a reviewed owner that has not approved; otherwise
      nothing changes. */
  lemma UndisturbedSigningApproves(payments: bool, events: seq<ScreenEvent>, run: seq<ScreenEvent>,
                                   before: Snapshot, epoch: nat, after: Snapshot, later: nat)
    requires var s := After(Mounted(payments), events);
      && AtRest(s) && s.review.Some? && s.intent.None? && s.wallet.provider.Some? && s.wallet.address.Some?
      && Supports(s.review.value, before, epoch) && Supports(s.review.value, after, later) && Undisturbed(s, run)
    requires Actions(run) == SignRun(before, epoch, after, later)
    ensures var s := After(Mounted(payments), events); var t := After(s, run);
      && AtRest(t) && t.review == s.review && t.intent.None? && t.wallet == s.wallet && t.sends == s.sends
      && t.approvals == s.approvals + if CanApprove(s)
                                      then [Approval(s.wallet.address.value, s.review.value.transaction, before, after)] else []
  {
    hide After, Undisturbed, Supports, CanApprove;
    var s := After(Mounted(payments), events);
    InvAlways(payments, events);
    RestingIsAlike(s);
    Follows(s, run);
    ReviewIsOk(s);
    SignAlone(s, before, epoch, after, later);
  }

  // ---------------------------------------------------------------------------
  // Submitting
  // ---------------------------------------------------------------------------

  /** The answers that carry a submission through. The funding check is waited for only by
      payments, and the fixture only by invoices; for other reviews they change nothing. */
  function SubmitRun(now: Snapshot, identity: Identity, sender: string, saves: bool): seq<ScreenEvent> {
    [Click(SubmitButton), GuardPasses, NetworkIsReady, FundingCovers, Prepared(now, identity, sender, saves), Armed(saves)]
  }

  /** A quorum is on screen, and the wallet, the chain and the journal agree to the request. */
  predicate Agreed(s: Screen, now: Snapshot, sender: string, saves: bool)
    requires s.review.Some? && s.wallet.address.Some?
  {
    && s.wallet.provider.Some? && SameAddress(s.wallet.address.value, sender)
    && DistinctAddresses(s.review.value.snapshot.owners) && Unchanged(s.review.value.snapshot, now) && saves
  }

  function Requested(s: Screen, identity: Identity, sender: string): Send
    requires s.review.Some?
  {
    Send(Intent(s.nextTicket, |s.sends|, identity, sender, s.review.value.payment.Some?, None), s.review.value, s.approvals)
  }

  /** Up to the preparation, which needs a wallet provider. */
  lemma OpensSubmission(s: Screen, run: seq<ScreenEvent>)
    requires SubmitEnabled(s)
    requires |run| > 4 && run[..4] == [Click(SubmitButton), GuardPasses, NetworkIsReady, FundingCovers]
    ensures var ctx := Context(s.review.value, s.wallet, s.approvals);
      After(s, run[..4]) == if s.wallet.provider.Some? then s.(busy := true, action := Preparing(ctx)) else s.(busy := false, action := Idle)
  {
    hide After, Next;
    assert run[0] == run[..4][0] && run[1] == run[..4][1] && run[2] == run[..4][2] && run[3] == run[..4][3];
    var clicked := Next(s, Click(SubmitButton));
    AfterNothing(s);
    StepAt(s, run, 0, s);
    StepAt(s, run, 1, clicked);
    StepAt(s, run, 2, Next(clicked, GuardPasses));
    StepAt(s, run, 3, Next(Next(clicked, GuardPasses), NetworkIsReady));
    ReachesPreparation(s);
  }

  lemma ReachesPreparation(s: Screen)
    requires SubmitEnabled(s)
    ensures var ctx := Context(s.review.value, s.wallet, s.approvals);
      Next(Next(Next(Next(s, Click(SubmitButton)), GuardPasses), NetworkIsReady), FundingCovers)
      == if s.wallet.provider.Some? then s.(busy := true, action := Preparing(ctx)) else s.(busy := false, action := Idle)
  {
  }

  /** The screen once the request is journalled and with the wallet. */
  function WithWallet(s: Screen, identity: Identity, sender: string): Screen
    requires s.review.Some?
  {
    var d := Requested(s, identity, sender);
    s.(busy := true, action := WalletSending(Context(s.review.value, s.wallet, s.approvals), d.intent),
       storage := Some(d.intent), intent := Some(d.intent), outcome := Some(Unknown),
       nextTicket := s.nextTicket + 1, sends := s.sends + [d])
  }

  lemma Closes(s: Screen, t: Screen, now: Snapshot, identity: Identity, sender: string, saves: bool)
    requires s.review.Some? && s.wallet.address.Some?
    requires DistinctAddresses(s.review.value.snapshot.owners) <==> Quorum(s.review.value.transaction, s.review.value.snapshot, s.approvals)
    requires var ctx := Context(s.review.value, s.wallet, s.approvals);
      t == if s.wallet.provider.Some? then s.(busy := true, action := Preparing(ctx)) else s.(busy := false, action := Idle)
    ensures var u := Next(Next(t, Prepared(now, identity, sender, saves)), Armed(saves));
      if Agreed(s, now, sender, saves) then u == WithWallet(s, identity, sender) else u.sends == s.sends
  {
    hide Unchanged, Quorum, DistinctAddresses, SameAddress;
  }

  lemma SubmitAlone(s: Screen, now: Snapshot, identity: Identity, sender: string, saves: bool)
    requires SubmitEnabled(s)
    requires DistinctAddresses(s.review.value.snapshot.owners) <==> Quorum(s.review.value.transaction, s.review.value.snapshot, s.approvals)
    ensures var u := After(s, SubmitRun(now, identity, sender, saves));
      if Agreed(s, now, sender, saves) then u == WithWallet(s, identity, sender) else u.sends == s.sends
  {
    hide After, Next, Agreed, WithWallet, Quorum, DistinctAddresses;
    var run := SubmitRun(now, identity, sender, saves);
    assert run[..4] == [Click(SubmitButton), GuardPasses, NetworkIsReady, FundingCovers];
    OpensSubmission(s, run);
    var t := After(s, run[..4]);
    StepAt(s, run, 4, t);
    StepAt(s, run, 5, Next(t, run[4]));
    Closes(s, t, now, identity, sender, saves);
  }

  /** From any reachable state with Submit enabled: while polls come and go without dropping
      the review, a submission that is carried through is sent, once, with the approvals on
      screen, iff wallet, owners, chain and journal agree; otherwise nothing is sent. */
  lemma UndisturbedSubmitSends(payments: bool, events: seq<ScreenEvent>, run: seq<ScreenEvent>,
                               now: Snapshot, identity: Identity, sender: string, saves: bool)
    requires var s := After(Mounted(payments), events); SubmitEnabled(s) && Undisturbed(s, run)
    requires Actions(run) == SubmitRun(now, identity, sender, saves)
    ensures var s := After(Mounted(payments), events);
      After(s, run).sends == s.sends + if Agreed(s, now, sender, saves) then [Requested(s, identity, sender)] else []
  {
    hide After, Undisturbed, Agreed, Requested, Quorum, DistinctAddresses;
    var s := After(Mounted(payments), events);
    InvAlways(payments, events);
    SubmitMeansQuorum(payments, events);
    QuorumNeedsDistinct(s.review.value.transaction, s.review.value.snapshot, s.approvals);
    assert !ReviewUnderWay(s.action);
    RestingIsAlike(s);
    Follows(s, run);
    SubmitAlone(s, now, identity, sender, saves);
  }

  lemma QuorumNeedsDistinct(transaction: SafeTransaction, snapshot: Snapshot, approvals: seq<Approval>)
    ensures Quorum(transaction, snapshot, approvals) ==> DistinctAddresses(snapshot.owners)
  {
  }

  // ---------------------------------------------------------------------------
  // Settling
  // ---------------------------------------------------------------------------

  function PollRun(snapshot: Snapshot, epoch: nat, result: Result, remembers: bool, writes: bool, rewrites: bool): seq<ScreenEvent> {
    [PollRestarts, PollStarts, PollSnapshot(snapshot), PollBudget(epoch), PollOutcome(result, remembers, writes, rewrites)]
  }

  /** What a poll round makes of a tracked request. A final result that history remembers
      releases it and clears screen and journal; another one is journalled with what was
      learned; and where a write fails the request shows as unknown, as it was. */
  function Decided(s: Screen, i: Intent, result: Result, remembers: bool, writes: bool, rewrites: bool): Screen {
    var kept, final := !i.payment || remembers, result.outcome.Settled? || result.outcome.Rejected?;
    var learned := if result.hash.Some? && result.hash != i.hash then i.(hash := result.hash, ticket := s.nextTicket) else i;
    s.(poll := Sleeping, nextTicket := s.nextTicket + 1,
       intent := Some(if kept && (final || writes) then learned else i),
       outcome := Some(if kept && (final || writes) then result.outcome else Unknown),
       storage := if kept && final then None else if kept && writes then Some(learned) else if rewrites then Some(i) else s.storage,
       released := if kept && final then s.released + {i.tag} else s.released,
       review := if kept && final then None else s.review,
       approvals := if kept && final then [] else s.approvals)
  }

  lemma Decides(s: Screen, epoch: Option<nat>, i: Intent, result: Result, remembers: bool, writes: bool, rewrites: bool)
    requires s.intent == Some(i) && (s.storage.Some? ==> SameRequest(s.storage.value, i))
    ensures PollFinished(s, epoch, i, result, remembers, writes, rewrites) == Decided(s, i, result, remembers, writes, rewrites)
  {
    hide Observed, Decided;
    ObservedDecides(s, i, result, remembers, writes, rewrites);
  }

  lemma ObservedDecides(s: Screen, i: Intent, result: Result, remembers: bool, writes: bool, rewrites: bool)
    requires s.intent == Some(i) && (s.storage.Some? ==> SameRequest(s.storage.value, i))
    ensures Observed(s, i, result, remembers, writes, rewrites) == Decided(s, i, result, remembers, writes, rewrites)
  {
  }

  /** The journal never holds another request than the one tracked. */
  lemma NoConflict(s: Screen)
    requires Inv(s) && s.intent.Some?
    ensures s.storage.Some? ==> SameRequest(s.storage.value, s.intent.value)
  {
  }

  /** From every reachable state with a tracked request, whatever the user is doing, a poll
      round that is carried through decides it. */
  lemma UndisturbedPollDecides(payments: bool, events: seq<ScreenEvent>, snapshot: Snapshot, epoch: nat,
                               result: Result, remembers: bool, writes: bool, rewrites: bool)
    requires var s := After(Mounted(payments), events); s.intent.Some? && ValidSnapshot(snapshot)
    ensures var s := After(Mounted(payments), events);
      After(s, PollRun(snapshot, epoch, result, remembers, writes, rewrites))
      == Decided(s, s.intent.value, result, remembers, writes, rewrites)
  {
    hide After, Inv, ValidSnapshot, Decided;
    InvAlways(payments, events);
    PollAlone(After(Mounted(payments), events), snapshot, epoch, result, remembers, writes, rewrites);
  }

  lemma PollAlone(s: Screen, snapshot: Snapshot, epoch: nat, result: Result, remembers: bool, writes: bool, rewrites: bool)
    requires Inv(s) && s.intent.Some? && ValidSnapshot(snapshot)
    ensures After(s, PollRun(snapshot, epoch, result, remembers, writes, rewrites))
            == Decided(s, s.intent.value, result, remembers, writes, rewrites)
  {
    hide After, Next, Inv, ValidSnapshot, Decided;
    var run, restarted := PollRun(snapshot, epoch, result, remembers, writes, rewrites), Next(s, PollRestarts);
    var asked := Next(Next(Next(restarted, PollStarts), PollSnapshot(snapshot)), PollBudget(epoch));
    AfterNothing(s);
    StepAt(s, run, 0, s);
    StepAt(s, run, 1, restarted);
    StepAt(s, run, 2, Next(restarted, PollStarts));
    StepAt(s, run, 3, Next(Next(restarted, PollStarts), PollSnapshot(snapshot)));
    StepAt(s, run, 4, asked);
    Asks(s, snapshot, epoch);
    Answers(s, asked, result, remembers, writes, rewrites);
  }

  lemma Asks(s: Screen, snapshot: Snapshot, epoch: nat)
    requires s.intent.Some? && ValidSnapshot(snapshot)
    ensures Next(Next(Next(Next(s, PollRestarts), PollStarts), PollSnapshot(snapshot)), PollBudget(epoch))
            == s.(poll := ReadingOutcome(if s.payments then Some(epoch) else None, s.intent.value))
  {
    hide ValidSnapshot;
  }

  lemma Answers(s: Screen, asked: Screen, result: Result, remembers: bool, writes: bool, rewrites: bool)
    requires Inv(s) && s.intent.Some?
    requires asked.poll.ReadingOutcome? && asked.poll.current == s.intent.value && asked == s.(poll := asked.poll)
    ensures Next(asked, PollOutcome(result, remembers, writes, rewrites)) == Decided(s, s.intent.value, result, remembers, writes, rewrites)
  {
    hide Inv, PollFinished, SameRequest;
    NoConflict(s);
    Decides(asked, asked.poll.epoch, s.intent.value, result, remembers, writes, rewrites);
  }
}
