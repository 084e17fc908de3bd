/** What holds in every reachable state of the treasury screen. */
module TreasurySafety {
  import opened Prelude
  import opened SafeQuorum
  import opened TreasuryProtocol

  // ---------------------------------------------------------------------------
  // The invariant
  // ---------------------------------------------------------------------------

  /** Whatever is unreleased is in the journal, and whatever is in the journal is tracked. */
  ghost predicate JournalOk(s: Screen) {
    && (s.storage.Some? ==> s.intent.Some? && s.storage.value.tag == s.intent.value.tag && SameRequest(s.storage.value, s.intent.value))
    && (forall k :: 0 <= k < |s.sends| && k !in s.released ==> s.storage.Some? && s.storage.value.tag == k)
    && (forall k :: k in s.released ==> k < |s.sends|)
    && (s.intent.Some? ==> s.intent.value.tag < |s.sends| && s.intent.value.identity == s.sends[s.intent.value.tag].intent.identity)
    && (Terminal(s.outcome) ==> s.intent.Some? && s.intent.value.tag in s.released && s.storage.None?)
  }

  predicate ReviewOk(r: Review) {
    ValidSnapshot(r.snapshot) && r.transaction.nonce == r.snapshot.nonce
  }

  /** Signed for the reviewed transaction, by an owner, between two unchanged snapshots. */
  predicate ApprovalOk(a: Approval, r: Review) {
    && a.transaction == r.transaction
    && ValidSnapshot(a.before) && Unchanged(r.snapshot, a.before)
    && ValidSnapshot(a.after) && Unchanged(r.snapshot, a.after)
    && Owns(a.before, a.owner)
  }

  ghost predicate ApprovalsOk(s: Screen) {
    if s.review.None? then s.approvals == []
    else
      && ReviewOk(s.review.value)
      && DistinctOwners(s.approvals)
      && forall i :: 0 <= i < |s.approvals| ==> ApprovalOk(s.approvals[i], s.review.value)
  }

  /** A send carried a quorum for the transaction that was reviewed. */
  ghost predicate SendOk(d: Send) {
    ReviewOk(d.review) && Quorum(d.review.transaction, d.review.snapshot, d.approvals)
  }

  ghost predicate SendsOk(sends: seq<Send>) {
    forall k :: 0 <= k < |sends| ==> SendOk(sends[k]) && sends[k].intent.tag == k
  }

  ghost predicate Core(s: Screen) {
    JournalOk(s) && ApprovalsOk(s) && SendsOk(s.sends)
  }

  /** While an action runs, its review stays on screen or is cleared; nothing replaces it. */
  ghost predicate ContextOk(s: Screen, ctx: Context) {
    ReviewOk(ctx.current) && (s.review.Some? ==> s.review.value == ctx.current && s.approvals == ctx.approvals)
  }

  ghost predicate ContinuationOk(s: Screen, next: Continuation) {
    match next
    case ThenStop => true
    case ThenReview => true
    case ThenSign(ctx) => ContextOk(s, ctx)
    case ThenApprove(ctx, a) =>
      && ContextOk(s, ctx)
      && a.transaction == ctx.current.transaction
      && ValidSnapshot(a.before) && Unchanged(ctx.current.snapshot, a.before)
      && Owns(a.before, a.owner) && !Approved(ctx.approvals, a.owner)
      && ctx.wallet.address == Some(a.owner)
  }

  ghost predicate Sent(s: Screen, i: Intent) {
    s.intent.Some? && s.intent.value.tag == i.tag && s.intent.value.identity == i.identity
  }

  ghost predicate ActionOk(s: Screen) {
    match s.action
    case Idle => true
    case Queued(_, closure) => s.review.Some? ==> s.approvals == closure
    case RefreshSnapshot(next) => ContinuationOk(s, next)
    case RefreshBudget(next, snapshot) => ContinuationOk(s, next) && ValidSnapshot(snapshot)
    case Building(snapshot) => ValidSnapshot(snapshot)
    case CheckingNetwork(_, ctx) => ContextOk(s, ctx)
    case FundingSign(ctx, latest) => ContextOk(s, ctx) && ValidSnapshot(latest) && Unchanged(ctx.current.snapshot, latest)
    case WalletSigning(ctx, latest) =>
      && ContextOk(s, ctx) && ValidSnapshot(latest) && Unchanged(ctx.current.snapshot, latest)
      && ctx.wallet.address.Some? && !Approved(ctx.approvals, ctx.wallet.address.value)
    case FundingSubmit(ctx) => ContextOk(s, ctx) && s.intent.None?
    case Preparing(ctx) => ContextOk(s, ctx) && s.intent.None?
    case Arming(ctx, i) =>
      && ContextOk(s, ctx) && s.intent.None? && i.tag == |s.sends|
      && IsInvoice(ctx.current) && Quorum(ctx.current.transaction, ctx.current.snapshot, ctx.approvals)
    case WalletSending(_, i) => Sent(s, i)
    case Cancelling(_, i) => Sent(s, i)
  }

  ghost predicate Inv(s: Screen) {
    Core(s) && ActionOk(s) && (s.busy <==> !s.action.Idle?)
  }

  // ---------------------------------------------------------------------------
  // Pieces that several events share
  // ---------------------------------------------------------------------------

  /** The parts of the state that Core looks at. */
  predicate SameCore(s: Screen, t: Screen) {
    && t.review == s.review && t.approvals == s.approvals && t.intent == s.intent && t.outcome == s.outcome
    && t.storage == s.storage && t.sends == s.sends && t.released == s.released
  }

  lemma CoreSame(s: Screen, t: Screen)
    requires Core(s) && SameCore(s, t)
    ensures Core(t)
  {
  }

  /** The screen with its review dropped or kept as it was. */
  predicate MaybeCleared(s: Screen, t: Screen) {
    t == s || t == ClearReview(s)
  }

  lemma AcceptsOnlyClear(s: Screen, next: Snapshot, epoch: nat)
    ensures MaybeCleared(s, AcceptSnapshot(s, next)) && MaybeCleared(s, AcceptBudget(s, epoch))
  {
  }

  lemma ClearedKeeps(s: Screen, t: Screen)
    requires Inv(s) && MaybeCleared(s, t)
    ensures Inv(t)
  {
  }

  lemma FinishKeeps(s: Screen)
    requires Core(s)
    ensures Inv(Finish(s))
  {
  }

  // ---------------------------------------------------------------------------
  // The poll
  // ---------------------------------------------------------------------------

  /** Poll updates of the intent keep its send. */
  predicate SameSend(s: Screen, t: Screen) {
    && t.action == s.action && t.busy == s.busy && t.sends == s.sends
    && (s.intent.None? ==> t.intent.None?)
    && (s.intent.Some? ==> t.intent.Some? && t.intent.value.tag == s.intent.value.tag && t.intent.value.identity == s.intent.value.identity)
    && ((t.review == s.review && t.approvals == s.approvals) || (t.review.None? && t.approvals == []))
  }

  lemma SameSendKeepsAction(s: Screen, t: Screen)
    requires ActionOk(s) && SameSend(s, t)
    ensures ActionOk(t)
  {
  }

  lemma PollFailedKeeps(s: Screen, saves: bool)
    requires Inv(s)
    ensures Inv(PollFailed(s, saves))
  {
    hide ActionOk, SendsOk, ApprovalOk, ReviewOk, DistinctOwners;
    SameSendKeepsAction(s, PollFailed(s, saves));
  }

  lemma CountedKeeps(s: Screen, n: nat)
    requires Inv(s)
    ensures Inv(s.(nextTicket := n))
  {
  }

  lemma TrackedSameSend(s: Screen, current: Intent, result: Result)
    ensures var t := Tracked(s, current, result); t.tag == current.tag && t.identity == current.identity
  {
  }

  lemma ObservedKeeps(s: Screen, tracked: Intent, outcome: Outcome)
    requires Inv(s) && s.intent.Some? && tracked.tag == s.intent.value.tag && tracked.identity == s.intent.value.identity
    ensures Terminal(Some(outcome)) ==>
              Inv(ClearReview(s.(storage := None, intent := Some(tracked), outcome := Some(outcome),
                                 released := s.released + {tracked.tag}, poll := Sleeping)))
    ensures !Terminal(Some(outcome)) ==> Inv(SaveIntent(s, tracked).(outcome := Some(outcome), poll := Sleeping))
  {
    hide ActionOk, SendsOk, ApprovalOk, ReviewOk, DistinctOwners;
    var done := ClearReview(s.(storage := None, intent := Some(tracked), outcome := Some(outcome),
                               released := s.released + {tracked.tag}, poll := Sleeping));
    SameSendKeepsAction(s, done);
    SameSendKeepsAction(s, SaveIntent(s, tracked).(outcome := Some(outcome), poll := Sleeping));
  }

  lemma PollFinishedKeeps(s: Screen, epoch: Option<nat>, current: Intent, result: Result, remembers: bool, writes: bool, rewrites: bool)
    requires Inv(s)
    ensures Inv(PollFinished(s, epoch, current, result, remembers, writes, rewrites))
  {
    hide Inv, AcceptBudget, PollFailed, Tracked, SameRequest, Terminal, ClearReview, SaveIntent;
    var seen := if epoch.Some? then AcceptBudget(s, epoch.value) else s;
    assert Inv(seen) by {
      if epoch.Some? {
        AcceptsOnlyClear(s, Snapshot(L1, [], 0, 0), epoch.value);
        ClearedKeeps(s, seen);
      }
    }
    SleepKeeps(seen);
    if Some(current) == seen.intent {
      var tracked, counted := Tracked(seen, current, result), seen.(nextTicket := seen.nextTicket + 1);
      TrackedSameSend(seen, current, result);
      CountedKeeps(seen, seen.nextTicket + 1);
      PollFailedKeeps(counted, rewrites);
      ObservedKeeps(counted, tracked, result.outcome);
    }
  }

  lemma SleepKeeps(s: Screen)
    requires Inv(s)
    ensures Inv(s.(poll := Sleeping))
  {
  }

  lemma PollIntentKeeps(s: Screen, epoch: Option<nat>)
    requires Inv(s)
    ensures Inv(PollIntent(s, epoch))
  {
    hide SendsOk, ApprovalOk, ReviewOk, DistinctOwners, Quorum, Unchanged, Owns, ValidSnapshot, Approved, SameRequest, ActionOk;
    if s.intent.Some? {
      SameSendKeepsAction(s, PollIntent(s, epoch));
    } else {
      var seen := if epoch.Some? then AcceptBudget(s, epoch.value) else s;
      AcceptsOnlyClear(s, Snapshot(L1, [], 0, 0), if epoch.Some? then epoch.value else 0);
      ClearedKeeps(s, seen);
      SameSendKeepsAction(seen, PollIntent(s, epoch));
    }
  }

  /** A reload forgets the review, the approvals and every wait, but not the journal. */
  lemma ReloadKeeps(s: Screen)
    requires Inv(s)
    ensures Inv(BackgroundStep(s, Reload))
  {
    hide SendsOk, ApprovalOk, ReviewOk;
  }

  lemma PollSnapshotKeeps(s: Screen, snapshot: Snapshot)
    requires Inv(s)
    ensures Inv(AcceptSnapshot(s, snapshot).(poll := ReadingBudget)) && Inv(PollIntent(AcceptSnapshot(s, snapshot), None))
  {
    hide Inv, PollIntent, AcceptSnapshot;
    AcceptsOnlyClear(s, snapshot, 0);
    ClearedKeeps(s, AcceptSnapshot(s, snapshot));
    PollStateKeeps(AcceptSnapshot(s, snapshot), ReadingBudget);
    PollIntentKeeps(AcceptSnapshot(s, snapshot), None);
  }

  lemma BackgroundKeeps(s: Screen, e: ScreenEvent)
    requires Inv(s) && !IsActionEvent(e)
    ensures Inv(BackgroundStep(s, e))
  {
    hide Inv, PollFinished, PollFailed, PollIntent, AcceptSnapshot, AcceptBudget, ValidSnapshot, Reloaded;
    match e {
      case PollSnapshot(snapshot) =>
        PollSnapshotKeeps(s, snapshot);
      case PollBudget(epoch) =>
        PollIntentKeeps(s, Some(epoch));
      case PollOutcome(result, remembers, writes, rewrites) =>
        if s.poll.ReadingOutcome? {
          PollFinishedKeeps(s, s.poll.epoch, s.poll.current, result, remembers, writes, rewrites);
        }
      case PollRejects(rewrites) =>
        PollFailedKeeps(s, rewrites);
      case EditClicked =>
        ClearedKeeps(s, BackgroundStep(s, e));
      case WalletChanges(wallet) =>
        WalletKeeps(s, wallet);
      case Reload =>
        ReloadKeeps(s);
      case PollStarts =>
        PollStateKeeps(s, ReadingSnapshot);
      case PollRestarts =>
        PollStateKeeps(s, Sleeping);
      case _ =>
    }
  }

  lemma WalletKeeps(s: Screen, wallet: Wallet)
    requires Inv(s)
    ensures Inv(s.(wallet := wallet))
  {
    hide Core;
    CoreSame(s, s.(wallet := wallet));
    SameSendKeepsAction(s, s.(wallet := wallet));
  }

  lemma PollStateKeeps(s: Screen, poll: Poll)
    requires Inv(s)
    ensures Inv(s.(poll := poll))
  {
  }

  // ---------------------------------------------------------------------------
  // The user's actions
  // ---------------------------------------------------------------------------

  lemma DropKeeps(s: Screen)
    requires Core(s) && (s.intent.Some? ==> s.intent.value.tag in s.released)
    ensures Core(DropIntent(s))
  {
  }

  lemma BeginKeeps(s: Screen, button: Button, closure: seq<Approval>)
    requires Inv(s) && s.action == Queued(button, closure)
    ensures Inv(Begin(s, button, closure))
  {
    hide Core, ReviewOk, Terminal, DropIntent;
    FinishKeeps(s);
    if s.review.Some? {
      ReviewIsOk(s);
    }
    var kept := if s.intent.Some? && Terminal(s.outcome) then DropIntent(s) else s;
    if s.intent.Some? && Terminal(s.outcome) {
      assert JournalOk(s) by { CoreParts(s); }
      TerminalIsReleased(s);
      DropKeeps(s);
    }
    CoreSame(kept, At(kept, RefreshSnapshot(ThenReview)));
    CoreSame(s, Begin(s, if button.ReviewButton? then RefreshButton else button, closure));
    assert kept.busy by { DropOnlyIntent(s); }
  }

  lemma CoreParts(s: Screen)
    requires Core(s)
    ensures JournalOk(s) && ApprovalsOk(s) && SendsOk(s.sends)
  {
  }

  lemma DropOnlyIntent(s: Screen)
    ensures DropIntent(s).busy == s.busy
  {
  }

  lemma ReviewIsOk(s: Screen)
    requires Core(s) && s.review.Some?
    ensures ReviewOk(s.review.value)
  {
  }

  lemma TerminalIsReleased(s: Screen)
    requires JournalOk(s) && Terminal(s.outcome)
    ensures s.intent.Some? && s.intent.value.tag in s.released
  {
  }

  lemma NetworkReadyKeeps(s: Screen, purpose: Purpose, ctx: Context)
    requires Inv(s) && s.action == CheckingNetwork(purpose, ctx)
    ensures Inv(NetworkReady(s, purpose, ctx))
  {
    hide Core, ReviewOk, SameWallet;
    FinishKeeps(s);
    var t := NetworkReady(s, purpose, ctx);
    if !t.action.Idle? {
      CoreSame(s, t);
    }
  }

  lemma AskSignatureKeeps(s: Screen, ctx: Context, latest: Snapshot)
    requires Core(s) && s.busy && ctx.wallet.address.Some?
    requires ContextOk(s, ctx) && ValidSnapshot(latest) && Unchanged(ctx.current.snapshot, latest)
    ensures Inv(AskSignature(s, ctx, latest))
  {
  }

  /** An approval that passed every check belongs to the review on screen. */
  lemma ApprovalAdded(s: Screen, ctx: Context, approval: Approval, latest: Snapshot)
    requires Core(s) && ContinuationOk(s, ThenApprove(ctx, approval)) && ValidSnapshot(latest)
    requires s.review == Some(ctx.current) && Unchanged(ctx.current.snapshot, latest)
    ensures Core(s.(approvals := s.approvals + [approval.(after := latest)]))
  {
  }

  lemma ContinueKeeps(s: Screen, next: Continuation, latest: Snapshot)
    requires Core(s) && s.busy && ContinuationOk(s, next) && ValidSnapshot(latest)
    ensures Inv(Continue(s, next, latest))
  {
    hide Core, Unchanged, ValidSnapshot, Owns, ReviewOk, Approved, AskSignature, SameWallet;
    FinishKeeps(s);
    match next {
      case ThenStop =>
      case ThenReview => CoreSame(s, At(s, Building(latest)));
      case ThenSign(ctx) =>
        if Unchanged(ctx.current.snapshot, latest) && ctx.wallet.address.Some? {
          AskSignatureKeeps(s, ctx, latest);
          CoreSame(s, At(s, FundingSign(ctx, latest)));
        }
      case ThenApprove(ctx, approval) =>
        if s.review == Some(ctx.current) && Unchanged(ctx.current.snapshot, latest) {
          ApprovalAdded(s, ctx, approval, latest);
          FinishKeeps(s.(approvals := s.approvals + [approval.(after := latest)]));
        }
    }
  }

  lemma SnapshotReadKeeps(s: Screen, next: Continuation, snapshot: Snapshot)
    requires Inv(s) && s.action == RefreshSnapshot(next)
    ensures Inv(ActionStep(s, ActionSnapshot(snapshot)))
  {
    hide Core, ValidSnapshot, AcceptSnapshot, Continue, ContinuationOk;
    var t := AcceptSnapshot(s, snapshot);
    AcceptsOnlyClear(s, snapshot, 0);
    ClearedKeeps(s, t);
    assert t.action == s.action && t.busy;
    if ValidSnapshot(snapshot) {
      if s.payments {
        ContinuationMoves(t, At(t, RefreshBudget(next, snapshot)), next);
        CoreSame(t, At(t, RefreshBudget(next, snapshot)));
      } else {
        ContinueKeeps(t, next, snapshot);
      }
    }
  }

  lemma ContinuationMoves(s: Screen, t: Screen, next: Continuation)
    requires ContinuationOk(s, next) && t.review == s.review && t.approvals == s.approvals
    ensures ContinuationOk(t, next)
  {
  }

  lemma BudgetReadKeeps(s: Screen, next: Continuation, snapshot: Snapshot, epoch: nat)
    requires Inv(s) && s.action == RefreshBudget(next, snapshot)
    ensures Inv(ActionStep(s, ActionBudget(epoch)))
  {
    hide Core, ValidSnapshot, AcceptBudget, Continue, ContinuationOk;
    var t := AcceptBudget(s, epoch);
    AcceptsOnlyClear(s, snapshot, epoch);
    ClearedKeeps(s, t);
    ContinueKeeps(t, next, snapshot);
  }

  lemma ReviewedKeeps(s: Screen, latest: Snapshot, payload: int, payment: Option<Terms>)
    requires Core(s) && ValidSnapshot(latest)
    ensures Inv(Reviewed(s, latest, payload, payment))
  {
  }

  lemma SendNowKeeps(s: Screen, ctx: Context, i: Intent, saves: bool)
    requires Core(s) && s.busy && s.intent.None? && i.tag == |s.sends| && ReviewOk(ctx.current)
    requires Quorum(ctx.current.transaction, ctx.current.snapshot, ctx.approvals)
    ensures Inv(SendNow(s, ctx, i, saves))
  {
  }

  lemma PreparedKeeps(s: Screen, ctx: Context, now: Snapshot, identity: Identity, sender: string, saves: bool)
    requires Inv(s) && s.action == Preparing(ctx)
    ensures Inv(PreparedSend(s, ctx, now, identity, sender, saves))
  {
    hide Core, Quorum, Unchanged, ReviewOk, SameAddress, IsInvoice, SendNow;
    FinishKeeps(s);
    CountedKeeps(s, s.nextTicket + 1);
    var counted := s.(nextTicket := s.nextTicket + 1);
    var i := Intent(s.nextTicket, |s.sends|, identity, sender, ctx.current.payment.Some?, None);
    if s.review == Some(ctx.current) && Quorum(ctx.current.transaction, ctx.current.snapshot, ctx.approvals) {
      CoreSame(counted, At(counted, Arming(ctx, i)));
      SendNowKeeps(counted, ctx, i, saves);
    }
  }

  lemma ReturnedKeeps(s: Screen, ctx: Context, i: Intent, hash: string, saves: bool)
    requires Inv(s) && s.action == WalletSending(ctx, i)
    ensures Inv(ActionStep(s, WalletReturns(hash, saves)))
  {
    hide SendsOk, ApprovalOk, ReviewOk, DistinctOwners;
    FinishKeeps(s);
  }

  lemma RefusedKeeps(s: Screen, i: Intent, remembers: bool)
    requires Inv(s) && Sent(s, i)
    ensures Inv(Refused(s, i, remembers))
  {
  }

  lemma ActionKeeps(s: Screen, e: ScreenEvent)
    requires Inv(s) && IsActionEvent(e)
    ensures Inv(ActionStep(s, e))
  {
    hide Core, Begin, NetworkReady, Continue, AskSignature, PreparedSend, SendNow, Refused, Reviewed, ContinuationOk,
         AcceptSnapshot, AcceptBudget, SaveIntent, ReviewOk, Unchanged, Owns, Quorum, Approved;
    match (e, s.action) {
      case (Click(button), _) => CoreSame(s, At(s.(busy := true), Queued(button, s.approvals)));
      case (GuardPasses, Queued(button, closure)) => BeginKeeps(s, button, closure);
      case (ActionFails, _) => FinishKeeps(s);
      case (NetworkIsReady, CheckingNetwork(purpose, ctx)) => NetworkReadyKeeps(s, purpose, ctx);
      case (ActionSnapshot(snapshot), RefreshSnapshot(next)) => SnapshotReadKeeps(s, next, snapshot);
      case (ActionBudget(epoch), RefreshBudget(next, snapshot)) => BudgetReadKeeps(s, next, snapshot, epoch);
      case (ReviewBuilt(payload, payment), Building(latest)) => ReviewedKeeps(s, latest, payload, payment);
      case (FundingCovers, FundingSign(ctx, latest)) =>
        FinishKeeps(s);
        if ctx.wallet.address.Some? {
          AskSignatureKeeps(s, ctx, latest);
        }
      case (FundingCovers, FundingSubmit(ctx)) => CoreSame(s, At(s, Preparing(ctx)));
      case (WalletSigns, WalletSigning(ctx, latest)) => SignedKeeps(s, ctx, latest);
      case (Prepared(now, identity, sender, saves), Preparing(ctx)) => PreparedKeeps(s, ctx, now, identity, sender, saves);
      case (Armed(saves), Arming(ctx, i)) => SendNowKeeps(s, ctx, i, saves);
      case (WalletReturns(hash, saves), WalletSending(ctx, i)) => ReturnedKeeps(s, ctx, i, hash, saves);
      case (WalletUncertain, WalletSending(ctx, i)) => FinishKeeps(s);
      case (WalletRefuses(remembers), WalletSending(ctx, i)) =>
        RefusedKeeps(s, i, remembers);
        CoreSame(s, At(s, Cancelling(ctx, i)));
      case (InvoiceCancelled(remembers), Cancelling(ctx, i)) => RefusedKeeps(s, i, remembers);
      case _ =>
    }
  }

  lemma SignedKeeps(s: Screen, ctx: Context, latest: Snapshot)
    requires Inv(s) && s.action == WalletSigning(ctx, latest)
    ensures Inv(ActionStep(s, WalletSigns))
  {
    hide Core, ReviewOk, Unchanged, Owns, ValidSnapshot, Approved;
    FinishKeeps(s);
    var a := Approval(ctx.wallet.address.value, ctx.current.transaction, latest, latest);
    CoreSame(s, At(s, RefreshSnapshot(ThenApprove(ctx, a))));
  }

  lemma MountedOk(payments: bool)
    ensures Inv(Mounted(payments))
  {
  }

  lemma NextKeeps(s: Screen, e: ScreenEvent)
    requires Inv(s)
    ensures Inv(Next(s, e))
  {
    hide Inv, ActionStep, BackgroundStep;
    if IsActionEvent(e) {
      ActionKeeps(s, e);
    } else {
      BackgroundKeeps(s, e);
    }
  }

  lemma {:induction false} InvAlways(payments: bool, events: seq<ScreenEvent>)
    ensures Inv(After(Mounted(payments), events))
  {
    hide Inv, Next, Mounted;
    if events == [] {
      MountedOk(payments);
    } else {
      var before := events[..|events| - 1];
      InvAlways(payments, before);
      NextKeeps(After(Mounted(payments), before), events[|before|]);
    }
  }

  // ---------------------------------------------------------------------------
  // Sending
  // ---------------------------------------------------------------------------

  /** What a step that issues eth_sendTransaction has made sure of: the request is in the
      journal, every earlier send has been released, and the approvals are a quorum for the
      reviewed transaction at its reviewed nonce. The review is still the one on screen and
      the sender still connected, except that paying an invoice waits once more, and in that
      wait the review may be cleared and the wallet may change. */
  ghost predicate SafeSend(s: Screen, t: Screen) {
    && |t.sends| == |s.sends| + 1 && t.sends[..|s.sends|] == s.sends
    && var d := t.sends[|s.sends|];
      && t.storage == Some(d.intent) && t.intent == Some(d.intent)
      && Unreleased(s) == {} && s.storage.None?
      && d.review.transaction.nonce == d.review.snapshot.nonce
      && Quorum(d.review.transaction, d.review.snapshot, d.approvals)
      && (s.review == Some(d.review) || (s.review.None? && IsInvoice(d.review)))
      && (Connected(s, d.intent.sender) || IsInvoice(d.review))
  }

  predicate Connected(s: Screen, account: string) {
    s.wallet.address.Some? && SameAddress(s.wallet.address.value, account)
  }

  lemma SendNowIsSafe(s: Screen, ctx: Context, i: Intent)
    requires JournalOk(s) && s.intent.None? && ReviewOk(ctx.current)
    requires Quorum(ctx.current.transaction, ctx.current.snapshot, ctx.approvals)
    requires s.review == Some(ctx.current) || (s.review.None? && IsInvoice(ctx.current))
    requires Connected(s, i.sender) || IsInvoice(ctx.current)
    ensures SafeSend(s, SendNow(s, ctx, i, true))
  {
  }

  lemma PreparedSendIsSafe(s: Screen, ctx: Context, now: Snapshot, identity: Identity, sender: string, saves: bool)
    requires Inv(s) && s.action == Preparing(ctx)
    requires |PreparedSend(s, ctx, now, identity, sender, saves).sends| > |s.sends|
    ensures SafeSend(s, PreparedSend(s, ctx, now, identity, sender, saves))
  {
  }

  predicate SameLog(s: Screen, t: Screen) {
    t.sends == s.sends && t.released == s.released
  }

  lemma BeginKeepsLog(s: Screen, button: Button, closure: seq<Approval>)
    ensures SameLog(s, Begin(s, button, closure))
  {
  }

  lemma ContinueKeepsLog(s: Screen, next: Continuation, latest: Snapshot)
    ensures SameLog(s, Continue(s, next, latest))
  {
  }

  lemma AcceptsKeepLog(s: Screen, next: Snapshot, epoch: nat)
    ensures SameLog(s, AcceptSnapshot(s, next)) && SameLog(s, AcceptBudget(s, epoch))
    ensures AcceptSnapshot(s, next).intent == s.intent && AcceptBudget(s, epoch).intent == s.intent
  {
  }

  lemma PollKeepsLog(s: Screen, epoch: Option<nat>, saves: bool)
    ensures SameLog(s, PollIntent(s, epoch)) && SameLog(s, PollFailed(s, saves))
  {
  }

  lemma PollFinishedLog(s: Screen, epoch: Option<nat>, current: Intent, result: Result, remembers: bool, writes: bool, rewrites: bool)
    ensures var t := PollFinished(s, epoch, current, result, remembers, writes, rewrites);
      && t.sends == s.sends
      && (t.released == s.released
          || (s.intent == Some(current) && Terminal(Some(result.outcome)) && (!current.payment || remembers)
              && t.released == s.released + {current.tag}))
  {
    hide SameRequest, Terminal, Tracked, AcceptBudget, PollFailed, ClearReview;
    var seen := if epoch.Some? then AcceptBudget(s, epoch.value) else s;
    AcceptsKeepLog(s, Snapshot(L1, [], 0, 0), if epoch.Some? then epoch.value else 0);
    TrackedSameSend(seen, current, result);
    PollKeepsLog(seen.(nextTicket := seen.nextTicket + 1), None, rewrites);
    ClearKeepsLog(seen.(nextTicket := seen.nextTicket + 1, storage := None, intent := Some(Tracked(seen, current, result)),
                        outcome := Some(result.outcome), released := seen.released + {current.tag}, poll := Sleeping));
  }

  lemma ClearKeepsLog(s: Screen)
    ensures SameLog(s, ClearReview(s))
  {
  }

  lemma BackgroundLog(s: Screen, e: ScreenEvent)
    requires !IsActionEvent(e)
    ensures var t := BackgroundStep(s, e);
      t.sends == s.sends && s.released <= t.released && forall k :: k in t.released && k !in s.released ==> Releases(s, e, k)
  {
    hide PollFinished, PollIntent, PollFailed, AcceptSnapshot, AcceptBudget, ValidSnapshot, Terminal;
    match e {
      case PollSnapshot(snapshot) =>
        AcceptsKeepLog(s, snapshot, 0);
        PollKeepsLog(AcceptSnapshot(s, snapshot), None, false);
      case PollBudget(epoch) => PollKeepsLog(s, Some(epoch), false);
      case PollOutcome(result, remembers, writes, rewrites) =>
        if s.poll.ReadingOutcome? {
          PollFinishedLog(s, s.poll.epoch, s.poll.current, result, remembers, writes, rewrites);
        }
      case PollRejects(rewrites) => PollKeepsLog(s, None, rewrites);
      case _ =>
    }
  }

  /** Which steps of the user's action send, and which release. */
  lemma ActionLog(s: Screen, e: ScreenEvent)
    requires IsActionEvent(e)
    ensures var t := ActionStep(s, e);
      && (t.sends == s.sends || (e.Prepared? && s.action.Preparing?) || (e.Armed? && e.saves && s.action.Arming?))
      && s.released <= t.released && forall k :: k in t.released && k !in s.released ==> Releases(s, e, k)
  {
    hide Begin, Continue, AcceptSnapshot, AcceptBudget, ValidSnapshot, Owns, SameAddress, Unchanged, Quorum, Approved, SameWallet, PreparedSend;
    match (e, s.action) {
      case (GuardPasses, Queued(button, closure)) => BeginKeepsLog(s, button, closure);
      case (ActionSnapshot(snapshot), RefreshSnapshot(next)) =>
        AcceptsKeepLog(s, snapshot, 0);
        ContinueKeepsLog(AcceptSnapshot(s, snapshot), next, snapshot);
      case (ActionBudget(epoch), RefreshBudget(next, snapshot)) =>
        AcceptsKeepLog(s, snapshot, epoch);
        ContinueKeepsLog(AcceptBudget(s, epoch), next, snapshot);
      case (Prepared(now, identity, sender, saves), Preparing(ctx)) =>
        PreparedKeepsReleased(s, ctx, now, identity, sender, saves);
      case _ =>
    }
  }

  lemma PreparedKeepsReleased(s: Screen, ctx: Context, now: Snapshot, identity: Identity, sender: string, saves: bool)
    ensures PreparedSend(s, ctx, now, identity, sender, saves).released == s.released
  {
  }

  /** In every run, eth_sendTransaction is issued only by a safe step, one send at a time. */
  lemma EverySendIsSafe(payments: bool, events: seq<ScreenEvent>, e: ScreenEvent)
    requires var s := After(Mounted(payments), events); Next(s, e).sends != s.sends
    ensures var s := After(Mounted(payments), events); SafeSend(s, Next(s, e))
  {
    hide After, PreparedSend, SendNow, SafeSend, Core, Quorum, ReviewOk, Unreleased, IsInvoice;
    var s := After(Mounted(payments), events);
    InvAlways(payments, events);
    if IsActionEvent(e) {
      ActionLog(s, e);
    } else {
      BackgroundLog(s, e);
    }
    if e.Prepared? {
      var ctx := s.action.ctx;
      PreparedGrows(s, ctx, e.now, e.identity, e.sender, e.saves);
      PreparedSendIsSafe(s, ctx, e.now, e.identity, e.sender, e.saves);
    } else {
      assert JournalOk(s) by { CoreParts(s); }
      SendNowIsSafe(s, s.action.ctx, s.action.intent);
    }
  }

  lemma PreparedGrows(s: Screen, ctx: Context, now: Snapshot, identity: Identity, sender: string, saves: bool)
    ensures var t := PreparedSend(s, ctx, now, identity, sender, saves); t.sends == s.sends || |t.sends| > |s.sends|
  {
  }

  /** An unreleased send is unique, stays in the journal under its own identity whatever
      happens, reloads included, and locks both Review and Submit. */
  lemma UnreleasedSendLocksTheScreen(payments: bool, events: seq<ScreenEvent>, k: nat, closure: seq<Approval>)
    requires k in Unreleased(After(Mounted(payments), events))
    ensures var s := After(Mounted(payments), events);
      && Unreleased(s) == {k}
      && s.storage.Some? && s.storage.value.tag == k && s.storage.value.identity == s.sends[k].intent.identity
      && s.intent.Some? && !Terminal(s.outcome)
      && Begin(s, ReviewButton, closure) == Finish(s) && Begin(s, SubmitButton, closure) == Finish(s)
  {
    hide After, Finish;
    InvAlways(payments, events);
  }

  /** What frees a send: an observation of it as settled or rejected, or the wallet's refusal
      of it. Uncertain answers, failed polls and reloads never do. */
  ghost predicate Releases(s: Screen, e: ScreenEvent, k: nat) {
    || (e.PollOutcome? && s.poll.ReadingOutcome? && s.intent == Some(s.poll.current) && s.poll.current.tag == k
        && Terminal(Some(e.result.outcome)) && (!s.poll.current.payment || e.remembers))
    || (e.WalletRefuses? && s.action.WalletSending? && s.action.intent.tag == k
        && !IsInvoice(s.action.ctx.current) && (!s.action.intent.payment || e.remembers))
    || (e.InvoiceCancelled? && s.action.Cancelling? && s.action.intent.tag == k
        && (!s.action.intent.payment || e.remembers))
  }

  lemma OnlyAnswersRelease(payments: bool, events: seq<ScreenEvent>, e: ScreenEvent, k: nat)
    ensures var s := After(Mounted(payments), events);
      k in Next(s, e).released <==> k in s.released || Releases(s, e, k)
  {
    hide After, Releases, ActionStep, BackgroundStep;
    var s := After(Mounted(payments), events);
    InvAlways(payments, events);
    if IsActionEvent(e) {
      ActionLog(s, e);
    } else {
      BackgroundLog(s, e);
    }
    if Releases(s, e, k) {
      ReleasesReleases(s, e, k);
    }
    ReleasedStays(s, e, k);
  }

  lemma ReleasesReleases(s: Screen, e: ScreenEvent, k: nat)
    requires JournalOk(s) && Releases(s, e, k)
    ensures k in Next(s, e).released
  {
    hide PollFailed;
    if e.PollOutcome? {
      assert s.poll.epoch.Some? ==> AcceptBudget(s, s.poll.epoch.value) == s;
      TrackedSameSend(s, s.poll.current, e.result);
    }
  }

  lemma ReleasedStays(s: Screen, e: ScreenEvent, k: nat)
    ensures k in s.released ==> k in Next(s, e).released
  {
    hide ActionStep, BackgroundStep, Releases;
    if IsActionEvent(e) {
      ActionLog(s, e);
    } else {
      BackgroundLog(s, e);
    }
  }

  /** A poll that contradicts an earlier final answer locks the screen again, whatever fails.
      If history and journal take the write the request is journalled with what was learned;
      otherwise it shows as unknown, and is journalled if the second attempt succeeds. */
  lemma ContraryRoundRelocks(payments: bool, events: seq<ScreenEvent>, result: Result,
                             remembers: bool, writes: bool, rewrites: bool, closure: seq<Approval>)
    requires var s := After(Mounted(payments), events);
      && Terminal(s.outcome) && !Terminal(Some(result.outcome))
      && s.poll.ReadingOutcome? && s.intent == Some(s.poll.current)
    ensures var s := After(Mounted(payments), events);
      var t := Next(s, PollOutcome(result, remembers, writes, rewrites));
      var written := (!s.poll.current.payment || remembers) && writes;
      && t.intent.Some? && t.intent.value.tag == s.poll.current.tag && SameRequest(t.intent.value, s.poll.current)
      && !Terminal(t.outcome) && Begin(t, ReviewButton, closure) == Finish(t) && Begin(t, SubmitButton, closure) == Finish(t)
      && (written ==> t.outcome == Some(result.outcome) && t.storage == t.intent)
      && (!written ==> t.outcome == Some(Unknown) && t.storage == if rewrites then t.intent else None)
  {
    hide After, Finish, SendsOk, ApprovalsOk, ActionOk;
    InvAlways(payments, events);
    TrackedSameSend(After(Mounted(payments), events), After(Mounted(payments), events).poll.current, result);
  }

  /** A reload forgets the review, the approvals, the outcome and every wait; what it tracks
      again is exactly the journalled request, so every unreleased send is tracked. */
  lemma ReloadTracksTheJournal(payments: bool, events: seq<ScreenEvent>, k: nat)
    ensures var s := After(Mounted(payments), events); var t := Next(s, Reload);
      && t.review.None? && t.approvals == [] && t.outcome.None? && !t.busy && t.action.Idle? && t.poll.Sleeping?
      && t.storage == s.storage && (t.intent.Some? <==> s.storage.Some?)
      && (t.intent.Some? ==> t.intent.value.tag == s.storage.value.tag && SameRequest(t.intent.value, s.storage.value))
      && Unreleased(t) == Unreleased(s)
      && (k in Unreleased(s) ==> t.intent.Some? && t.intent.value.tag == k && t.intent.value.identity == t.sends[k].intent.identity)
  {
    hide After, SendsOk, ApprovalsOk, ActionOk;
    InvAlways(payments, events);
  }

  // ---------------------------------------------------------------------------
  // Approvals
  // ---------------------------------------------------------------------------

  /** When the Submit button can be pressed. The page also asks for a healthy connection and
      no owner change in progress. */
  predicate SubmitEnabled(s: Screen) {
    && !s.busy && (s.intent.None? || Terminal(s.outcome)) && s.review.Some? && s.intent.None?
    && s.wallet.address.Some? && |s.approvals| >= s.review.value.snapshot.threshold
  }

  /** In every reachable state each approval on screen was signed for the reviewed
      transaction by one of the reviewed owners, between two snapshots that agree with the
      reviewed one, no owner twice; without a review there are none. */
  lemma ApprovalsBelongToTheReview(payments: bool, events: seq<ScreenEvent>)
    ensures var s := After(Mounted(payments), events);
      && (s.review.None? ==> s.approvals == [])
      && DistinctOwners(s.approvals)
      && (s.review.Some? ==>
            && s.review.value.transaction.nonce == s.review.value.snapshot.nonce
            && forall i :: 0 <= i < |s.approvals| ==>
                 ApprovalOk(s.approvals[i], s.review.value) && Owns(s.review.value.snapshot, s.approvals[i].owner))
  {
    hide After, Owns, Unchanged, ValidSnapshot, SameAddress;
    InvAlways(payments, events);
    var s := After(Mounted(payments), events);
    if s.review.Some? {
      forall i | 0 <= i < |s.approvals|
        ensures ApprovalOk(s.approvals[i], s.review.value) && Owns(s.review.value.snapshot, s.approvals[i].owner)
      {
        UnchangedOwns(s.review.value.snapshot, s.approvals[i].before, s.approvals[i].owner);
      }
    }
  }

  /** Approvals and review are as they were or gone. */
  predicate AddsNone(s: Screen, t: Screen) {
    && (t.approvals == s.approvals || t.approvals == [])
    && (t.review == s.review || t.review.None?) && t.nextTicket >= s.nextTicket
  }

  lemma BeginAddsNone(s: Screen, button: Button, closure: seq<Approval>)
    ensures AddsNone(s, Begin(s, button, closure))
  {
  }

  lemma SendingAddsNone(s: Screen, ctx: Context, i: Intent, flag: bool)
    ensures AddsNone(s, SendNow(s, ctx, i, flag)) && AddsNone(s, Refused(s, i, flag))
  {
  }

  lemma AskAddsNone(s: Screen, ctx: Context, latest: Snapshot)
    requires ctx.wallet.address.Some?
    ensures AddsNone(s, AskSignature(s, ctx, latest))
  {
    hide Approved;
  }

  lemma PreparedAddsNone(s: Screen, ctx: Context, now: Snapshot, identity: Identity, sender: string, saves: bool)
    ensures AddsNone(s, PreparedSend(s, ctx, now, identity, sender, saves))
  {
    hide Unchanged, Quorum, SameAddress, IsInvoice;
  }

  lemma RoundAddsNone(s: Screen, epoch: Option<nat>, saves: bool)
    ensures AddsNone(s, PollIntent(s, epoch)) && AddsNone(s, PollFailed(s, saves))
  {
    hide SameRequest;
  }

  lemma PollAddsNone(s: Screen, epoch: Option<nat>, current: Intent, result: Result, remembers: bool, writes: bool, rewrites: bool)
    ensures AddsNone(s, PollFinished(s, epoch, current, result, remembers, writes, rewrites))
  {
    hide SameRequest, Terminal, Tracked;
  }

  lemma BackgroundAddsNone(s: Screen, e: ScreenEvent)
    requires !IsActionEvent(e)
    ensures AddsNone(s, BackgroundStep(s, e))
  {
    hide ValidSnapshot, AcceptSnapshot, PollFinished, PollIntent, PollFailed;
    match e {
      case PollSnapshot(snapshot) =>
        AcceptsOnlyClear(s, snapshot, 0);
        RoundAddsNone(AcceptSnapshot(s, snapshot), None, true);
      case PollBudget(epoch) => RoundAddsNone(s, Some(epoch), true);
      case PollOutcome(result, remembers, writes, rewrites) =>
        if s.poll.ReadingOutcome? {
          PollAddsNone(s, s.poll.epoch, s.poll.current, result, remembers, writes, rewrites);
        }
      case PollRejects(rewrites) => RoundAddsNone(s, None, rewrites);
      case _ =>
    }
  }

  /** The snapshot read after the wallet signed is what adds an approval. */
  lemma ContinueAdds(s: Screen, next: Continuation, latest: Snapshot)
    requires ContinuationOk(s, next) && |Continue(s, next, latest).approvals| > |s.approvals|
    ensures var t := Continue(s, next, latest);
      && t.approvals[..|s.approvals|] == s.approvals && |t.approvals| == |s.approvals| + 1
      && t.review == s.review && Connected(s, t.approvals[|s.approvals|].owner) && s.review.Some?
  {
    hide Unchanged, ValidSnapshot, SameAddress, Owns, Approved;
  }

  lemma AddedAfterAccept(s: Screen, seen: Screen, next: Continuation, latest: Snapshot)
    requires MaybeCleared(s, seen) && ContinuationOk(seen, next) && |Continue(seen, next, latest).approvals| > |s.approvals|
    ensures var t := Continue(seen, next, latest);
      && t.approvals[..|s.approvals|] == s.approvals && |t.approvals| == |s.approvals| + 1
      && t.review == s.review && Connected(s, t.approvals[|s.approvals|].owner)
  {
    hide Continue, ContinuationOk, SameAddress;
    ContinueAdds(seen, next, latest);
  }

  lemma ActionAdds(s: Screen, e: ScreenEvent)
    requires Inv(s) && IsActionEvent(e) && |Next(s, e).approvals| > |s.approvals|
    ensures var t := Next(s, e);
      && t.approvals[..|s.approvals|] == s.approvals && |t.approvals| == |s.approvals| + 1
      && t.review == s.review && Connected(s, t.approvals[|s.approvals|].owner)
  {
    hide Core, Begin, PreparedSend, SendNow, Refused, AskSignature, Continue, AcceptSnapshot, AcceptBudget, ContinuationOk,
         Unchanged, ValidSnapshot, SameAddress, Owns, Approved, Connected;
    match (e, s.action) {
      case (GuardPasses, Queued(button, closure)) => BeginAddsNone(s, button, closure);
      case (ActionSnapshot(snapshot), RefreshSnapshot(next)) =>
        AcceptsOnlyClear(s, snapshot, 0);
        ClearedKeeps(s, AcceptSnapshot(s, snapshot));
        if !s.payments {
          AddedAfterAccept(s, AcceptSnapshot(s, snapshot), next, snapshot);
        }
      case (ActionBudget(epoch), RefreshBudget(next, snapshot)) =>
        AcceptsOnlyClear(s, snapshot, epoch);
        ClearedKeeps(s, AcceptBudget(s, epoch));
        AddedAfterAccept(s, AcceptBudget(s, epoch), next, snapshot);
      case (FundingCovers, FundingSign(ctx, latest)) => if ctx.wallet.address.Some? { AskAddsNone(s, ctx, latest); }
      case (Prepared(now, identity, sender, saves), Preparing(ctx)) => PreparedAddsNone(s, ctx, now, identity, sender, saves);
      case (Armed(saves), Arming(ctx, i)) => SendingAddsNone(s, ctx, i, saves);
      case (WalletRefuses(remembers), WalletSending(ctx, i)) => SendingAddsNone(s, ctx, i, remembers);
      case (InvoiceCancelled(remembers), Cancelling(ctx, i)) => SendingAddsNone(s, ctx, i, remembers);
      case _ =>
    }
  }

  /** A signature is kept only while its owner is still the connected wallet. */
  lemma KeptApprovalIsFromTheConnectedWallet(payments: bool, events: seq<ScreenEvent>, e: ScreenEvent)
    requires var s := After(Mounted(payments), events); |Next(s, e).approvals| > |s.approvals|
    ensures var s := After(Mounted(payments), events); var t := Next(s, e);
      t.approvals[..|s.approvals|] == s.approvals && |t.approvals| == |s.approvals| + 1
      && t.review == s.review && Connected(s, t.approvals[|s.approvals|].owner)
  {
    hide After, Inv, ActionStep, BackgroundStep, SameAddress;
    var s := After(Mounted(payments), events);
    InvAlways(payments, events);
    if IsActionEvent(e) {
      ActionAdds(s, e);
    } else {
      BackgroundAddsNone(s, e);
    }
  }

  /** Reviews come only from reviewing, under a new ticket. */
  predicate ReviewsFresh(s: Screen, t: Screen) {
    && t.nextTicket >= s.nextTicket
    && (t.review == s.review || t.review.None? || (t.review.value.ticket == s.nextTicket && t.nextTicket > s.nextTicket))
  }

  lemma ContinueKeepsReview(s: Screen, next: Continuation, latest: Snapshot)
    ensures Continue(s, next, latest).review == s.review && Continue(s, next, latest).nextTicket == s.nextTicket
  {
    hide Unchanged, SameAddress, Approved;
  }

  lemma NextReview(s: Screen, e: ScreenEvent)
    ensures ReviewsFresh(s, Next(s, e))
  {
    hide Begin, PreparedSend, SendNow, Refused, AskSignature, Continue, AcceptSnapshot, AcceptBudget,
         Unchanged, ValidSnapshot, SameAddress, Owns, Approved, BackgroundStep;
    if !IsActionEvent(e) {
      BackgroundAddsNone(s, e);
    } else {
      match (e, s.action) {
        case (GuardPasses, Queued(button, closure)) => BeginAddsNone(s, button, closure);
        case (ActionSnapshot(snapshot), RefreshSnapshot(next)) =>
          AcceptsOnlyClear(s, snapshot, 0);
          ContinueKeepsReview(AcceptSnapshot(s, snapshot), next, snapshot);
        case (ActionBudget(epoch), RefreshBudget(next, snapshot)) =>
          AcceptsOnlyClear(s, snapshot, epoch);
          ContinueKeepsReview(AcceptBudget(s, epoch), next, snapshot);
        case (FundingCovers, FundingSign(ctx, latest)) => if ctx.wallet.address.Some? { AskAddsNone(s, ctx, latest); }
        case (Prepared(now, identity, sender, saves), Preparing(ctx)) => PreparedAddsNone(s, ctx, now, identity, sender, saves);
        case (Armed(saves), Arming(ctx, i)) => SendingAddsNone(s, ctx, i, saves);
        case (WalletRefuses(remembers), WalletSending(ctx, i)) => SendingAddsNone(s, ctx, i, remembers);
        case (InvoiceCancelled(remembers), Cancelling(ctx, i)) => SendingAddsNone(s, ctx, i, remembers);
        case _ =>
      }
    }
  }

  lemma {:induction false} DroppedReviewNeverReturns(s: Screen, later: seq<ScreenEvent>, r: Review)
    requires s.review != Some(r) && r.ticket < s.nextTicket
    ensures After(s, later).review != Some(r) && r.ticket < After(s, later).nextTicket
  {
    if later != [] {
      hide Next;
      DroppedReviewNeverReturns(s, later[..|later| - 1], r);
      NextReview(After(s, later[..|later| - 1]), later[|later| - 1]);
    }
  }

  lemma {:induction false} ReviewTicketIsOld(payments: bool, events: seq<ScreenEvent>)
    ensures var s := After(Mounted(payments), events); s.review.Some? ==> s.review.value.ticket < s.nextTicket
  {
    if events != [] {
      hide Next;
      ReviewTicketIsOld(payments, events[..|events| - 1]);
      NextReview(After(Mounted(payments), events[..|events| - 1]), events[|events| - 1]);
    }
  }

  /** A snapshot read by the poll while no request is tracked keeps the review iff it agrees
      with it; a dropped review takes its approvals along and never returns. */
  lemma StaleSnapshotDropsTheReview(payments: bool, events: seq<ScreenEvent>, snapshot: Snapshot, later: seq<ScreenEvent>)
    requires var s := After(Mounted(payments), events);
      s.poll.ReadingSnapshot? && s.intent.None? && s.review.Some? && ValidSnapshot(snapshot)
    ensures var s := After(Mounted(payments), events); var t := Next(s, PollSnapshot(snapshot));
      && (Unchanged(s.review.value.snapshot, snapshot) ==> t.review == s.review && t.approvals == s.approvals)
      && (!Unchanged(s.review.value.snapshot, snapshot) ==> t.approvals == [] && After(t, later).review != s.review)
  {
    hide Unchanged, ValidSnapshot, After;
    var s := After(Mounted(payments), events);
    ReviewTicketIsOld(payments, events);
    if !Unchanged(s.review.value.snapshot, snapshot) {
      DroppedReviewNeverReturns(Next(s, PollSnapshot(snapshot)), later, s.review.value);
    }
  }

  /** Likewise a budget read by the poll, for the period a budgeted payment was reviewed in. */
  lemma StaleBudgetDropsTheReview(payments: bool, events: seq<ScreenEvent>, epoch: nat, later: seq<ScreenEvent>)
    requires var s := After(Mounted(payments), events);
      s.poll.ReadingBudget? && s.intent.None? && s.review.Some?
    ensures var s := After(Mounted(payments), events); var t := Next(s, PollBudget(epoch));
      var terms := s.review.value.payment;
      && (terms.None? || terms.value.kind == Transfer || terms.value.epoch == epoch ==> t.review == s.review && t.approvals == s.approvals)
      && (terms.Some? && terms.value.kind != Transfer && terms.value.epoch != epoch ==>
            t.approvals == [] && After(t, later).review != s.review)
  {
    hide After;
    var s := After(Mounted(payments), events);
    ReviewTicketIsOld(payments, events);
    var t := Next(s, PollBudget(epoch));
    if t.review.None? {
      DroppedReviewNeverReturns(t, later, s.review.value);
    }
  }

  /** The same for a budget read before a request was looked up that has been refused since. */
  lemma LateBudgetDropsTheReview(payments: bool, events: seq<ScreenEvent>, result: Result,
                                 remembers: bool, writes: bool, rewrites: bool, later: seq<ScreenEvent>)
    requires var s := After(Mounted(payments), events);
      s.poll.ReadingOutcome? && s.intent.None? && s.review.Some?
    ensures var s := After(Mounted(payments), events); var t := Next(s, PollOutcome(result, remembers, writes, rewrites));
      var terms, period := s.review.value.payment, s.poll.epoch;
      && (period.None? || terms.None? || terms.value.kind == Transfer || terms.value.epoch == period.value ==>
            t.review == s.review && t.approvals == s.approvals)
      && (period.Some? && terms.Some? && terms.value.kind != Transfer && terms.value.epoch != period.value ==>
            t.approvals == [] && After(t, later).review != s.review)
  {
    hide After;
    var s := After(Mounted(payments), events);
    ReviewTicketIsOld(payments, events);
    var t := Next(s, PollOutcome(result, remembers, writes, rewrites));
    if t.review.None? {
      DroppedReviewNeverReturns(t, later, s.review.value);
    }
  }

  /** So an enabled Submit button means a quorum: at least `threshold` different owners
      approved exactly this transaction, and packing the submission will accept them. */
  lemma SubmitMeansQuorum(payments: bool, events: seq<ScreenEvent>)
    requires SubmitEnabled(After(Mounted(payments), events))
    ensures var s := After(Mounted(payments), events);
      && |LowerOwners(s.approvals)| >= s.review.value.snapshot.threshold
      && (DistinctAddresses(s.review.value.snapshot.owners) ==>
            Quorum(s.review.value.transaction, s.review.value.snapshot, s.approvals))
  {
    hide After, Owns, Unchanged, LowerOwners, DistinctAddresses, DistinctOwners;
    InvAlways(payments, events);
    ApprovalsBelongToTheReview(payments, events);
    var s := After(Mounted(payments), events);
    OwnerCount(s.approvals);
    NoMoreApprovalsThanOwners(s.review.value.snapshot, s.approvals);
  }
}
