/** The treasury screen as it runs: one handler for each event, each updating the fields step
    by step between two awaits. Every handler keeps the screen where the protocol is after
    the events so far, and states what the protocol's results say of it. */
module TreasuryScreen {
  import opened Prelude
  import opened SafeQuorum
  import opened TreasuryProtocol
  import opened TreasurySafety
  import opened TreasuryProgress

  class ConnectedScreen {
    const payments: bool
    var wallet: Wallet
    var review: Option<Review>
    var approvals: seq<Approval>
    var intent: Option<Intent>
    var outcome: Option<Outcome>
    var busy: bool
    var action: Action
    var poll: Poll
    var storage: Option<Intent>
    var nextTicket: nat
    var sends: seq<Send>
    var released: set<nat>
    ghost var trail: seq<ScreenEvent>

    ghost function View(): Screen
      reads this
    {
      Screen(payments, wallet, review, approvals, intent, outcome, busy, action, poll, storage, nextTicket, sends, released)
    }

    /** The fields are where the protocol is after the events so far. */
    ghost predicate Valid()
      reads this
    {
      View() == After(Mounted(payments), trail)
    }

    constructor (payments: bool)
      ensures Valid() && trail == [] && this.payments == payments
    {
      this.payments := payments;
      wallet, review, approvals, intent, outcome := Wallet(None, None), None, [], None, None;
      busy, action, poll, storage, nextTicket := false, Idle, Sleeping, None, 0;
      sends, released, trail := [], {}, [];
    }

    ghost method Note(before: Screen, e: ScreenEvent)
      requires before == After(Mounted(payments), trail) && View() == Next(before, e)
      modifies this`trail
      ensures trail == old(trail) + [e] && Valid()
    {
      hide Next, After;
      AfterOneMore(Mounted(payments), trail, e);
      trail := trail + [e];
    }

    // -------------------------------------------------------------------------
    // Pieces that several handlers share
    // -------------------------------------------------------------------------

    method DropReview()
      modifies this`review, this`approvals
      ensures View() == ClearReview(old(View()))
    {
      review := None;
      approvals := [];
    }

    /** Writes the journal first; the screen follows only if the write succeeded. */
    method Save(next: Intent, saves: bool) returns (ok: bool)
      modifies this`storage, this`intent
      ensures ok == saves
      ensures View() == if saves then SaveIntent(old(View()), next) else old(View())
    {
      if !saves {
        return false;
      }
      storage := Some(next);
      intent := Some(next);
      return true;
    }

    method Drop()
      modifies this`storage, this`intent, this`outcome
      ensures View() == DropIntent(old(View()))
    {
      storage := None;
      intent := None;
      outcome := None;
    }

    method SeeSnapshot(next: Snapshot)
      modifies this`review, this`approvals
      ensures View() == AcceptSnapshot(old(View()), next)
    {
      if review.Some? && intent.None? && !Unchanged(review.value.snapshot, next) {
        DropReview();
      }
    }

    method SeeBudget(epoch: nat)
      modifies this`review, this`approvals
      ensures View() == AcceptBudget(old(View()), epoch)
    {
      if intent.None? && review.Some? && review.value.payment.Some?
         && review.value.payment.value.kind != Transfer && review.value.payment.value.epoch != epoch {
        DropReview();
      }
    }

    method Done()
      modifies this`action, this`busy
      ensures View() == Finish(old(View()))
    {
      action := Idle;
      busy := false;
    }

    /** The wallet is still the selected one. */
    predicate StillSelected(selected: Wallet)
      reads this
    {
      && wallet.provider == selected.provider
      && wallet.address.Some? && selected.address.Some? && SameAddress(wallet.address.value, selected.address.value)
    }

    /** The wallet is asked iff none of the approvals is by its owner. */
    method RequestSignature(ctx: Context, latest: Snapshot)
      requires ctx.wallet.address.Some?
      modifies this`action, this`busy
      ensures View() == AskSignature(old(View()), ctx, latest)
      ensures (forall i :: 0 <= i < |ctx.approvals| ==> !SameAddress(ctx.approvals[i].owner, ctx.wallet.address.value))
              ==> action == WalletSigning(ctx, latest) && busy == old(busy)
      ensures (exists i :: 0 <= i < |ctx.approvals| && SameAddress(ctx.approvals[i].owner, ctx.wallet.address.value))
              ==> action.Idle? && !busy
    {
      for i := 0 to |ctx.approvals|
        invariant View() == old(View())
        invariant forall j :: 0 <= j < i ==> !SameAddress(ctx.approvals[j].owner, ctx.wallet.address.value)
      {
        if SameAddress(ctx.approvals[i].owner, ctx.wallet.address.value) {
          Done();
          return;
        }
      }
      action := WalletSigning(ctx, latest);
    }

    /** What an action does with the snapshot it has just refreshed. */
    method Resume(next: Continuation, latest: Snapshot)
      modifies this`action, this`busy, this`approvals
      ensures View() == Continue(old(View()), next, latest)
    {
      hide Unchanged, SameAddress;
      match next {
        case ThenStop =>
          Done();
        case ThenReview =>
          action := Building(latest);
        case ThenSign(ctx) =>
          if !Unchanged(ctx.current.snapshot, latest) || ctx.wallet.address.None? {
            Done();
          } else if ctx.current.payment.Some? {
            action := FundingSign(ctx, latest);
          } else {
            RequestSignature(ctx, latest);
          }
        case ThenApprove(ctx, approval) =>
          if review == Some(ctx.current) && Unchanged(ctx.current.snapshot, latest) && StillSelected(ctx.wallet) {
            approvals := approvals + [approval.(after := latest)];
          }
          Done();
      }
    }

    method SendRequest(ctx: Context, request: Intent, saves: bool)
      modifies this`storage, this`intent, this`outcome, this`sends, this`action, this`busy
      ensures View() == SendNow(old(View()), ctx, request, saves)
    {
      var ok := Save(request, saves);
      if !ok {
        Done();
        return;
      }
      outcome := Some(Unknown);
      sends := sends + [Send(request, ctx.current, ctx.approvals)];
      action := WalletSending(ctx, request);
    }

    method Prepare(ctx: Context, now: Snapshot, identity: Identity, sender: string, saves: bool)
      modifies this`storage, this`intent, this`outcome, this`sends, this`action, this`busy, this`nextTicket
      ensures View() == PreparedSend(old(View()), ctx, now, identity, sender, saves)
    {
      hide Unchanged, Quorum, SameAddress, SendNow;
      if !Unchanged(ctx.current.snapshot, now) || !Quorum(ctx.current.transaction, ctx.current.snapshot, ctx.approvals) {
        Done();
        return;
      }
      if review != Some(ctx.current) || wallet.provider != ctx.wallet.provider
         || wallet.address.None? || !SameAddress(wallet.address.value, sender) {
        Done();
        return;
      }
      var request := Intent(nextTicket, |sends|, identity, sender, ctx.current.payment.Some?, None);
      nextTicket := nextTicket + 1;
      if ctx.current.payment.Some? && ctx.current.payment.value.kind == Invoice {
        action := Arming(ctx, request);
      } else {
        SendRequest(ctx, request, saves);
      }
    }

    method KeepHash(request: Intent, hash: string, saves: bool)
      modifies this`storage, this`intent, this`outcome, this`nextTicket, this`action, this`busy
      ensures View() == Returned(old(View()), request, hash, saves)
    {
      var ok := Save(request.(hash := Some(hash), ticket := nextTicket), saves);
      if ok {
        nextTicket := nextTicket + 1;
        outcome := Some(Pending);
      }
      Done();
    }

    method Withdraw(request: Intent, remembers: bool)
      modifies this`storage, this`intent, this`outcome, this`released, this`action, this`busy
      ensures View() == Refused(old(View()), request, remembers)
    {
      if !request.payment || remembers {
        Drop();
        released := released + {request.tag};
      }
      Done();
    }

    method Reset()
      modifies this`review, this`approvals, this`action, this`busy, this`outcome, this`poll, this`intent, this`nextTicket
      ensures View() == Reloaded(old(View()))
    {
      DropReview();
      Done();
      outcome := None;
      poll := Sleeping;
      intent := if storage.Some? then Some(storage.value.(ticket := nextTicket)) else None;
      nextTicket := nextTicket + 1;
    }

    method FailPoll(saves: bool)
      modifies this`storage, this`intent, this`outcome, this`poll
      ensures View() == PollFailed(old(View()), saves)
    {
      poll := Sleeping;
      if intent.Some? {
        if storage.None? || SameRequest(storage.value, intent.value) {
          var ok := Save(intent.value, saves);
        }
        outcome := Some(Unknown);
      }
    }

    method LookUpIntent(epoch: Option<nat>)
      modifies this`poll, this`outcome, this`review, this`approvals
      ensures View() == PollIntent(old(View()), epoch)
    {
      if intent.Some? {
        poll := ReadingOutcome(epoch, intent.value);
      } else {
        if epoch.Some? {
          SeeBudget(epoch.value);
        }
        outcome := None;
        poll := Sleeping;
      }
    }

    method LearnHash(current: Intent, result: Result) returns (tracked: Intent)
      ensures tracked == Tracked(View(), current, result)
    {
      tracked := current;
      if result.hash.Some? && result.hash != current.hash {
        tracked := current.(hash := result.hash, ticket := nextTicket);
      }
    }

    /** Releases a settled or rejected request; it stays observed, but out of the journal. */
    method Settle(tracked: Intent, final: Outcome)
      modifies this`storage, this`intent, this`outcome, this`review, this`approvals, this`released, this`poll
      ensures View() == ClearReview(old(View()).(storage := None, intent := Some(tracked), outcome := Some(final),
                                                 released := old(released) + {tracked.tag}, poll := Sleeping))
    {
      storage := None;
      intent := Some(tracked);
      DropReview();
      released := released + {tracked.tag};
      outcome := Some(final);
      poll := Sleeping;
    }

    method Observe(current: Intent, result: Result, remembers: bool, writes: bool, rewrites: bool)
      modifies this`storage, this`intent, this`outcome, this`review, this`approvals, this`released, this`poll, this`nextTicket
      ensures View() == Observed(old(View()), current, result, remembers, writes, rewrites)
    {
      hide Terminal, SameRequest, PollFailed, SaveIntent, ClearReview, Tracked;
      var tracked := LearnHash(current, result);
      nextTicket := nextTicket + 1;
      if (storage.Some? && !SameRequest(storage.value, tracked)) || (current.payment && !remembers) {
        FailPoll(rewrites);
      } else if Terminal(Some(result.outcome)) {
        Settle(tracked, result.outcome);
      } else if writes {
        var ok := Save(tracked, true);
        outcome := Some(result.outcome);
        poll := Sleeping;
      } else {
        FailPoll(rewrites);
      }
    }

    method EndRound(epoch: Option<nat>, current: Intent, result: Result, remembers: bool, writes: bool, rewrites: bool)
      modifies this`storage, this`intent, this`outcome, this`review, this`approvals, this`released, this`poll, this`nextTicket
      ensures View() == PollFinished(old(View()), epoch, current, result, remembers, writes, rewrites)
    {
      hide AcceptBudget, Observed;
      if epoch.Some? {
        SeeBudget(epoch.value);
      }
      if Some(current) == intent {
        Observe(current, result, remembers, writes, rewrites);
      } else {
        poll := Sleeping;
      }
    }

    // -------------------------------------------------------------------------
    // The poll
    // -------------------------------------------------------------------------

    method PollBegins()
      requires Valid() && poll.Sleeping?
      modifies this
      ensures Valid() && trail == old(trail) + [PollStarts]
      ensures View() == old(View()).(poll := ReadingSnapshot)
    {
      hide After;
      ghost var before := View();
      poll := ReadingSnapshot;
      Note(before, PollStarts);
    }

    /** A snapshot that contradicts the review drops it, unless a request is tracked. */
    method PollSawSnapshot(snapshot: Snapshot)
      requires Valid() && poll.ReadingSnapshot? && ValidSnapshot(snapshot)
      modifies this
      ensures Valid() && trail == old(trail) + [PollSnapshot(snapshot)]
      ensures intent == old(intent) && storage == old(storage) && sends == old(sends) && released == old(released)
      ensures review.Some? && intent.None? ==> Unchanged(review.value.snapshot, snapshot)
      ensures old(review).Some? && (intent.Some? || Unchanged(old(review).value.snapshot, snapshot)) ==>
                review == old(review) && approvals == old(approvals)
    {
      hide After, Unchanged, ValidSnapshot;
      ghost var before := View();
      SeeSnapshot(snapshot);
      if payments {
        poll := ReadingBudget;
      } else {
        LookUpIntent(None);
      }
      Note(before, PollSnapshot(snapshot));
    }

    method PollSawBudget(epoch: nat)
      requires Valid() && poll.ReadingBudget?
      modifies this
      ensures Valid() && trail == old(trail) + [PollBudget(epoch)]
      ensures intent.None? && old(review).Some? ==> review == if Outdated(old(review).value, epoch) then None else old(review)
      ensures intent.Some? ==> review == old(review)
      ensures intent == old(intent) && storage == old(storage) && sends == old(sends) && released == old(released)
    {
      hide After;
      ghost var before := View();
      LookUpIntent(Some(epoch));
      Note(before, PollBudget(epoch));
    }

    /** A round ends with a result. Only a final result releases, and only the request that
        was asked about; a result for a request no longer tracked changes neither. */
    method PollSawOutcome(result: Result, remembers: bool, writes: bool, rewrites: bool)
      requires Valid() && poll.ReadingOutcome?
      modifies this
      ensures Valid() && trail == old(trail) + [PollOutcome(result, remembers, writes, rewrites)]
      ensures sends == old(sends) && action == old(action)
      ensures forall k :: k in released && k !in old(released) ==> Terminal(Some(result.outcome)) && k == old(poll.current.tag)
      ensures old(intent) != Some(old(poll.current)) ==>
                intent == old(intent) && storage == old(storage) && outcome == old(outcome) && released == old(released)
      ensures old(intent) == Some(old(poll.current)) ==>
                View() == Decided(old(View()), old(poll.current), result, remembers, writes, rewrites)
      ensures old(intent).None? && old(review).Some? ==>
                review == if old(poll.epoch).Some? && Outdated(old(review).value, old(poll.epoch).value) then None else old(review)
    {
      hide After, PollFinished, Inv, Decided, SameRequest, Terminal;
      ghost var before := View();
      if intent.Some? {
        InvAlways(payments, trail);
        NoConflict(before);
      }
      if intent == Some(poll.current) {
        Decides(before, poll.epoch, poll.current, result, remembers, writes, rewrites);
      }
      EndRound(poll.epoch, poll.current, result, remembers, writes, rewrites);
      PollFinishedLog(before, before.poll.epoch, before.poll.current, result, remembers, writes, rewrites);
      StaleResultIgnored(before, before.poll.epoch, before.poll.current, result, remembers, writes, rewrites);
      Note(before, PollOutcome(result, remembers, writes, rewrites));
    }

    /** A failed round leaves a tracked request unresolved; it never releases one. */
    method PollBroke(rewrites: bool)
      requires Valid() && !poll.Sleeping?
      modifies this
      ensures Valid() && trail == old(trail) + [PollRejects(rewrites)]
      ensures sends == old(sends) && released == old(released) && poll.Sleeping? && intent == old(intent)
      ensures intent.Some? ==> outcome == Some(Unknown) && storage == if rewrites then intent else old(storage)
      ensures intent.None? ==> outcome == old(outcome) && storage == old(storage)
    {
      hide After, Inv, SameRequest;
      ghost var before := View();
      if intent.Some? {
        InvAlways(payments, trail);
        NoConflict(before);
      }
      FailPoll(rewrites);
      Note(before, PollRejects(rewrites));
    }

    method PollRestarted()
      requires Valid()
      modifies this
      ensures Valid() && trail == old(trail) + [PollRestarts]
    {
      hide After;
      ghost var before := View();
      poll := Sleeping;
      Note(before, PollRestarts);
    }

    // -------------------------------------------------------------------------
    // The user's actions
    // -------------------------------------------------------------------------

    /** A click during another action does nothing. */
    method Press(button: Button)
      requires Valid()
      modifies this
      ensures Valid() && trail == old(trail) + [Click(button)]
      ensures old(busy) ==> View() == old(View())
      ensures !old(busy) ==> View() == old(View()).(busy := true, action := Queued(button, approvals))
    {
      hide After;
      ghost var before := View();
      if !busy {
        busy := true;
        action := Queued(button, approvals);
      }
      Note(before, Click(button));
    }

    method StartRefresh()
      requires Valid() && action.Queued? && action.button == RefreshButton
      modifies this
      ensures Valid() && trail == old(trail) + [GuardPasses]
      ensures View() == old(View()).(action := RefreshSnapshot(ThenStop))
    {
      hide After;
      ghost var before := View();
      action := RefreshSnapshot(ThenStop);
      Note(before, GuardPasses);
    }

    /** A review is refused while a request is unfinished, and so while a send is unreleased;
        otherwise it begins, and a finished request is no longer tracked. */
    method StartReview()
      requires Valid() && action.Queued? && action.button == ReviewButton
      modifies this
      ensures Valid() && trail == old(trail) + [GuardPasses]
      ensures old(Unreleased(View())) != {} ==> View() == old(View()).(action := Idle, busy := false)
      ensures storage.Some? ==> storage == old(storage) && action.Idle?
      ensures old(intent).Some? && !Terminal(old(outcome)) ==> action.Idle? && !busy && intent == old(intent) && storage == old(storage)
      ensures old(intent).None? || Terminal(old(outcome)) ==>
                action == RefreshSnapshot(ThenReview) && intent.None? && storage.None? && (old(intent).Some? ==> outcome.None?)
      ensures sends == old(sends) && released == old(released) && wallet == old(wallet)
    {
      hide After, Unreleased, Inv;
      ghost var before, closure := View(), action.closure;
      NothingStartsWhileUnreleased(payments, trail, closure);
      JournalIsTracked(payments, trail);
      if intent.Some? && !Terminal(outcome) {
        Done();
      } else {
        if intent.Some? {
          Drop();
        }
        action := RefreshSnapshot(ThenReview);
      }
      Note(before, GuardPasses);
    }

    method StartSigning()
      requires Valid() && action.Queued? && action.button == SignButton
      modifies this
      ensures Valid() && trail == old(trail) + [GuardPasses]
      ensures review.Some? && wallet.provider.Some? && wallet.address.Some? ==>
                action.CheckingNetwork? && action.purpose.Signing? && action.ctx.wallet == wallet
      ensures action.CheckingNetwork? ==> review == Some(action.ctx.current) && action.ctx.approvals == approvals
      ensures !action.CheckingNetwork? ==> action.Idle? && !busy
    {
      hide After;
      ghost var before := View();
      InvAlways(payments, trail);
      if review.None? || wallet.provider.None? || wallet.address.None? {
        Done();
      } else {
        action := CheckingNetwork(Signing, Context(review.value, wallet, action.closure));
      }
      Note(before, GuardPasses);
    }

    /** Submitting is refused while a send is unreleased; otherwise it goes on with the review
        and the approvals on screen. */
    method StartSubmitting()
      requires Valid() && action.Queued? && action.button == SubmitButton
      modifies this
      ensures Valid() && trail == old(trail) + [GuardPasses]
      ensures old(Unreleased(View())) != {} ==> View() == old(View()).(action := Idle, busy := false)
      ensures review.Some? && intent.None? && wallet.provider.Some? && wallet.address.Some? ==>
                action.CheckingNetwork? && action.purpose.Submitting? && action.ctx.wallet == wallet
      ensures action.CheckingNetwork? ==> review == Some(action.ctx.current) && action.ctx.approvals == approvals
      ensures !action.CheckingNetwork? ==> action.Idle? && !busy
    {
      hide After, Unreleased;
      ghost var before, closure := View(), action.closure;
      NothingStartsWhileUnreleased(payments, trail, closure);
      InvAlways(payments, trail);
      if review.None? || wallet.provider.None? || intent.Some? || wallet.address.None? {
        Done();
      } else {
        action := CheckingNetwork(Submitting, Context(review.value, wallet, action.closure));
      }
      Note(before, GuardPasses);
    }

    /** An awaited call of the action throws: the action is over, and nothing else changes. */
    method ActionFailed()
      requires Valid() && CanFail(action)
      modifies this
      ensures Valid() && trail == old(trail) + [ActionFails]
      ensures View() == old(View()).(action := Idle, busy := false)
    {
      hide After;
      ghost var before := View();
      Done();
      Note(before, ActionFails);
    }

    /** The network check goes on only with the same review, no request and the same wallet. */
    method CheckedNetwork()
      requires Valid() && action.CheckingNetwork?
      modifies this
      ensures Valid() && trail == old(trail) + [NetworkIsReady]
      ensures !action.Idle? <==> intent.None? && review == Some(old(action.ctx.current)) && SameWallet(View(), old(action.ctx.wallet))
      ensures !action.Idle? ==> action == if old(action.purpose).Signing? then RefreshSnapshot(ThenSign(old(action.ctx)))
                                          else if review.value.payment.Some? then FundingSubmit(old(action.ctx))
                                          else Preparing(old(action.ctx))
    {
      hide SameAddress, After;
      ghost var before := View();
      var ctx := action.ctx;
      if review != Some(ctx.current) || intent.Some? || !StillSelected(ctx.wallet) {
        Done();
      } else {
        match action.purpose {
          case Signing => action := RefreshSnapshot(ThenSign(ctx));
          case Submitting => action := if ctx.current.payment.Some? then FundingSubmit(ctx) else Preparing(ctx);
        }
      }
      Note(before, NetworkIsReady);
    }

    /** A refresh inside an action read a snapshot. It can complete an approval, and then the
        approval is the connected wallet's and the only thing added. */
    method ReadSnapshot(snapshot: Snapshot)
      requires Valid() && action.RefreshSnapshot? && ValidSnapshot(snapshot)
      modifies this
      ensures Valid() && trail == old(trail) + [ActionSnapshot(snapshot)]
      ensures |approvals| > |old(approvals)| ==>
                && approvals[..|old(approvals)|] == old(approvals) && |approvals| == |old(approvals)| + 1
                && review == old(review) && Connected(old(View()), approvals[|old(approvals)|].owner)
      ensures sends == old(sends) && released == old(released) && intent == old(intent) && storage == old(storage)
    {
      hide Unchanged, ValidSnapshot, Approved, SameAddress, Continue, After, Inv;
      ghost var before := View();
      var next := action.next;
      SeeSnapshot(snapshot);
      if payments {
        action := RefreshBudget(next, snapshot);
      } else {
        Resume(next, snapshot);
      }
      Approves(payments, trail, ActionSnapshot(snapshot));
      Note(before, ActionSnapshot(snapshot));
    }

    method ReadBudget(epoch: nat)
      requires Valid() && action.RefreshBudget?
      modifies this
      ensures Valid() && trail == old(trail) + [ActionBudget(epoch)]
      ensures |approvals| > |old(approvals)| ==>
                && approvals[..|old(approvals)|] == old(approvals) && |approvals| == |old(approvals)| + 1
                && review == old(review) && Connected(old(View()), approvals[|old(approvals)|].owner)
      ensures sends == old(sends) && released == old(released) && intent == old(intent) && storage == old(storage)
    {
      hide Unchanged, Continue, After, Inv;
      ghost var before := View();
      var next, snapshot := action.next, action.snapshot;
      SeeBudget(epoch);
      Resume(next, snapshot);
      Approves(payments, trail, ActionBudget(epoch));
      Note(before, ActionBudget(epoch));
    }

    /** A new review starts with no approvals, at the nonce just read, and as a new object. */
    method ShowReview(payload: int, payment: Option<Terms>)
      requires Valid() && action.Building? && payment.Some? == payments
      modifies this
      ensures Valid() && trail == old(trail) + [ReviewBuilt(payload, payment)]
      ensures review.Some? && ReviewOk(review.value) && approvals == [] && review != old(review)
      ensures review.value.transaction == SafeTransaction(payload, old(action).snapshot.nonce)
      ensures review.value.snapshot == old(action).snapshot && review.value.payment == payment
    {
      hide After, ValidSnapshot;
      ghost var before := View();
      InvAlways(payments, trail);
      ReviewTicketIsOld(payments, trail);
      var latest := action.snapshot;
      review := Some(Review(nextTicket, SafeTransaction(payload, latest.nonce), latest, payment));
      nextTicket := nextTicket + 1;
      approvals := [];
      Done();
      Note(before, ReviewBuilt(payload, payment));
    }

    method FundingSuffices()
      requires Valid() && (action.FundingSign? || action.FundingSubmit?)
      modifies this
      ensures Valid() && trail == old(trail) + [FundingCovers]
    {
      hide After, Approved;
      ghost var before := View();
      match action {
        case FundingSign(ctx, latest) =>
          if ctx.wallet.address.None? {
            Done();
          } else {
            RequestSignature(ctx, latest);
          }
        case FundingSubmit(ctx) =>
          action := Preparing(ctx);
      }
      Note(before, FundingCovers);
    }

    /** The wallet signed. Nothing is kept before the state was read once more. */
    method WalletSigned()
      requires Valid() && action.WalletSigning?
      modifies this
      ensures Valid() && trail == old(trail) + [WalletSigns]
      ensures approvals == old(approvals) && review == old(review)
    {
      hide After, Owns;
      ghost var before := View();
      var ctx, latest := action.ctx, action.latest;
      if ctx.wallet.address.None? || !Owns(latest, ctx.wallet.address.value) {
        Done();
      } else {
        action := RefreshSnapshot(ThenApprove(ctx, Approval(ctx.wallet.address.value, ctx.current.transaction, latest, latest)));
      }
      Note(before, WalletSigns);
    }

    /** After the quorum was packed: look again, then send, or arm the invoice first. If this
        sends, the journal was empty, every earlier send is released, the journal now holds
        this request, and it carries a quorum for the review on screen. */
    method Submit(now: Snapshot, identity: Identity, sender: string, saves: bool)
      requires Valid() && action.Preparing?
      modifies this
      ensures Valid() && trail == old(trail) + [Prepared(now, identity, sender, saves)]
      ensures sends == old(sends) || SafeSend(old(View()), View())
      ensures sends != old(sends) ==> review == Some(sends[|old(sends)|].review) && Connected(View(), sends[|old(sends)|].intent.sender)
    {
      hide PreparedSend, After, SafeSend, Quorum, SameAddress;
      ghost var before := View();
      Prepare(action.ctx, now, identity, sender, saves);
      PreparedSendsLive(before, before.action.ctx, now, identity, sender, saves);
      SendIsSafe(payments, trail, Prepared(now, identity, sender, saves));
      Note(before, Prepared(now, identity, sender, saves));
    }

    /** The fixture is armed. The send is as safe, except that review and wallet may have
        changed in the wait. */
    method InvoiceArmed(saves: bool)
      requires Valid() && action.Arming?
      modifies this
      ensures Valid() && trail == old(trail) + [Armed(saves)]
      ensures sends == old(sends) || SafeSend(old(View()), View())
      ensures sends != old(sends) <==> saves
    {
      hide SendNow, After, SafeSend;
      ghost var before := View();
      SendRequest(action.ctx, action.intent, saves);
      SendIsSafe(payments, trail, Armed(saves));
      ArmedSends(before, before.action.ctx, before.action.intent, saves);
      Note(before, Armed(saves));
    }

    /** The wallet answers with a hash: the request stays locked under it, or as it was when
        the journal refuses the write. */
    method WalletAnswered(hash: string, saves: bool)
      requires Valid() && action.WalletSending?
      modifies this
      ensures Valid() && trail == old(trail) + [WalletReturns(hash, saves)]
      ensures saves ==> storage.Some? && storage == intent && intent.value.hash == Some(hash)
                        && intent.value.tag == old(action.intent.tag) && outcome == Some(Pending)
      ensures !saves ==> storage == old(storage) && intent == old(intent) && outcome == old(outcome)
      ensures released == old(released) && sends == old(sends) && action.Idle?
    {
      hide After;
      ghost var before := View();
      KeepHash(action.intent, hash, saves);
      Note(before, WalletReturns(hash, saves));
    }

    /** The wallet's answer is uncertain: the request keeps its place in the journal. */
    method WalletUnsure()
      requires Valid() && action.WalletSending?
      modifies this
      ensures Valid() && trail == old(trail) + [WalletUncertain]
      ensures storage == old(storage) && intent == old(intent) && outcome == old(outcome) && released == old(released)
    {
      hide After;
      ghost var before := View();
      Done();
      Note(before, WalletUncertain);
    }

    /** The wallet refuses. Only this request can be released by it. */
    method WalletDeclined(remembers: bool)
      requires Valid() && action.WalletSending?
      modifies this
      ensures Valid() && trail == old(trail) + [WalletRefuses(remembers)]
      ensures forall k :: k in released && k !in old(released) ==> k == old(action.intent.tag)
      ensures released != old(released) ==> storage.None? && intent.None? && Unreleased(View()) == {}
    {
      hide After, Refused, Unreleased;
      ghost var before := View();
      var ctx, request := action.ctx, action.intent;
      if ctx.current.payment.Some? && ctx.current.payment.value.kind == Invoice {
        action := Cancelling(ctx, request);
      } else {
        Withdraw(request, remembers);
      }
      RefusedReleases(before, request, remembers);
      Note(before, WalletRefuses(remembers));
      EmptyJournalIsClear(payments, trail);
    }

    method InvoiceWithdrawn(remembers: bool)
      requires Valid() && action.Cancelling?
      modifies this
      ensures Valid() && trail == old(trail) + [InvoiceCancelled(remembers)]
      ensures forall k :: k in released && k !in old(released) ==> k == old(action.intent.tag)
      ensures released != old(released) ==> storage.None? && intent.None? && Unreleased(View()) == {}
    {
      hide After, Refused, Unreleased;
      ghost var before := View();
      var request := action.intent;
      Withdraw(request, remembers);
      RefusedReleases(before, request, remembers);
      Note(before, InvoiceCancelled(remembers));
      EmptyJournalIsClear(payments, trail);
    }

    // -------------------------------------------------------------------------
    // The surroundings
    // -------------------------------------------------------------------------

    method EditPressed()
      requires Valid() && review.Some? && intent.None? && !busy
      modifies this
      ensures Valid() && trail == old(trail) + [EditClicked]
      ensures review.None? && approvals == []
    {
      hide After;
      ghost var before := View();
      DropReview();
      Note(before, EditClicked);
    }

    method WalletChanged(selected: Wallet)
      requires Valid()
      modifies this
      ensures Valid() && trail == old(trail) + [WalletChanges(selected)]
      ensures View() == old(View()).(wallet := selected)
    {
      hide After;
      ghost var before := View();
      wallet := selected;
      Note(before, WalletChanges(selected));
    }

    /** A fresh page: everything but the journal is gone, and what the journal holds is
        tracked again, so every unreleased send still locks the screen. */
    method Remount()
      requires Valid()
      modifies this
      ensures Valid() && trail == old(trail) + [Reload]
      ensures storage == old(storage) && (intent.Some? <==> storage.Some?) && review.None? && approvals == [] && !busy
      ensures Unreleased(View()) == old(Unreleased(View()))
      ensures Unreleased(View()) != {} ==> intent.Some? && Unreleased(View()) == {intent.value.tag}
    {
      hide After, Unreleased;
      ghost var before := View();
      Reset();
      RemountTracks(payments, trail);
      Note(before, Reload);
    }

    /** Whether Submit can be pressed; then different owners enough approved exactly the
        transaction on screen, and packing will accept them. */
    method CanSubmit() returns (enabled: bool)
      requires Valid()
      ensures enabled == SubmitEnabled(View())
      ensures enabled ==>
                && review.Some? && |LowerOwners(approvals)| >= review.value.snapshot.threshold
                && (forall i :: 0 <= i < |approvals| ==> ApprovalOk(approvals[i], review.value))
                && (DistinctAddresses(review.value.snapshot.owners) ==>
                      Quorum(review.value.transaction, review.value.snapshot, approvals))
    {
      hide After, LowerOwners, Quorum, DistinctAddresses, ApprovalOk;
      enabled := !busy && review.Some? && intent.None? && wallet.address.Some?
                 && |approvals| >= review.value.snapshot.threshold;
      if enabled {
        SubmitMeansQuorum(payments, trail);
        ApprovalsBelongToTheReview(payments, trail);
      }
    }
  }

  /** Reviewed against a budget period that is over. */
  predicate Outdated(r: Review, epoch: nat) {
    r.payment.Some? && r.payment.value.kind != Transfer && r.payment.value.epoch != epoch
  }

  // ---------------------------------------------------------------------------
  // The protocol's results, in the form the handlers use
  // ---------------------------------------------------------------------------

  lemma StaleResultIgnored(s: Screen, epoch: Option<nat>, current: Intent, result: Result,
                           remembers: bool, writes: bool, rewrites: bool)
    ensures var t := PollFinished(s, epoch, current, result, remembers, writes, rewrites);
      && t.action == s.action
      && (s.intent.None? && s.review.Some? ==>
            t.review == if epoch.Some? && Outdated(s.review.value, epoch.value) then None else s.review)
      && (s.intent != Some(current) ==>
            t.intent == s.intent && t.storage == s.storage && t.outcome == s.outcome && t.released == s.released)
  {
    hide Terminal, SameRequest, Tracked;
  }

  lemma NothingStartsWhileUnreleased(payments: bool, events: seq<ScreenEvent>, closure: seq<Approval>)
    ensures var s := After(Mounted(payments), events);
      Unreleased(s) != {} ==>
        s.intent.Some? && !Terminal(s.outcome)
        && Begin(s, ReviewButton, closure) == Finish(s) && Begin(s, SubmitButton, closure) == Finish(s)
  {
    hide After, Begin, Finish, Unreleased, Terminal;
    var s := After(Mounted(payments), events);
    if Unreleased(s) != {} {
      var k :| k in Unreleased(s);
      UnreleasedSendLocksTheScreen(payments, events, k, closure);
    }
  }

  /** With something in the journal a request is tracked. */
  lemma JournalIsTracked(payments: bool, events: seq<ScreenEvent>)
    ensures var s := After(Mounted(payments), events); s.storage.Some? ==> s.intent.Some?
  {
    hide After;
    InvAlways(payments, events);
  }

  lemma Approves(payments: bool, events: seq<ScreenEvent>, e: ScreenEvent)
    ensures var s := After(Mounted(payments), events); var t := Next(s, e);
      |t.approvals| > |s.approvals| ==>
        && t.approvals[..|s.approvals|] == s.approvals && |t.approvals| == |s.approvals| + 1
        && t.review == s.review && Connected(s, t.approvals[|s.approvals|].owner)
  {
    hide After, Next, Connected;
    var s := After(Mounted(payments), events);
    if |Next(s, e).approvals| > |s.approvals| {
      KeptApprovalIsFromTheConnectedWallet(payments, events, e);
    }
  }

  lemma SendIsSafe(payments: bool, events: seq<ScreenEvent>, e: ScreenEvent)
    ensures var s := After(Mounted(payments), events); Next(s, e).sends == s.sends || SafeSend(s, Next(s, e))
  {
    hide After, Next, SafeSend;
    if Next(After(Mounted(payments), events), e).sends != After(Mounted(payments), events).sends {
      EverySendIsSafe(payments, events, e);
    }
  }

  lemma PreparedSendsLive(s: Screen, ctx: Context, now: Snapshot, identity: Identity, sender: string, saves: bool)
    ensures var t := PreparedSend(s, ctx, now, identity, sender, saves);
      t.sends != s.sends ==>
        && |t.sends| == |s.sends| + 1 && t.wallet == s.wallet
        && t.review == Some(t.sends[|s.sends|].review) && Connected(t, t.sends[|s.sends|].intent.sender)
  {
    hide Unchanged, Quorum, SameAddress, IsInvoice;
  }

  lemma ArmedSends(s: Screen, ctx: Context, i: Intent, saves: bool)
    ensures SendNow(s, ctx, i, saves).sends != s.sends <==> saves
  {
    if saves {
      assert |SendNow(s, ctx, i, saves).sends| == |s.sends| + 1;
    }
  }

  lemma RefusedReleases(s: Screen, i: Intent, remembers: bool)
    ensures var t := Refused(s, i, remembers);
      && (forall k :: k in t.released && k !in s.released ==> k == i.tag)
      && (t.released != s.released ==> t.storage.None? && t.intent.None?)
  {
  }

  lemma EmptyJournalIsClear(payments: bool, events: seq<ScreenEvent>)
    ensures var s := After(Mounted(payments), events); s.storage.None? ==> Unreleased(s) == {}
  {
    hide After;
    InvAlways(payments, events);
    var s := After(Mounted(payments), events);
    assert forall k :: k in Unreleased(s) ==> 0 <= k < |s.sends| && k !in s.released;
  }

  lemma RemountTracks(payments: bool, events: seq<ScreenEvent>)
    ensures var s := After(Mounted(payments), events); var t := Next(s, Reload);
      && Unreleased(t) == Unreleased(s)
      && (Unreleased(s) != {} ==> t.intent.Some? && Unreleased(s) == {t.intent.value.tag})
  {
    hide After, Next, Unreleased, Terminal, Begin, Finish;
    var s := After(Mounted(payments), events);
    ReloadTracksTheJournal(payments, events, 0);
    if Unreleased(s) != {} {
      var k :| k in Unreleased(s);
      ReloadTracksTheJournal(payments, events, k);
      UnreleasedSendLocksTheScreen(payments, events, k, []);
    }
  }
}
