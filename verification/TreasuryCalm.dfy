/** An action of the user while polls come and go around it: as long as they leave review,
    wallet and finished request alone, the action runs as if it were by itself. */
module TreasuryCalm {
  import opened Prelude
  import opened SafeQuorum
  import opened TreasuryProtocol
  import opened TreasurySafety

  /** The events of the user's actions in a run. */
  function Actions(run: seq<ScreenEvent>): seq<ScreenEvent> {
    if run == [] then []
    else
      var before, last := Actions(run[..|run| - 1]), run[|run| - 1];
      if IsActionEvent(last) then before + [last] else before
  }

  /** A poll event that leaves review, wallet and a finished request as they are. */
  predicate Calm(s: Screen, e: ScreenEvent) {
    IsActionEvent(e) || (!e.Reload? && Quieted(s, Next(s, e)))
  }

  predicate Quieted(s: Screen, t: Screen) {
    && t.review == s.review && t.wallet == s.wallet && Terminal(t.outcome) == Terminal(s.outcome)
    && (Terminal(s.outcome) ==> t.nextTicket == s.nextTicket)
  }

  ghost predicate Undisturbed(s: Screen, run: seq<ScreenEvent>) {
    forall i :: 0 <= i < |run| ==> Calm(After(s, run[..i]), run[i])
  }

  predicate ReviewUnderWay(a: Action) {
    a.Building? || (a.RefreshSnapshot? && a.next.ThenReview?) || (a.RefreshBudget? && a.next.ThenReview?)
  }

  /** What the user's actions depend on, up to the send. */
  predicate Alike(s: Screen, t: Screen) {
    && s.payments == t.payments && s.review == t.review && s.approvals == t.approvals && s.wallet == t.wallet
    && s.action == t.action && s.busy == t.busy && s.sends == t.sends
    && s.intent.None? == t.intent.None? && Terminal(s.outcome) == Terminal(t.outcome)
    && (s.intent.None? || Terminal(s.outcome) ==> s.nextTicket == t.nextTicket)
    && (ReviewUnderWay(s.action) ==> s.intent.None?)
  }

  /** The events that carry an action up to the send. */
  predicate Carries(e: ScreenEvent) {
    e.Click? || e.GuardPasses? || e.NetworkIsReady? || e.ActionSnapshot? || e.ActionBudget? || e.ReviewBuilt?
    || e.FundingCovers? || e.WalletSigns? || e.Prepared? || e.Armed?
  }

  // ---------------------------------------------------------------------------
  // Poll events
  // ---------------------------------------------------------------------------

  /** What a poll leaves alone while no request is tracked. */
  predicate Untouched(s: Screen, t: Screen) {
    && t.payments == s.payments && t.action == s.action && t.busy == s.busy && t.sends == s.sends
    && t.intent.None? == s.intent.None?
    && (t.review == s.review ==> t.approvals == s.approvals)
    && (s.intent.None? ==> t.nextTicket == s.nextTicket)
  }

  lemma ObservedLeaves(s: Screen, current: Intent, result: Result, remembers: bool, writes: bool, rewrites: bool)
    requires s.intent.Some? && (s.review.None? ==> s.approvals == [])
    ensures Untouched(s, Observed(s, current, result, remembers, writes, rewrites))
  {
  }

  lemma PollFinishedLeaves(s: Screen, epoch: Option<nat>, current: Intent, result: Result, remembers: bool, writes: bool, rewrites: bool)
    requires s.review.None? ==> s.approvals == []
    ensures Untouched(s, PollFinished(s, epoch, current, result, remembers, writes, rewrites))
  {
    hide Observed;
    if s.intent.Some? {
      ObservedLeaves(s, current, result, remembers, writes, rewrites);
    }
  }

  lemma PollLeaves(s: Screen, e: ScreenEvent)
    requires (s.review.None? ==> s.approvals == []) && !IsActionEvent(e) && !e.Reload?
    ensures Untouched(s, Next(s, e))
  {
    hide ActionStep, PollFinished, Unchanged, ValidSnapshot;
    if e.PollOutcome? && s.poll.ReadingOutcome? {
      PollFinishedLeaves(s, s.poll.epoch, s.poll.current, e.result, e.remembers, e.writes, e.rewrites);
    }
  }

  lemma PollStaysAlike(s: Screen, t: Screen, e: ScreenEvent)
    requires Inv(s) && Alike(s, t) && !IsActionEvent(e) && Calm(s, e)
    ensures Alike(Next(s, e), t)
  {
    hide ActionOk, SendsOk, JournalOk, ReviewOk, Next;
    PollLeaves(s, e);
  }

  // ---------------------------------------------------------------------------
  // Action events
  // ---------------------------------------------------------------------------

  lemma BeginAlike(s: Screen, t: Screen, button: Button, closure: seq<Approval>)
    requires Alike(s, t)
    ensures Alike(Begin(s, button, closure), Begin(t, button, closure))
  {
    if button.ReviewButton? {
      BeginReviewAlike(s, t, closure);
    } else {
      hide Terminal;
    }
  }

  lemma BeginReviewAlike(s: Screen, t: Screen, closure: seq<Approval>)
    requires Alike(s, t)
    ensures Alike(Begin(s, ReviewButton, closure), Begin(t, ReviewButton, closure))
  {
  }

  lemma NetworkAlike(s: Screen, t: Screen, purpose: Purpose, ctx: Context)
    requires Alike(s, t)
    ensures Alike(NetworkReady(s, purpose, ctx), NetworkReady(t, purpose, ctx))
  {
    hide SameAddress, Terminal;
  }

  lemma AcceptsAlike(s: Screen, t: Screen, snapshot: Snapshot, epoch: nat)
    requires Alike(s, t)
    ensures Alike(AcceptSnapshot(s, snapshot), AcceptSnapshot(t, snapshot))
    ensures Alike(AcceptBudget(s, epoch), AcceptBudget(t, epoch))
    ensures AcceptSnapshot(s, snapshot).action == s.action && AcceptBudget(s, epoch).action == s.action
    ensures AcceptSnapshot(s, snapshot).intent == s.intent && AcceptBudget(s, epoch).intent == s.intent
  {
    hide Unchanged, Terminal;
  }

  lemma AskAlike(s: Screen, t: Screen, ctx: Context, latest: Snapshot)
    requires Alike(s, t)
    ensures ctx.wallet.address.Some? ==> Alike(AskSignature(s, ctx, latest), AskSignature(t, ctx, latest))
  {
    hide Approved, Terminal;
  }

  lemma ContinueAlike(s: Screen, t: Screen, next: Continuation, latest: Snapshot)
    requires Alike(s, t) && (next.ThenReview? ==> s.intent.None?)
    ensures Alike(Continue(s, next, latest), Continue(t, next, latest))
  {
    hide Unchanged, Terminal, SameAddress, AskSignature;
    match next {
      case ThenSign(ctx) => AskAlike(s, t, ctx, latest);
      case _ =>
    }
  }

  lemma SnapshotAlike(s: Screen, t: Screen, next: Continuation, snapshot: Snapshot)
    requires Alike(s, t) && s.action == RefreshSnapshot(next)
    ensures Alike(ActionStep(s, ActionSnapshot(snapshot)), ActionStep(t, ActionSnapshot(snapshot)))
  {
    hide Continue, AcceptSnapshot, Terminal, ValidSnapshot;
    AcceptsAlike(s, t, snapshot, 0);
    ContinueAlike(AcceptSnapshot(s, snapshot), AcceptSnapshot(t, snapshot), next, snapshot);
  }

  lemma BudgetAlike(s: Screen, t: Screen, next: Continuation, snapshot: Snapshot, epoch: nat)
    requires Alike(s, t) && s.action == RefreshBudget(next, snapshot)
    ensures Alike(ActionStep(s, ActionBudget(epoch)), ActionStep(t, ActionBudget(epoch)))
  {
    hide Continue, AcceptBudget, Terminal;
    AcceptsAlike(s, t, snapshot, epoch);
    ContinueAlike(AcceptBudget(s, epoch), AcceptBudget(t, epoch), next, snapshot);
  }

  lemma BuiltAlike(s: Screen, t: Screen, latest: Snapshot, payload: int, payment: Option<Terms>)
    requires Alike(s, t) && s.intent.None?
    ensures Alike(Reviewed(s, latest, payload, payment), Reviewed(t, latest, payload, payment))
  {
    hide Terminal;
  }

  lemma SendAlike(s: Screen, t: Screen, ctx: Context, intent: Intent, saves: bool)
    requires Alike(s, t)
    ensures Alike(SendNow(s, ctx, intent, saves), SendNow(t, ctx, intent, saves))
  {
  }

  lemma PreparedAlike(s: Screen, t: Screen, ctx: Context, now: Snapshot, identity: Identity, sender: string, saves: bool)
    requires Alike(s, t) && s.intent.None?
    ensures Alike(PreparedSend(s, ctx, now, identity, sender, saves), PreparedSend(t, ctx, now, identity, sender, saves))
  {
    AlikeParts(s, t);
    hide Unchanged, Quorum, SendNow, SameAddress, IsInvoice, Alike, Finish, At;
    var intent := Intent(s.nextTicket, |s.sends|, identity, sender, ctx.current.payment.Some?, None);
    var counted, counted' := s.(nextTicket := s.nextTicket + 1), t.(nextTicket := t.nextTicket + 1);
    StopsAlike(s, t, Arming(ctx, intent));
    SendAlike(counted, counted', ctx, intent, saves);
  }

  lemma AlikeParts(s: Screen, t: Screen)
    requires Alike(s, t) && s.intent.None?
    ensures s.review == t.review && s.wallet == t.wallet && s.sends == t.sends && s.nextTicket == t.nextTicket
  {
  }

  lemma StopsAlike(s: Screen, t: Screen, a: Action)
    requires Alike(s, t) && s.intent.None?
    ensures Alike(Finish(s), Finish(t))
    ensures var counted, counted' := s.(nextTicket := s.nextTicket + 1), t.(nextTicket := t.nextTicket + 1);
      Alike(counted, counted') && Alike(At(counted, a), At(counted', a))
  {
  }

  lemma SignsAlike(s: Screen, t: Screen)
    requires Alike(s, t) && s.action.WalletSigning?
    ensures Alike(ActionStep(s, WalletSigns), ActionStep(t, WalletSigns))
  {
    hide Owns, Terminal;
  }

  predicate Reads(e: ScreenEvent) {
    e.Click? || e.GuardPasses? || e.NetworkIsReady? || e.ActionSnapshot? || e.ActionBudget?
  }

  lemma ReadStaysAlike(s: Screen, t: Screen, e: ScreenEvent)
    requires Alike(s, t) && Reads(e)
    ensures Alike(ActionStep(s, e), ActionStep(t, e))
  {
    hide NetworkReady, Begin, Continue, AcceptSnapshot, AcceptBudget, ValidSnapshot, Terminal;
    match (e, s.action) {
      case (GuardPasses, Queued(button, closure)) => BeginAlike(s, t, button, closure);
      case (NetworkIsReady, CheckingNetwork(purpose, ctx)) => NetworkAlike(s, t, purpose, ctx);
      case (ActionSnapshot(snapshot), RefreshSnapshot(next)) => SnapshotAlike(s, t, next, snapshot);
      case (ActionBudget(epoch), RefreshBudget(next, snapshot)) => BudgetAlike(s, t, next, snapshot, epoch);
      case _ =>
    }
  }

  lemma ActionStaysAlike(s: Screen, t: Screen, e: ScreenEvent)
    requires Inv(s) && Alike(s, t) && Carries(e)
    ensures Alike(ActionStep(s, e), ActionStep(t, e))
  {
    if Reads(e) {
      hide Inv, Alike, ActionStep;
      ReadStaysAlike(s, t, e);
    } else {
      AnswerStaysAlike(s, t, e);
    }
  }

  lemma AnswerStaysAlike(s: Screen, t: Screen, e: ScreenEvent)
    requires Inv(s) && Alike(s, t) && Carries(e) && !Reads(e)
    ensures Alike(ActionStep(s, e), ActionStep(t, e))
  {
    hide Core, PreparedSend, SendNow, ContextOk, ContinuationOk, AskSignature, Reviewed, Owns, Terminal, Quorum;
    match (e, s.action) {
      case (ReviewBuilt(payload, payment), Building(latest)) => BuiltAlike(s, t, latest, payload, payment);
      case (WalletSigns, WalletSigning(_, _)) => SignsAlike(s, t);
      case (Prepared(now, identity, sender, saves), Preparing(ctx)) => PreparedAlike(s, t, ctx, now, identity, sender, saves);
      case (Armed(saves), Arming(ctx, intent)) => SendAlike(s, t, ctx, intent, saves);
      case (FundingCovers, FundingSign(ctx, latest)) => AskAlike(s, t, ctx, latest);
      case _ =>
    }
  }

  /** An undisturbed run goes where its actions alone would go. */
  lemma {:induction false} Follows(s: Screen, run: seq<ScreenEvent>)
    requires Inv(s) && Alike(s, s) && Undisturbed(s, run)
    requires forall i :: 0 <= i < |Actions(run)| ==> Carries(Actions(run)[i])
    ensures Inv(After(s, run)) && Alike(After(s, run), After(s, Actions(run)))
  {
    if run != [] {
      hide Inv, Alike, Calm, ActionStep, BackgroundStep;
      var before, last := run[..|run| - 1], run[|run| - 1];
      assert Undisturbed(s, before) by {
        forall i | 0 <= i < |before| ensures Calm(After(s, before[..i]), before[i]) {
          assert before[..i] == run[..i];
        }
      }
      assert forall i :: 0 <= i < |Actions(before)| ==> Actions(before)[i] == Actions(run)[i];
      Follows(s, before);
      NextKeeps(After(s, before), last);
      assert Calm(After(s, before), last);
      if IsActionEvent(last) {
        assert Carries(last) by { assert Actions(run)[|Actions(before)|] == last; }
        AfterOneMore(s, Actions(before), last);
        ActionStaysAlike(After(s, before), After(s, Actions(before)), last);
      } else {
        PollStaysAlike(After(s, before), After(s, Actions(before)), last);
      }
    }
  }

  lemma RestingIsAlike(s: Screen)
    requires !ReviewUnderWay(s.action)
    ensures Alike(s, s)
  {
  }

  // ---------------------------------------------------------------------------
  // Runs of actions, event by event
  // ---------------------------------------------------------------------------

  lemma AfterNothing(s: Screen)
    ensures After(s, []) == s
  {
  }

  /** The next event of a run. */
  lemma StepAt(s: Screen, run: seq<ScreenEvent>, k: nat, at: Screen)
    requires k < |run| && After(s, run[..k]) == at
    ensures After(s, run[..k + 1]) == Next(at, run[k])
    ensures k + 1 == |run| ==> After(s, run) == Next(at, run[k])
  {
    hide Next;
    assert run[..k + 1] == run[..k] + [run[k]];
    assert k + 1 == |run| ==> run[..k + 1] == run;
    AfterOneMore(s, run[..k], run[k]);
  }
}
