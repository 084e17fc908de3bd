/** Reviewing, approving and submitting one Safe transaction, with the poll loop running
    alongside and reloads possible at any await. The chain, the wallet and the invoice
    fixture answer as they like. */
module TreasuryProtocol {
  import opened Prelude
  import opened SafeQuorum

  // ---------------------------------------------------------------------------
  // State
  // ---------------------------------------------------------------------------

  datatype Kind = Fixed | Invoice | Transfer

  /** What a payment review fixes besides the transaction. */
  datatype Terms = Terms(kind: Kind, epoch: nat)

  /** `ticket` stands for object identity: every new object gets a new one. */
  datatype Review = Review(ticket: nat, transaction: SafeTransaction, snapshot: Snapshot, payment: Option<Terms>)

  /** attemptId and the signed data: which request this is. */
  datatype Identity = Identity(attempt: string, data: string)

  /** A submission. `tag` numbers the send it belongs to; it is a label for the theorems. */
  datatype Intent = Intent(ticket: nat, tag: nat, identity: Identity, sender: string, payment: bool, hash: Option<string>)

  datatype Outcome = Pending | Settled | Rejected | Unknown

  datatype Result = Result(outcome: Outcome, hash: Option<string>)

  datatype Wallet = Wallet(provider: Option<nat>, address: Option<string>)

  datatype Button = ReviewButton | SignButton | SubmitButton | RefreshButton

  /** What an action captured when it began. */
  datatype Context = Context(current: Review, wallet: Wallet, approvals: seq<Approval>)

  datatype Purpose = Signing | Submitting

  datatype Continuation =
    | ThenStop
    | ThenReview
    | ThenSign(ctx: Context)
    | ThenApprove(ctx: Context, approval: Approval)

  /** Where the user's action is waiting. */
  datatype Action =
    | Idle
    | Queued(button: Button, closure: seq<Approval>)
    | RefreshSnapshot(next: Continuation)
    | RefreshBudget(next: Continuation, snapshot: Snapshot)
    | Building(snapshot: Snapshot)
    | CheckingNetwork(purpose: Purpose, ctx: Context)
    | FundingSign(ctx: Context, latest: Snapshot)
    | WalletSigning(ctx: Context, latest: Snapshot)
    | FundingSubmit(ctx: Context)
    | Preparing(ctx: Context)
    | Arming(ctx: Context, intent: Intent)
    | WalletSending(ctx: Context, intent: Intent)
    | Cancelling(ctx: Context, intent: Intent)

  /** Where the poll is waiting. */
  datatype Poll = Sleeping | ReadingSnapshot | ReadingBudget | ReadingOutcome(epoch: Option<nat>, current: Intent)

  /** One eth_sendTransaction: the request, the review it was built from and its approvals. */
  datatype Send = Send(intent: Intent, review: Review, approvals: seq<Approval>)

  /** `sends` and `released` record what happened; no step reads them except to number the
      next send. */
  datatype Screen = Screen(
    payments: bool,
    wallet: Wallet,
    review: Option<Review>,
    approvals: seq<Approval>,
    intent: Option<Intent>,
    outcome: Option<Outcome>,
    busy: bool,
    action: Action,
    poll: Poll,
    storage: Option<Intent>,
    nextTicket: nat,
    sends: seq<Send>,
    released: set<nat>)

  function Mounted(payments: bool): Screen {
    Screen(payments, Wallet(None, None), None, [], None, None, false, Idle, Sleeping, None, 0, [], {})
  }

  predicate Terminal(o: Option<Outcome>) {
    o == Some(Settled) || o == Some(Rejected)
  }

  predicate SameRequest(a: Intent, b: Intent) {
    a.identity == b.identity
  }

  /** Sends not yet observed settled or rejected, nor refused. */
  function Unreleased(s: Screen): set<nat> {
    set k | 0 <= k < |s.sends| && k !in s.released
  }

  // ---------------------------------------------------------------------------
  // Shared pieces
  // ---------------------------------------------------------------------------

  function ClearReview(s: Screen): Screen {
    s.(review := None, approvals := [])
  }

  /** Stores an intent before it is used; a failed write changes nothing. */
  function SaveIntent(s: Screen, next: Intent): Screen {
    s.(storage := Some(next), intent := Some(next))
  }

  function DropIntent(s: Screen): Screen {
    s.(storage := None, intent := None, outcome := None)
  }

  function AcceptSnapshot(s: Screen, next: Snapshot): Screen {
    if s.review.Some? && s.intent.None? && !Unchanged(s.review.value.snapshot, next) then ClearReview(s) else s
  }

  function AcceptBudget(s: Screen, epoch: nat): Screen {
    if s.intent.None? && s.review.Some? && s.review.value.payment.Some?
       && s.review.value.payment.value.kind != Transfer && s.review.value.payment.value.epoch != epoch
    then ClearReview(s) else s
  }

  /** The action is over, normally or by an exception that run() reports. */
  function Finish(s: Screen): Screen {
    s.(action := Idle, busy := false)
  }

  function At(s: Screen, a: Action): Screen {
    s.(action := a)
  }

  predicate SameWallet(s: Screen, w: Wallet) {
    && s.wallet.provider == w.provider
    && s.wallet.address.Some? && w.address.Some? && SameAddress(s.wallet.address.value, w.address.value)
  }

  // ---------------------------------------------------------------------------
  // The poll
  // ---------------------------------------------------------------------------

  function PollFailed(s: Screen, saves: bool): Screen {
    var slept := s.(poll := Sleeping);
    if s.intent.None? then slept
    else
      var rewrite := s.storage.None? || SameRequest(s.storage.value, s.intent.value);
      slept.(storage := if rewrite && saves then s.intent else s.storage, outcome := Some(Unknown))
  }

  /** The intent as the poll tracks it on: a new object if it learned a hash. */
  function Tracked(s: Screen, current: Intent, result: Result): Intent {
    if result.hash.Some? && result.hash != current.hash
    then current.(hash := result.hash, ticket := s.nextTicket) else current
  }

  /** What the poll does with a result for the intent still tracked. */
  function Observed(s: Screen, current: Intent, result: Result, remembers: bool, writes: bool, rewrites: bool): Screen {
    var tracked := Tracked(s, current, result);
    var counted := s.(nextTicket := s.nextTicket + 1);
    if s.storage.Some? && !SameRequest(s.storage.value, tracked) then PollFailed(counted, rewrites)
    else if current.payment && !remembers then PollFailed(counted, rewrites)
    else if Terminal(Some(result.outcome)) then
      ClearReview(counted.(storage := None, intent := Some(tracked), outcome := Some(result.outcome),
                           released := counted.released + {tracked.tag}, poll := Sleeping))
    else if !writes then PollFailed(counted, rewrites)
    else SaveIntent(counted, tracked).(outcome := Some(result.outcome), poll := Sleeping)
  }

  /** The end of a poll round. `remembers` and `writes` say whether the history and the
      journal accept a write, `rewrites` the same for the failure path. */
  function PollFinished(s: Screen, epoch: Option<nat>, current: Intent, result: Result,
                        remembers: bool, writes: bool, rewrites: bool): Screen
  {
    var seen := if epoch.Some? then AcceptBudget(s, epoch.value) else s;
    if Some(current) != seen.intent then seen.(poll := Sleeping)
    else Observed(seen, current, result, remembers, writes, rewrites)
  }

  /** After the amounts: look up the tracked intent, or finish at once when there is none. */
  function PollIntent(s: Screen, epoch: Option<nat>): Screen {
    if s.intent.Some? then s.(poll := ReadingOutcome(epoch, s.intent.value))
    else (if epoch.Some? then AcceptBudget(s, epoch.value) else s).(outcome := None, poll := Sleeping)
  }

  // ---------------------------------------------------------------------------
  // The user's actions
  // ---------------------------------------------------------------------------

  function Begin(s: Screen, button: Button, closure: seq<Approval>): Screen {
    match button
    case RefreshButton => At(s, RefreshSnapshot(ThenStop))
    case ReviewButton =>
      if s.intent.Some? && !Terminal(s.outcome) then Finish(s)
      else At(if s.intent.Some? then DropIntent(s) else s, RefreshSnapshot(ThenReview))
    case SignButton =>
      if s.review.None? || s.wallet.provider.None? || s.wallet.address.None? then Finish(s)
      else At(s, CheckingNetwork(Signing, Context(s.review.value, s.wallet, closure)))
    case SubmitButton =>
      if s.review.None? || s.wallet.provider.None? || s.intent.Some? || s.wallet.address.None? then Finish(s)
      else At(s, CheckingNetwork(Submitting, Context(s.review.value, s.wallet, closure)))
  }

  predicate Approved(approvals: seq<Approval>, owner: string) {
    exists i :: 0 <= i < |approvals| && SameAddress(approvals[i].owner, owner)
  }

  /** Ask the wallet to sign, unless this owner already has. */
  function AskSignature(s: Screen, ctx: Context, latest: Snapshot): Screen
    requires ctx.wallet.address.Some?
  {
    if Approved(ctx.approvals, ctx.wallet.address.value) then Finish(s) else At(s, WalletSigning(ctx, latest))
  }

  /** What follows a completed refresh that returned `latest`. */
  function Continue(s: Screen, next: Continuation, latest: Snapshot): Screen {
    match next
    case ThenStop => Finish(s)
    case ThenReview => At(s, Building(latest))
    case ThenSign(ctx) =>
      if !Unchanged(ctx.current.snapshot, latest) || ctx.wallet.address.None? then Finish(s)
      else if ctx.current.payment.Some? then At(s, FundingSign(ctx, latest))
      else AskSignature(s, ctx, latest)
    case ThenApprove(ctx, approval) =>
      if s.review != Some(ctx.current) || !Unchanged(ctx.current.snapshot, latest) || !SameWallet(s, ctx.wallet) then Finish(s)
      else Finish(s.(approvals := s.approvals + [approval.(after := latest)]))
  }

  function NetworkReady(s: Screen, purpose: Purpose, ctx: Context): Screen {
    if s.review != Some(ctx.current) || s.intent.Some? || !SameWallet(s, ctx.wallet) then Finish(s)
    else if purpose.Signing? then At(s, RefreshSnapshot(ThenSign(ctx)))
    else if ctx.current.payment.Some? then At(s, FundingSubmit(ctx))
    else At(s, Preparing(ctx))
  }

  /** The journal is written, then the wallet is asked; a failed write stops the send. */
  function SendNow(s: Screen, ctx: Context, intent: Intent, saves: bool): Screen {
    if !saves then Finish(s)
    else
      var saved := SaveIntent(s, intent).(outcome := Some(Unknown));
      At(saved.(sends := s.sends + [Send(intent, ctx.current, ctx.approvals)]), WalletSending(ctx, intent))
  }

  predicate IsInvoice(r: Review) {
    r.payment.Some? && r.payment.value.kind == Invoice
  }

  /** The submission is built against a fresh snapshot and the approvals captured at the
      click, and refused if the review or the wallet changed meanwhile. */
  function PreparedSend(s: Screen, ctx: Context, now: Snapshot, identity: Identity, sender: string, saves: bool): Screen {
    var intent := Intent(s.nextTicket, |s.sends|, identity, sender, ctx.current.payment.Some?, None);
    var counted := s.(nextTicket := s.nextTicket + 1);
    if !Unchanged(ctx.current.snapshot, now) || !Quorum(ctx.current.transaction, ctx.current.snapshot, ctx.approvals) then Finish(s)
    else if s.review != Some(ctx.current) || s.wallet.provider != ctx.wallet.provider
            || s.wallet.address.None? || !SameAddress(s.wallet.address.value, sender) then Finish(s)
    else if IsInvoice(ctx.current) then At(counted, Arming(ctx, intent))
    else SendNow(counted, ctx, intent, saves)
  }

  /** The wallet returned a hash: the request is journalled with it, as a new object. */
  function Returned(s: Screen, intent: Intent, hash: string, saves: bool): Screen {
    if !saves then Finish(s)
    else Finish(SaveIntent(s.(nextTicket := s.nextTicket + 1), intent.(hash := Some(hash), ticket := s.nextTicket))
                .(outcome := Some(Pending)))
  }

  /** A refused submission: nothing was authorized, so the request is dropped. */
  function Refused(s: Screen, intent: Intent, remembers: bool): Screen {
    if intent.payment && !remembers then Finish(s)
    else Finish(DropIntent(s).(released := s.released + {intent.tag}))
  }

  function Reviewed(s: Screen, latest: Snapshot, payload: int, payment: Option<Terms>): Screen {
    Finish(s.(review := Some(Review(s.nextTicket, SafeTransaction(payload, latest.nonce), latest, payment)),
              approvals := [], nextTicket := s.nextTicket + 1))
  }

  /** A fresh page starts from the journal alone. */
  function Reloaded(s: Screen): Screen {
    Mounted(s.payments).(wallet := s.wallet, storage := s.storage, nextTicket := s.nextTicket + 1,
                         intent := if s.storage.Some? then Some(s.storage.value.(ticket := s.nextTicket)) else None,
                         sends := s.sends, released := s.released)
  }

  // ---------------------------------------------------------------------------
  // Events
  // ---------------------------------------------------------------------------

  datatype ScreenEvent =
    | Click(button: Button)
    | GuardPasses
    | ActionFails
    | NetworkIsReady
    | ActionSnapshot(snapshot: Snapshot)
    | ActionBudget(epoch: nat)
    | ReviewBuilt(payload: int, payment: Option<Terms>)
    | FundingCovers
    | WalletSigns
    | Prepared(now: Snapshot, identity: Identity, sender: string, saves: bool)
    | Armed(saves: bool)
    | WalletReturns(hash: string, saves: bool)
    | WalletUncertain
    | WalletRefuses(remembers: bool)
    | InvoiceCancelled(remembers: bool)
    | PollStarts
    | PollSnapshot(snapshot: Snapshot)
    | PollBudget(epoch: nat)
    | PollOutcome(result: Result, remembers: bool, writes: bool, rewrites: bool)
    | PollRejects(rewrites: bool)
    | PollRestarts
    | EditClicked
    | WalletChanges(wallet: Wallet)
    | Reload

  /** Awaits that can end in an exception which run() reports. */
  predicate CanFail(a: Action) {
    !a.Idle? && !a.WalletSending?
  }

  /** Events of the user's action; one that is not being waited for changes nothing. An
      invalid snapshot is never returned: reading it fails. */
  function ActionStep(s: Screen, e: ScreenEvent): Screen {
    match (e, s.action)
    case (Click(button), _) => if s.busy then s else At(s.(busy := true), Queued(button, s.approvals))
    case (GuardPasses, Queued(button, closure)) => Begin(s, button, closure)
    case (ActionFails, a) => if CanFail(a) then Finish(s) else s
    case (NetworkIsReady, CheckingNetwork(purpose, ctx)) => NetworkReady(s, purpose, ctx)
    case (ActionSnapshot(snapshot), RefreshSnapshot(next)) =>
      if !ValidSnapshot(snapshot) then s
      else if s.payments then At(AcceptSnapshot(s, snapshot), RefreshBudget(next, snapshot))
      else Continue(AcceptSnapshot(s, snapshot), next, snapshot)
    case (ActionBudget(epoch), RefreshBudget(next, snapshot)) => Continue(AcceptBudget(s, epoch), next, snapshot)
    case (ReviewBuilt(payload, payment), Building(latest)) =>
      if payment.Some? == s.payments then Reviewed(s, latest, payload, payment) else s
    case (FundingCovers, FundingSign(ctx, latest)) =>
      if ctx.wallet.address.None? then Finish(s) else AskSignature(s, ctx, latest)
    case (FundingCovers, FundingSubmit(ctx)) => At(s, Preparing(ctx))
    case (WalletSigns, WalletSigning(ctx, latest)) =>
      if ctx.wallet.address.None? || !Owns(latest, ctx.wallet.address.value) then Finish(s)
      else At(s, RefreshSnapshot(ThenApprove(ctx, Approval(ctx.wallet.address.value, ctx.current.transaction, latest, latest))))
    case (Prepared(now, identity, sender, saves), Preparing(ctx)) => PreparedSend(s, ctx, now, identity, sender, saves)
    case (Armed(saves), Arming(ctx, intent)) => SendNow(s, ctx, intent, saves)
    case (WalletReturns(hash, saves), WalletSending(ctx, intent)) =>
      Returned(s, intent, hash, saves)
    case (WalletUncertain, WalletSending(ctx, intent)) => Finish(s)
    case (WalletRefuses(remembers), WalletSending(ctx, intent)) =>
      if IsInvoice(ctx.current) then At(s, Cancelling(ctx, intent)) else Refused(s, intent, remembers)
    case (InvoiceCancelled(remembers), Cancelling(ctx, intent)) => Refused(s, intent, remembers)
    case _ => s
  }

  /** Events of the poll and of the surroundings. */
  function BackgroundStep(s: Screen, e: ScreenEvent): Screen {
    match (e, s.poll)
    case (PollStarts, Sleeping) => s.(poll := ReadingSnapshot)
    case (PollSnapshot(snapshot), ReadingSnapshot) =>
      if !ValidSnapshot(snapshot) then s
      else if s.payments then AcceptSnapshot(s, snapshot).(poll := ReadingBudget)
      else PollIntent(AcceptSnapshot(s, snapshot), None)
    case (PollBudget(epoch), ReadingBudget) => PollIntent(s, Some(epoch))
    case (PollOutcome(result, remembers, writes, rewrites), ReadingOutcome(epoch, current)) =>
      PollFinished(s, epoch, current, result, remembers, writes, rewrites)
    case (PollRejects(rewrites), p) => if p.Sleeping? then s else PollFailed(s, rewrites)
    case (PollRestarts, _) => s.(poll := Sleeping)
    case (EditClicked, _) => if s.review.Some? && s.intent.None? && !s.busy then ClearReview(s) else s
    case (WalletChanges(wallet), _) => s.(wallet := wallet)
    case (Reload, _) => Reloaded(s)
    case _ => s
  }

  predicate IsActionEvent(e: ScreenEvent) {
    e.Click? || e.GuardPasses? || e.ActionFails? || e.NetworkIsReady? || e.ActionSnapshot? || e.ActionBudget?
    || e.ReviewBuilt? || e.FundingCovers? || e.WalletSigns? || e.Prepared? || e.Armed? || e.WalletReturns?
    || e.WalletUncertain? || e.WalletRefuses? || e.InvoiceCancelled?
  }

  function Next(s: Screen, e: ScreenEvent): Screen {
    if IsActionEvent(e) then ActionStep(s, e) else BackgroundStep(s, e)
  }

  function After(s: Screen, events: seq<ScreenEvent>): Screen {
    if events == [] then s else Next(After(s, events[..|events| - 1]), events[|events| - 1])
  }

  lemma AfterOneMore(s: Screen, events: seq<ScreenEvent>, e: ScreenEvent)
    ensures After(s, events + [e]) == Next(After(s, events), e)
  {
    hide Next;
    assert (events + [e])[..|events|] == events;
  }
}
