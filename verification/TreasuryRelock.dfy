/** How a lock lasts, and what a reload makes of it: over every later run, for a request in
    the journal and for one that a failed write kept out of it. */
module TreasuryRelock {
  import opened Prelude
  import opened Numerals
  import opened SafeQuorum
  import opened TreasuryProtocol
  import opened TreasurySafety
  import opened TreasuryRuns

  /** The request of send k is tracked and not final, so Review and Submit do nothing. */
  ghost predicate Locked(s: Screen, k: nat) {
    s.intent.Some? && s.intent.value.tag == k && !Terminal(s.outcome)
  }

  /** ... and it is in the journal. */
  ghost predicate Held(s: Screen, k: nat) {
    Locked(s, k) && s.storage.Some? && s.storage.value.tag == k
  }

  /** A write of the tracked request that the journal took: at the end of a poll round, on
      the failure path of one, or with the wallet's hash. */
  predicate Takes(s: Screen, e: ScreenEvent) {
    match e
    case PollOutcome(_, remembers, writes, rewrites) =>
      && s.poll.ReadingOutcome? && s.intent == Some(s.poll.current)
      && if (!s.poll.current.payment || remembers) && writes then true else rewrites
    case PollRejects(rewrites) => !s.poll.Sleeping? && rewrites
    case WalletReturns(_, saves) => s.action.WalletSending? && saves
    case _ => false
  }

  /** None of the events releases send k. */
  ghost predicate Quiet(s: Screen, later: seq<ScreenEvent>, k: nat) {
    forall i :: 0 <= i < |later| ==> !Releases(After(s, later[..i]), later[i], k)
  }

  ghost predicate SomeWriteTook(s: Screen, later: seq<ScreenEvent>) {
    exists i :: 0 <= i < |later| && Takes(After(s, later[..i]), later[i])
  }

  predicate NoReload(later: seq<ScreenEvent>) {
    forall i :: 0 <= i < |later| ==> !later[i].Reload?
  }

  // ---------------------------------------------------------------------------
  // One event
  // ---------------------------------------------------------------------------

  /** The same request is tracked, unfinished, and the journal holds it iff it did or took it. */
  ghost predicate StaysLocked(s: Screen, t: Screen, k: nat, takes: bool) {
    Locked(t, k) && (t.storage.Some? <==> s.storage.Some? || takes)
  }

  lemma SameStaysLocked(s: Screen, t: Screen, k: nat)
    requires Locked(s, k) && t.intent == s.intent && t.outcome == s.outcome && t.storage == s.storage
    ensures StaysLocked(s, t, k, false)
  {
  }

  predicate SameTracking(s: Screen, t: Screen) {
    t.intent == s.intent && t.outcome == s.outcome && t.storage == s.storage
  }

  lemma ContinueTracks(s: Screen, next: Continuation, latest: Snapshot)
    ensures SameTracking(s, Continue(s, next, latest))
  {
    hide Unchanged, SameAddress, Approved;
  }

  lemma AcceptsTrack(s: Screen, next: Snapshot, epoch: nat)
    ensures SameTracking(s, AcceptSnapshot(s, next)) && SameTracking(s, AcceptBudget(s, epoch))
  {
    hide Unchanged;
  }

  lemma BeginTracks(s: Screen, button: Button, closure: seq<Approval>)
    requires s.intent.Some? && !Terminal(s.outcome)
    ensures SameTracking(s, Begin(s, button, closure))
  {
  }

  lemma ReturnedTracks(s: Screen, i: Intent, hash: string, saves: bool, k: nat)
    requires Locked(s, k) && i.tag == k
    ensures StaysLocked(s, Returned(s, i, hash, saves), k, saves)
  {
  }

  /** A refusal that the history does not take leaves the request as it was. */
  lemma KeptIfForgotten(s: Screen, i: Intent)
    ensures i.payment ==> SameTracking(s, Refused(s, i, false))
  {
  }

  lemma ActionStaysLocked(s: Screen, e: ScreenEvent, k: nat)
    requires Inv(s) && Locked(s, k) && IsActionEvent(e) && !Releases(s, e, k)
    ensures StaysLocked(s, Next(s, e), k, Takes(s, e))
  {
    hide Core, Begin, Continue, AcceptSnapshot, AcceptBudget, ContextOk, ContinuationOk, Locked, StaysLocked, Returned,
         Unchanged, ValidSnapshot, SameAddress, Owns, Quorum, Approved, Terminal, BackgroundStep, PreparedSend, SendNow, Refused, SameWallet;
    assert s.intent.Some? && s.intent.value.tag == k && !Terminal(s.outcome) by { LockedParts(s, k); }
    var t := Next(s, e);
    match (e, s.action) {
      case (GuardPasses, Queued(button, closure)) =>
        BeginTracks(s, button, closure);
        SameStaysLocked(s, t, k);
      case (ActionSnapshot(snapshot), RefreshSnapshot(next)) =>
        AcceptsTrack(s, snapshot, 0);
        ContinueTracks(AcceptSnapshot(s, snapshot), next, snapshot);
        SameStaysLocked(s, t, k);
      case (ActionBudget(epoch), RefreshBudget(next, snapshot)) =>
        AcceptsTrack(s, snapshot, epoch);
        ContinueTracks(AcceptBudget(s, epoch), next, snapshot);
        SameStaysLocked(s, t, k);
      case (WalletReturns(hash, saves), WalletSending(_, i)) => ReturnedTracks(s, i, hash, saves, k);
      case (WalletRefuses(remembers), WalletSending(ctx, i)) =>
        if !IsInvoice(ctx.current) {
          KeptIfForgotten(s, i);
        }
        SameStaysLocked(s, t, k);
      case (InvoiceCancelled(remembers), Cancelling(_, i)) =>
        KeptIfForgotten(s, i);
        SameStaysLocked(s, t, k);
      case _ => SameStaysLocked(s, t, k);
    }
  }

  lemma LockedParts(s: Screen, k: nat)
    requires Locked(s, k)
    ensures s.intent.Some? && s.intent.value.tag == k && !Terminal(s.outcome)
  {
  }

  lemma PollFailedStaysLocked(s: Screen, saves: bool, k: nat)
    requires JournalOk(s) && Locked(s, k)
    ensures StaysLocked(s, PollFailed(s, saves), k, saves)
  {
  }

  lemma ObservedStaysLocked(s: Screen, current: Intent, result: Result, remembers: bool, writes: bool, rewrites: bool, k: nat)
    requires JournalOk(s) && Locked(s, k) && s.intent == Some(current)
    requires !(Terminal(Some(result.outcome)) && (!current.payment || remembers))
    ensures StaysLocked(s, Observed(s, current, result, remembers, writes, rewrites), k,
                        if (!current.payment || remembers) && writes then true else rewrites)
  {
    hide PollFailed;
    PollFailedStaysLocked(s.(nextTicket := s.nextTicket + 1), rewrites, k);
  }

  lemma BackgroundStaysLocked(s: Screen, e: ScreenEvent, k: nat)
    requires Inv(s) && Locked(s, k) && !IsActionEvent(e) && !Releases(s, e, k) && !e.Reload?
    ensures StaysLocked(s, Next(s, e), k, Takes(s, e))
  {
    hide ApprovalsOk, SendsOk, ActionOk, AcceptSnapshot, AcceptBudget, PollFailed, Observed, Unchanged, ValidSnapshot, ActionStep;
    match e {
      case PollSnapshot(snapshot) => AcceptsTrack(s, snapshot, 0);
      case PollBudget(epoch) => AcceptsTrack(s, Snapshot(L1, [], 0, 0), epoch);
      case PollRejects(rewrites) => PollFailedStaysLocked(s, rewrites, k);
      case PollOutcome(result, remembers, writes, rewrites) =>
        if s.poll.ReadingOutcome? {
          PolledStaysLocked(s, s.poll.epoch, s.poll.current, result, remembers, writes, rewrites, k);
        }
      case _ =>
    }
  }

  lemma PolledStaysLocked(s: Screen, epoch: Option<nat>, current: Intent, result: Result,
                          remembers: bool, writes: bool, rewrites: bool, k: nat)
    requires JournalOk(s) && Locked(s, k)
    requires !(s.intent == Some(current) && Terminal(Some(result.outcome)) && (!current.payment || remembers))
    ensures StaysLocked(s, PollFinished(s, epoch, current, result, remembers, writes, rewrites), k,
                        s.intent == Some(current) && if (!current.payment || remembers) && writes then true else rewrites)
  {
    hide Observed, Terminal;
    assert epoch.Some? ==> AcceptBudget(s, epoch.value) == s;
    if s.intent == Some(current) {
      ObservedStaysLocked(s, current, result, remembers, writes, rewrites, k);
    }
  }

  lemma StepStaysLocked(s: Screen, e: ScreenEvent, k: nat)
    requires Inv(s) && Locked(s, k) && !Releases(s, e, k) && !e.Reload?
    ensures StaysLocked(s, Next(s, e), k, Takes(s, e))
  {
    hide Inv, Locked, StaysLocked, Releases, Next, Takes;
    if IsActionEvent(e) {
      ActionStaysLocked(s, e, k);
    } else {
      BackgroundStaysLocked(s, e, k);
    }
  }

  lemma StepStaysHeld(s: Screen, e: ScreenEvent, k: nat)
    requires Inv(s) && Held(s, k) && !Releases(s, e, k)
    ensures Held(Next(s, e), k)
  {
    hide Releases, Takes;
    if e.Reload? {
      hide Inv;
    } else {
      hide ActionStep, BackgroundStep;
      StepStaysLocked(s, e, k);
      NextKeeps(s, e);
    }
  }

  // ---------------------------------------------------------------------------
  // Every later run
  // ---------------------------------------------------------------------------

  lemma QuietPrefix(s: Screen, later: seq<ScreenEvent>, k: nat)
    requires Quiet(s, later, k) && later != []
    ensures Quiet(s, later[..|later| - 1], k) && !Releases(After(s, later[..|later| - 1]), later[|later| - 1], k)
  {
    hide Releases, After;
    var before := later[..|later| - 1];
    forall i | 0 <= i < |before| ensures !Releases(After(s, before[..i]), before[i], k) {
      assert before[..i] == later[..i];
    }
  }

  lemma TookStep(s: Screen, later: seq<ScreenEvent>)
    requires later != []
    ensures SomeWriteTook(s, later) <==>
            SomeWriteTook(s, later[..|later| - 1]) || Takes(After(s, later[..|later| - 1]), later[|later| - 1])
  {
    hide Takes, After;
    var before := later[..|later| - 1];
    assert forall i :: 0 <= i < |before| ==> before[..i] == later[..i] && before[i] == later[i];
  }

  lemma {:induction false} LaterKeeps(s: Screen, later: seq<ScreenEvent>)
    requires Inv(s)
    ensures Inv(After(s, later))
  {
    if later != [] {
      hide Inv, Next;
      LaterKeeps(s, later[..|later| - 1]);
      NextKeeps(After(s, later[..|later| - 1]), later[|later| - 1]);
    }
  }

  lemma {:induction false} LockedLater(s: Screen, later: seq<ScreenEvent>, k: nat)
    requires Inv(s) && Locked(s, k) && Quiet(s, later, k) && NoReload(later)
    ensures StaysLocked(s, After(s, later), k, SomeWriteTook(s, later))
  {
    hide Inv, Next, Releases, Takes, Quiet, SomeWriteTook;
    if later == [] {
      NothingTook(s);
    } else {
      var before := later[..|later| - 1];
      QuietPrefix(s, later, k);
      LockedLater(s, before, k);
      LaterKeeps(s, before);
      StepStaysLocked(After(s, before), later[|later| - 1], k);
      TookStep(s, later);
    }
  }

  lemma NothingTook(s: Screen)
    ensures !SomeWriteTook(s, [])
  {
  }

  lemma {:induction false} HeldLater(s: Screen, later: seq<ScreenEvent>, k: nat)
    requires Inv(s) && Held(s, k) && Quiet(s, later, k)
    ensures Held(After(s, later), k)
  {
    if later != [] {
      hide Inv, Next, Releases, Quiet, Held;
      QuietPrefix(s, later, k);
      HeldLater(s, later[..|later| - 1], k);
      LaterKeeps(s, later[..|later| - 1]);
      StepStaysHeld(After(s, later[..|later| - 1]), later[|later| - 1], k);
    }
  }

  lemma LockedRefuses(s: Screen, k: nat, closure: seq<Approval>)
    requires Locked(s, k)
    ensures Begin(s, ReviewButton, closure) == Finish(s) && Begin(s, SubmitButton, closure) == Finish(s)
  {
  }

  /** Once the journal and the screen hold an unfinished request, they hold it through every
      later run, reloads included, until an answer releases it; all the while Review and
      Submit do nothing. This holds of a request seen final before as of any other. */
  lemma HeldRequestStaysLocked(payments: bool, events: seq<ScreenEvent>, later: seq<ScreenEvent>, k: nat, closure: seq<Approval>)
    requires Held(After(Mounted(payments), events), k) && Quiet(After(Mounted(payments), events), later, k)
    ensures var t := After(After(Mounted(payments), events), later);
      Held(t, k) && Begin(t, ReviewButton, closure) == Finish(t) && Begin(t, SubmitButton, closure) == Finish(t)
  {
    hide After, Inv, Quiet, Finish, Begin;
    InvAlways(payments, events);
    HeldLater(After(Mounted(payments), events), later, k);
    LockedRefuses(After(After(Mounted(payments), events), later), k, closure);
  }

  /** A tracked request that is not in the journal is locked too, as long as the page lives.
      The first reload tracks it iff some write took it before; otherwise it tracks nothing. */
  lemma ReloadTracksIffSomeWriteTook(payments: bool, events: seq<ScreenEvent>, later: seq<ScreenEvent>, k: nat, closure: seq<Approval>)
    requires var s := After(Mounted(payments), events); Locked(s, k) && Quiet(s, later, k) && NoReload(later)
    ensures var s := After(Mounted(payments), events); var t := After(s, later); var reloaded := Next(t, Reload);
      && Locked(t, k) && Begin(t, ReviewButton, closure) == Finish(t) && Begin(t, SubmitButton, closure) == Finish(t)
      && (Held(reloaded, k) <==> s.storage.Some? || SomeWriteTook(s, later))
      && (!Held(reloaded, k) ==> reloaded.intent.None? && reloaded.storage.None?)
  {
    hide After, Inv, Quiet, Finish, Begin, SomeWriteTook;
    var s := After(Mounted(payments), events);
    InvAlways(payments, events);
    LockedLater(s, later, k);
    LaterKeeps(s, later);
    LockedRefuses(After(s, later), k, closure);
    ReloadOfLocked(After(s, later), k);
  }

  lemma ReloadOfLocked(t: Screen, k: nat)
    requires Inv(t) && Locked(t, k)
    ensures var reloaded := Next(t, Reload);
      && (Held(reloaded, k) <==> t.storage.Some?)
      && (!Held(reloaded, k) ==> reloaded.intent.None? && reloaded.storage.None?)
  {
    hide ApprovalsOk, SendsOk, ActionOk;
  }

  /** A poll that contradicts a final answer locks the screen again, whatever fails, and for
      as long as the page lives; and a reload tracks the request iff this round or a later
      one, or the wallet's answer, was written. */
  lemma ContraryObservationRelocks(payments: bool, events: seq<ScreenEvent>, result: Result,
                                   remembers: bool, writes: bool, rewrites: bool,
                                   later: seq<ScreenEvent>, closure: seq<Approval>)
    requires var s := After(Mounted(payments), events);
      && Terminal(s.outcome) && !Terminal(Some(result.outcome))
      && s.poll.ReadingOutcome? && s.intent == Some(s.poll.current)
    requires var s := After(Mounted(payments), events);
      Quiet(Next(s, PollOutcome(result, remembers, writes, rewrites)), later, s.poll.current.tag) && NoReload(later)
    ensures var s := After(Mounted(payments), events);
      var k, written := s.poll.current.tag, (!s.poll.current.payment || remembers) && writes;
      var t := Next(s, PollOutcome(result, remembers, writes, rewrites));
      var u := After(t, later); var reloaded := Next(u, Reload);
      && t.intent.Some? && SameRequest(t.intent.value, s.poll.current)
      && t.outcome == Some(if written then result.outcome else Unknown)
      && t.storage == (if written || rewrites then t.intent else None)
      && Locked(u, k) && Begin(u, ReviewButton, closure) == Finish(u) && Begin(u, SubmitButton, closure) == Finish(u)
      && (Held(reloaded, k) <==> written || rewrites || SomeWriteTook(t, later))
      && (!Held(reloaded, k) ==> reloaded.intent.None? && reloaded.storage.None?)
  {
    hide After, Next, Inv, Quiet, Finish, Begin, SomeWriteTook, Terminal, Held;
    var e := PollOutcome(result, remembers, writes, rewrites);
    ContraryRoundRelocks(payments, events, result, remembers, writes, rewrites, closure);
    AfterOneMore(Mounted(payments), events, e);
    ReloadTracksIffSomeWriteTook(payments, events + [e], later, After(Mounted(payments), events).poll.current.tag, closure);
  }

  // ---------------------------------------------------------------------------
  // A run that ends with nothing tracked
  // ---------------------------------------------------------------------------

  /** Sent, with the wallet's answer uncertain. */
  function Unanswered(u: Setup): Screen {
    Resting(u, Some(ReviewOf(u)), [ApprovalOf(u)], 2).(
      storage := Some(RequestOf(u)), intent := Some(RequestOf(u)), outcome := Some(Unknown),
      sends := [Send(RequestOf(u), ReviewOf(u), [ApprovalOf(u)])])
  }

  lemma Sending(u: Setup) returns (events: seq<ScreenEvent>)
    requires IsAddress(u.owner) && u.terms.kind != Invoice
    ensures After(Mounted(true), events) == Unanswered(u)
  {
    hide ValidSnapshot, Unchanged, After, Owns, Approved, SameAddress, Quorum;
    Facts(u);
    var sending := Busy(Unanswered(u), WalletSending(Captured(u), RequestOf(u)));
    events := Submission(u);
    events := Then(events, Busy(Resting(u, Some(ReviewOf(u)), [ApprovalOf(u)], 1), Preparing(Captured(u))),
                   Prepared(Before(u), u.identity, u.owner, true), sending);
    events := Then(events, sending, WalletUncertain, Unanswered(u));
  }

  /** One poll round up to its outcome, while the request is tracked. */
  lemma Polling(u: Setup, before: seq<ScreenEvent>, s: Screen) returns (events: seq<ScreenEvent>)
    requires IsAddress(u.owner) && After(Mounted(true), before) == s
    requires s.payments && s.poll.Sleeping? && s.intent == Some(RequestOf(u))
    ensures After(Mounted(true), events) == s.(poll := ReadingOutcome(Some(u.terms.epoch), RequestOf(u)))
  {
    hide ValidSnapshot, Unchanged, After, Owns, Quorum;
    Facts(u);
    events := before;
    events := Then(events, s, PollStarts, s.(poll := ReadingSnapshot));
    events := Then(events, s.(poll := ReadingSnapshot), PollSnapshot(Before(u)), s.(poll := ReadingBudget));
    events := Then(events, s.(poll := ReadingBudget), PollBudget(u.terms.epoch),
                   s.(poll := ReadingOutcome(Some(u.terms.epoch), RequestOf(u))));
  }

  /** Observed settled: released, out of the journal, still observed. */
  function SeenSettled(u: Setup): Screen {
    ClearReview(Unanswered(u)).(storage := None, outcome := Some(Settled), released := {0}, nextTicket := 3)
  }

  lemma Settling(u: Setup) returns (events: seq<ScreenEvent>)
    requires IsAddress(u.owner) && u.terms.kind != Invoice
    ensures After(Mounted(true), events) == SeenSettled(u)
  {
    hide After;
    var asked := Unanswered(u).(poll := ReadingOutcome(Some(u.terms.epoch), RequestOf(u)));
    events := Sending(u);
    events := Polling(u, events, Unanswered(u));
    assert {} + {0 as nat} == {0};
    events := Then(events, asked, PollOutcome(Result(Settled, None), true, true, true), SeenSettled(u));
  }

  /** For every owner, payload, nonce, terms and identity: a request is sent, seen settled,
      then seen pending while both writes fail. The screen is locked; the journal is empty;
      and a reload right now tracks nothing. */
  lemma UnwrittenLockIsForgotten(u: Setup) returns (events: seq<ScreenEvent>)
    requires IsAddress(u.owner) && u.terms.kind != Invoice
    ensures var s := After(Mounted(true), events); var t := Next(s, PollOutcome(Result(Pending, None), true, false, false));
      && Terminal(s.outcome) && s.poll.ReadingOutcome? && s.intent == Some(s.poll.current)
      && Locked(t, 0) && t.storage.None? && Next(t, Reload).intent.None?
  {
    hide After;
    events := Settling(u);
    events := Polling(u, events, SeenSettled(u));
  }
}
