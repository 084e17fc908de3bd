/** Estimating gas for the bridge form and submitting with it, while the form, the wallet
    and the configuration keep changing and replies arrive in any order. */
module BridgeGas {
  import opened Prelude
  import opened BridgeTransaction
  import opened BridgeKey

  // ---------------------------------------------------------------------------
  // State
  // ---------------------------------------------------------------------------

  /** One run of the estimation effect: what it captured, and what became of it. */
  datatype Job = Job(form: Form, wallet: string, cancelled: bool, asked: Option<Request>, answer: Option<Option<nat>>)

  /** `job` labels the estimate with the job that obtained it. */
  datatype Gas = NoEstimate | Estimating | Estimated(gas: nat, job: nat) | Unsupported | Failed

  /** A submission between the click and its send. `job` labels where its gas came from. */
  datatype Submission = Submission(request: Request, gas: nat, overridden: bool, job: nat, pending: bool)

  datatype BridgeSend = BridgeSend(request: Request, gas: nat, overridden: bool, job: nat)

  datatype Bridge = Bridge(
    form: Form,
    wallet: Option<string>,
    config: Config,
    loaded: bool,
    gasOverride: Option<nat>,
    due: bool,
    estimated: Option<string>,
    gas: Gas,
    jobs: seq<Job>,
    submissions: seq<Submission>,
    sends: seq<BridgeSend>)

  function Opened(config: Config): Bridge {
    Bridge(Form(L1ToL2, Eth, "", "", None, ""), None, config, false, None, true, None, NoEstimate, [], [], [])
  }

  datatype FormEvent =
    | Edits(form: Form)
    | WalletChanges(wallet: Option<string>)
    | ConfigChanges(config: Config, loaded: bool)
    | AllowanceChanges
    | SetsOverride(chosen: Option<nat>)
    | EffectRuns
    | TimerFires(k: nat)
    | Estimates(k: nat, gas: nat)
    | Unsupports(k: nat)
    | EstimateFails(k: nat)
    | Clicks(ready: bool, funded: bool)
    | FeesArrive(k: nat)
    | FeesFail(k: nat)

  function CancelLast(jobs: seq<Job>): (r: seq<Job>)
    ensures |r| == |jobs|
  {
    if jobs == [] then [] else jobs[|jobs| - 1 := jobs[|jobs| - 1].(cancelled := true)]
  }

  /** The effect's cleanup and next run: forget the estimate, cancel the previous job, and
      start another if the form is complete. */
  function RunEffect(s: Bridge): Bridge {
    var cleared := s.(due := false, estimated := None, gas := NoEstimate, jobs := CancelLast(s.jobs));
    if !s.loaded || s.wallet.None? || !Complete(s.form, s.config) then cleared
    else cleared.(gas := Estimating, jobs := cleared.jobs + [Job(s.form, s.wallet.value, false, None, None)])
  }

  /** The debounce timer: builds the request from the captured form and the present
      configuration. */
  function FireTimer(s: Bridge, k: nat): Bridge
    requires k < |s.jobs|
  {
    var job := s.jobs[k];
    if job.cancelled || job.asked.Some? || RawAmount(job.form).None? then s
    else s.(jobs := s.jobs[k := job.(asked := Some(RequestOf(job.form, job.wallet, s.config)))])
  }

  predicate Awaiting(s: Bridge, k: nat) {
    k < |s.jobs| && s.jobs[k].asked.Some? && s.jobs[k].answer.None?
  }

  /** A reply, whichever it is, is noted on its job and reaches the form only if the job was
      not cancelled. */
  function Answered(s: Bridge, k: nat, answer: Option<nat>, gas: Gas, keeps: bool): Bridge
    requires Awaiting(s, k)
  {
    var noted := s.(jobs := s.jobs[k := s.jobs[k].(answer := Some(answer))]);
    if s.jobs[k].cancelled then noted
    else noted.(estimated := if keeps then Some(Key(s.jobs[k].asked.value)) else None, gas := gas)
  }

  predicate GasReady(s: Bridge) {
    s.gas.Estimated? || (s.gas.Unsupported? && s.gasOverride.Some?)
  }

  /** The checks at the click, and the transaction they let through. */
  function Click(s: Bridge, ready: bool, funded: bool): Bridge {
    if s.wallet.None? || !ready || !funded || !Complete(s.form, s.config) || !GasReady(s) then s
    else
      var request := RequestOf(s.form, s.wallet.value, s.config);
      if s.estimated != Some(Key(request)) then s
      else s.(submissions := s.submissions + [Submission(
        request,
        if s.gasOverride.Some? then s.gasOverride.value else s.gas.gas,
        s.gasOverride.Some?,
        if s.gas.Estimated? then s.gas.job else 0,
        true)])
  }

  /** The last check before the wallet is asked to send. */
  predicate StillCurrent(s: Bridge, k: nat)
    requires k < |s.submissions|
  {
    s.wallet == Some(s.submissions[k].request.transaction.from) && s.estimated == Some(Key(s.submissions[k].request))
  }

  function Resume(s: Bridge, k: nat, arrived: bool): Bridge
    requires k < |s.submissions|
  {
    var mine := s.submissions[k];
    var closed := s.(submissions := s.submissions[k := mine.(pending := false)]);
    if arrived && StillCurrent(s, k)
    then closed.(sends := s.sends + [BridgeSend(mine.request, mine.gas, mine.overridden, mine.job)])
    else closed
  }

  function Next(s: Bridge, e: FormEvent): Bridge {
    match e
    case Edits(form) => s.(form := form, due := true)
    case WalletChanges(wallet) => s.(wallet := wallet, due := true)
    case ConfigChanges(config, loaded) => s.(config := config, loaded := loaded, due := true)
    case AllowanceChanges => s.(due := true)
    case SetsOverride(chosen) => s.(gasOverride := chosen)
    case EffectRuns => if s.due then RunEffect(s) else s
    case TimerFires(k) => if k < |s.jobs| then FireTimer(s, k) else s
    case Estimates(k, gas) => if Awaiting(s, k) then Answered(s, k, Some(gas), Estimated(gas, k), true) else s
    case Unsupports(k) => if Awaiting(s, k) then Answered(s, k, None, Unsupported, true) else s
    case EstimateFails(k) => if Awaiting(s, k) then Answered(s, k, None, Failed, false) else s
    case Clicks(ready, funded) => Click(s, ready, funded)
    case FeesArrive(k) => if k < |s.submissions| && s.submissions[k].pending then Resume(s, k, true) else s
    case FeesFail(k) => if k < |s.submissions| && s.submissions[k].pending then Resume(s, k, false) else s
  }

  function After(s: Bridge, events: seq<FormEvent>): Bridge {
    if events == [] then s else Next(After(s, events[..|events| - 1]), events[|events| - 1])
  }

  // ---------------------------------------------------------------------------
  // The invariant
  // ---------------------------------------------------------------------------

  /** Job j obtained this gas from the Composer, for exactly this request. */
  predicate Obtained(jobs: seq<Job>, j: nat, request: Request, gas: nat) {
    j < |jobs| && jobs[j].asked == Some(request) && jobs[j].answer == Some(Some(gas))
  }

  /** Only the newest job can be live, and what it asked for is what the form stands for
      unless an edit is still waiting for its effect. */
  ghost predicate JobsOk(s: Bridge) {
    && (forall j :: 0 <= j < |s.jobs| - 1 ==> s.jobs[j].cancelled)
    && (s.jobs != [] && !s.jobs[|s.jobs| - 1].cancelled && !s.due ==>
          var job := s.jobs[|s.jobs| - 1];
          && job.form == s.form && s.wallet == Some(job.wallet) && RawAmount(s.form).Some?
          && (job.asked.Some? ==> job.asked.value == RequestOf(s.form, job.wallet, s.config)))
    && (forall j :: 0 <= j < |s.jobs| && s.jobs[j].answer.Some? ==> s.jobs[j].asked.Some?)
  }

  /** What is marked as estimated was asked by the live job; an estimate on display is its answer. */
  ghost predicate EstimateOk(s: Bridge) {
    && (s.estimated.Some? ==>
          && s.jobs != [] && !s.jobs[|s.jobs| - 1].cancelled
          && s.jobs[|s.jobs| - 1].asked.Some? && s.estimated.value == Key(s.jobs[|s.jobs| - 1].asked.value))
    && (s.estimated.Some? && s.gas.Estimated? ==>
          s.gas.job == |s.jobs| - 1 && Obtained(s.jobs, s.gas.job, s.jobs[s.gas.job].asked.value, s.gas.gas))
  }

  ghost predicate SubmissionsOk(s: Bridge) {
    forall k :: 0 <= k < |s.submissions| && !s.submissions[k].overridden ==>
      Obtained(s.jobs, s.submissions[k].job, s.submissions[k].request, s.submissions[k].gas)
  }

  ghost predicate SendsOk(s: Bridge) {
    forall k :: 0 <= k < |s.sends| && !s.sends[k].overridden ==>
      Obtained(s.jobs, s.sends[k].job, s.sends[k].request, s.sends[k].gas)
  }

  ghost predicate Inv(s: Bridge) {
    JobsOk(s) && EstimateOk(s) && SubmissionsOk(s) && SendsOk(s)
  }

  /** Jobs are only added to, cancelled, or given their one answer. */
  ghost predicate Extends(a: seq<Job>, b: seq<Job>) {
    |a| <= |b| && forall j, r, g :: Obtained(a, j, r, g) ==> Obtained(b, j, r, g)
  }

  lemma RecordsLast(s: Bridge, t: Bridge)
    requires SubmissionsOk(s) && SendsOk(s) && Extends(s.jobs, t.jobs)
    requires t.submissions == s.submissions && t.sends == s.sends
    ensures SubmissionsOk(t) && SendsOk(t)
  {
  }

  lemma EffectKeeps(s: Bridge)
    requires Inv(s)
    ensures Inv(RunEffect(s))
  {
    hide RequestOf, RawAmount, Complete;
    assert Complete(s.form, s.config) ==> RawAmount(s.form).Some? by { CompleteParses(s.form, s.config); }
    RecordsLast(s, RunEffect(s));
  }

  lemma CompleteParses(f: Form, c: Config)
    ensures Complete(f, c) ==> RawAmount(f).Some?
  {
  }

  lemma TimerKeeps(s: Bridge, k: nat)
    requires Inv(s) && k < |s.jobs|
    ensures Inv(FireTimer(s, k))
  {
    hide RequestOf, RawAmount;
    RecordsLast(s, FireTimer(s, k));
  }

  lemma AnswerKeeps(s: Bridge, k: nat, answer: Option<nat>, gas: Gas, keeps: bool)
    requires Inv(s) && Awaiting(s, k)
    requires gas.Estimated? ==> keeps && gas.job == k && answer == Some(gas.gas)
    ensures Inv(Answered(s, k, answer, gas, keeps))
  {
    var t := Answered(s, k, answer, gas, keeps);
    AnswerKeepsRecords(s, k, answer, gas, keeps);
    LiveIsNewest(s, k);
    hide JobsOk, SubmissionsOk, SendsOk, EstimateOk;
    AnswerKeepsJobs(s, t, k);
    AnswerKeepsEstimate(s, k, answer, gas, keeps);
  }

  lemma AnswerKeepsRecords(s: Bridge, k: nat, answer: Option<nat>, gas: Gas, keeps: bool)
    requires SubmissionsOk(s) && SendsOk(s) && Awaiting(s, k)
    ensures var t := Answered(s, k, answer, gas, keeps); SubmissionsOk(t) && SendsOk(t)
  {
    hide Key, SubmissionsOk, SendsOk;
    RecordsLast(s, Answered(s, k, answer, gas, keeps));
  }

  lemma AnswerKeepsEstimate(s: Bridge, k: nat, answer: Option<nat>, gas: Gas, keeps: bool)
    requires EstimateOk(s) && Awaiting(s, k) && (!s.jobs[k].cancelled ==> k == |s.jobs| - 1)
    requires gas.Estimated? ==> keeps && gas.job == k && answer == Some(gas.gas)
    ensures EstimateOk(Answered(s, k, answer, gas, keeps))
  {
    hide Key;
  }

  lemma LiveIsNewest(s: Bridge, k: nat)
    requires JobsOk(s) && k < |s.jobs|
    ensures !s.jobs[k].cancelled ==> k == |s.jobs| - 1
  {
  }

  lemma AnswerKeepsJobs(s: Bridge, t: Bridge, k: nat)
    requires JobsOk(s) && Awaiting(s, k) && |t.jobs| == |s.jobs|
    requires t.jobs == s.jobs[k := s.jobs[k].(answer := t.jobs[k].answer)]
    requires t.form == s.form && t.wallet == s.wallet && t.config == s.config && t.due == s.due
    ensures JobsOk(t)
  {
  }

  /** The text kept for the newest job is the key of no other request. */
  lemma KeyIsAsked(s: Bridge, request: Request)
    requires EstimateOk(s)
    ensures s.estimated == Some(Key(request)) ==> s.jobs[|s.jobs| - 1].asked == Some(request)
  {
    hide Key;
    if s.estimated == Some(Key(request)) {
      KeyUnique(request, s.jobs[|s.jobs| - 1].asked.value);
    }
  }

  lemma ClickKeeps(s: Bridge, ready: bool, funded: bool)
    requires Inv(s)
    ensures Inv(Click(s, ready, funded))
  {
    hide Key, RequestOf, RawAmount, Complete;
    if s.wallet.Some? && Complete(s.form, s.config) {
      CompleteParses(s.form, s.config);
      KeyIsAsked(s, RequestOf(s.form, s.wallet.value, s.config));
    }
  }

  lemma ResumeKeeps(s: Bridge, k: nat, arrived: bool)
    requires Inv(s) && k < |s.submissions|
    ensures Inv(Resume(s, k, arrived))
  {
  }

  lemma InputKeeps(s: Bridge, t: Bridge)
    requires Inv(s) && t == s.(form := t.form, wallet := t.wallet, config := t.config, loaded := t.loaded, due := true)
    ensures Inv(t)
  {
  }

  lemma NextKeeps(s: Bridge, e: FormEvent)
    requires Inv(s)
    ensures Inv(Next(s, e))
  {
    hide RequestOf, RawAmount, RunEffect, FireTimer, Answered, Click, Resume, Awaiting, Inv;
    match e {
      case EffectRuns => EffectKeeps(s);
      case TimerFires(k) => if k < |s.jobs| { TimerKeeps(s, k); }
      case Estimates(k, gas) => if Awaiting(s, k) { AnswerKeeps(s, k, Some(gas), Estimated(gas, k), true); }
      case Unsupports(k) => if Awaiting(s, k) { AnswerKeeps(s, k, None, Unsupported, true); }
      case EstimateFails(k) => if Awaiting(s, k) { AnswerKeeps(s, k, None, Failed, false); }
      case Clicks(ready, funded) => ClickKeeps(s, ready, funded);
      case FeesArrive(k) => if k < |s.submissions| { ResumeKeeps(s, k, true); }
      case FeesFail(k) => if k < |s.submissions| { ResumeKeeps(s, k, false); }
      case SetsOverride(chosen) => OverrideKeeps(s, chosen);
      case _ => InputKeeps(s, Next(s, e));
    }
  }

  lemma OverrideKeeps(s: Bridge, gas: Option<nat>)
    requires Inv(s)
    ensures Inv(s.(gasOverride := gas))
  {
  }

  lemma {:induction false} InvAlways(config: Config, events: seq<FormEvent>)
    ensures Inv(After(Opened(config), events))
  {
    hide Inv, Next, Opened;
    if events == [] {
      assert Inv(Opened(config)) by { OpenedOk(config); }
    } else {
      InvAlways(config, events[..|events| - 1]);
      NextKeeps(After(Opened(config), events[..|events| - 1]), events[|events| - 1]);
    }
  }

  lemma OpenedOk(config: Config)
    ensures Inv(Opened(config))
  {
  }

  lemma OnlyNewestLives(config: Config, events: seq<FormEvent>, k: nat)
    requires k < |After(Opened(config), events).jobs|
    ensures var jobs := After(Opened(config), events).jobs; !jobs[k].cancelled ==> k == |jobs| - 1
  {
    hide After;
    InvAlways(config, events);
  }

  // ---------------------------------------------------------------------------
  // What a send is made of
  // ---------------------------------------------------------------------------

  /** In every run, a transaction sent without a gas override carries the Composer's answer
      to a request for exactly its RPC, sender, target, calldata and value. */
  lemma SentGasWasEstimatedForThisTransaction(config: Config, events: seq<FormEvent>, k: nat)
    requires var s := After(Opened(config), events); k < |s.sends| && !s.sends[k].overridden
    ensures var s := After(Opened(config), events);
      exists j :: 0 <= j < |s.jobs| && s.jobs[j].asked == Some(s.sends[k].request)
                  && s.jobs[j].answer == Some(Some(s.sends[k].gas))
  {
    hide After;
    InvAlways(config, events);
    var s := After(Opened(config), events);
    assert Obtained(s.jobs, s.sends[k].job, s.sends[k].request, s.sends[k].gas);
  }

  /** A click takes gas only from the newest run of the effect, never from a superseded one. */
  lemma ClickUsesTheLiveEstimate(config: Config, events: seq<FormEvent>, ready: bool, funded: bool)
    requires var s := After(Opened(config), events); Click(s, ready, funded).submissions != s.submissions
    ensures var s := After(Opened(config), events); var t := Click(s, ready, funded);
      && |t.submissions| == |s.submissions| + 1
      && var mine := t.submissions[|s.submissions|]; var newest := |s.jobs| - 1;
      && newest >= 0 && !s.jobs[newest].cancelled && s.jobs[newest].asked == Some(mine.request)
      && (!mine.overridden ==> mine.job == newest && s.jobs[newest].answer == Some(Some(mine.gas)))
  {
    hide After, RequestOf, RawAmount, Complete, Key;
    InvAlways(config, events);
    var s := After(Opened(config), events);
    CompleteParses(s.form, s.config);
    KeyIsAsked(s, RequestOf(s.form, s.wallet.value, s.config));
  }

  /** A send needs the newest effect run to have asked for this very transaction, from the
      wallet still connected. So with no edit waiting for its effect, what is sent is what
      the form shows. */
  lemma SendMatchesTheForm(config: Config, events: seq<FormEvent>, k: nat)
    requires var s := After(Opened(config), events); k < |s.submissions| && Resume(s, k, true).sends != s.sends
    ensures var s := After(Opened(config), events); var sent := Resume(s, k, true).sends[|s.sends|];
      && s.jobs != [] && !s.jobs[|s.jobs| - 1].cancelled && s.jobs[|s.jobs| - 1].asked == Some(sent.request)
      && s.wallet == Some(sent.request.transaction.from)
      && (!s.due ==> RawAmount(s.form).Some? && sent.request == RequestOf(s.form, s.wallet.value, s.config))
  {
    hide After, RequestOf, RawAmount, Key;
    InvAlways(config, events);
    KeyIsAsked(After(Opened(config), events), After(Opened(config), events).submissions[k].request);
  }

  // ---------------------------------------------------------------------------
  // The gap between an edit and its effect
  // ---------------------------------------------------------------------------

  lemma AfterOneMore(s: Bridge, events: seq<FormEvent>, e: FormEvent)
    ensures After(s, events + [e]) == Next(After(s, events), e)
  {
    hide Next;
    assert (events + [e])[..|events|] == events;
  }

  lemma Then(config: Config, events: seq<FormEvent>, s: Bridge, e: FormEvent, t: Bridge) returns (longer: seq<FormEvent>)
    requires After(Opened(config), events) == s && Next(s, e) == t
    ensures After(Opened(config), longer) == t
  {
    hide Next, After;
    longer := events + [e];
    AfterOneMore(Opened(config), events, e);
  }

  lemma NoEvents(config: Config) returns (events: seq<FormEvent>)
    ensures After(Opened(config), events) == Opened(config)
  {
    events := [];
  }

  /** A form whose estimate has arrived: the first effect ran, its timer fired, the Composer
      answered. */
  function EstimatedFor(f: Form, from: string, config: Config, gas: nat): Bridge
    requires RawAmount(f).Some?
  {
    var request := RequestOf(f, from, config);
    Bridge(f, Some(from), config, true, None, false, Some(Key(request)), Estimated(gas, 0),
           [Job(f, from, false, Some(request), Some(Some(gas)))], [], [])
  }

  lemma ReachEstimated(f: Form, from: string, config: Config, gas: nat) returns (events: seq<FormEvent>)
    requires Complete(f, config) && RawAmount(f).Some?
    ensures After(Opened(config), events) == EstimatedFor(f, from, config, gas)
  {
    hide After, Complete, RawAmount, RequestOf;
    var loaded := Opened(config).(loaded := true);
    var ready := loaded.(wallet := Some(from), form := f);
    var started := ready.(due := false, gas := Estimating, jobs := [Job(f, from, false, None, None)]);
    var asked := started.(jobs := [Job(f, from, false, Some(RequestOf(f, from, config)), None)]);
    events := NoEvents(config);
    events := Then(config, events, Opened(config), ConfigChanges(config, true), loaded);
    events := Then(config, events, loaded, WalletChanges(Some(from)), loaded.(wallet := Some(from)));
    events := Then(config, events, loaded.(wallet := Some(from)), Edits(f), ready);
    events := Then(config, events, ready, EffectRuns, started);
    events := Then(config, events, started, TimerFires(0), asked);
    events := Then(config, events, asked, Estimates(0, gas), EstimatedFor(f, from, config, gas));
  }

  lemma ReachEdited(f: Form, g: Form, from: string, config: Config, gas: nat) returns (events: seq<FormEvent>)
    requires Complete(f, config) && RawAmount(f).Some?
    ensures After(Opened(config), events)
            == EstimatedFor(f, from, config, gas).(form := g, due := true,
                 submissions := [Submission(RequestOf(f, from, config), gas, false, 0, true)])
  {
    hide After, Complete, RawAmount, RequestOf;
    var shown := EstimatedFor(f, from, config, gas);
    var clicked := shown.(submissions := [Submission(RequestOf(f, from, config), gas, false, 0, true)]);
    events := ReachEstimated(f, from, config, gas);
    events := Then(config, events, shown, Clicks(true, true), clicked);
    events := Then(config, events, clicked, Edits(g), clicked.(form := g, due := true));
  }

  /** A click waits for fee data; an edit in that wait whose effect has not run yet does not
      stop the send. For any two forms with different requests, the one clicked is sent while
      the form already shows the other. */
  lemma EditBeforeItsEffectStillSends(f: Form, g: Form, from: string, config: Config, gas: nat)
      returns (events: seq<FormEvent>, s: Bridge)
    requires Complete(f, config) && RawAmount(f).Some? && RawAmount(g).Some?
    requires RequestOf(f, from, config) != RequestOf(g, from, config)
    ensures s == Next(After(Opened(config), events), FeesArrive(0))
    ensures s.form == g && s.wallet == Some(from) && s.config == config && s.due
    ensures s.sends == [BridgeSend(RequestOf(f, from, config), gas, false, 0)]
    ensures s.sends[0].request != RequestOf(s.form, from, s.config)
  {
    hide After, Complete, RawAmount, RequestOf;
    events := ReachEdited(f, g, from, config, gas);
    s := Next(After(Opened(config), events), FeesArrive(0));
    SenderIsKept(f, from, config);
  }

  lemma SenderIsKept(f: Form, from: string, config: Config)
    requires RawAmount(f).Some?
    ensures RequestOf(f, from, config).transaction.from == from
  {
  }
}
