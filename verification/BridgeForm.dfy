/** The bridge form as it runs: one handler for each event, each keeping the form where the
    protocol is after the events so far, and what the protocol's results say of a handler. */
module BridgeForm {
  import opened Prelude
  import opened BridgeTransaction
  import opened BridgeKey
  import opened BridgeGas

  class BridgeScreen {
    const initial: Config
    var form: Form
    var wallet: Option<string>
    var config: Config
    var loaded: bool
    var gasOverride: Option<nat>
    var due: bool
    var estimated: Option<string>
    var gas: Gas
    var jobs: seq<Job>
    var submissions: seq<Submission>
    var sends: seq<BridgeSend>
    ghost var trail: seq<FormEvent>

    ghost function View(): Bridge
      reads this
    {
      Bridge(form, wallet, config, loaded, gasOverride, due, estimated, gas, jobs, submissions, sends)
    }

    /** The fields are where the protocol is after the events so far. */
    ghost predicate Valid()
      reads this
    {
      View() == After(Opened(initial), trail)
    }

    constructor (config: Config)
      ensures Valid() && trail == [] && initial == config
    {
      initial := config;
      form, wallet, this.config, loaded, gasOverride := Form(L1ToL2, Eth, "", "", None, ""), None, config, false, None;
      due, estimated, gas, jobs, submissions, sends := true, None, NoEstimate, [], [], [];
      trail := [];
    }

    ghost method Note(before: Bridge, e: FormEvent)
      requires before == After(Opened(initial), trail) && View() == Next(before, e)
      modifies this`trail
      ensures trail == old(trail) + [e] && Valid()
    {
      hide Next, After;
      AfterOneMore(Opened(initial), trail, e);
      trail := trail + [e];
    }

    method Edit(changed: Form)
      requires Valid()
      modifies this
      ensures Valid() && trail == old(trail) + [Edits(changed)]
    {
      hide After;
      ghost var before := View();
      form := changed;
      due := true;
      Note(before, Edits(changed));
    }

    method ChangeWallet(selected: Option<string>)
      requires Valid()
      modifies this
      ensures Valid() && trail == old(trail) + [WalletChanges(selected)]
    {
      hide After;
      ghost var before := View();
      wallet := selected;
      due := true;
      Note(before, WalletChanges(selected));
    }

    method Reconfigure(changed: Config, nowLoaded: bool)
      requires Valid()
      modifies this
      ensures Valid() && trail == old(trail) + [ConfigChanges(changed, nowLoaded)]
    {
      hide After;
      ghost var before := View();
      config := changed;
      loaded := nowLoaded;
      due := true;
      Note(before, ConfigChanges(changed, nowLoaded));
    }

    method AllowanceRead()
      requires Valid()
      modifies this
      ensures Valid() && trail == old(trail) + [AllowanceChanges]
    {
      hide After;
      ghost var before := View();
      due := true;
      Note(before, AllowanceChanges);
    }

    method ChooseGas(chosen: Option<nat>)
      requires Valid()
      modifies this
      ensures Valid() && trail == old(trail) + [SetsOverride(chosen)]
    {
      hide After;
      ghost var before := View();
      gasOverride := chosen;
      Note(before, SetsOverride(chosen));
    }

    /** The effect: cleanup of the previous run, then the next one. Whatever was asked or
        answered before is superseded. */
    method Estimate()
      requires Valid() && due
      modifies this
      ensures Valid() && trail == old(trail) + [EffectRuns]
      ensures estimated.None? && !gas.Estimated? && forall j :: 0 <= j < |old(jobs)| ==> j < |jobs| && jobs[j].cancelled
      ensures if loaded && wallet.Some? && Complete(form, config)
              then gas.Estimating? && |jobs| == |old(jobs)| + 1 && jobs[|old(jobs)|] == Job(form, wallet.value, false, None, None)
              else gas.NoEstimate? && |jobs| == |old(jobs)|
      ensures submissions == old(submissions) && sends == old(sends)
    {
      hide Complete, After;
      ghost var before := View();
      InvAlways(initial, trail);
      assert forall j :: 0 <= j < |jobs| - 1 ==> jobs[j].cancelled;
      if jobs != [] {
        jobs := jobs[|jobs| - 1 := jobs[|jobs| - 1].(cancelled := true)];
      }
      due := false;
      estimated := None;
      gas := NoEstimate;
      if loaded && wallet.Some? && Complete(form, config) {
        gas := Estimating;
        jobs := jobs + [Job(form, wallet.value, false, None, None)];
      }
      Note(before, EffectRuns);
    }

    /** The debounce timer. */
    method AskComposer(k: nat)
      requires Valid() && k < |jobs|
      modifies this
      ensures Valid() && trail == old(trail) + [TimerFires(k)]
      ensures old(jobs)[k].cancelled ==> View() == old(View())
    {
      hide RequestOf, RawAmount, After;
      ghost var before := View();
      var job := jobs[k];
      if !job.cancelled && job.asked.None? && RawAmount(job.form).Some? {
        jobs := jobs[k := job.(asked := Some(RequestOf(job.form, job.wallet, config)))];
      }
      Note(before, TimerFires(k));
    }

    /** An estimate arrives. For a superseded job nothing on the form changes; otherwise it is
        the newest job's, and the form holds its gas for its request. */
    method ComposerEstimates(k: nat, answer: nat)
      requires Valid() && k < |jobs| && jobs[k].asked.Some? && jobs[k].answer.None?
      modifies this
      ensures Valid() && trail == old(trail) + [Estimates(k, answer)]
      ensures old(jobs)[k].cancelled ==> estimated == old(estimated) && gas == old(gas)
      ensures !old(jobs)[k].cancelled ==>
                && k == |jobs| - 1 && estimated == Some(Key(old(jobs)[k].asked.value)) && gas.Estimated? && gas.gas == answer
                && Obtained(jobs, k, old(jobs)[k].asked.value, answer)
      ensures submissions == old(submissions) && sends == old(sends)
    {
      hide After, Answered;
      ghost var before := View();
      OnlyNewestLives(initial, trail, k);
      TakeAnswer(k, Some(answer), Estimated(answer, k), true);
      Note(before, Estimates(k, answer));
    }

    /** Notes a reply on its job, and on the form unless the job was cancelled. */
    method TakeAnswer(k: nat, answer: Option<nat>, found: Gas, keeps: bool)
      requires k < |jobs| && jobs[k].asked.Some? && jobs[k].answer.None?
      modifies this`jobs, this`estimated, this`gas
      ensures View() == Answered(old(View()), k, answer, found, keeps)
      ensures |jobs| == |old(jobs)| && jobs[k] == old(jobs)[k].(answer := Some(answer))
      ensures if jobs[k].cancelled then estimated == old(estimated) && gas == old(gas)
              else estimated == (if keeps then Some(Key(jobs[k].asked.value)) else None) && gas == found
    {
      jobs := jobs[k := jobs[k].(answer := Some(answer))];
      if !jobs[k].cancelled {
        estimated := if keeps then Some(Key(jobs[k].asked.value)) else None;
        gas := found;
      }
    }

    /** An estimate is refused: only an unsupported method leaves the request standing, and
        then without gas. */
    method ComposerRefuses(k: nat, unsupported: bool)
      requires Valid() && k < |jobs| && jobs[k].asked.Some? && jobs[k].answer.None?
      modifies this
      ensures Valid() && trail == old(trail) + [if unsupported then Unsupports(k) else EstimateFails(k)]
      ensures old(jobs)[k].cancelled ==> estimated == old(estimated) && gas == old(gas)
      ensures !old(jobs)[k].cancelled ==> !gas.Estimated? && (estimated.Some? <==> unsupported)
    {
      hide After, Answered;
      ghost var before := View();
      TakeAnswer(k, None, if unsupported then Unsupported else Failed, unsupported);
      Note(before, if unsupported then Unsupports(k) else EstimateFails(k));
    }

    /** The submit handler up to its await. `ready` and `funded` are the checks on the bridge
        deployment and on the token balance and allowance. What it lets through was estimated
        by the newest effect run, and carries that run's gas unless the user chose another. */
    method StartBridge(ready: bool, funded: bool) returns (k: Option<nat>)
      requires Valid()
      modifies this
      ensures Valid() && trail == old(trail) + [Clicks(ready, funded)]
      ensures k.None? ==> View() == old(View())
      ensures k.Some? <==>
                && ready && funded && wallet.Some? && Complete(form, config)
                && (gas.Estimated? || (gas.Unsupported? && gasOverride.Some?)) && estimated.Some?
                && jobs != [] && jobs[|jobs| - 1].asked == Some(RequestOf(form, wallet.value, config))
      ensures k.Some? ==>
                && k.value == |old(submissions)| && |submissions| == k.value + 1
                && jobs != [] && !jobs[|jobs| - 1].cancelled && jobs[|jobs| - 1].asked == Some(submissions[k.value].request)
                && (!submissions[k.value].overridden ==>
                      Obtained(jobs, |jobs| - 1, submissions[k.value].request, submissions[k.value].gas))
    {
      hide RequestOf, Complete, RawAmount, After, Key;
      ghost var before := View();
      InvAlways(initial, trail);
      k := None;
      if ready && wallet.Some? && funded && Complete(form, config) {
        CompleteParses(form, config);
        var request := RequestOf(form, wallet.value, config);
        KeyIsAsked(before, request);
        assert estimated.Some? ==> (estimated == Some(Key(request)) <==> jobs[|jobs| - 1].asked == Some(request));
        if (gas.Estimated? || (gas.Unsupported? && gasOverride.Some?)) && estimated == Some(Key(request)) {
          var chosen := if gasOverride.Some? then gasOverride.value else gas.gas;
          submissions := submissions + [Submission(request, chosen, gasOverride.Some?, if gas.Estimated? then gas.job else 0, true)];
          k := Some(|submissions| - 1);
        }
      }
      Note(before, Clicks(ready, funded));
    }

    /** ... and after it. What is sent comes from the wallet still connected, is what the
        newest effect run asked for, carries gas the Composer gave for exactly it unless the
        user chose another, and is what the form shows unless an edit waits for its effect. */
    method FinishBridge(k: nat, arrived: bool) returns (sent: bool)
      requires Valid() && k < |submissions| && submissions[k].pending
      modifies this
      ensures Valid() && trail == old(trail) + [if arrived then FeesArrive(k) else FeesFail(k)]
      ensures !sent ==> sends == old(sends)
      ensures sent <==> arrived && wallet == Some(old(submissions)[k].request.transaction.from) && estimated.Some?
                        && jobs != [] && jobs[|jobs| - 1].asked == Some(old(submissions)[k].request)
      ensures sent ==>
                && arrived && |sends| == |old(sends)| + 1 && sends[..|old(sends)|] == old(sends)
                && var d := sends[|old(sends)|];
                && d.request == old(submissions)[k].request && wallet == Some(d.request.transaction.from)
                && jobs != [] && !jobs[|jobs| - 1].cancelled && jobs[|jobs| - 1].asked == Some(d.request)
                && (!d.overridden ==> Obtained(jobs, d.job, d.request, d.gas))
                && (!due ==> RawAmount(form).Some? && d.request == RequestOf(form, wallet.value, config))
    {
      hide After, RequestOf, RawAmount, Obtained, Key;
      ghost var before := View();
      InvAlways(initial, trail);
      var mine := submissions[k];
      KeyIsAsked(before, mine.request);
      sent := arrived && wallet == Some(mine.request.transaction.from) && estimated == Some(Key(mine.request));
      submissions := submissions[k := mine.(pending := false)];
      if sent {
        sends := sends + [BridgeSend(mine.request, mine.gas, mine.overridden, mine.job)];
      }
      Note(before, if arrived then FeesArrive(k) else FeesFail(k));
    }
  }
}
