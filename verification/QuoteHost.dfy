/** The page's side of the message protocol: the quote request in flight, the lookup of
    annotations for the run last announced, and reconnecting after the frame reloads. */
module QuoteHost {
  import opened Prelude
  import opened TraceModel
  import opened Annotations
  import opened QuoteViewer

  datatype Announced = Announced(sequence: nat, run: Option<Run>)

  /** One quote request. `start` labels the viewer's count when it was made. */
  datatype Quote = Quote(id: nat, expected: nat, aborted: bool, pending: bool, start: Moment)

  /** One lookup of annotations. */
  datatype Decoder = Decoder(sequence: nat, run: Option<Run>, aborted: bool, started: bool)

  datatype Host = Host(
    port: Option<nat>,
    ready: bool,
    connected: bool,
    busy: bool,
    request: nat,
    viewerSequence: nat,
    quotes: seq<Quote>,
    quote: Option<nat>,
    lastRun: Option<Announced>,
    decoders: seq<Decoder>,
    decoding: Option<nat>)

  const MOUNTED: Host := Host(None, false, false, false, 0, 0, [], None, None, [], None)

  datatype HostInput =
    | Connect(port: nat)
    | Hear(packet: Packet)
    | SetReady(ready: bool)
    | Simulate(buildable: bool, now: Moment)
    | Cancel
    | Reply(k: nat, document: Document)
    | Fail(k: nat)
    | Decoded(k: nat, items: seq<Item>)

  datatype HostOutcome = HostOutcome(host: Host, posts: seq<Command>)

  function AbortQuote(quotes: seq<Quote>, k: Option<nat>): (r: seq<Quote>)
    ensures |r| == |quotes|
  {
    if k.Some? && k.value < |quotes| then quotes[k.value := quotes[k.value].(aborted := true)] else quotes
  }

  function AbortDecoder(decoders: seq<Decoder>, k: Option<nat>): (r: seq<Decoder>)
    ensures |r| == |decoders|
  {
    if k.Some? && k.value < |decoders| then decoders[k.value := decoders[k.value].(aborted := true)] else decoders
  }

  function CancelQuote(h: Host): Host {
    h.(request := h.request + 1, quotes := AbortQuote(h.quotes, h.quote), quote := None, busy := false)
  }

  function StopDecoding(h: Host): Host {
    h.(decoders := AbortDecoder(h.decoders, h.decoding))
  }

  /** Looks up annotations for the announced run, in place of any earlier lookup. */
  function Enrich(h: Host, m: Announced): Host {
    var stopped := StopDecoding(h);
    stopped.(decoders := stopped.decoders + [Decoder(m.sequence, m.run, false, h.ready && m.run.Some?)],
             decoding := Some(|stopped.decoders|))
  }

  function Forget(h: Host): Host {
    StopDecoding(CancelQuote(h)).(lastRun := None)
  }

  predicate Readable(run: Option<Run>) {
    run.None? || |run.value.frames| <= MAX_FRAMES
  }

  function Heard(h: Host, packet: Packet): Host {
    var counted := h.(viewerSequence := packet.sequence);
    match packet
    case Ready(_) => counted.(connected := true)
    case ImportStarted(_) => Forget(counted)
    case Invalid(_) => Forget(counted)
    case RunShown(sequence, run) =>
      if Readable(run)
      then Enrich(CancelQuote(counted).(lastRun := Some(Announced(sequence, run))), Announced(sequence, run))
      else counted
  }

  function Reconnected(h: Host, port: nat): Host {
    Forget(h).(viewerSequence := 0, connected := false, port := Some(port))
  }

  function Requested(h: Host, now: Moment): Host {
    var cancelled := CancelQuote(h);
    cancelled.(quotes := cancelled.quotes + [Quote(cancelled.request, h.viewerSequence, false, true, now)],
               quote := Some(|cancelled.quotes|), busy := true)
  }

  /** The request is over; only the current one releases the form. */
  function Settled(h: Host, k: nat): Host
    requires k < |h.quotes|
  {
    var closed := h.(quotes := h.quotes[k := h.quotes[k].(pending := false)]);
    if h.quotes[k].id == h.request then closed.(busy := false, quote := None) else closed
  }

  predicate Wanted(h: Host, k: nat)
    requires k < |h.quotes|
  {
    h.quotes[k].id == h.request && !h.quotes[k].aborted
  }

  predicate FromRun(items: seq<Item>, run: Run) {
    forall i :: 0 <= i < |items| ==> items[i].source == run
  }

  function PostTo(h: Host, c: Command): seq<Command> {
    if h.port.Some? then [c] else []
  }

  function HostStep(h: Host, input: HostInput): HostOutcome {
    match input
    case Connect(port) => HostOutcome(Reconnected(h, port), [])
    case Hear(packet) => HostOutcome(Heard(h, packet), [])
    case SetReady(ready) =>
      var configured := h.(ready := ready);
      HostOutcome(if ready && !h.ready && h.lastRun.Some? then Enrich(configured, h.lastRun.value) else configured, [])
    case Simulate(buildable, now) =>
      if h.busy || !h.ready || !h.connected || !buildable then HostOutcome(h, [])
      else HostOutcome(Requested(h, now), [])
    case Cancel => HostOutcome(CancelQuote(h), [])
    case Reply(k, document) =>
      if k < |h.quotes| && h.quotes[k].pending then
        HostOutcome(Settled(h, k),
          if Wanted(h, k) then PostTo(h, LoadQuote(Some(h.quotes[k].expected), document, h.quotes[k].start)) else [])
      else HostOutcome(h, [])
    case Fail(k) =>
      HostOutcome(if k < |h.quotes| && h.quotes[k].pending then Settled(h, k) else h, [])
    case Decoded(k, items) =>
      if k < |h.decoders| && h.decoders[k].started && h.decoders[k].run.Some? && !h.decoders[k].aborted
         && FromRun(items, h.decoders[k].run.value) then
        HostOutcome(h, PostTo(h, Annotate(h.decoders[k].sequence, h.decoders[k].run.value.id, items)))
      else HostOutcome(h, [])
  }

  function HostAfter(h: Host, inputs: seq<HostInput>): Host {
    if inputs == [] then h else HostStep(HostAfter(h, inputs[..|inputs| - 1]), inputs[|inputs| - 1]).host
  }

  lemma HostAfterOneMore(h: Host, inputs: seq<HostInput>, input: HostInput)
    ensures HostAfter(h, inputs + [input]) == HostStep(HostAfter(h, inputs), input).host
  {
    hide HostStep;
    assert (inputs + [input])[..|inputs|] == inputs;
  }

  // ---------------------------------------------------------------------------
  // One request and one lookup at a time
  // ---------------------------------------------------------------------------

  /** At most the newest request can still load a quote, and it is the one in progress. */
  ghost predicate QuotesInOrder(h: Host) {
    && (forall k :: 0 <= k < |h.quotes| ==>
          && h.quotes[k].id <= h.request
          && (h.quotes[k].id == h.request && h.quotes[k].pending ==> h.quote == Some(k) && h.busy && !h.quotes[k].aborted))
    && (h.quote.Some? ==>
          h.quote.value < |h.quotes| && h.quotes[h.quote.value].id == h.request && !h.quotes[h.quote.value].aborted)
  }

  /** At most the current lookup is live, and it is for the run last announced. */
  ghost predicate LookupsInOrder(h: Host) {
    forall k :: 0 <= k < |h.decoders| && !h.decoders[k].aborted ==>
      h.decoding == Some(k) && h.lastRun == Some(Announced(h.decoders[k].sequence, h.decoders[k].run))
  }

  lemma CancelKeepsOrder(h: Host)
    requires QuotesInOrder(h)
    ensures QuotesInOrder(CancelQuote(h))
    ensures |CancelQuote(h).quotes| == |h.quotes|
    ensures forall k :: 0 <= k < |CancelQuote(h).quotes| ==> CancelQuote(h).quotes[k].id < CancelQuote(h).request
  {
  }

  lemma StepKeepsQuoteOrder(h: Host, input: HostInput)
    requires QuotesInOrder(h)
    ensures QuotesInOrder(HostStep(h, input).host)
  {
    hide CancelQuote, FromRun, AbortDecoder, QuotesInOrder;
    CancelKeepsOrder(h);
    match input {
      case Hear(packet) => HeardKeepsQuoteOrder(h, packet);
      case Connect(port) => SameQuotes(CancelQuote(h), Reconnected(h, port));
      case SetReady(ready) => SameQuotes(h, HostStep(h, input).host);
      case Simulate(_, now) =>
        if HostStep(h, input).host != h {
          RequestedInOrder(h, now);
        }
      case Cancel =>
      case Reply(k, _) => if k < |h.quotes| { SettledInOrder(h, k); }
      case Fail(k) => if k < |h.quotes| { SettledInOrder(h, k); }
      case Decoded(_, _) =>
    }
  }

  lemma SameQuotes(h: Host, g: Host)
    requires QuotesInOrder(h) && g.quotes == h.quotes && g.request == h.request && g.quote == h.quote && g.busy == h.busy
    ensures QuotesInOrder(g)
  {
  }

  lemma HeardKeepsQuoteOrder(h: Host, packet: Packet)
    requires QuotesInOrder(h)
    ensures QuotesInOrder(Heard(h, packet))
  {
    hide QuotesInOrder, AbortQuote, AbortDecoder;
    var counted := h.(viewerSequence := packet.sequence);
    SameQuotes(h, counted);
    CancelKeepsOrder(counted);
    if packet.Ready? || (packet.RunShown? && !Readable(packet.run)) {
      SameQuotes(counted, Heard(h, packet));
    } else {
      SameQuotes(CancelQuote(counted), Heard(h, packet));
    }
  }

  lemma RequestedInOrder(h: Host, now: Moment)
    requires QuotesInOrder(h)
    ensures QuotesInOrder(Requested(h, now))
  {
    hide AbortQuote, CancelQuote, QuotesInOrder;
    CancelKeepsOrder(h);
    NewestInOrder(CancelQuote(h), h.viewerSequence, now);
  }

  lemma NewestInOrder(h: Host, expected: nat, now: Moment)
    requires forall k :: 0 <= k < |h.quotes| ==> h.quotes[k].id < h.request
    ensures QuotesInOrder(h.(quotes := h.quotes + [Quote(h.request, expected, false, true, now)], quote := Some(|h.quotes|), busy := true))
  {
  }

  lemma SettledInOrder(h: Host, k: nat)
    requires QuotesInOrder(h) && k < |h.quotes|
    ensures h.quotes[k].pending ==> QuotesInOrder(Settled(h, k))
  {
  }

  lemma HeardKeepsLookupOrder(h: Host, packet: Packet)
    requires LookupsInOrder(h)
    ensures LookupsInOrder(Heard(h, packet))
  {
    hide AbortQuote, Readable;
  }

  lemma StepKeepsLookupOrder(h: Host, input: HostInput)
    requires LookupsInOrder(h)
    ensures LookupsInOrder(HostStep(h, input).host)
  {
    hide AbortQuote, FromRun, Heard;
    if input.Hear? {
      HeardKeepsLookupOrder(h, input.packet);
    }
  }

  lemma {:induction false} AlwaysInOrder(inputs: seq<HostInput>)
    ensures QuotesInOrder(HostAfter(MOUNTED, inputs)) && LookupsInOrder(HostAfter(MOUNTED, inputs))
  {
    if inputs != [] {
      hide HostStep, QuotesInOrder, LookupsInOrder;
      var before := inputs[..|inputs| - 1];
      AlwaysInOrder(before);
      StepKeepsQuoteOrder(HostAfter(MOUNTED, before), inputs[|inputs| - 1]);
      StepKeepsLookupOrder(HostAfter(MOUNTED, before), inputs[|inputs| - 1]);
    }
  }

  // ---------------------------------------------------------------------------
  // Interrupted work stays silent
  // ---------------------------------------------------------------------------

  /** Whether this input ends the request in progress: a new import, run or failure announced
      by the viewer, a reconnection, or the user's cancel. */
  predicate EndsQuote(input: HostInput) {
    input.Connect? || input.Cancel?
    || (input.Hear? && (input.packet.ImportStarted? || input.packet.Invalid? || (input.packet.RunShown? && Readable(input.packet.run))))
  }

  /** A cancel leaves the lookup alone. */
  predicate EndsLookup(input: HostInput) {
    EndsQuote(input) && !input.Cancel?
  }

  /** None of the first q requests is wanted, and the first d lookups are aborted. */
  ghost predicate Silenced(h: Host, q: nat, d: nat) {
    && q <= |h.quotes| && (forall k :: 0 <= k < q ==> h.quotes[k].id < h.request)
    && d <= |h.decoders| && (forall k :: 0 <= k < d ==> h.decoders[k].aborted)
  }

  lemma QuotesSilenced(h: Host, input: HostInput)
    requires EndsQuote(input) && QuotesInOrder(h)
    ensures Silenced(HostStep(h, input).host, |h.quotes|, 0)
  {
    hide FromRun, AbortDecoder;
  }

  lemma LookupsSilenced(h: Host, input: HostInput)
    requires EndsLookup(input) && LookupsInOrder(h)
    ensures Silenced(HostStep(h, input).host, 0, |h.decoders|)
  {
    hide FromRun, AbortQuote;
  }

  /** Nothing wakes a silenced request or lookup. */
  lemma StepKeepsSilence(h: Host, input: HostInput, q: nat, d: nat)
    requires Silenced(h, q, d)
    ensures Silenced(HostStep(h, input).host, q, d)
  {
    hide FromRun, Heard;
    if input.Hear? {
      HeardKeepsSilence(h, input.packet, q, d);
    }
  }

  lemma HeardKeepsSilence(h: Host, packet: Packet, q: nat, d: nat)
    requires Silenced(h, q, d)
    ensures Silenced(Heard(h, packet), q, d)
  {
    hide Readable;
  }

  lemma {:induction false} SilenceLasts(h: Host, later: seq<HostInput>, q: nat, d: nat)
    requires Silenced(h, q, d)
    ensures Silenced(HostAfter(h, later), q, d)
  {
    if later != [] {
      hide HostStep, Silenced;
      SilenceLasts(h, later[..|later| - 1], q, d);
      StepKeepsSilence(HostAfter(h, later[..|later| - 1]), later[|later| - 1], q, d);
    }
  }

  lemma SilencedPostsNothing(h: Host, q: nat, d: nat, k: nat, document: Document, items: seq<Item>)
    requires Silenced(h, q, d)
    ensures k < q ==> HostStep(h, Reply(k, document)).posts == []
    ensures k < d ==> HostStep(h, Decoded(k, items)).posts == []
  {
  }

  /** After any history, an interruption silences every request made before it, and every
      lookup unless it was only a cancel: however much happens later, and whenever their
      replies arrive, they post nothing. */
  lemma InterruptedWorkStaysSilent(history: seq<HostInput>, input: HostInput, later: seq<HostInput>,
                                   k: nat, document: Document, items: seq<Item>)
    requires EndsQuote(input)
    ensures var h := HostAfter(MOUNTED, history); var after := HostAfter(HostStep(h, input).host, later);
      && (k < |h.quotes| ==> HostStep(after, Reply(k, document)).posts == [])
      && (EndsLookup(input) && k < |h.decoders| ==> HostStep(after, Decoded(k, items)).posts == [])
  {
    hide HostStep, HostAfter, Silenced, QuotesInOrder, LookupsInOrder;
    var h := HostAfter(MOUNTED, history);
    var interrupted := HostStep(h, input).host;
    var after := HostAfter(interrupted, later);
    AlwaysInOrder(history);
    QuotesSilenced(h, input);
    SilenceLasts(interrupted, later, |h.quotes|, 0);
    SilencedPostsNothing(after, |h.quotes|, 0, k, document, items);
    if EndsLookup(input) {
      LookupsSilenced(h, input);
      SilenceLasts(interrupted, later, 0, |h.decoders|);
      SilencedPostsNothing(after, 0, |h.decoders|, k, document, items);
    }
  }

  // ---------------------------------------------------------------------------
  // The host as it runs
  // ---------------------------------------------------------------------------

  class DebuggerHost {
    var port: Option<nat>
    var ready: bool
    var connected: bool
    var busy: bool
    var request: nat
    var viewerSequence: nat
    var quotes: seq<Quote>
    var quote: Option<nat>
    var lastRun: Option<Announced>
    var decoders: seq<Decoder>
    var decoding: Option<nat>
    ghost var trail: seq<HostInput>

    ghost function View(): Host
      reads this
    {
      Host(port, ready, connected, busy, request, viewerSequence, quotes, quote, lastRun, decoders, decoding)
    }

    /** The fields are where the protocol is after the inputs so far. */
    ghost predicate Valid()
      reads this
    {
      View() == HostAfter(MOUNTED, trail)
    }

    constructor ()
      ensures Valid() && trail == []
    {
      port, ready, connected, busy, request, viewerSequence := None, false, false, false, 0, 0;
      quotes, quote, lastRun, decoders, decoding := [], None, None, [], None;
      trail := [];
    }

    ghost method Note(before: Host, input: HostInput)
      requires before == HostAfter(MOUNTED, trail) && View() == HostStep(before, input).host
      modifies this`trail
      ensures trail == old(trail) + [input] && Valid()
    {
      HostAfterOneMore(MOUNTED, trail, input);
      trail := trail + [input];
    }

    method CancelRequest()
      modifies this`request, this`quotes, this`quote, this`busy
      ensures View() == CancelQuote(old(View()))
    {
      request := request + 1;
      if quote.Some? && quote.value < |quotes| {
        quotes := quotes[quote.value := quotes[quote.value].(aborted := true)];
      }
      quote := None;
      busy := false;
    }

    method AbortDecoding()
      modifies this`decoders
      ensures View() == StopDecoding(old(View()))
    {
      if decoding.Some? && decoding.value < |decoders| {
        decoders := decoders[decoding.value := decoders[decoding.value].(aborted := true)];
      }
    }

    method LookUp(message: Announced)
      modifies this`decoders, this`decoding
      ensures View() == Enrich(old(View()), message)
    {
      AbortDecoding();
      decoding := Some(|decoders|);
      decoders := decoders + [Decoder(message.sequence, message.run, false, ready && message.run.Some?)];
    }

    method DropRun()
      modifies this`request, this`quotes, this`quote, this`busy, this`decoders, this`lastRun
      ensures View() == Forget(old(View()))
    {
      CancelRequest();
      AbortDecoding();
      lastRun := None;
    }

    /** The message handler. A packet that announces something new silences the earlier
        request and every earlier lookup; a run is looked up if the page is ready. */
    method OnMessage(packet: Packet)
      requires Valid()
      modifies this
      ensures Valid() && trail == old(trail) + [Hear(packet)]
      ensures EndsLookup(Hear(packet)) ==> Silenced(View(), |old(quotes)|, |old(decoders)|) && !busy
      ensures viewerSequence == packet.sequence && (packet.Ready? ==> connected)
      ensures packet.ImportStarted? || packet.Invalid? ==> lastRun.None?
      ensures packet.RunShown? && (packet.run.None? || |packet.run.value.frames| <= 4096) ==>
                && lastRun == Some(Announced(packet.sequence, packet.run)) && decoding == Some(|old(decoders)|)
                && |decoders| == |old(decoders)| + 1
                && decoders[|old(decoders)|] == Decoder(packet.sequence, packet.run, false, ready && packet.run.Some?)
    {
      hide HostAfter, Silenced, EndsLookup;
      ghost var before := View();
      Handle(packet);
      Note(before, Hear(packet));
      EndedBy(old(trail), Hear(packet));
    }

    method Handle(packet: Packet)
      modifies this`viewerSequence, this`connected, this`request, this`quotes, this`quote, this`busy,
               this`decoders, this`decoding, this`lastRun
      ensures View() == Heard(old(View()), packet)
    {
      hide CancelQuote, StopDecoding;
      viewerSequence := packet.sequence;
      match packet {
        case Ready(_) =>
          connected := true;
        case ImportStarted(_) =>
          DropRun();
        case RunShown(sequence, run) =>
          if run.None? || |run.value.frames| <= MAX_FRAMES {
            CancelRequest();
            lastRun := Some(Announced(sequence, run));
            LookUp(lastRun.value);
          }
        case Invalid(_) =>
          DropRun();
      }
    }

    method Reconnect(channel: nat)
      requires Valid()
      modifies this
      ensures Valid() && trail == old(trail) + [Connect(channel)]
      ensures Silenced(View(), |old(quotes)|, |old(decoders)|) && !busy && !connected
    {
      hide HostAfter, Silenced;
      ghost var before := View();
      CancelRequest();
      viewerSequence := 0;
      AbortDecoding();
      lastRun := None;
      connected := false;
      port := Some(channel);
      Note(before, Connect(channel));
      EndedBy(old(trail), Connect(channel));
    }

    method CancelClicked()
      requires Valid()
      modifies this
      ensures Valid() && trail == old(trail) + [Cancel]
      ensures Silenced(View(), |old(quotes)|, 0) && !busy
    {
      hide HostAfter, Silenced;
      ghost var before := View();
      CancelRequest();
      Note(before, Cancel);
      EndedBy(old(trail), Cancel);
    }

    method Configure(nowReady: bool)
      requires Valid()
      modifies this
      ensures Valid() && trail == old(trail) + [SetReady(nowReady)]
      ensures LookupsInOrder(View())
      ensures nowReady && !old(ready) && lastRun.Some? ==>
                && decoding == Some(|old(decoders)|) && |decoders| == |old(decoders)| + 1
                && decoders[|old(decoders)|] == Decoder(lastRun.value.sequence, lastRun.value.run, false, lastRun.value.run.Some?)
      ensures !nowReady || old(ready) || lastRun.None? ==> decoders == old(decoders) && decoding == old(decoding)
    {
      hide HostAfter, LookupsInOrder;
      ghost var before := View();
      var changed := ready != nowReady;
      ready := nowReady;
      if changed && ready && lastRun.Some? {
        LookUp(lastRun.value);
      }
      Note(before, SetReady(nowReady));
      AlwaysInOrder(trail);
    }

    /** Starts a request; the reply arrives later under its index. Earlier requests can no
        longer load anything. */
    method StartQuote(buildable: bool, now: Moment) returns (k: Option<nat>)
      requires Valid()
      modifies this
      ensures Valid() && trail == old(trail) + [Simulate(buildable, now)]
      ensures k.Some? <==> !old(busy) && ready && connected && buildable
      ensures k.Some? ==> k == quote && k.value == |old(quotes)| < |quotes|
                          && quotes[k.value].expected == viewerSequence && Silenced(View(), k.value, 0)
      ensures k.None? ==> View() == old(View())
    {
      hide HostAfter, QuotesInOrder;
      ghost var before := View();
      if busy || !ready || !connected || !buildable {
        Note(before, Simulate(buildable, now));
        return None;
      }
      AlwaysInOrder(trail);
      CancelKeepsOrder(View());
      CancelRequest();
      quote := Some(|quotes|);
      quotes := quotes + [Quote(request, viewerSequence, false, true, now)];
      busy := true;
      Note(before, Simulate(buildable, now));
      k := quote;
    }

    /** The reply to request k; None stands for a failed request. Only the request in
        progress posts. */
    method FinishQuote(k: nat, document: Option<Document>) returns (posts: seq<Command>)
      requires Valid() && k < |quotes| && quotes[k].pending
      modifies this
      ensures Valid() && trail == old(trail) + [if document.Some? then Reply(k, document.value) else Fail(k)]
      ensures posts != [] <==> old(quote) == Some(k) && document.Some? && port.Some?
      ensures posts != [] ==> posts == [LoadQuote(Some(old(quotes)[k].expected), document.value, old(quotes)[k].start)]
      ensures old(quote) == Some(k) ==> quote.None? && !busy
      ensures old(quote) != Some(k) ==> quote == old(quote) && busy == old(busy)
    {
      hide HostAfter;
      ghost var before := View();
      AlwaysInOrder(trail);
      posts := [];
      var mine := quotes[k];
      if document.Some? && mine.id == request && !mine.aborted && port.Some? {
        posts := [LoadQuote(Some(mine.expected), document.value, mine.start)];
      }
      quotes := quotes[k := mine.(pending := false)];
      if mine.id == request {
        busy := false;
        quote := None;
      }
      Note(before, if document.Some? then Reply(k, document.value) else Fail(k));
    }

    /** What lookup k found. Only the lookup of the run last announced posts, under that
        announcement's number. */
    method DecoderFound(k: nat, items: seq<Item>) returns (posts: seq<Command>)
      requires Valid() && k < |decoders| && decoders[k].started && decoders[k].run.Some? && FromRun(items, decoders[k].run.value)
      ensures posts != [] <==> !decoders[k].aborted && port.Some?
      ensures posts != [] ==>
                && lastRun.Some? && lastRun.value.run.Some?
                && posts == [Annotate(lastRun.value.sequence, lastRun.value.run.value.id, items)]
    {
      hide HostAfter;
      AlwaysInOrder(trail);
      posts := [];
      var mine := decoders[k];
      if !mine.aborted && port.Some? {
        posts := [Annotate(mine.sequence, mine.run.value.id, items)];
      }
    }
  }

  lemma EndedBy(history: seq<HostInput>, input: HostInput)
    ensures var h, after := HostAfter(MOUNTED, history), HostAfter(MOUNTED, history + [input]);
      && (EndsQuote(input) ==> Silenced(after, |h.quotes|, 0) && !after.busy)
      && (EndsLookup(input) ==> Silenced(after, |h.quotes|, |h.decoders|) && !after.busy)
  {
    hide HostAfter, QuotesInOrder, LookupsInOrder;
    AlwaysInOrder(history);
    HostAfterOneMore(MOUNTED, history, input);
    var h := HostAfter(MOUNTED, history);
    if EndsQuote(input) {
      QuotesSilenced(h, input);
      NoLongerBusy(h, input);
    }
    if EndsLookup(input) {
      LookupsSilenced(h, input);
    }
  }

  lemma NoLongerBusy(h: Host, input: HostInput)
    requires EndsQuote(input)
    ensures !HostStep(h, input).host.busy
  {
  }
}
