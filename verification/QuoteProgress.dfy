/** What the two parties achieve when nothing interferes: a fresh frame connects, an import is
    heard, the run on display is annotated, and a requested quote is shown. */
module QuoteProgress {
  import opened Prelude
  import opened TraceModel
  import opened Annotations
  import opened QuoteViewer
  import opened QuoteHost
  import opened QuoteProtocol

  /** Both sides hold the same port, and the page knows the viewer's count. */
  predicate Linked(s: System) {
    && s.host.port.Some? && s.viewer.port == s.host.port
    && s.host.connected && s.host.viewerSequence == s.viewer.sequence
  }

  ghost predicate Posted(s: System, packet: Packet) {
    s.viewer.port.Some? && Sent(s.viewer.port.value, packet) in s.toHost
  }

  /** Whatever happened before, a frame that is loaded afresh connects. */
  lemma FreshFrameConnects(s: System)
    ensures var t := Next(Next(Next(Next(s, FrameReloads), FrameLoaded), PortArrives(s.nextPort)), PacketArrives(Ready(0)));
      && Linked(t) && !t.host.busy && t.host.ready == s.host.ready && t.host.lastRun.None?
      && t.viewer == FRESH.(port := Some(s.nextPort))
  {
    hide AbortQuote, AbortDecoder;
    var loaded := Next(Next(s, FrameReloads), FrameLoaded);
    var offered := Next(loaded, PortArrives(s.nextPort));
    assert Step(loaded.viewer, Connected(s.nextPort)).posts == [Ready(0)];
    assert Sent(s.nextPort, Ready(0)) in offered.toHost;
  }

  /** A pasted import is announced, and the page then knows count and run. */
  lemma ImportIsHeard(s: System, document: Document) returns (packet: Packet)
    requires Linked(s) && (document.Trace? && 0 <= document.chosen < |document.runs| ==> |document.runs[document.chosen].frames| <= 4096)
    ensures var pasted := Next(s, UserPastes(document)); var t := Next(pasted, PacketArrives(packet));
      && Displays(s.viewer, document, pasted.viewer, [packet]) && t.viewer == pasted.viewer
      && Linked(t) && !t.host.busy && Posted(t, packet)
      && (document.Trace? ==> t.host.lastRun == Some(Announced(t.viewer.sequence, t.viewer.run)))
      && (document.Unreadable? ==> t.host.lastRun.None?)
  {
    hide AbortQuote, AbortDecoder;
    var o := Step(s.viewer, Paste(document));
    LoadDisplays(s.viewer.(imports := s.viewer.imports + 1), document);
    packet := o.posts[0];
    assert packet in o.posts;
    assert Sent(s.viewer.port.value, packet) in Next(s, UserPastes(document)).toHost;
  }

  /** Which lookup answers: a new one for the announcement, and another if the page becomes
      ready only afterwards. */
  function LookupFor(h: Host): nat {
    |h.decoders| + if h.ready then 0 else 1
  }

  lemma LookupStarts(h: Host, n: nat, run: Run, items: seq<Item>)
    requires |run.frames| <= 4096 && FromRun(items, run) && h.port.Some?
    ensures var k := LookupFor(h);
      var ready := HostStep(HostStep(h, Hear(RunShown(n, Some(run)))).host, SetReady(true)).host;
      && HostStep(ready, Decoded(k, items)).posts == [Annotate(n, run.id, items)] && ready.port == h.port
      && HostStep(ready, Decoded(k, items)).host == ready
  {
    hide AbortQuote, AbortDecoder, FromRun;
  }

  /** A run on display that was announced is annotated: the announcement is delivered, the page
      is or becomes ready, the lookup yields a batch that fits, and the batch is delivered. Then
      exactly its items are stored over what was there. */
  lemma ShownRunIsAnnotated(s: System, run: Run, items: seq<Item>)
    requires s.host.port.Some? && s.viewer.port == s.host.port && BudgetExact(s.viewer)
    requires s.viewer.run == Some(run) && |run.frames| <= 4096 && Posted(s, RunShown(s.viewer.sequence, Some(run)))
    requires FromRun(items, run) && |items| <= 4096 && WellFormed(items, |run.frames|) && BatchSize(items, |run.frames|) <= 1048576
    requires StoredSize(Merge(s.viewer.decoded, items, |run.frames|), |run.frames|) <= 4194304
    ensures var heard := Next(Next(s, PacketArrives(RunShown(s.viewer.sequence, Some(run)))), ConfigurationReady(true));
      var t := Next(Next(heard, DecoderYields(LookupFor(s.host), items)), CommandArrives(Annotate(s.viewer.sequence, run.id, items)));
      && t.viewer == s.viewer.(decoded := t.viewer.decoded, bytes := t.viewer.bytes)
      && Overlaid(s.viewer.decoded, items, t.viewer.decoded)
  {
    hide HostStep, WellFormed, BatchSize, StoredSize, Merge, Overlaid, FromRun, Annotated;
    var n, command := s.viewer.sequence, Annotate(s.viewer.sequence, run.id, items);
    var heard := Next(Next(s, PacketArrives(RunShown(n, Some(run)))), ConfigurationReady(true));
    LookupStarts(s.host, n, run, items);
    var yielded := Next(heard, DecoderYields(LookupFor(s.host), items));
    assert command in HostStep(heard.host, Decoded(LookupFor(s.host), items)).posts;
    assert Sent(s.viewer.port.value, command) in yielded.toViewer;
    AllowedIffWellFormed(items, |run.frames|);
    AnnotatedTakesBatch(s.viewer, items);
  }

  lemma QuoteIsPosted(h: Host, now: Moment, document: Document)
    requires h.port.Some? && h.connected && h.ready && !h.busy
    ensures var asked := HostStep(h, Simulate(true, now)).host;
      && HostStep(h, Simulate(true, now)).posts == [] && asked.port == h.port
      && HostStep(asked, Reply(|h.quotes|, document)).posts == [LoadQuote(Some(h.viewerSequence), document, now)]
      && HostStep(asked, Reply(|h.quotes|, document)).host.port == h.port
  {
    hide AbortDecoder;
    var asked := HostStep(h, Simulate(true, now)).host;
    assert asked == Requested(h, now);
    assert asked.quotes[|h.quotes|] == Quote(asked.request, h.viewerSequence, false, true, now);
  }

  /** A quote that is requested, answered and delivered without interference is shown. */
  lemma UndisturbedQuoteIsShown(s: System, document: Document) returns (packet: Packet)
    requires Linked(s) && s.host.ready && !s.host.busy
    ensures var command := LoadQuote(Some(s.viewer.sequence), document, Moment(s.instance, s.viewer.sequence));
      var t := Next(Next(Next(s, UserSubmits(true)), QuoteReplies(|s.host.quotes|, document)), CommandArrives(command));
      Displays(s.viewer, document, t.viewer, [packet]) && Posted(t, packet)
  {
    hide HostStep, LoadOutcome;
    var now := Moment(s.instance, s.viewer.sequence);
    var command := LoadQuote(Some(s.viewer.sequence), document, now);
    var before := s.viewer.(imports := s.viewer.imports + 1);
    QuoteIsPosted(s.host, now, document);
    var replied := Next(Next(s, UserSubmits(true)), QuoteReplies(|s.host.quotes|, document));
    assert Sent(s.host.port.value, command) in replied.toViewer;
    LoadDisplays(before, document);
    packet := LoadOutcome(before, document).posts[0];
    assert packet in LoadOutcome(before, document).posts;
  }
}
