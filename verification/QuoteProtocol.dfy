/** The viewer and the host together: every interleaving of imports, run changes, quotes,
    annotation lookups, frame reloads and reconnections. Messages may be delivered in any
    order, repeatedly or never, but only over the port on which they were posted. */
module QuoteProtocol {
  import opened Prelude
  import opened TraceModel
  import opened Annotations
  import opened QuoteViewer
  import opened QuoteHost

  datatype Sent<M> = Sent(port: nat, message: M)

  /** `pending` maps the token of each file still being read to the viewer's count when the
      file was picked. `owner` maps each accepted port to the viewer instance holding it. */
  datatype System = System(
    viewer: Viewer,
    instance: nat,
    pending: map<nat, nat>,
    host: Host,
    nextPort: nat,
    offers: set<nat>,
    owner: map<nat, nat>,
    toHost: set<Sent<Packet>>,
    toViewer: set<Sent<Command>>)

  const INITIAL: System := System(FRESH, 0, map[], MOUNTED, 0, {}, map[], {}, {})

  datatype SystemAction =
    | UserPastes(document: Document)
    | UserPicks(oversize: bool)
    | ReadCompletes(token: nat, document: Document)
    | ReadFails(token: nat)
    | UserChooses(id: nat)
    | FrameReloads
    | FrameLoaded
    | PortArrives(port: nat)
    | CommandArrives(command: Command)
    | PacketArrives(packet: Packet)
    | ConfigurationReady(ready: bool)
    | UserSubmits(buildable: bool)
    | UserCancels
    | QuoteReplies(k: nat, document: Document)
    | QuoteFails(k: nat)
    | DecoderYields(k: nat, items: seq<Item>)

  ghost function ViewerActs(s: System, input: Input): System {
    var o := Step(s.viewer, input);
    s.(viewer := o.viewer,
       toHost := s.toHost + set p | p in o.posts && o.viewer.port.Some? :: Sent(o.viewer.port.value, p))
  }

  ghost function HostActs(s: System, input: HostInput): System {
    var o := HostStep(s.host, input);
    s.(host := o.host,
       toViewer := s.toViewer + set c | c in o.posts && o.host.port.Some? :: Sent(o.host.port.value, c))
  }

  ghost function Next(s: System, a: SystemAction): System {
    match a
    case UserPastes(document) => ViewerActs(s, Paste(document))
    case UserPicks(oversize) =>
      var picked := ViewerActs(s, PickFile(oversize));
      if oversize then picked
      else picked.(pending := picked.pending[picked.viewer.imports := picked.viewer.sequence])
    case ReadCompletes(token, document) =>
      if token in s.pending then ViewerActs(s.(pending := s.pending - {token}), FileRead(token, document)) else s
    case ReadFails(token) => s.(pending := s.pending - {token})
    case UserChooses(id) => ViewerActs(s, ChooseRun(id))
    case FrameReloads => s.(viewer := FRESH, instance := s.instance + 1, pending := map[])
    case FrameLoaded =>
      s.(host := HostStep(s.host, Connect(s.nextPort)).host, offers := s.offers + {s.nextPort}, nextPort := s.nextPort + 1)
    case PortArrives(port) =>
      if port !in s.offers then s
      else if s.viewer.port.Some? then s.(offers := s.offers - {port})
      else ViewerActs(s.(offers := s.offers - {port}, owner := s.owner[port := s.instance]), Connected(port))
    case CommandArrives(command) =>
      if s.viewer.port.Some? && Sent(s.viewer.port.value, command) in s.toViewer then ViewerActs(s, Received(command)) else s
    case PacketArrives(packet) =>
      if s.host.port.Some? && Sent(s.host.port.value, packet) in s.toHost then HostActs(s, Hear(packet)) else s
    case ConfigurationReady(ready) => HostActs(s, SetReady(ready))
    case UserSubmits(buildable) => HostActs(s, Simulate(buildable, Moment(s.instance, s.viewer.sequence)))
    case UserCancels => HostActs(s, Cancel)
    case QuoteReplies(k, document) => HostActs(s, Reply(k, document))
    case QuoteFails(k) => HostActs(s, Fail(k))
    case DecoderYields(k, items) => HostActs(s, Decoded(k, items))
  }

  ghost function Reached(s: System, actions: seq<SystemAction>): System {
    if actions == [] then s else Next(Reached(s, actions[..|actions| - 1]), actions[|actions| - 1])
  }

  // ---------------------------------------------------------------------------
  // The invariant
  // ---------------------------------------------------------------------------

  /** What is known about counts: which instance holds which port, and the running count. */
  datatype Clock = Clock(owner: map<nat, nat>, instance: nat, sequence: nat)

  ghost function ClockOf(s: System): Clock {
    Clock(s.owner, s.instance, s.viewer.sequence)
  }

  ghost predicate Advances(c: Clock, d: Clock) {
    && (forall p :: p in c.owner ==> p in d.owner && d.owner[p] == c.owner[p])
    && c.instance <= d.instance
    && (c.instance == d.instance ==> c.sequence <= d.sequence)
  }

  /** A request over `port` expecting a count of `expected` was made at moment `start`. */
  ghost predicate StartOk(c: Clock, port: nat, expected: nat, start: Moment) {
    && port in c.owner
    && c.owner[port] <= start.instance <= c.instance
    && (start.instance == c.owner[port] ==> expected <= start.sequence)
    && (start.instance == c.instance ==> start.sequence <= c.sequence)
  }

  ghost predicate PortsOk(s: System) {
    && (s.host.port.Some? ==> s.host.port.value < s.nextPort)
    && (forall p :: p in s.offers ==> p < s.nextPort && p !in s.owner)
    && (forall p :: p in s.owner ==> p < s.nextPort && s.owner[p] <= s.instance)
    && (forall p :: p in s.owner && s.owner[p] == s.instance ==> s.viewer.port == Some(p))
    && (s.viewer.port.Some? ==> s.viewer.port.value in s.owner && s.owner[s.viewer.port.value] == s.instance)
  }

  predicate SameAnnouncement(m: Sent<Packet>, n: Sent<Packet>) {
    m.message.RunShown? && n.message.RunShown? && m.port == n.port && m.message.sequence == n.message.sequence
  }

  /** On each port a sequence number announces one run. */
  ghost predicate OneRunEach(toHost: set<Sent<Packet>>) {
    forall m, n :: m in toHost && n in toHost && SameAnnouncement(m, n) ==> m.message.run == n.message.run
  }

  ghost predicate PacketOk(v: Viewer, m: Sent<Packet>) {
    v.port == Some(m.port) ==>
      && m.message.sequence <= v.sequence
      && (m.message.RunShown? && m.message.sequence == v.sequence ==> v.trace.Some? && m.message.run == v.run)
  }

  ghost predicate PacketsOk(s: System) {
    && OneRunEach(s.toHost)
    && forall m :: m in s.toHost ==> m.port in s.owner && PacketOk(s.viewer, m)
  }

  ghost predicate Announces(toHost: set<Sent<Packet>>, port: Option<nat>, sequence: nat, run: Option<Run>) {
    port.Some? && Sent(port.value, RunShown(sequence, run)) in toHost
  }

  /** The run remembered, and every lookup not aborted, was announced on the current port. */
  ghost predicate DecodersOk(h: Host, toHost: set<Sent<Packet>>) {
    && (h.lastRun.Some? ==> Announces(toHost, h.port, h.lastRun.value.sequence, h.lastRun.value.run))
    && forall k :: 0 <= k < |h.decoders| && !h.decoders[k].aborted ==>
         h.decoding == Some(k) && Announces(toHost, h.port, h.decoders[k].sequence, h.decoders[k].run)
  }

  ghost predicate QuotesOk(h: Host, c: Clock) {
    forall k :: 0 <= k < |h.quotes| ==>
      && h.quotes[k].id <= h.request
      && (h.quotes[k].id == h.request && !h.quotes[k].aborted ==>
            h.port.Some? && StartOk(c, h.port.value, h.quotes[k].expected, h.quotes[k].start))
  }

  /** What the host believes about the viewer's count is not ahead of it. */
  ghost predicate BeliefOk(s: System) {
    && (s.host.connected || s.host.viewerSequence > 0 ==> s.host.port.Some? && s.host.port.value in s.owner)
    && (s.host.port.Some? && s.viewer.port == s.host.port ==> s.host.viewerSequence <= s.viewer.sequence)
  }

  ghost predicate AnnotationOk(toHost: set<Sent<Packet>>, m: Sent<Command>)
    requires m.message.Annotate?
  {
    exists run :: Announces(toHost, Some(m.port), m.message.sequence, Some(run))
                  && m.message.runId == run.id && FromRun(m.message.items, run)
  }

  ghost predicate CommandOk(c: Clock, toHost: set<Sent<Packet>>, m: Sent<Command>) {
    match m.message
    case Annotate(_, _, _) => AnnotationOk(toHost, m)
    case LoadQuote(expected, _, start) => expected.Some? && StartOk(c, m.port, expected.value, start)
  }

  ghost predicate CommandsOk(s: System) {
    forall m :: m in s.toViewer ==> CommandOk(ClockOf(s), s.toHost, m)
  }

  ghost predicate StoredOk(v: Viewer) {
    v.run.Some? ==> forall id :: id in v.decoded ==> v.decoded[id].source == v.run.value
  }

  /** Only the newest import can still be waiting for its file, and then nothing has been
      shown since it was picked. */
  ghost predicate ReadsOk(s: System) {
    forall t :: t in s.pending ==>
      t <= s.viewer.imports && (t == s.viewer.imports ==> !s.viewer.workspace && s.pending[t] == s.viewer.sequence)
  }

  ghost predicate Inv(s: System) {
    && PortsOk(s)
    && PacketsOk(s)
    && DecodersOk(s.host, s.toHost)
    && QuotesOk(s.host, ClockOf(s))
    && BeliefOk(s)
    && CommandsOk(s)
    && BudgetExact(s.viewer)
    && StoredOk(s.viewer)
    && ReadsOk(s)
  }

  // ---------------------------------------------------------------------------
  // Viewer steps
  // ---------------------------------------------------------------------------

  lemma ViewerKeepsPackets(s: System, input: Input)
    requires !input.Connected? && PortsOk(s) && PacketsOk(s)
    ensures PacketsOk(ViewerActs(s, input)) && PortsOk(ViewerActs(s, input))
    ensures s.toHost <= ViewerActs(s, input).toHost
    ensures Advances(ClockOf(s), ClockOf(ViewerActs(s, input)))
  {
    hide Step;
    StepCounts(s.viewer, input);
  }

  /** Facts about the other side survive any progress of counts and announcements. */
  lemma FactsLast(s: System, t: System)
    requires Advances(ClockOf(s), ClockOf(t)) && s.toHost <= t.toHost && s.toViewer == t.toViewer && s.host == t.host
    requires DecodersOk(s.host, s.toHost) && QuotesOk(s.host, ClockOf(s)) && CommandsOk(s)
    ensures DecodersOk(t.host, t.toHost) && QuotesOk(t.host, ClockOf(t)) && CommandsOk(t)
  {
  }

  lemma MergedFromRun(v: Viewer, items: seq<Item>)
    requires v.run.Some? && StoredOk(v) && FromRun(items, v.run.value)
    ensures StoredOk(Annotated(v, items))
  {
    hide Merge, Replaced, BatchSize, ValidFields, EntrySize;
    var frames := |v.run.value.frames|;
    if Stored(v.decoded, v.bytes, items, frames) {
      forall id | id in Merge(v.decoded, items, frames)
        ensures Merge(v.decoded, items, frames)[id].source == v.run.value
      {
        MergeSources(v.decoded, items, frames, id);
      }
    }
  }

  lemma StepKeepsStored(v: Viewer, input: Input)
    requires StoredOk(v)
    requires input.Received? && input.command.Annotate? && v.run.Some? && input.command.sequence == v.sequence ==>
               FromRun(input.command.items, v.run.value)
    ensures StoredOk(Step(v, input).viewer)
  {
    hide Annotated, FromRun;
    if input.Received? && input.command.Annotate? && v.run.Some? && input.command.sequence == v.sequence {
      MergedFromRun(v, input.command.items);
    }
  }

  lemma StepKeepsReads(s: System, input: Input)
    requires ReadsOk(s) && !input.Connected? && !input.PickFile?
    requires input.FileRead? ==> input.token !in s.pending
    ensures ReadsOk(ViewerActs(s, input))
  {
  }

  lemma ViewerKeepsInv(s: System, input: Input)
    requires Inv(s) && !input.Connected? && !input.PickFile?
    requires input.FileRead? ==> input.token !in s.pending
    requires input.Received? ==> s.viewer.port.Some? && Sent(s.viewer.port.value, input.command) in s.toViewer
    ensures Inv(ViewerActs(s, input))
  {
    hide Step, StoredOk, BudgetExact, PacketOk, OneRunEach, DecodersOk, QuotesOk, CommandOk, Advances;
    var t := ViewerActs(s, input);
    ViewerKeepsPackets(s, input);
    FactsLast(s, t);
    StepCounts(s.viewer, input);
    StepKeepsBudget(s.viewer, input);
    if input.Received? {
      var m := Sent(s.viewer.port.value, input.command);
      assert CommandOk(ClockOf(s), s.toHost, m);
      ReceivedMatches(s, m);
    }
    StepKeepsStored(s.viewer, input);
    StepKeepsReads(s, input);
  }

  lemma ReceivedMatches(s: System, m: Sent<Command>)
    requires PacketsOk(s) && s.viewer.port == Some(m.port) && CommandOk(ClockOf(s), s.toHost, m)
    ensures m.message.Annotate? && s.viewer.run.Some? && m.message.sequence == s.viewer.sequence ==>
              FromRun(m.message.items, s.viewer.run.value)
  {
  }

  lemma PickKeepsInv(s: System, oversize: bool)
    requires Inv(s)
    ensures Inv(Next(s, UserPicks(oversize)))
  {
    hide StoredOk, BudgetExact, PacketOk, OneRunEach, DecodersOk, QuotesOk, CommandOk, Advances, Annotated;
    var input := PickFile(oversize);
    var t := ViewerActs(s, input);
    ViewerKeepsPackets(s, input);
    FactsLast(s, t);
    FactsLast(s, Next(s, UserPicks(oversize)));
    StepKeepsBudget(s.viewer, input);
    StepKeepsStored(s.viewer, input);
  }

  // ---------------------------------------------------------------------------
  // Frame reload, connection
  // ---------------------------------------------------------------------------

  lemma ReloadKeepsInv(s: System)
    requires Inv(s)
    ensures Inv(Next(s, FrameReloads))
  {
  }

  /** After reconnecting, no request and no lookup is left alive. */
  lemma ForgetClears(h: Host, toHost: set<Sent<Packet>>, c: Clock, port: nat)
    requires DecodersOk(h, toHost) && QuotesOk(h, c)
    ensures DecodersOk(Reconnected(h, port), toHost) && QuotesOk(Reconnected(h, port), c)
  {
  }

  lemma LoadedKeepsInv(s: System)
    requires Inv(s)
    ensures Inv(Next(s, FrameLoaded))
  {
    hide StoredOk, BudgetExact, PacketOk, OneRunEach, DecodersOk, QuotesOk, CommandOk;
    ForgetClears(s.host, s.toHost, ClockOf(s), s.nextPort);
  }

  lemma PortKeepsInv(s: System, port: nat)
    requires Inv(s) && port in s.offers && s.viewer.port.None?
    ensures Inv(Next(s, PortArrives(port)))
  {
    var t := Next(s, PortArrives(port));
    assert t.viewer == s.viewer.(port := Some(port));
    assert PortsOk(t) && ReadsOk(t) && BeliefOk(t) && BudgetExact(t.viewer) && StoredOk(t.viewer) by {
      hide CommandsOk, DecodersOk, QuotesOk, PacketsOk;
    }
    PortKeepsPackets(s, port);
    assert Advances(ClockOf(s), ClockOf(t));
    FactsLast(s, t);
  }

  lemma PortKeepsPackets(s: System, port: nat)
    requires PortsOk(s) && PacketsOk(s) && port in s.offers && s.viewer.port.None?
    ensures PacketsOk(Next(s, PortArrives(port))) && s.toHost <= Next(s, PortArrives(port)).toHost
  {
  }

  // ---------------------------------------------------------------------------
  // Host steps
  // ---------------------------------------------------------------------------

  lemma CancelKeeps(h: Host, toHost: set<Sent<Packet>>, c: Clock)
    requires DecodersOk(h, toHost) && QuotesOk(h, c)
    ensures DecodersOk(CancelQuote(h), toHost) && QuotesOk(CancelQuote(h), c)
  {
  }

  lemma EnrichKeeps(h: Host, toHost: set<Sent<Packet>>, m: Announced)
    requires forall k :: 0 <= k < |h.decoders| && !h.decoders[k].aborted ==> h.decoding == Some(k)
    requires h.lastRun == Some(m) && Announces(toHost, h.port, m.sequence, m.run)
    ensures DecodersOk(Enrich(h, m), toHost)
  {
  }

  lemma HeardKeeps(h: Host, toHost: set<Sent<Packet>>, c: Clock, packet: Packet)
    requires DecodersOk(h, toHost) && QuotesOk(h, c)
    requires h.port.Some? && Sent(h.port.value, packet) in toHost
    ensures DecodersOk(Heard(h, packet), toHost) && QuotesOk(Heard(h, packet), c)
  {
    var counted := h.(viewerSequence := packet.sequence);
    hide StartOk;
    if packet.RunShown? && Readable(packet.run) {
      var m := Announced(packet.sequence, packet.run);
      CancelKeeps(counted, toHost, c);
      EnrichKeeps(CancelQuote(counted).(lastRun := Some(m)), toHost, m);
    }
  }

  lemma HostKeepsDecoders(h: Host, toHost: set<Sent<Packet>>, input: HostInput)
    requires DecodersOk(h, toHost) && !input.Connect? && !input.Hear?
    ensures DecodersOk(HostStep(h, input).host, toHost)
  {
    if input.SetReady? && h.lastRun.Some? {
      EnrichKeeps(h.(ready := input.ready), toHost, h.lastRun.value);
    }
  }

  lemma HostKeepsQuotes(h: Host, c: Clock, input: HostInput)
    requires QuotesOk(h, c) && !input.Connect? && !input.Hear?
    requires input.Simulate? && h.connected ==> h.port.Some? && StartOk(c, h.port.value, h.viewerSequence, input.now)
    ensures QuotesOk(HostStep(h, input).host, c)
  {
    hide StartOk;
  }

  lemma HostKeepsPort(h: Host, input: HostInput)
    requires !input.Connect?
    ensures var g := HostStep(h, input).host;
      && g.port == h.port
      && (!input.Hear? ==> g.connected == h.connected && g.viewerSequence == h.viewerSequence)
      && (input.Hear? ==> g.viewerSequence == input.packet.sequence)
  {
    hide AbortQuote, AbortDecoder, FromRun;
  }

  /** What the host posts is backed by an announcement or a live request. */
  lemma PostsAreBacked(h: Host, toHost: set<Sent<Packet>>, c: Clock, input: HostInput, m: Command)
    requires DecodersOk(h, toHost) && QuotesOk(h, c) && m in HostStep(h, input).posts
    ensures h.port.Some? && CommandOk(c, toHost, Sent(h.port.value, m))
  {
  }

  lemma HostKeepsInv(s: System, input: HostInput)
    requires Inv(s) && !input.Connect?
    requires input.Hear? ==> s.host.port.Some? && Sent(s.host.port.value, input.packet) in s.toHost
    requires input.Simulate? ==> input.now == Moment(s.instance, s.viewer.sequence)
    ensures Inv(HostActs(s, input))
  {
    hide HostStep, StoredOk, BudgetExact, OneRunEach, DecodersOk, QuotesOk, CommandOk, Advances;
    var t := HostActs(s, input);
    HostKeepsPort(s.host, input);
    forall m | m in t.toViewer ensures CommandOk(ClockOf(s), s.toHost, m) {
      if m !in s.toViewer {
        PostsAreBacked(s.host, s.toHost, ClockOf(s), input, m.message);
      }
    }
    if input.Hear? {
      assert PacketOk(s.viewer, Sent(s.host.port.value, input.packet));
      HeardKeeps(s.host, s.toHost, ClockOf(s), input.packet);
      assert HostStep(s.host, input).host == Heard(s.host, input.packet) by { HearIsHeard(s.host, input.packet); }
    } else {
      HostKeepsDecoders(s.host, s.toHost, input);
      HostKeepsQuotes(s.host, ClockOf(s), input);
    }
  }

  lemma HearIsHeard(h: Host, packet: Packet)
    ensures HostStep(h, Hear(packet)).host == Heard(h, packet)
  {
  }

  // ---------------------------------------------------------------------------
  // Every reachable state
  // ---------------------------------------------------------------------------

  lemma NextKeepsInv(s: System, a: SystemAction)
    requires Inv(s)
    ensures Inv(Next(s, a))
  {
    hide Inv, ViewerActs, HostActs;
    match a {
      case UserPastes(document) => ViewerKeepsInv(s, Paste(document));
      case UserPicks(oversize) => PickKeepsInv(s, oversize);
      case ReadCompletes(token, document) =>
        FewerReads(s, token);
        ViewerKeepsInv(s.(pending := s.pending - {token}), FileRead(token, document));
      case ReadFails(token) => FewerReads(s, token);
      case UserChooses(id) => ViewerKeepsInv(s, ChooseRun(id));
      case FrameReloads => ReloadKeepsInv(s);
      case FrameLoaded => LoadedKeepsInv(s);
      case PortArrives(port) =>
        if port in s.offers {
          if s.viewer.port.None? {
            PortKeepsInv(s, port);
          } else {
            FewerOffers(s, port);
          }
        }
      case CommandArrives(command) =>
        if s.viewer.port.Some? && Sent(s.viewer.port.value, command) in s.toViewer {
          ViewerKeepsInv(s, Received(command));
        }
      case PacketArrives(packet) =>
        if s.host.port.Some? && Sent(s.host.port.value, packet) in s.toHost {
          HostKeepsInv(s, Hear(packet));
        }
      case ConfigurationReady(ready) => HostKeepsInv(s, SetReady(ready));
      case UserSubmits(buildable) => HostKeepsInv(s, Simulate(buildable, Moment(s.instance, s.viewer.sequence)));
      case UserCancels => HostKeepsInv(s, Cancel);
      case QuoteReplies(k, document) => HostKeepsInv(s, Reply(k, document));
      case QuoteFails(k) => HostKeepsInv(s, Fail(k));
      case DecoderYields(k, items) => HostKeepsInv(s, Decoded(k, items));
    }
  }

  lemma FewerReads(s: System, token: nat)
    requires Inv(s)
    ensures Inv(s.(pending := s.pending - {token}))
  {
  }

  lemma FewerOffers(s: System, port: nat)
    requires Inv(s)
    ensures Inv(s.(offers := s.offers - {port}))
  {
  }

  lemma {:induction false} InvAlways(actions: seq<SystemAction>)
    ensures Inv(Reached(INITIAL, actions))
  {
    if actions != [] {
      hide Inv, Next;
      InvAlways(actions[..|actions| - 1]);
      NextKeepsInv(Reached(INITIAL, actions[..|actions| - 1]), actions[|actions| - 1]);
    }
  }

  // ---------------------------------------------------------------------------
  // What the protocol guarantees
  // ---------------------------------------------------------------------------

  /** Stale annotations never land: in every reachable state each stored annotation was
      computed from the run on display. */
  lemma StoredAnnotationsBelongToTheShownRun(actions: seq<SystemAction>, id: nat)
    ensures var v := Reached(INITIAL, actions).viewer;
      v.run.Some? && id in v.decoded ==> v.decoded[id].source == v.run.value && id < |v.run.value.frames|
    ensures var v := Reached(INITIAL, actions).viewer;
      v.run.Some? ==> v.bytes == StoredSize(v.decoded, |v.run.value.frames|) <= MAX_STORED
  {
    hide Reached;
    InvAlways(actions);
  }

  /** On one port a sequence number announces at most one run, whatever the order of events. */
  lemma AnnouncedNumbersNameOneRun(actions: seq<SystemAction>, port: nat, sequence: nat, a: Option<Run>, b: Option<Run>)
    requires Sent(port, RunShown(sequence, a)) in Reached(INITIAL, actions).toHost
    requires Sent(port, RunShown(sequence, b)) in Reached(INITIAL, actions).toHost
    ensures a == b
  {
    hide Reached;
    InvAlways(actions);
    assert SameAnnouncement(Sent(port, RunShown(sequence, a)), Sent(port, RunShown(sequence, b)));
  }

  /** The viewer would act on this command now. */
  ghost predicate QuoteAccepted(s: System, command: Command) {
    && command.LoadQuote?
    && s.viewer.port.Some? && Sent(s.viewer.port.value, command) in s.toViewer
    && (command.expected.None? || command.expected.value == s.viewer.sequence)
  }

  lemma AcceptedQuoteIsCurrent(s: System, command: Command)
    requires Inv(s) && QuoteAccepted(s, command)
    ensures command.start == Moment(s.instance, s.viewer.sequence)
  {
  }

  /** The moment only moves forward, and while it stands still nothing on display changes. */
  lemma NextMoves(s: System, a: SystemAction)
    ensures var t := Next(s, a);
      && (t.instance > s.instance || (t.instance == s.instance && t.viewer.sequence >= s.viewer.sequence))
      && (t.instance == s.instance && t.viewer.sequence == s.viewer.sequence ==>
            t.viewer.trace == s.viewer.trace && t.viewer.run == s.viewer.run && t.viewer.workspace == s.viewer.workspace)
  {
    hide Step, HostStep;
    forall v: Viewer, input: Input | !input.Connected?
      ensures Step(v, input).viewer.sequence >= v.sequence
      ensures Step(v, input).viewer.sequence == v.sequence ==>
                && Step(v, input).viewer.trace == v.trace && Step(v, input).viewer.run == v.run
                && Step(v, input).viewer.workspace == v.workspace
    {
      StepCounts(v, input);
    }
    if a.PortArrives? {
      ConnectedKeepsDisplay(s.viewer, a.port);
    }
  }

  lemma ConnectedKeepsDisplay(v: Viewer, port: nat)
    ensures var after := Step(v, Connected(port)).viewer;
      after.sequence == v.sequence && after.trace == v.trace && after.run == v.run && after.workspace == v.workspace
  {
  }

  lemma {:induction false} SameMomentSameDisplay(s: System, actions: seq<SystemAction>)
    ensures var t := Reached(s, actions);
      && (t.instance > s.instance || (t.instance == s.instance && t.viewer.sequence >= s.viewer.sequence))
      && (t.instance == s.instance && t.viewer.sequence == s.viewer.sequence ==>
            t.viewer.trace == s.viewer.trace && t.viewer.run == s.viewer.run && t.viewer.workspace == s.viewer.workspace)
  {
    if actions != [] {
      hide Next;
      SameMomentSameDisplay(s, actions[..|actions| - 1]);
      NextMoves(Reached(s, actions[..|actions| - 1]), actions[|actions| - 1]);
    }
  }

  lemma ReachedOneMore(s: System, actions: seq<SystemAction>, a: SystemAction)
    ensures Reached(s, actions + [a]) == Next(Reached(s, actions), a)
  {
    hide Next;
    assert (actions + [a])[..|actions|] == actions;
  }

  lemma ReachedByNone(s: System)
    ensures Reached(s, []) == s
  {
  }

  lemma {:induction false} ReachedInTwo(s: System, first: seq<SystemAction>, second: seq<SystemAction>)
    ensures Reached(s, first + second) == Reached(Reached(s, first), second)
  {
    hide Next, Reached;
    if second == [] {
      assert first + second == first;
      ReachedByNone(Reached(s, first));
    } else {
      var init, last := second[..|second| - 1], second[|second| - 1];
      ReachedInTwo(s, first, init);
      assert first + second == (first + init) + [last] && second == init + [last];
      ReachedOneMore(s, first + init, last);
      ReachedOneMore(Reached(s, first), init, last);
    }
  }

  /** A quote requested at one moment and accepted at a later one replaces exactly what was
      on display when it was requested: no import, run choice or reload came between. */
  lemma LateQuoteNeverReplacesNewerWork(before: seq<SystemAction>, between: seq<SystemAction>, command: Command)
    requires var s := Reached(INITIAL, before); var t := Reached(INITIAL, before + between);
      command.LoadQuote? && command.start == Moment(s.instance, s.viewer.sequence) && QuoteAccepted(t, command)
    ensures var s := Reached(INITIAL, before); var t := Reached(INITIAL, before + between);
      && t.instance == s.instance && t.viewer.sequence == s.viewer.sequence
      && t.viewer.trace == s.viewer.trace && t.viewer.run == s.viewer.run && t.viewer.workspace == s.viewer.workspace
  {
    hide Reached, Inv;
    InvAlways(before + between);
    ReachedInTwo(INITIAL, before, between);
    AcceptedQuoteIsCurrent(Reached(INITIAL, before + between), command);
    SameMomentSameDisplay(Reached(INITIAL, before), between);
  }

  /** A read still waiting was picked in this viewer and keeps the count it was picked at. */
  lemma NextKeepsReads(s: System, a: SystemAction, token: nat)
    ensures var t := Next(s, a);
      t.instance == s.instance ==>
        && t.viewer.imports >= s.viewer.imports
        && (token <= s.viewer.imports && token in t.pending ==> token in s.pending && t.pending[token] == s.pending[token])
  {
    hide Step, HostStep;
    forall v: Viewer, input: Input | !input.Connected? ensures Step(v, input).viewer.imports >= v.imports {
      StepCounts(v, input);
    }
    if a.PortArrives? {
      ConnectedKeepsImports(s.viewer, a.port);
    }
    if a.UserPicks? {
      PickedToken(s.viewer, a.oversize);
    }
  }

  lemma ConnectedKeepsImports(v: Viewer, port: nat)
    ensures Step(v, Connected(port)).viewer.imports == v.imports
  {
  }

  lemma PickedToken(v: Viewer, oversize: bool)
    ensures Step(v, PickFile(oversize)).viewer.imports == v.imports + 1
  {
  }

  lemma {:induction false} ReadKeepsItsCount(s: System, actions: seq<SystemAction>, token: nat)
    requires token <= s.viewer.imports
    ensures var t := Reached(s, actions);
      t.instance == s.instance ==>
        && t.viewer.imports >= s.viewer.imports
        && (token in t.pending ==> token in s.pending && t.pending[token] == s.pending[token])
  {
    if actions != [] {
      hide Next;
      var before := actions[..|actions| - 1];
      ReadKeepsItsCount(s, before, token);
      SameMomentSameDisplay(s, before);
      NextMoves(Reached(s, before), actions[|actions| - 1]);
      NextKeepsReads(Reached(s, before), actions[|actions| - 1], token);
    }
  }

  /** A file read loads only as the newest import, and then nothing was loaded or chosen
      since its file was picked; every other read still waiting is older and will be ignored. */
  lemma LateReadNeverReplacesNewerWork(before: seq<SystemAction>, between: seq<SystemAction>, token: nat)
    requires var s := Reached(INITIAL, before); token in s.pending && token == s.viewer.imports
    requires var s := Reached(INITIAL, before); var t := Reached(INITIAL, before + between);
      t.instance == s.instance && token in t.pending && token == t.viewer.imports
    ensures var s := Reached(INITIAL, before); var t := Reached(INITIAL, before + between);
      && t.viewer.sequence == s.viewer.sequence && !t.viewer.workspace
      && t.viewer.trace == s.viewer.trace && t.viewer.run == s.viewer.run
      && forall other :: other in t.pending && other != token ==> other < t.viewer.imports
  {
    hide Reached;
    InvAlways(before);
    InvAlways(before + between);
    ReachedInTwo(INITIAL, before, between);
    ReadKeepsItsCount(Reached(INITIAL, before), between, token);
    SameMomentSameDisplay(Reached(INITIAL, before), between);
  }
}
