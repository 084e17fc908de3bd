/** The trace viewer's side of the message protocol: imports, run choice, and the
    annotations it accepts. */
module QuoteViewer {
  import opened Prelude
  import opened TraceModel
  import opened Annotations

  /** An imported text, by what parsing makes of it. */
  datatype Document = Unreadable | Trace(runs: seq<Run>, chosen: int)

  /** Which viewer instance, and how far it had counted. A label for the theorems. */
  datatype Moment = Moment(instance: nat, sequence: nat)

  datatype Command =
    | LoadQuote(expected: Option<nat>, document: Document, start: Moment)
    | Annotate(sequence: nat, runId: int, items: seq<Item>)

  datatype Packet =
    | Ready(sequence: nat)
    | ImportStarted(sequence: nat)
    | Invalid(sequence: nat)
    | RunShown(sequence: nat, run: Option<Run>)

  datatype Viewer = Viewer(
    trace: Option<seq<Run>>,
    run: Option<Run>,
    workspace: bool,
    sequence: nat,
    imports: nat,
    decoded: map<nat, Entry>,
    bytes: int,
    limited: bool,
    port: Option<nat>)

  const FRESH: Viewer := Viewer(None, None, false, 0, 0, map[], 0, false, None)

  datatype Input =
    | Paste(document: Document)
    | PickFile(oversize: bool)
    | FileRead(token: nat, document: Document)
    | ChooseRun(id: nat)
    | Connected(port: nat)
    | Received(command: Command)

  datatype ViewerOutcome = ViewerOutcome(viewer: Viewer, posts: seq<Packet>)

  function RunAt(runs: seq<Run>, id: int): Option<Run> {
    if 0 <= id < |runs| then Some(runs[id]) else None
  }

  /** Shows a run of the loaded trace, under a sequence number of its own. */
  function Select(v: Viewer, runs: seq<Run>, id: int): Viewer {
    v.(sequence := v.sequence + 1, decoded := map[], bytes := 0, limited := false, run := RunAt(runs, id))
  }

  function Load(v: Viewer, document: Document): Viewer {
    var counted := v.(sequence := v.sequence + 1, decoded := map[]);
    match document
    case Unreadable => counted.(trace := None, run := None, workspace := false)
    case Trace(runs, chosen) => Select(counted.(trace := Some(runs), workspace := true), runs, chosen)
  }

  function Post(v: Viewer, p: Packet): seq<Packet> {
    if v.port.Some? then [p] else []
  }

  function Notify(v: Viewer): seq<Packet> {
    if v.trace.Some? then Post(v, RunShown(v.sequence, v.run)) else []
  }

  function LoadOutcome(v: Viewer, document: Document): ViewerOutcome {
    var after := Load(v, document);
    ViewerOutcome(after, if document.Unreadable? then Post(after, Invalid(after.sequence)) else Notify(after))
  }

  /** What a document puts on display: of a trace the chosen run, without annotations, announced
      once; of an unreadable text nothing, announced as invalid. */
  predicate Displays(v: Viewer, document: Document, w: Viewer, posts: seq<Packet>) {
    && w.port == v.port && w.sequence > v.sequence && w.decoded == map[]
    && match document
       case Trace(runs, chosen) =>
         && w.trace == Some(runs) && w.workspace && w.bytes == 0 && !w.limited
         && w.run == (if 0 <= chosen < |runs| then Some(runs[chosen]) else None)
         && posts == if w.port.Some? then [RunShown(w.sequence, w.run)] else []
       case Unreadable =>
         && w.trace.None? && w.run.None? && !w.workspace
         && posts == if w.port.Some? then [Invalid(w.sequence)] else []
  }

  lemma LoadDisplays(v: Viewer, document: Document)
    ensures Displays(v, document, LoadOutcome(v, document).viewer, LoadOutcome(v, document).posts)
  {
  }

  ghost function Annotated(v: Viewer, items: seq<Item>): Viewer
    requires v.run.Some?
  {
    var frames := |v.run.value.frames|;
    if !ValidBatch(items, frames) then v
    else if !Stored(v.decoded, v.bytes, items, frames) then v.(limited := true)
    else v.(decoded := Merge(v.decoded, items, frames),
            bytes := v.bytes - Replaced(v.decoded, items, frames) + BatchSize(items, frames))
  }

  ghost function Step(v: Viewer, input: Input): ViewerOutcome {
    match input
    case Paste(document) => LoadOutcome(v.(imports := v.imports + 1), document)
    case PickFile(oversize) =>
      var after := v.(imports := v.imports + 1, sequence := v.sequence + 1, workspace := false);
      ViewerOutcome(after, Post(after, ImportStarted(after.sequence)))
    case FileRead(token, document) =>
      if token == v.imports then LoadOutcome(v, document) else ViewerOutcome(v, [])
    case ChooseRun(id) =>
      if v.workspace && v.trace.Some? && id < |v.trace.value|
      then var after := Select(v, v.trace.value, id); ViewerOutcome(after, Notify(after))
      else ViewerOutcome(v, [])
    case Connected(port) =>
      if v.port.Some? then ViewerOutcome(v, [])
      else var after := v.(port := Some(port)); ViewerOutcome(after, [Ready(after.sequence)] + Notify(after))
    case Received(LoadQuote(expected, document, start)) =>
      if expected.None? || expected.value == v.sequence
      then LoadOutcome(v.(imports := v.imports + 1), document)
      else ViewerOutcome(v, [])
    case Received(Annotate(sequence, runId, items)) =>
      if v.trace.Some? && v.run.Some? && sequence == v.sequence && runId == v.run.value.id
      then ViewerOutcome(Annotated(v, items), [])
      else ViewerOutcome(v, [])
  }

  /** Every item is for another call of the run, and each of its fields is a text of at most
      32768 characters. */
  ghost predicate Allowed(items: seq<Item>, frames: nat) {
    && (forall i :: 0 <= i < |items| ==>
          && items[i].id.Some? && 0 <= items[i].id.value < frames
          && forall key :: key in items[i].values ==> items[i].values[key].Text? && |items[i].values[key].text| <= 32768)
    && forall i, j :: 0 <= i < j < |items| ==> items[i].id != items[j].id
  }

  lemma AllowedIffWellFormed(items: seq<Item>, frames: nat)
    ensures Allowed(items, frames) <==> WellFormed(items, frames)
  {
  }

  /** What a batch for the run on display does: it is ignored if it is malformed or above
      1 MiB, noted as too much if the texts stored would exceed 4 MiB with it, and otherwise
      stored item by item over what was there. */
  ghost predicate TakesBatch(v: Viewer, items: seq<Item>, w: Viewer)
    requires v.run.Some?
  {
    var frames := |v.run.value.frames|;
    AllowedIffWellFormed(items, frames);
    if |items| > 4096 || !Allowed(items, frames) || BatchSize(items, frames) > 1048576 then w == v
    else if StoredSize(Merge(v.decoded, items, frames), frames) > 4194304 then w == v.(limited := true)
    else
      && w == v.(decoded := w.decoded, bytes := w.bytes)
      && Overlaid(v.decoded, items, w.decoded) && w.bytes == StoredSize(w.decoded, frames)
  }

  lemma AnnotatedTakesBatch(v: Viewer, items: seq<Item>)
    requires v.run.Some? && BudgetExact(v)
    ensures TakesBatch(v, items, Annotated(v, items))
  {
    hide StoredSize, Merge, Replaced, BatchSize, WellFormed, Allowed, Overlaid;
    var frames := |v.run.value.frames|;
    AllowedIffWellFormed(items, frames);
    if WellFormed(items, frames) {
      MergeTotal(v.decoded, items, frames);
      MergeOverlays(v.decoded, items, frames);
    }
  }

  // ---------------------------------------------------------------------------
  // The budget
  // ---------------------------------------------------------------------------

  /** While a run is shown the byte count is the length of everything stored for it, within
      4 MiB; without a run nothing is stored. */
  ghost predicate BudgetExact(v: Viewer) {
    if v.run.None? then v.decoded == map[]
    else
      && v.trace.Some?
      && (forall id :: id in v.decoded ==> id < |v.run.value.frames|)
      && v.bytes == StoredSize(v.decoded, |v.run.value.frames|) <= MAX_STORED
  }

  lemma {:induction false} TotalOfNothing(n: nat)
    ensures StoredSize(map[], n) == 0
  {
    if n > 0 {
      TotalOfNothing(n - 1);
    }
  }

  lemma AnnotatedKeepsBudget(v: Viewer, items: seq<Item>)
    requires v.run.Some? && BudgetExact(v)
    ensures BudgetExact(Annotated(v, items))
  {
    hide StoredSize, Merge, Replaced, BatchSize, WellFormed;
    var frames := |v.run.value.frames|;
    if Stored(v.decoded, v.bytes, items, frames) {
      MergeTotal(v.decoded, items, frames);
      forall id | id in Merge(v.decoded, items, frames) ensures id < frames {
        MergedIds(v.decoded, items, frames, id);
      }
    }
  }

  lemma MergedIds(decoded: map<nat, Entry>, items: seq<Item>, frames: nat, id: nat)
    requires WellFormed(items, frames) && (forall i :: i in decoded ==> i < frames) && id in Merge(decoded, items, frames)
    ensures id < frames
  {
  }

  /** Every step, whatever it receives, keeps the count exact and within the limit. */
  lemma StepKeepsBudget(v: Viewer, input: Input)
    requires BudgetExact(v)
    ensures BudgetExact(Step(v, input).viewer)
  {
    hide Annotated, StoredSize;
    if v.run.Some? && input.Received? && input.command.Annotate? {
      AnnotatedKeepsBudget(v, input.command.items);
    }
    forall n: nat ensures StoredSize(map[], n) == 0 {
      TotalOfNothing(n);
    }
  }

  lemma {:induction false} BudgetAlwaysExact(inputs: seq<Input>)
    ensures BudgetExact(After(FRESH, inputs))
  {
    if inputs != [] {
      hide Step, BudgetExact;
      BudgetAlwaysExact(inputs[..|inputs| - 1]);
      StepKeepsBudget(After(FRESH, inputs[..|inputs| - 1]), inputs[|inputs| - 1]);
    }
  }

  ghost function After(v: Viewer, inputs: seq<Input>): Viewer {
    if inputs == [] then v else Step(After(v, inputs[..|inputs| - 1]), inputs[|inputs| - 1]).viewer
  }

  /** Every import, and every change of what is shown, moves the count; what is announced
      carries the new count. */
  lemma StepCounts(v: Viewer, input: Input)
    requires !input.Connected?
    ensures var o := Step(v, input);
      && o.viewer.port == v.port && Moves(v, o.viewer)
      && forall p :: p in o.posts ==>
           o.posts == [p] && p.sequence == o.viewer.sequence > v.sequence && v.port.Some?
           && (p.RunShown? ==> o.viewer.trace.Some? && p.run == o.viewer.run)
  {
    hide ValidBatch, Stored, Merge, Replaced, BatchSize;
  }

  /** The counts never go back, and while they stand still nothing on display changes. */
  predicate Moves(v: Viewer, w: Viewer) {
    && w.sequence >= v.sequence && w.imports >= v.imports
    && (w.sequence == v.sequence ==>
          w.trace == v.trace && w.run == v.run && w.workspace == v.workspace && w.imports == v.imports)
  }

  lemma AfterOneMore(v: Viewer, inputs: seq<Input>, input: Input)
    ensures After(v, inputs + [input]) == Step(After(v, inputs), input).viewer
  {
    hide Step;
    assert (inputs + [input])[..|inputs|] == inputs;
  }

  // ---------------------------------------------------------------------------
  // The viewer as it runs
  // ---------------------------------------------------------------------------

  class TraceViewer {
    var trace: Option<seq<Run>>
    var run: Option<Run>
    var workspace: bool
    var sequence: nat
    var imports: nat
    var decoded: map<nat, Entry>
    var bytes: int
    var limited: bool
    var port: Option<nat>
    ghost var trail: seq<Input>

    ghost function View(): Viewer
      reads this
    {
      Viewer(trace, run, workspace, sequence, imports, decoded, bytes, limited, port)
    }

    /** The fields are where the protocol is after the inputs so far. */
    ghost predicate Valid()
      reads this
    {
      View() == After(FRESH, trail)
    }

    constructor ()
      ensures Valid() && trail == []
    {
      trace, run, workspace, sequence, imports := None, None, false, 0, 0;
      decoded, bytes, limited, port := map[], 0, false, None;
      trail := [];
    }

    ghost method Note(before: Viewer, input: Input)
      requires before == After(FRESH, trail) && View() == Step(before, input).viewer
      modifies this`trail
      ensures trail == old(trail) + [input] && Valid() && BudgetExact(View())
      ensures !input.Connected? ==> Moves(before, View())
    {
      hide Step, After, BudgetExact;
      AfterOneMore(FRESH, trail, input);
      trail := trail + [input];
      BudgetAlwaysExact(trail);
      if !input.Connected? {
        StepCounts(before, input);
      }
    }

    method NotifyRun() returns (posts: seq<Packet>)
      ensures posts == Notify(View())
    {
      posts := if port.Some? && trace.Some? then [RunShown(sequence, run)] else [];
    }

    method SelectRun(id: int) returns (posts: seq<Packet>)
      requires trace.Some?
      modifies this`sequence, this`decoded, this`bytes, this`limited, this`run
      ensures View() == Select(old(View()), trace.value, id) && posts == Notify(View())
    {
      sequence := sequence + 1;
      decoded := map[];
      bytes, limited := 0, false;
      run := if 0 <= id < |trace.value| then Some(trace.value[id]) else None;
      posts := NotifyRun();
    }

    method LoadText(document: Document) returns (posts: seq<Packet>)
      modifies this`sequence, this`decoded, this`bytes, this`limited, this`run, this`trace, this`workspace
      ensures ViewerOutcome(View(), posts) == LoadOutcome(old(View()), document)
      ensures Displays(old(View()), document, View(), posts)
    {
      sequence := sequence + 1;
      decoded := map[];
      match document {
        case Unreadable =>
          trace, run, workspace := None, None, false;
          posts := if port.Some? then [Invalid(sequence)] else [];
        case Trace(runs, chosen) =>
          trace, workspace := Some(runs), true;
          posts := SelectRun(chosen);
      }
    }

    /** A pasted import always loads, and outdates every file read under way. */
    method PasteText(document: Document) returns (posts: seq<Packet>)
      requires Valid()
      modifies this
      ensures Valid() && trail == old(trail) + [Paste(document)] && posts == Step(old(View()), Paste(document)).posts
      ensures Displays(old(View()), document, View(), posts)
      ensures BudgetExact(View()) && imports > old(imports) && sequence > old(sequence)
    {
      hide After, BudgetExact;
      ghost var before := View();
      imports := imports + 1;
      posts := LoadText(document);
      Note(before, Paste(document));
    }

    /** Starts a file import; its token is newer than every earlier one, and what was loaded
        stays loaded behind a hidden workspace. */
    method StartFile(oversize: bool) returns (token: Option<nat>, posts: seq<Packet>)
      requires Valid()
      modifies this
      ensures Valid() && trail == old(trail) + [PickFile(oversize)] && posts == if port.Some? then [ImportStarted(sequence)] else []
      ensures token == if oversize then None else Some(imports)
      ensures imports > old(imports) && sequence > old(sequence) && !workspace
      ensures trace == old(trace) && run == old(run) && decoded == old(decoded) && BudgetExact(View())
    {
      hide After, BudgetExact;
      ghost var before := View();
      imports := imports + 1;
      sequence := sequence + 1;
      posts := if port.Some? then [ImportStarted(sequence)] else [];
      workspace := false;
      token := if oversize then None else Some(imports);
      Note(before, PickFile(oversize));
    }

    /** A file was read. With an outdated token nothing at all happens; with the newest one
        the count moves. */
    method FinishFile(token: nat, document: Document) returns (posts: seq<Packet>)
      requires Valid()
      modifies this
      ensures Valid() && trail == old(trail) + [FileRead(token, document)]
      ensures token != old(imports) ==> View() == old(View()) && posts == []
      ensures token == old(imports) ==> imports == token && sequence > old(sequence)
      ensures token == old(imports) ==> Displays(old(View()), document, View(), posts)
      ensures BudgetExact(View())
    {
      hide After, BudgetExact;
      ghost var before := View();
      posts := [];
      if token == imports {
        posts := LoadText(document);
      }
      Note(before, FileRead(token, document));
    }

    /** The run menu, which is there only while a trace is on display. */
    method Choose(id: nat) returns (posts: seq<Packet>)
      requires Valid() && workspace && trace.Some? && id < |trace.value|
      modifies this
      ensures Valid() && trail == old(trail) + [ChooseRun(id)]
      ensures run == Some(trace.value[id]) && sequence > old(sequence) && decoded == map[] && bytes == 0
      ensures trace == old(trace) && posts == if port.Some? then [RunShown(sequence, run)] else []
    {
      hide After, BudgetExact;
      ghost var before := View();
      posts := SelectRun(id);
      Note(before, ChooseRun(id));
    }

    /** The first port is accepted and greeted with the count and the run on display; any
        other is ignored. */
    method Connect(offered: nat) returns (posts: seq<Packet>)
      requires Valid()
      modifies this
      ensures Valid() && trail == old(trail) + [Connected(offered)]
      ensures old(port).Some? ==> View() == old(View()) && posts == []
      ensures old(port).None? ==> View() == old(View()).(port := Some(offered))
      ensures old(port).None? ==> posts == [Ready(sequence)] + if trace.Some? then [RunShown(sequence, run)] else []
    {
      hide After, BudgetExact;
      ghost var before := View();
      posts := [];
      if port.None? {
        port := Some(offered);
        var shown := NotifyRun();
        posts := [Ready(sequence)] + shown;
      }
      Note(before, Connected(offered));
    }

    /** The port handler. A quote for another count, and annotations for another count or
        run, change nothing; annotations never move the count or the display; and whatever
        arrives, the byte count stays exact. */
    method Receive(command: Command) returns (posts: seq<Packet>)
      requires Valid()
      modifies this
      ensures Valid() && trail == old(trail) + [Received(command)] && posts == Step(old(View()), Received(command)).posts
      ensures command.LoadQuote? && command.expected.Some? && command.expected.value != old(sequence) ==>
                View() == old(View()) && posts == []
      ensures command.LoadQuote? && (command.expected.None? || command.expected.value == old(sequence)) ==>
                Displays(old(View()), command.document, View(), posts)
      ensures command.Annotate? && trace.Some? && run.Some? && command.sequence == old(sequence) && command.runId == run.value.id ==>
                TakesBatch(old(View()), command.items, View())
      ensures command.Annotate? ==> posts == [] && View() == old(View()).(decoded := decoded, bytes := bytes, limited := limited)
      ensures command.Annotate? && (command.sequence != old(sequence) || run.None? || command.runId != run.value.id) ==>
                View() == old(View())
      ensures BudgetExact(View()) && Moves(old(View()), View())
    {
      hide After, BudgetExact, Moves, Annotated, TakesBatch;
      ghost var before := View();
      BudgetAlwaysExact(trail);
      posts := [];
      match command {
        case LoadQuote(expected, document, start) =>
          if expected.None? || expected.value == sequence {
            imports := imports + 1;
            posts := LoadText(document);
          }
        case Annotate(number, runId, items) =>
          if trace.Some? && run.Some? && number == sequence && runId == run.value.id {
            TakeBatch(items);
            AnnotatedTakesBatch(before, items);
          }
      }
      Note(before, Received(command));
    }

    /** Copies the known fields of one item, counting their length onto `before`. */
    method CopyFields(item: Item, before: nat) returns (clean: Option<map<Key, string>>, size: nat)
      requires before <= MAX_BATCH
      ensures clean.Some? <==> ValidFields(item) && before + EntrySize(Texts(item)) <= MAX_BATCH
      ensures clean.Some? ==> clean.value == Texts(item) && size == before + EntrySize(Texts(item))
    {
      size := before;
      var copied: map<Key, string> := map[];
      for k := 0 to |KEYS|
        invariant forall j :: 0 <= j < k ==> KEYS[j] in item.values ==> FieldOk(item, KEYS[j])
        invariant forall j :: 0 <= j < k ==> KEYS[j] in item.values ==> KEYS[j] in copied
        invariant forall key :: key in copied ==> key in item.values && FieldOk(item, key) && copied[key] == item.values[key].text
        invariant forall j :: k <= j < |KEYS| ==> KEYS[j] !in copied
        invariant size == before + TextSize(copied, k) <= MAX_BATCH
      {
        var key := KEYS[k];
        ghost var earlier := copied;
        if key in item.values {
          var value := item.values[key];
          if value.NotText? || |value.text| > MAX_FIELD {
            return None, size;
          }
          size := size + |value.text|;
          copied := copied[key := value.text];
          SameTextSize(earlier, copied, k);
          if size > MAX_BATCH {
            if ValidFields(item) {
              assert forall j :: 0 <= j < k + 1 ==> (KEYS[j] in copied <==> KEYS[j] in Texts(item));
              SameTextSize(copied, Texts(item), k + 1);
              TextGrows(Texts(item), k + 1, |KEYS|);
            }
            return None, size;
          }
        }
      }
      AllFieldsCopied(item, copied);
      clean := Some(copied);
    }

    /** The annotations of one message: all of them are stored, or none. */
    method TakeBatch(items: seq<Item>)
      requires run.Some?
      modifies this`decoded, this`bytes, this`limited
      ensures View() == Annotated(old(View()), items)
    {
      var frames := |run.value.frames|;
      if |items| > MAX_ITEMS {
        return;
      }
      var incoming, size := CheckBatch(items, frames);
      if incoming.None? {
        return;
      }
      var replaced := CountReplaced(items, frames, incoming.value);
      if bytes - replaced + size > MAX_STORED {
        limited := true;
        return;
      }
      bytes := bytes + size - replaced;
      StoreAll(items, frames, incoming.value);
    }

    /** What the checked items become. */
    static ghost predicate Copies(items: seq<Item>, frames: nat, incoming: seq<(nat, Entry)>)
      requires WellFormed(items, frames)
    {
      && |incoming| == |items|
      && forall i :: 0 <= i < |items| ==>
           incoming[i] == (items[i].id.value as nat, Entry(Texts(items[i]), items[i].source))
    }

    method CheckBatch(items: seq<Item>, frames: nat) returns (incoming: Option<seq<(nat, Entry)>>, size: nat)
      ensures incoming.Some? <==> WellFormed(items, frames) && BatchSize(items, frames) <= MAX_BATCH
      ensures incoming.Some? ==> Copies(items, frames, incoming.value) && size == BatchSize(items, frames)
    {
      hide EntrySize, Texts, ValidFields;
      var copies: seq<(nat, Entry)> := [];
      var ids: set<int> := {};
      size := 0;
      for n := 0 to |items|
        invariant WellFormed(items[..n], frames) && size == BatchSize(items[..n], frames) <= MAX_BATCH
        invariant Copies(items[..n], frames, copies)
        invariant forall i :: 0 <= i < n ==> items[i].id.value in ids
        invariant forall id :: id in ids ==> exists i :: 0 <= i < n && items[i].id == Some(id)
      {
        var item := items[n];
        if item.id.None? || !(0 <= item.id.value < frames) {
          return None, size;
        }
        if item.id.value in ids {
          return None, size;
        }
        ids := ids + {item.id.value};
        var clean, counted := CopyFields(item, size);
        PrefixStep(items, frames, n);
        if clean.None? {
          if WellFormed(items, frames) {
            BatchGrows(items, frames, n + 1);
          }
          return None, size;
        }
        size := counted;
        copies := copies + [(item.id.value as nat, Entry(clean.value, item.source))];
      }
      assert items[..|items|] == items;
      incoming := Some(copies);
    }

    method CountReplaced(items: seq<Item>, frames: nat, incoming: seq<(nat, Entry)>) returns (replaced: nat)
      requires WellFormed(items, frames) && Copies(items, frames, incoming)
      ensures replaced == Replaced(decoded, items, frames)
    {
      hide EntrySize, Texts, ValidFields;
      replaced := 0;
      for n := 0 to |incoming|
        invariant WellFormed(items[..n], frames) && replaced == Replaced(decoded, items[..n], frames)
      {
        var id := incoming[n].0;
        PrefixStep(items, frames, n);
        assert items[..n + 1][..n] == items[..n];
        replaced := replaced + if id in decoded then EntrySize(decoded[id].texts) else 0;
      }
      assert items[..|items|] == items;
    }

    method StoreAll(items: seq<Item>, frames: nat, incoming: seq<(nat, Entry)>)
      requires WellFormed(items, frames) && Copies(items, frames, incoming)
      modifies this`decoded
      ensures decoded == Merge(old(decoded), items, frames)
    {
      hide EntrySize, Texts, ValidFields;
      for n := 0 to |incoming|
        invariant WellFormed(items[..n], frames) && decoded == Merge(old(decoded), items[..n], frames)
      {
        PrefixStep(items, frames, n);
        assert items[..n + 1][..n] == items[..n];
        decoded := decoded[incoming[n].0 := incoming[n].1];
      }
      assert items[..|items|] == items;
    }
  }

  predicate FieldOk(item: Item, key: Key)
    requires key in item.values
  {
    item.values[key].Text? && |item.values[key].text| <= MAX_FIELD
  }

  lemma AllFieldsCopied(item: Item, copied: map<Key, string>)
    requires forall j :: 0 <= j < |KEYS| ==> KEYS[j] in item.values ==> FieldOk(item, KEYS[j]) && KEYS[j] in copied
    requires forall key :: key in copied ==> key in item.values && FieldOk(item, key) && copied[key] == item.values[key].text
    ensures ValidFields(item) && copied == Texts(item)
  {
    forall key | key in item.values ensures FieldOk(item, key) && key in copied {
      EveryKeyListed(key);
    }
  }

  /** What one more item adds to the checks on a batch. */
  lemma PrefixStep(items: seq<Item>, frames: nat, n: nat)
    requires n < |items| && WellFormed(items[..n], frames)
    ensures WellFormed(items[..n + 1], frames) <==>
            && items[n].id.Some? && 0 <= items[n].id.value < frames && ValidFields(items[n])
            && forall i :: 0 <= i < n ==> items[i].id != items[n].id
    ensures WellFormed(items[..n + 1], frames) ==>
              BatchSize(items[..n + 1], frames) == BatchSize(items[..n], frames) + EntrySize(Texts(items[n]))
    ensures WellFormed(items, frames) ==> WellFormed(items[..n + 1], frames)
  {
    hide EntrySize, Texts, ValidFields;
    var shorter, longer := items[..n], items[..n + 1];
    assert longer[..n] == shorter && longer[n] == items[n];
    assert forall i :: 0 <= i < n ==> longer[i] == shorter[i] == items[i];
  }
}
