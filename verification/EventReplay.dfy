/** Time travel over the event log: rebuilding both execution tables and the rollup
    state as they stood at a selected event. */
module EventReplay {
  import opened Prelude

  /** "ja", "ok", "jc" and "consumed". */
  datatype EntryStatus = JustAdded | Ok | JustConsumed | Consumed

  type Detail = map<string, string>

  datatype TableEntry = TableEntry(id: string, actionHash: string, status: EntryStatus, actionDetail: Detail)

  datatype Consume = Consume(actionHash: string, actionDetail: Detail)

  /** What one event does to one table. The status an added entry arrives with is ignored. */
  datatype Change = Change(adds: seq<TableEntry>, consumes: seq<Consume>)

  const HASH_CHARS: nat := 8

  function TruncateHex(hex: string): string {
    if |hex| <= HASH_CHARS + 4 then hex else hex[..HASH_CHARS + 2] + "..."
  }

  // ---------------------------------------------------------------------------
  // One event applied to one table
  // ---------------------------------------------------------------------------

  /** The position of the first entry with this (truncated) hash, or the table's length. */
  function FirstIndex(table: seq<TableEntry>, hash: string): (p: nat)
    ensures p <= |table|
    ensures p < |table| ==> table[p].actionHash == hash
    ensures forall q :: 0 <= q < p ==> table[q].actionHash != hash
  {
    if table == [] then 0
    else if table[0].actionHash == hash then 0
    else 1 + FirstIndex(table[1..], hash)
  }

  function AgeAdded(table: seq<TableEntry>): (r: seq<TableEntry>)
    ensures |r| == |table|
    ensures forall i :: 0 <= i < |r| ==>
      r[i] == if table[i].status == JustAdded then table[i].(status := Ok) else table[i]
  {
    seq(|table|, i requires 0 <= i < |table| =>
      if table[i].status == JustAdded then table[i].(status := Ok) else table[i])
  }

  function WithStatus(adds: seq<TableEntry>, status: EntryStatus): (r: seq<TableEntry>)
    ensures |r| == |adds| && forall i :: 0 <= i < |r| ==> r[i] == adds[i].(status := status)
  {
    seq(|adds|, i requires 0 <= i < |adds| => adds[i].(status := status))
  }

  function ConsumeOne(table: seq<TableEntry>, c: Consume, status: EntryStatus): (r: seq<TableEntry>)
    ensures |r| == |table|
  {
    var p := FirstIndex(table, TruncateHex(c.actionHash));
    if p == |table| then table
    else
      var detail := if c.actionDetail != map[] then c.actionDetail else table[p].actionDetail;
      table[p := table[p].(status := status, actionDetail := detail)]
  }

  function ConsumeAll(table: seq<TableEntry>, cs: seq<Consume>, status: EntryStatus): (r: seq<TableEntry>)
    ensures |r| == |table|
  {
    if cs == [] then table
    else ConsumeOne(ConsumeAll(table, cs[..|cs| - 1], status), cs[|cs| - 1], status)
  }

  function Apply(table: seq<TableEntry>, change: Change, isCurrent: bool): seq<TableEntry> {
    ConsumeAll(AgeAdded(table) + WithStatus(change.adds, if isCurrent then JustAdded else Ok),
               change.consumes, if isCurrent then JustConsumed else Consumed)
  }

  /** The table after the first n events, all of them in the past. */
  function Past(changes: seq<Change>, n: nat): seq<TableEntry>
    requires n <= |changes|
  {
    if n == 0 then [] else Apply(Past(changes, n - 1), changes[n - 1], false)
  }

  /** The table shown when event k is selected. */
  function TableAt(changes: seq<Change>, k: nat): seq<TableEntry>
    requires k < |changes|
  {
    Apply(Past(changes, k), changes[k], true)
  }

  // ---------------------------------------------------------------------------
  // The incremental view: settle what was shown, then apply the next event
  // ---------------------------------------------------------------------------

  function SettleStatus(s: EntryStatus): EntryStatus {
    match s
    case JustAdded => Ok
    case JustConsumed => Consumed
    case _ => s
  }

  function Settle(table: seq<TableEntry>): (r: seq<TableEntry>)
    ensures |r| == |table|
    ensures forall i :: 0 <= i < |r| ==> r[i] == table[i].(status := SettleStatus(table[i].status))
  {
    seq(|table|, i requires 0 <= i < |table| => table[i].(status := SettleStatus(table[i].status)))
  }

  ghost predicate Settled(table: seq<TableEntry>) {
    forall i :: 0 <= i < |table| ==> table[i].status.Ok? || table[i].status.Consumed?
  }

  lemma FirstIndexUnique(table: seq<TableEntry>, hash: string, p: nat)
    requires p <= |table| && (p < |table| ==> table[p].actionHash == hash)
    requires forall q :: 0 <= q < p ==> table[q].actionHash != hash
    ensures FirstIndex(table, hash) == p
  {
  }

  lemma ConsumeOneSettles(table: seq<TableEntry>, c: Consume)
    ensures Settle(ConsumeOne(table, c, JustConsumed)) == ConsumeOne(Settle(table), c, Consumed)
  {
  }

  lemma {:induction false} ConsumeAllSettles(table: seq<TableEntry>, cs: seq<Consume>)
    ensures Settle(ConsumeAll(table, cs, JustConsumed)) == ConsumeAll(Settle(table), cs, Consumed)
  {
    if cs != [] {
      ConsumeAllSettles(table, cs[..|cs| - 1]);
      ConsumeOneSettles(ConsumeAll(table, cs[..|cs| - 1], JustConsumed), cs[|cs| - 1]);
    }
  }

  /** Settling a table in which the event was current gives the table in which it is past. */
  lemma ApplySettles(table: seq<TableEntry>, change: Change)
    requires Settled(table)
    ensures Settle(Apply(table, change, true)) == Apply(table, change, false)
  {
    var shown := AgeAdded(table) + WithStatus(change.adds, JustAdded);
    ConsumeAllSettles(shown, change.consumes);
    assert Settle(shown) == AgeAdded(table) + WithStatus(change.adds, Ok);
  }

  lemma ConsumeOneSettled(table: seq<TableEntry>, c: Consume)
    requires Settled(table)
    ensures Settled(ConsumeOne(table, c, Consumed))
  {
  }

  lemma {:induction false} ConsumeAllSettled(table: seq<TableEntry>, cs: seq<Consume>)
    requires Settled(table)
    ensures Settled(ConsumeAll(table, cs, Consumed))
  {
    if cs != [] {
      ConsumeAllSettled(table, cs[..|cs| - 1]);
      ConsumeOneSettled(ConsumeAll(table, cs[..|cs| - 1], Consumed), cs[|cs| - 1]);
    }
  }

  lemma ApplyKeepsSettled(table: seq<TableEntry>, change: Change)
    requires Settled(table)
    ensures Settled(Apply(table, change, false))
  {
    var mid := AgeAdded(table) + WithStatus(change.adds, Ok);
    assert Settled(mid);
    ConsumeAllSettled(mid, change.consumes);
  }

  lemma {:induction false} PastIsSettled(changes: seq<Change>, n: nat)
    requires n <= |changes|
    ensures Settled(Past(changes, n))
  {
    if n > 0 {
      hide Apply, Settled;
      PastIsSettled(changes, n - 1);
      ApplyKeepsSettled(Past(changes, n - 1), changes[n - 1]);
    } else {
      assert Past(changes, 0) == [];
    }
  }

  /** Replaying from scratch to event k + 1 is settling the replay to event k and
      applying event k + 1 to it as the current event. */
  lemma ReplayIsIncremental(changes: seq<Change>, k: nat)
    requires k + 1 < |changes|
    ensures TableAt(changes, k + 1) == Apply(Settle(TableAt(changes, k)), changes[k + 1], true)
  {
    PastIsSettled(changes, k);
    ApplySettles(Past(changes, k), changes[k]);
  }

  // ---------------------------------------------------------------------------
  // What each status means in terms of the event log
  // ---------------------------------------------------------------------------

  /** All entries the first n events add, in order. */
  function AddedBefore(changes: seq<Change>, n: nat): seq<TableEntry>
    requires n <= |changes|
  {
    if n == 0 then [] else AddedBefore(changes, n - 1) + changes[n - 1].adds
  }

  /** Entry p of the table was added by event i. */
  ghost predicate AddedBy(changes: seq<Change>, p: nat, i: nat) {
    i < |changes| && |AddedBefore(changes, i)| <= p < |AddedBefore(changes, i + 1)|
  }

  ghost predicate Consumes(change: Change, hash: string) {
    exists j :: 0 <= j < |change.consumes| && TruncateHex(change.consumes[j].actionHash) == hash
  }

  /** p is the first entry of the table with its hash: the only one a consume can find. */
  ghost predicate IsFirst(table: seq<TableEntry>, p: nat)
    requires p < |table|
  {
    forall q :: 0 <= q < p ==> table[q].actionHash != table[p].actionHash
  }

  lemma FirstIsAboutPrefix(a: seq<TableEntry>, b: seq<TableEntry>, p: nat)
    requires p < |a| && p < |b| && forall q :: 0 <= q <= p ==> a[q].actionHash == b[q].actionHash
    ensures IsFirst(a, p) == IsFirst(b, p)
  {
  }

  ghost predicate SameEntries(a: seq<TableEntry>, b: seq<TableEntry>) {
    |a| == |b| && forall p :: 0 <= p < |a| ==> a[p].id == b[p].id && a[p].actionHash == b[p].actionHash
  }

  /** The status entry p of `table` has after the consumes: marked iff it is the first
      entry with its hash and some consume names that hash. */
  ghost function Marked(table: seq<TableEntry>, cs: seq<Consume>, status: EntryStatus, p: nat): EntryStatus
    requires p < |table|
  {
    if IsFirst(table, p) && Consumes(Change([], cs), table[p].actionHash) then status else table[p].status
  }

  /** One more consume: it names its own hash, and marks the first entry that has it. */
  lemma ConsumeOneMarks(table: seq<TableEntry>, mid: seq<TableEntry>, init: seq<Consume>, c: Consume, status: EntryStatus, p: nat)
    requires SameEntries(mid, table) && p < |table|
    requires mid[p].status == Marked(table, init, status, p)
    ensures ConsumeOne(mid, c, status)[p].status == Marked(table, init + [c], status, p)
  {
    hide TruncateHex;
    var hash, own := TruncateHex(c.actionHash), table[p].actionHash;
    var cs := init + [c];
    if IsFirst(table, p) && own == hash {
      FirstIndexUnique(mid, hash, p);
    }
    assert Consumes(Change([], cs), own) <==> Consumes(Change([], init), own) || own == hash by {
      assert forall j :: 0 <= j < |init| ==> init[j] == cs[j];
      if own == hash {
        assert TruncateHex(cs[|init|].actionHash) == own;
      }
    }
  }

  lemma ConsumeOneKeepsEntries(table: seq<TableEntry>, c: Consume, status: EntryStatus)
    ensures SameEntries(ConsumeOne(table, c, status), table)
  {
  }

  lemma {:induction false} ConsumeAllKeepsEntries(table: seq<TableEntry>, cs: seq<Consume>, status: EntryStatus)
    ensures SameEntries(ConsumeAll(table, cs, status), table)
  {
    if cs != [] {
      hide ConsumeOne;
      ConsumeAllKeepsEntries(table, cs[..|cs| - 1], status);
      ConsumeOneKeepsEntries(ConsumeAll(table, cs[..|cs| - 1], status), cs[|cs| - 1], status);
    }
  }

  /** A batch of consumes marks exactly the first entries whose hash it names. */
  lemma {:induction false} ConsumeAllMarks(table: seq<TableEntry>, cs: seq<Consume>, status: EntryStatus, p: nat)
    requires p < |table|
    ensures ConsumeAll(table, cs, status)[p].status == Marked(table, cs, status, p)
  {
    hide SameEntries;
    if cs != [] {
      hide ConsumeOne, Marked;
      var init, c := cs[..|cs| - 1], cs[|cs| - 1];
      ConsumeAllMarks(table, init, status, p);
      ConsumeAllKeepsEntries(table, init, status);
      assert init + [c] == cs;
      ConsumeOneMarks(table, ConsumeAll(table, init, status), init, c, status, p);
    }
  }

  /** Some event from the one that added entry p up to (not including) event n names its hash. */
  ghost predicate ConsumedWithin(changes: seq<Change>, p: nat, hash: string, n: nat)
    requires n <= |changes|
  {
    exists i :: 0 <= i < n && p < |AddedBefore(changes, i + 1)| && Consumes(changes[i], hash)
  }

  lemma ConsumedWithinGrows(changes: seq<Change>, p: nat, hash: string, n: nat)
    requires n < |changes|
    ensures ConsumedWithin(changes, p, hash, n + 1) <==>
            ConsumedWithin(changes, p, hash, n) || (p < |AddedBefore(changes, n + 1)| && Consumes(changes[n], hash))
  {
  }

  lemma {:induction false} AddedBeforeGrows(changes: seq<Change>, m: nat, n: nat)
    requires m <= n <= |changes|
    ensures AddedBefore(changes, m) <= AddedBefore(changes, n)
  {
    if m < n {
      AddedBeforeGrows(changes, m, n - 1);
    }
  }

  /** Nothing can be consumed before it was added. */
  lemma NotYetConsumed(changes: seq<Change>, p: nat, hash: string, n: nat)
    requires n <= |changes| && |AddedBefore(changes, n)| <= p
    ensures !ConsumedWithin(changes, p, hash, n)
  {
  }

  ghost predicate PastMeaning(changes: seq<Change>, n: nat, table: seq<TableEntry>)
    requires n <= |changes|
  {
    && SameEntries(table, AddedBefore(changes, n))
    && forall p :: 0 <= p < |table| ==>
         table[p].status == if IsFirst(table, p) && ConsumedWithin(changes, p, table[p].actionHash, n)
                            then Consumed else Ok
  }

  lemma {:induction false} PastStatuses(changes: seq<Change>, n: nat)
    requires n <= |changes|
    ensures PastMeaning(changes, n, Past(changes, n))
  {
    if n > 0 {
      PastStatuses(changes, n - 1);
      var before, change := Past(changes, n - 1), changes[n - 1];
      var mid := AgeAdded(before) + WithStatus(change.adds, Ok);
      var r := Past(changes, n);
      ConsumeAllKeepsEntries(mid, change.consumes, Consumed);
      assert SameEntries(r, AddedBefore(changes, n));
      forall p | 0 <= p < |r|
        ensures r[p].status == if IsFirst(r, p) && ConsumedWithin(changes, p, r[p].actionHash, n) then Consumed else Ok
      {
        ConsumeAllMarks(mid, change.consumes, Consumed, p);
        PastStep(changes, n, before, mid, r, p);
      }
    }
  }

  /** One entry through one past event. */
  lemma PastStep(changes: seq<Change>, n: nat, before: seq<TableEntry>, mid: seq<TableEntry>, r: seq<TableEntry>, p: nat)
    requires 0 < n <= |changes| && PastMeaning(changes, n - 1, before)
    requires mid == AgeAdded(before) + WithStatus(changes[n - 1].adds, Ok)
    requires SameEntries(r, mid) && p < |r|
    requires r[p].status == Marked(mid, changes[n - 1].consumes, Consumed, p)
    ensures r[p].status == if IsFirst(r, p) && ConsumedWithin(changes, p, r[p].actionHash, n) then Consumed else Ok
  {
    hide ConsumedWithin, TruncateHex;
    var hash := r[p].actionHash;
    assert IsFirst(r, p) == IsFirst(mid, p);
    assert Consumes(Change([], changes[n - 1].consumes), hash) == Consumes(changes[n - 1], hash);
    assert |mid| == |AddedBefore(changes, n)|;
    ConsumedWithinGrows(changes, p, hash, n - 1);
    if p < |before| {
      FirstIsAboutPrefix(mid, before, p);
    } else {
      NotYetConsumed(changes, p, hash, n - 1);
    }
  }

  /** At event k an entry shows as consumed exactly when it is the first with its hash
      and some event from the one that added it through k consumes that hash; "just
      consumed" when k itself does, "just added" when k added it and did not consume it. */
  lemma StatusesAt(changes: seq<Change>, k: nat, p: nat)
    requires k < |changes| && p < |TableAt(changes, k)|
    ensures var table := TableAt(changes, k);
            var hash := table[p].actionHash;
            var hit := IsFirst(table, p) && Consumes(changes[k], hash);
            && SameEntries(table, AddedBefore(changes, k + 1))
            && (table[p].status in {JustConsumed, Consumed} <==>
                  IsFirst(table, p) && ConsumedWithin(changes, p, hash, k + 1))
            && (table[p].status.JustConsumed? <==> hit)
            && (table[p].status.JustAdded? <==> AddedBy(changes, p, k) && !hit)
  {
    hide TruncateHex, ConsumedWithin, ConsumeAll, Past;
    PastStatuses(changes, k);
    var before, change := Past(changes, k), changes[k];
    var mid := AgeAdded(before) + WithStatus(change.adds, JustAdded);
    var r := TableAt(changes, k);
    ConsumeAllKeepsEntries(mid, change.consumes, JustConsumed);
    ConsumeAllMarks(mid, change.consumes, JustConsumed, p);
    assert SameEntries(mid, AddedBefore(changes, k + 1));
    CurrentStep(changes, k, before, mid, r, p);
  }

  lemma CurrentStep(changes: seq<Change>, k: nat, before: seq<TableEntry>, mid: seq<TableEntry>, r: seq<TableEntry>, p: nat)
    requires k < |changes| && PastMeaning(changes, k, before)
    requires mid == AgeAdded(before) + WithStatus(changes[k].adds, JustAdded)
    requires SameEntries(r, mid) && p < |r|
    requires r[p].status == Marked(mid, changes[k].consumes, JustConsumed, p)
    ensures var hit := IsFirst(r, p) && Consumes(changes[k], r[p].actionHash);
            && (r[p].status in {JustConsumed, Consumed} <==>
                  IsFirst(r, p) && ConsumedWithin(changes, p, r[p].actionHash, k + 1))
            && (r[p].status.JustConsumed? <==> hit)
            && (r[p].status.JustAdded? <==> AddedBy(changes, p, k) && !hit)
  {
    hide ConsumedWithin, TruncateHex;
    var hash := r[p].actionHash;
    assert IsFirst(r, p) == IsFirst(mid, p);
    assert Consumes(Change([], changes[k].consumes), hash) == Consumes(changes[k], hash);
    assert |mid| == |AddedBefore(changes, k + 1)|;
    ConsumedWithinGrows(changes, p, hash, k);
    if p < |before| {
      FirstIsAboutPrefix(mid, before, p);
    } else {
      NotYetConsumed(changes, p, hash, k);
    }
  }

  /** Moving the selection forward only appends entries and never un-consumes one. */
  lemma ReplayIsMonotone(changes: seq<Change>, j: nat, k: nat, p: nat)
    requires j <= k < |changes| && p < |TableAt(changes, j)|
    ensures p < |TableAt(changes, k)|
    ensures TableAt(changes, k)[p].id == TableAt(changes, j)[p].id
    ensures TableAt(changes, k)[p].actionHash == TableAt(changes, j)[p].actionHash
    ensures TableAt(changes, j)[p].status in {JustConsumed, Consumed}
            ==> TableAt(changes, k)[p].status in {JustConsumed, Consumed}
    ensures j < k && TableAt(changes, j)[p].status in {JustConsumed, Consumed} && !Consumes(changes[k], TableAt(changes, j)[p].actionHash)
            ==> TableAt(changes, k)[p].status == Consumed
  {
    hide TableAt;
    StatusesAt(changes, j, p);
    AddedBeforeGrows(changes, j + 1, k + 1);
    LengthAt(changes, k);
    StatusesAt(changes, k, p);
    var a, b, hash := TableAt(changes, j), TableAt(changes, k), TableAt(changes, j)[p].actionHash;
    FirstIsAboutPrefix(a, b, p);
    if ConsumedWithin(changes, p, hash, j + 1) {
      var i :| 0 <= i < j + 1 && p < |AddedBefore(changes, i + 1)| && Consumes(changes[i], hash);
      assert 0 <= i < k + 1;
    }
  }

  lemma LengthAt(changes: seq<Change>, k: nat)
    requires k < |changes|
    ensures |TableAt(changes, k)| == |AddedBefore(changes, k + 1)|
  {
    PastStatuses(changes, k);
  }

  // ---------------------------------------------------------------------------
  // Events, and the detail cache that processing them reads and fills
  // ---------------------------------------------------------------------------

  datatype Side = L1 | L2

  /** An entry an event adds; its shown hash is truncated. */
  datatype AddedEntry = AddedEntry(id: string, fullHash: string)

  datatype ContractEvent = ContractEvent(l1Adds: seq<AddedEntry>, l2Adds: seq<AddedEntry>,
                         l1Consumes: seq<Consume>, l2Consumes: seq<Consume>,
                         updates: seq<(string, string)>)
  {
    function Adds(side: Side): seq<AddedEntry> {
      if side.L1? then l1Adds else l2Adds
    }

    function ConsumesOn(side: Side): seq<Consume> {
      if side.L1? then l1Consumes else l2Consumes
    }
  }

  /** Details of consumed actions by lower-case hash, shared by every replay of the page. */
  type Cache = map<string, Detail>

  function MakeEntry(cache: Cache, a: AddedEntry): TableEntry {
    var key := Lower(a.fullHash);
    TableEntry(a.id, TruncateHex(a.fullHash), JustAdded,
               if key in cache then cache[key] else map["actionHash" := a.fullHash])
  }

  function MakeEntries(cache: Cache, adds: seq<AddedEntry>): (r: seq<TableEntry>)
    ensures |r| == |adds| && forall i :: 0 <= i < |r| ==> r[i] == MakeEntry(cache, adds[i])
  {
    seq(|adds|, i requires 0 <= i < |adds| => MakeEntry(cache, adds[i]))
  }

  function Remember(cache: Cache, cs: seq<Consume>): Cache {
    if cs == [] then cache
    else
      var before, c := Remember(cache, cs[..|cs| - 1]), cs[|cs| - 1];
      if c.actionDetail != map[] then before[Lower(c.actionHash) := c.actionDetail] else before
  }

  function CacheAt(events: seq<ContractEvent>, cache: Cache, n: nat): Cache
    requires n <= |events|
  {
    if n == 0 then cache
    else Remember(Remember(CacheAt(events, cache, n - 1), events[n - 1].l1Consumes), events[n - 1].l2Consumes)
  }

  /** What the events do to one table when replayed from this cache. */
  function ChangesOf(events: seq<ContractEvent>, cache: Cache, side: Side): (r: seq<Change>)
    ensures |r| == |events|
    ensures forall i :: 0 <= i < |r| ==>
      r[i] == Change(MakeEntries(CacheAt(events, cache, i), events[i].Adds(side)), events[i].ConsumesOn(side))
  {
    seq(|events|, i requires 0 <= i < |events| =>
      Change(MakeEntries(CacheAt(events, cache, i), events[i].Adds(side)), events[i].ConsumesOn(side)))
  }

  function Assign(state: map<string, string>, updates: seq<(string, string)>): map<string, string> {
    if updates == [] then state
    else Assign(state, updates[..|updates| - 1])[updates[|updates| - 1].0 := updates[|updates| - 1].1]
  }

  function StateAfter(events: seq<ContractEvent>, n: nat): map<string, string>
    requires n <= |events|
  {
    if n == 0 then map[] else Assign(StateAfter(events, n - 1), events[n - 1].updates)
  }

  // ---------------------------------------------------------------------------
  // What a table shows, in terms of the events' own lists
  // ---------------------------------------------------------------------------

  /** Two full hashes of 32 bytes are shown alike iff they agree in their first eight digits. */
  lemma ShownAlike(a: string, b: string)
    requires |a| == |b| == 66
    ensures TruncateHex(a) == TruncateHex(b) <==> a[..10] == b[..10]
    ensures TruncateHex(a) == a[..10] + "..."
  {
    assert TruncateHex(a)[..10] == a[..10] && TruncateHex(b)[..10] == b[..10];
  }

  /** What the first n events add, in order. */
  function AllAdded(adds: seq<seq<AddedEntry>>, n: nat): seq<AddedEntry>
    requires n <= |adds|
  {
    if n == 0 then [] else AllAdded(adds, n - 1) + adds[n - 1]
  }

  ghost predicate Names(cs: seq<Consume>, hash: string) {
    exists j :: 0 <= j < |cs| && TruncateHex(cs[j].actionHash) == hash
  }

  /** No entry before p has its hash: only such an entry can be consumed. */
  ghost predicate FirstWithHash(all: seq<AddedEntry>, p: nat)
    requires p < |all|
  {
    forall q :: 0 <= q < p ==> TruncateHex(all[q].fullHash) != TruncateHex(all[p].fullHash)
  }

  /** An event from the one that added entry p up to event k names its hash. */
  ghost predicate NamedSince(adds: seq<seq<AddedEntry>>, consumes: seq<seq<Consume>>, hash: string, k: nat, p: nat)
    requires k < |adds| == |consumes|
  {
    exists i :: 0 <= i <= k && p < |AllAdded(adds, i + 1)| && Names(consumes[i], hash)
  }

  /** Entry p at event k of a table whose events add `adds` and consume `consumes`. */
  ghost predicate EntryShown(entry: TableEntry, adds: seq<seq<AddedEntry>>, consumes: seq<seq<Consume>>, k: nat, p: nat)
    requires k < |adds| == |consumes| && p < |AllAdded(adds, k + 1)|
  {
    var all := AllAdded(adds, k + 1);
    var hash, hit := TruncateHex(all[p].fullHash), FirstWithHash(all, p) && Names(consumes[k], TruncateHex(all[p].fullHash));
    && entry.id == all[p].id && entry.actionHash == hash
    && (entry.status.JustConsumed? || entry.status.Consumed? <==> FirstWithHash(all, p) && NamedSince(adds, consumes, hash, k, p))
    && (entry.status.JustConsumed? <==> hit)
    && (entry.status.JustAdded? <==> |AllAdded(adds, k)| <= p && !hit)
  }

  ghost predicate TableShown(table: seq<TableEntry>, adds: seq<seq<AddedEntry>>, consumes: seq<seq<Consume>>, k: nat)
    requires k < |adds| == |consumes|
  {
    && |table| == |AllAdded(adds, k + 1)|
    && forall p :: 0 <= p < |table| ==> EntryShown(table[p], adds, consumes, k, p)
  }

  /** Entries as they are added, whatever their details. */
  ghost predicate AddsEntries(entries: seq<TableEntry>, added: seq<AddedEntry>) {
    |entries| == |added|
    && forall p :: 0 <= p < |entries| ==> entries[p].id == added[p].id && entries[p].actionHash == TruncateHex(added[p].fullHash)
  }

  ghost predicate ChangesMatch(changes: seq<Change>, adds: seq<seq<AddedEntry>>, consumes: seq<seq<Consume>>) {
    && |changes| == |adds| == |consumes|
    && forall i :: 0 <= i < |changes| ==> AddsEntries(changes[i].adds, adds[i]) && changes[i].consumes == consumes[i]
  }

  lemma {:induction false} AddedMatches(changes: seq<Change>, adds: seq<seq<AddedEntry>>, consumes: seq<seq<Consume>>, n: nat)
    requires ChangesMatch(changes, adds, consumes) && n <= |changes|
    ensures AddsEntries(AddedBefore(changes, n), AllAdded(adds, n))
  {
    if n > 0 {
      hide TruncateHex;
      AddedMatches(changes, adds, consumes, n - 1);
    }
  }

  lemma NamedIffConsumed(changes: seq<Change>, adds: seq<seq<AddedEntry>>, consumes: seq<seq<Consume>>, hash: string, k: nat, p: nat)
    requires ChangesMatch(changes, adds, consumes) && k < |changes|
    ensures NamedSince(adds, consumes, hash, k, p) <==> ConsumedWithin(changes, p, hash, k + 1)
    ensures Names(consumes[k], hash) <==> Consumes(changes[k], hash)
  {
    hide TruncateHex, AddsEntries, AddedBefore, AllAdded;
    forall i | 0 <= i <= k + 1 ensures |AddedBefore(changes, i)| == |AllAdded(adds, i)| {
      AddedCount(changes, adds, consumes, i);
    }
  }

  lemma AddedCount(changes: seq<Change>, adds: seq<seq<AddedEntry>>, consumes: seq<seq<Consume>>, n: nat)
    requires ChangesMatch(changes, adds, consumes) && n <= |changes|
    ensures |AddedBefore(changes, n)| == |AllAdded(adds, n)|
  {
    AddedMatches(changes, adds, consumes, n);
  }

  lemma TableMatches(changes: seq<Change>, adds: seq<seq<AddedEntry>>, consumes: seq<seq<Consume>>, k: nat)
    requires ChangesMatch(changes, adds, consumes) && k < |changes|
    ensures TableShown(TableAt(changes, k), adds, consumes, k)
  {
    hide TruncateHex, TableAt, ConsumedWithin, Consumes, NamedSince, Names, AddsEntries, EntryShown;
    var table, all := TableAt(changes, k), AllAdded(adds, k + 1);
    LengthAt(changes, k);
    AddedCount(changes, adds, consumes, k + 1);
    forall p | 0 <= p < |table| ensures EntryShown(table[p], adds, consumes, k, p) {
      EntryMatches(changes, adds, consumes, k, p);
    }
  }

  lemma EntryMatches(changes: seq<Change>, adds: seq<seq<AddedEntry>>, consumes: seq<seq<Consume>>, k: nat, p: nat)
    requires ChangesMatch(changes, adds, consumes) && k < |changes|
    requires p < |TableAt(changes, k)| && p < |AllAdded(adds, k + 1)|
    ensures EntryShown(TableAt(changes, k)[p], adds, consumes, k, p)
  {
    hide TruncateHex, TableAt, ConsumedWithin, Consumes, NamedSince, Names, ChangesMatch, AddedBefore, AllAdded;
    StatusesAt(changes, k, p);
    AddedMatches(changes, adds, consumes, k + 1);
    AddedCount(changes, adds, consumes, k);
    NamedIffConsumed(changes, adds, consumes, TableAt(changes, k)[p].actionHash, k, p);
  }

  lemma ChangesMatchEvents(events: seq<ContractEvent>, cache: Cache, side: Side, adds: seq<seq<AddedEntry>>, consumes: seq<seq<Consume>>)
    requires |events| == |adds| == |consumes|
    requires forall i :: 0 <= i < |events| ==> adds[i] == events[i].Adds(side) && consumes[i] == events[i].ConsumesOn(side)
    ensures ChangesMatch(ChangesOf(events, cache, side), adds, consumes)
  {
    hide CacheAt, TruncateHex;
  }

  /** Each table shows what the events' lists for its own chain say, whatever was remembered. */
  lemma TablesShowTheirOwnLists(events: seq<ContractEvent>, cache: Cache, k: nat)
    requires k < |events|
    ensures TableShown(TableAt(ChangesOf(events, cache, Side.L1), k),
                       seq(|events|, i requires 0 <= i < |events| => events[i].l1Adds),
                       seq(|events|, i requires 0 <= i < |events| => events[i].l1Consumes), k)
    ensures TableShown(TableAt(ChangesOf(events, cache, Side.L2), k),
                       seq(|events|, i requires 0 <= i < |events| => events[i].l2Adds),
                       seq(|events|, i requires 0 <= i < |events| => events[i].l2Consumes), k)
  {
    hide TableAt, ChangesOf, TableShown, ChangesMatch;
    var adds1, consumes1 := seq(|events|, i requires 0 <= i < |events| => events[i].l1Adds),
                            seq(|events|, i requires 0 <= i < |events| => events[i].l1Consumes);
    var adds2, consumes2 := seq(|events|, i requires 0 <= i < |events| => events[i].l2Adds),
                            seq(|events|, i requires 0 <= i < |events| => events[i].l2Consumes);
    ChangesMatchEvents(events, cache, Side.L1, adds1, consumes1);
    TableMatches(ChangesOf(events, cache, Side.L1), adds1, consumes1, k);
    ChangesMatchEvents(events, cache, Side.L2, adds2, consumes2);
    TableMatches(ChangesOf(events, cache, Side.L2), adds2, consumes2, k);
  }

  // ---------------------------------------------------------------------------
  // The replay loop
  // ---------------------------------------------------------------------------

  class Replayer {
    var actionDetailCache: Cache

    constructor ()
      ensures actionDetailCache == map[]
    {
      actionDetailCache := map[];
    }

    static method AgeInPlace(table: seq<TableEntry>) returns (r: seq<TableEntry>)
      ensures r == AgeAdded(table)
    {
      r := table;
      for i := 0 to |table|
        invariant |r| == |table|
        invariant forall j :: 0 <= j < |r| ==> r[j] == if j < i then AgeAdded(table)[j] else table[j]
      {
        if r[i].status == JustAdded {
          r := r[i := r[i].(status := Ok)];
        }
      }
    }

    static method PushAll(table: seq<TableEntry>, adds: seq<TableEntry>, status: EntryStatus) returns (r: seq<TableEntry>)
      ensures r == table + WithStatus(adds, status)
    {
      r := table;
      for i := 0 to |adds|
        invariant r == table + WithStatus(adds, status)[..i]
      {
        r := r + [adds[i].(status := status)];
      }
    }

    /** find: the first entry with the hash, if any. */
    static method Find(table: seq<TableEntry>, hash: string) returns (p: nat)
      ensures p == FirstIndex(table, hash)
    {
      p := 0;
      while p < |table| && table[p].actionHash != hash
        invariant p <= |table|
        invariant forall q :: 0 <= q < p ==> table[q].actionHash != hash
      {
        p := p + 1;
      }
      FirstIndexUnique(table, hash, p);
    }

    static method MarkConsumed(table: seq<TableEntry>, cs: seq<Consume>, status: EntryStatus) returns (r: seq<TableEntry>)
      ensures r == ConsumeAll(table, cs, status)
    {
      r := table;
      for i := 0 to |cs|
        invariant r == ConsumeAll(table, cs[..i], status)
      {
        assert cs[..i + 1][..i] == cs[..i];
        var p := Find(r, TruncateHex(cs[i].actionHash));
        if p < |r| {
          var entry := r[p].(status := status);
          if cs[i].actionDetail != map[] {
            entry := entry.(actionDetail := cs[i].actionDetail);
          }
          r := r[p := entry];
        }
      }
      assert cs[..|cs|] == cs;
    }

    method RememberDetails(cs: seq<Consume>)
      modifies this
      ensures actionDetailCache == Remember(old(actionDetailCache), cs)
    {
      for i := 0 to |cs|
        invariant actionDetailCache == Remember(old(actionDetailCache), cs[..i])
      {
        assert cs[..i + 1][..i] == cs[..i];
        if cs[i].actionDetail != map[] {
          actionDetailCache := actionDetailCache[Lower(cs[i].actionHash) := cs[i].actionDetail];
        }
      }
      assert cs[..|cs|] == cs;
    }

    static method AssignAll(state: map<string, string>, updates: seq<(string, string)>) returns (r: map<string, string>)
      ensures r == Assign(state, updates)
    {
      r := state;
      for i := 0 to |updates|
        invariant r == Assign(state, updates[..i])
      {
        assert updates[..i + 1][..i] == updates[..i];
        r := r[updates[i].0 := updates[i].1];
      }
      assert updates[..|updates|] == updates;
    }

    /** Rebuilds both tables and the rollup state at the selected event. Each table shows
        exactly what the events' lists for its own chain say. */
    method Replay(events: seq<ContractEvent>, selected: nat)
      returns (l1: seq<TableEntry>, l2: seq<TableEntry>, state: map<string, string>)
      requires selected < |events|
      modifies this
      ensures l1 == TableAt(ChangesOf(events, old(actionDetailCache), Side.L1), selected)
      ensures l2 == TableAt(ChangesOf(events, old(actionDetailCache), Side.L2), selected)
      ensures TableShown(l1, seq(|events|, i requires 0 <= i < |events| => events[i].l1Adds),
                         seq(|events|, i requires 0 <= i < |events| => events[i].l1Consumes), selected)
      ensures TableShown(l2, seq(|events|, i requires 0 <= i < |events| => events[i].l2Adds),
                         seq(|events|, i requires 0 <= i < |events| => events[i].l2Consumes), selected)
      ensures state == StateAfter(events, selected + 1)
      ensures actionDetailCache == CacheAt(events, old(actionDetailCache), selected + 1)
    {
      hide TableShown;
      l1, l2, state := [], [], map[];
      ghost var c1, c2 := ChangesOf(events, actionDetailCache, Side.L1), ChangesOf(events, actionDetailCache, Side.L2);
      for i := 0 to selected + 1
        invariant actionDetailCache == CacheAt(events, old(actionDetailCache), i)
        invariant i <= selected ==> l1 == Past(c1, i) && l2 == Past(c2, i)
        invariant i == selected + 1 ==> l1 == TableAt(c1, selected) && l2 == TableAt(c2, selected)
        invariant state == StateAfter(events, i)
      {
        var event, isCurrent := events[i], i == selected;
        var adds1, adds2 := MakeEntries(actionDetailCache, event.l1Adds), MakeEntries(actionDetailCache, event.l2Adds);
        RememberDetails(event.l1Consumes);
        RememberDetails(event.l2Consumes);
        l1 := AgeInPlace(l1);
        l2 := AgeInPlace(l2);
        l1 := PushAll(l1, adds1, if isCurrent then JustAdded else Ok);
        l2 := PushAll(l2, adds2, if isCurrent then JustAdded else Ok);
        l1 := MarkConsumed(l1, event.l1Consumes, if isCurrent then JustConsumed else Consumed);
        l2 := MarkConsumed(l2, event.l2Consumes, if isCurrent then JustConsumed else Consumed);
        state := AssignAll(state, event.updates);
      }
      TablesShowTheirOwnLists(events, old(actionDetailCache), selected);
    }
  }

  // ---------------------------------------------------------------------------
  // Rollup state: last write wins
  // ---------------------------------------------------------------------------

  function UpdatesBefore(events: seq<ContractEvent>, n: nat): seq<(string, string)>
    requires n <= |events|
  {
    if n == 0 then [] else UpdatesBefore(events, n - 1) + events[n - 1].updates
  }

  ghost predicate LastWrite(updates: seq<(string, string)>, key: string, value: string) {
    exists i :: 0 <= i < |updates| && updates[i] == (key, value) && forall j :: i < j < |updates| ==> updates[j].0 != key
  }

  lemma {:induction false} AssignConcat(state: map<string, string>, a: seq<(string, string)>, b: seq<(string, string)>)
    ensures Assign(state, a + b) == Assign(Assign(state, a), b)
  {
    if b == [] {
      assert a + b == a;
    } else {
      AssignConcat(state, a, b[..|b| - 1]);
      assert (a + b)[..|a + b| - 1] == a + b[..|b| - 1];
    }
  }

  lemma {:induction false} StateIsOneAssignment(events: seq<ContractEvent>, n: nat)
    requires n <= |events|
    ensures StateAfter(events, n) == Assign(map[], UpdatesBefore(events, n))
  {
    if n > 0 {
      StateIsOneAssignment(events, n - 1);
      AssignConcat(map[], UpdatesBefore(events, n - 1), events[n - 1].updates);
    }
  }

  lemma LastWriteOfNew(init: seq<(string, string)>, last: (string, string))
    ensures LastWrite(init + [last], last.0, last.1)
  {
    assert (init + [last])[|init|] == last;
  }

  lemma LastWriteSurvives(init: seq<(string, string)>, last: (string, string), key: string, value: string)
    requires LastWrite(init, key, value) && last.0 != key
    ensures LastWrite(init + [last], key, value)
  {
    var updates := init + [last];
    var i :| 0 <= i < |init| && init[i] == (key, value) && forall j :: i < j < |init| ==> init[j].0 != key;
    assert updates[i] == (key, value);
  }

  ghost predicate Writes(updates: seq<(string, string)>, key: string) {
    exists i :: 0 <= i < |updates| && updates[i].0 == key
  }

  lemma WritesAppend(init: seq<(string, string)>, last: (string, string), key: string)
    ensures Writes(init + [last], key) <==> Writes(init, key) || last.0 == key
  {
    if Writes(init, key) {
      var i :| 0 <= i < |init| && init[i].0 == key;
      assert (init + [last])[i].0 == key;
    }
    assert (init + [last])[|init|] == last;
  }

  lemma {:induction false} AssignKeepsLastWrite(updates: seq<(string, string)>, key: string)
    ensures key in Assign(map[], updates) <==> Writes(updates, key)
    ensures key in Assign(map[], updates) ==> LastWrite(updates, key, Assign(map[], updates)[key])
  {
    if updates != [] {
      hide Writes, LastWrite;
      var init, last := updates[..|updates| - 1], updates[|updates| - 1];
      AssignKeepsLastWrite(init, key);
      assert updates == init + [last];
      WritesAppend(init, last, key);
      LastWriteOfNew(init, last);
      if last.0 != key && key in Assign(map[], init) {
        LastWriteSurvives(init, last, key, Assign(map[], init)[key]);
      }
    }
  }

  /** The replayed state holds exactly the keys written so far, each with its last value. */
  lemma StateIsLastWrite(events: seq<ContractEvent>, n: nat, key: string)
    requires n <= |events|
    ensures key in StateAfter(events, n) <==> Writes(UpdatesBefore(events, n), key)
    ensures key in StateAfter(events, n) ==> LastWrite(UpdatesBefore(events, n), key, StateAfter(events, n)[key])
  {
    StateIsOneAssignment(events, n);
    AssignKeepsLastWrite(UpdatesBefore(events, n), key);
  }
}
