/** What the details remembered from earlier processing can and cannot change in a replay. */
module ReplayDetails {
  import opened Prelude
  import opened EventReplay

  // ---------------------------------------------------------------------------
  // What the shared detail cache can and cannot change
  // ---------------------------------------------------------------------------

  lemma MakeEntriesSame(c: Cache, d: Cache, adds: seq<AddedEntry>)
    ensures SameEntries(MakeEntries(c, adds), MakeEntries(d, adds))
  {
  }

  lemma SameEntriesAppend(a: seq<TableEntry>, b: seq<TableEntry>, x: seq<TableEntry>, y: seq<TableEntry>)
    requires SameEntries(a, b) && SameEntries(x, y)
    ensures SameEntries(a + x, b + y)
  {
  }

  lemma {:induction false} AddedSame(cc: seq<Change>, dd: seq<Change>, n: nat)
    requires n <= |cc| == |dd| && forall i :: 0 <= i < n ==> SameEntries(cc[i].adds, dd[i].adds)
    ensures SameEntries(AddedBefore(cc, n), AddedBefore(dd, n))
  {
    if n > 0 {
      hide SameEntries;
      AddedSame(cc, dd, n - 1);
      SameEntriesAppend(AddedBefore(cc, n - 1), AddedBefore(dd, n - 1), cc[n - 1].adds, dd[n - 1].adds);
    }
  }

  /** Two change lists that add the same entries and consume the same hashes. */
  ghost predicate SameChanges(cc: seq<Change>, dd: seq<Change>) {
    && |cc| == |dd|
    && (forall i :: 0 <= i < |cc| ==> cc[i].consumes == dd[i].consumes)
    && forall n :: 0 <= n <= |cc| ==> SameEntries(AddedBefore(cc, n), AddedBefore(dd, n))
  }

  lemma ConsumedWithinSame(cc: seq<Change>, dd: seq<Change>, p: nat, hash: string, n: nat)
    requires SameChanges(cc, dd) && n <= |cc|
    requires ConsumedWithin(cc, p, hash, n)
    ensures ConsumedWithin(dd, p, hash, n)
  {
  }

  lemma SameChangesSymmetric(cc: seq<Change>, dd: seq<Change>)
    requires SameChanges(cc, dd)
    ensures SameChanges(dd, cc)
  {
  }

  /** Statuses are a function of which entries were added and which hashes were consumed. */
  lemma StatusesDetermined(cc: seq<Change>, dd: seq<Change>, k: nat, p: nat)
    requires SameChanges(cc, dd) && k < |cc| && p < |TableAt(cc, k)|
    ensures SameEntries(TableAt(cc, k), TableAt(dd, k))
    ensures TableAt(cc, k)[p].status == TableAt(dd, k)[p].status
  {
    hide TableAt, TruncateHex, ConsumedWithin;
    var a, b, hash := TableAt(cc, k), TableAt(dd, k), TableAt(cc, k)[p].actionHash;
    assert SameEntries(AddedBefore(cc, k + 1), AddedBefore(dd, k + 1));
    assert SameEntries(AddedBefore(cc, k), AddedBefore(dd, k));
    LengthAt(cc, k);
    LengthAt(dd, k);
    StatusesAt(cc, k, p);
    StatusesAt(dd, k, p);
    FirstIsAboutPrefix(a, b, p);
    SameChangesSymmetric(cc, dd);
    assert Consumes(cc[k], hash) == Consumes(dd[k], hash);
    if ConsumedWithin(cc, p, hash, k + 1) { ConsumedWithinSame(cc, dd, p, hash, k + 1); }
    if ConsumedWithin(dd, p, hash, k + 1) { ConsumedWithinSame(dd, cc, p, hash, k + 1); }
  }

  /** Whatever was processed before, a replay shows the same entries with the same statuses. */
  lemma CacheNeverChangesStatuses(events: seq<ContractEvent>, c: Cache, d: Cache, side: Side, k: nat, p: nat)
    requires k < |events| && p < |TableAt(ChangesOf(events, c, side), k)|
    ensures var a, b := TableAt(ChangesOf(events, c, side), k), TableAt(ChangesOf(events, d, side), k);
            SameEntries(a, b) && a[p].status == b[p].status
  {
    hide TableAt;
    ChangesAgree(events, c, d, side);
    StatusesDetermined(ChangesOf(events, c, side), ChangesOf(events, d, side), k, p);
  }

  // ---------------------------------------------------------------------------
  // Where a shown detail comes from
  // ---------------------------------------------------------------------------

  /** The last non-empty detail that a consume of this (truncated) hash brings. */
  function LastDetail(cs: seq<Consume>, hash: string): Option<Detail> {
    if cs == [] then None
    else
      var c := cs[|cs| - 1];
      if TruncateHex(c.actionHash) == hash && c.actionDetail != map[] then Some(c.actionDetail)
      else LastDetail(cs[..|cs| - 1], hash)
  }

  function OrElse(o: Option<Detail>, d: Detail): Detail {
    if o.Some? then o.value else d
  }

  function OnlyIf(b: bool, o: Option<Detail>): Option<Detail> {
    if b then o else None
  }

  lemma ConsumeOneDetail(table: seq<TableEntry>, mid: seq<TableEntry>, c: Consume, status: EntryStatus, p: nat)
    requires SameEntries(mid, table) && p < |table|
    ensures ConsumeOne(mid, c, status)[p].actionDetail
            == if IsFirst(table, p) && TruncateHex(c.actionHash) == table[p].actionHash && c.actionDetail != map[]
               then c.actionDetail else mid[p].actionDetail
  {
    hide TruncateHex;
    if IsFirst(table, p) && TruncateHex(c.actionHash) == table[p].actionHash {
      FirstIndexUnique(mid, TruncateHex(c.actionHash), p);
    }
  }

  lemma {:induction false} ConsumeAllDetail(table: seq<TableEntry>, cs: seq<Consume>, status: EntryStatus, p: nat)
    requires p < |table|
    ensures ConsumeAll(table, cs, status)[p].actionDetail
            == OrElse(OnlyIf(IsFirst(table, p), LastDetail(cs, table[p].actionHash)), table[p].actionDetail)
  {
    if cs != [] {
      hide ConsumeOne, TruncateHex, SameEntries, IsFirst;
      var init, c := cs[..|cs| - 1], cs[|cs| - 1];
      ConsumeAllDetail(table, init, status, p);
      ConsumeAllKeepsEntries(table, init, status);
      ConsumeOneDetail(table, ConsumeAll(table, init, status), c, status, p);
    }
  }

  /** The last detail that the events adding and following entry p bring for its hash. */
  function DetailWithin(changes: seq<Change>, p: nat, hash: string, n: nat): Option<Detail>
    requires n <= |changes|
  {
    if n == 0 || p >= |AddedBefore(changes, n)| then None
    else
      var newest := LastDetail(changes[n - 1].consumes, hash);
      if newest.Some? then newest else DetailWithin(changes, p, hash, n - 1)
  }

  /** Entry p of a table after n events shows the right detail. */
  ghost predicate DetailRight(changes: seq<Change>, n: nat, table: seq<TableEntry>, p: nat)
    requires n <= |changes| && p < |table| && p < |AddedBefore(changes, n)|
  {
    table[p].actionDetail
    == OrElse(OnlyIf(IsFirst(table, p), DetailWithin(changes, p, table[p].actionHash, n)), AddedBefore(changes, n)[p].actionDetail)
  }

  lemma DetailWithinStep(changes: seq<Change>, p: nat, hash: string, n: nat)
    requires n < |changes| && p < |AddedBefore(changes, n + 1)|
    ensures DetailWithin(changes, p, hash, n + 1)
            == if LastDetail(changes[n].consumes, hash).Some? then LastDetail(changes[n].consumes, hash)
               else DetailWithin(changes, p, hash, n)
    ensures p >= |AddedBefore(changes, n)| ==> DetailWithin(changes, p, hash, n) == None
  {
    hide LastDetail;
  }

  /** The table before the consumes of event n. */
  function Arrived(before: seq<TableEntry>, change: Change, isCurrent: bool): (mid: seq<TableEntry>)
    ensures |mid| == |before| + |change.adds|
    ensures forall q :: 0 <= q < |mid| ==>
      var source := if q < |before| then before[q] else change.adds[q - |before|];
      mid[q].id == source.id && mid[q].actionHash == source.actionHash && mid[q].actionDetail == source.actionDetail
  {
    AgeAdded(before) + WithStatus(change.adds, if isCurrent then JustAdded else Ok)
  }

  lemma ArrivedEntries(changes: seq<Change>, before: seq<TableEntry>, n: nat, isCurrent: bool)
    requires n < |changes| && SameEntries(before, AddedBefore(changes, n))
    ensures SameEntries(Arrived(before, changes[n], isCurrent), AddedBefore(changes, n + 1))
    ensures AddedBefore(changes, n + 1) == AddedBefore(changes, n) + changes[n].adds
  {
    hide Arrived;
  }

  lemma EntriesCompose(a: seq<TableEntry>, b: seq<TableEntry>, c: seq<TableEntry>)
    requires SameEntries(a, b) && SameEntries(b, c)
    ensures SameEntries(a, c)
  {
  }

  /** One event, current or past, applied to a table that already shows the right details. */
  lemma ApplyDetail(changes: seq<Change>, before: seq<TableEntry>, n: nat, isCurrent: bool, p: nat)
    requires n < |changes| && SameEntries(before, AddedBefore(changes, n)) && p < |AddedBefore(changes, n + 1)|
    requires p < |before| ==> DetailRight(changes, n, before, p)
    ensures SameEntries(Apply(before, changes[n], isCurrent), AddedBefore(changes, n + 1))
    ensures DetailRight(changes, n + 1, Apply(before, changes[n], isCurrent), p)
  {
    hide ConsumeAll, LastDetail, DetailWithin, Arrived, IsFirst, AddedBefore;
    var status := if isCurrent then JustConsumed else Consumed;
    var mid, r := Arrived(before, changes[n], isCurrent), Apply(before, changes[n], isCurrent);
    assert r == ConsumeAll(mid, changes[n].consumes, status) by { ApplyArrived(before, changes[n], isCurrent); }
    ArrivedEntries(changes, before, n, isCurrent);
    ConsumeAllKeepsEntries(mid, changes[n].consumes, status);
    EntriesCompose(r, mid, AddedBefore(changes, n + 1));
    ConsumeAllDetail(mid, changes[n].consumes, status, p);
    DetailWithinStep(changes, p, r[p].actionHash, n);
    FirstIsAboutPrefix(r, mid, p);
    if p < |before| {
      FirstIsAboutPrefix(mid, before, p);
    }
  }

  lemma ApplyArrived(before: seq<TableEntry>, change: Change, isCurrent: bool)
    ensures Apply(before, change, isCurrent)
            == ConsumeAll(Arrived(before, change, isCurrent), change.consumes, if isCurrent then JustConsumed else Consumed)
  {
  }

  lemma {:induction false} PastDetails(changes: seq<Change>, n: nat, p: nat)
    requires n <= |changes| && p < |Past(changes, n)|
    ensures SameEntries(Past(changes, n), AddedBefore(changes, n)) && DetailRight(changes, n, Past(changes, n), p)
  {
    if n > 0 {
      hide Apply, DetailRight, SameEntries;
      var before := Past(changes, n - 1);
      PastStatuses(changes, n - 1);
      PastStatuses(changes, n);
      assert p < |AddedBefore(changes, n)| by { SameLength(Past(changes, n), AddedBefore(changes, n)); }
      SameLength(before, AddedBefore(changes, n - 1));
      if p < |before| {
        PastDetails(changes, n - 1, p);
      }
      ApplyDetail(changes, before, n - 1, false, p);
    }
  }

  lemma SameLength(a: seq<TableEntry>, b: seq<TableEntry>)
    requires SameEntries(a, b)
    ensures |a| == |b|
  {
  }

  /** The detail shown at event k: for the first entry with its hash the last detail that an
      event from the adding one through k brings for it; otherwise the one it was added with. */
  lemma DetailsAt(changes: seq<Change>, k: nat, p: nat)
    requires k < |changes| && p < |AddedBefore(changes, k + 1)|
    ensures SameEntries(TableAt(changes, k), AddedBefore(changes, k + 1)) && DetailRight(changes, k + 1, TableAt(changes, k), p)
  {
    hide Apply, DetailRight, SameEntries;
    var before := Past(changes, k);
    PastStatuses(changes, k);
    SameLength(before, AddedBefore(changes, k));
    if p < |before| {
      PastDetails(changes, k, p);
    }
    ApplyDetail(changes, before, k, true, p);
  }

  // ---------------------------------------------------------------------------
  // The detail an entry is added with
  // ---------------------------------------------------------------------------

  /** Which event adds an entry, and what it adds. */
  datatype Origin = Origin(event: nat, entry: AddedEntry)

  function OriginsOf(i: nat, adds: seq<AddedEntry>): (r: seq<Origin>)
    ensures |r| == |adds| && forall j :: 0 <= j < |r| ==> r[j] == Origin(i, adds[j])
  {
    seq(|adds|, j requires 0 <= j < |adds| => Origin(i, adds[j]))
  }

  /** The entries that the first n events add to one table, in order. */
  function Origins(events: seq<ContractEvent>, side: Side, n: nat): seq<Origin>
    requires n <= |events|
  {
    if n == 0 then [] else Origins(events, side, n - 1) + OriginsOf(n - 1, events[n - 1].Adds(side))
  }

  /** What the cache answers for a full hash, the entry's own hash being the default. */
  function LookUp(cache: Cache, fullHash: string): Detail {
    if Lower(fullHash) in cache then cache[Lower(fullHash)] else map["actionHash" := fullHash]
  }

  /** The changes add what the events add, made with these caches. */
  ghost predicate AddsFrom(events: seq<ContractEvent>, side: Side, caches: nat -> Cache, changes: seq<Change>) {
    && |changes| == |events|
    && forall i :: 0 <= i < |events| ==> changes[i].adds == MakeEntries(caches(i), events[i].Adds(side))
  }

  function CachesOf(events: seq<ContractEvent>, c: Cache): nat -> Cache {
    (n: nat) => if n <= |events| then CacheAt(events, c, n) else c
  }

  lemma ChangesAddFrom(events: seq<ContractEvent>, c: Cache, side: Side)
    ensures AddsFrom(events, side, CachesOf(events, c), ChangesOf(events, c, side))
  {
    hide CacheAt;
  }

  lemma {:induction false} OriginsLength(events: seq<ContractEvent>, side: Side, caches: nat -> Cache, changes: seq<Change>, n: nat)
    requires AddsFrom(events, side, caches, changes) && n <= |events|
    ensures |Origins(events, side, n)| == |AddedBefore(changes, n)|
  {
    if n > 0 {
      OriginsLength(events, side, caches, changes, n - 1);
    }
  }

  lemma {:induction false} OriginAdded(events: seq<ContractEvent>, side: Side, caches: nat -> Cache, changes: seq<Change>, n: nat, p: nat)
    requires AddsFrom(events, side, caches, changes) && n <= |events|
    requires p < |Origins(events, side, n)| && p < |AddedBefore(changes, n)|
    ensures var o := Origins(events, side, n)[p];
      o.event < n && AddedBefore(changes, n)[p] == MakeEntry(caches(o.event), o.entry)
  {
    hide MakeEntry, AddsFrom;
    assert n > 0;
    OriginsLength(events, side, caches, changes, n - 1);
    if p < |Origins(events, side, n - 1)| {
      OriginAdded(events, side, caches, changes, n - 1, p);
    } else {
      MadeBy(events, side, caches, changes, n - 1, p - |Origins(events, side, n - 1)|);
    }
  }

  lemma MadeBy(events: seq<ContractEvent>, side: Side, caches: nat -> Cache, changes: seq<Change>, i: nat, j: nat)
    requires AddsFrom(events, side, caches, changes) && i < |events| && j < |events[i].Adds(side)|
    ensures j < |changes[i].adds| && changes[i].adds[j] == MakeEntry(caches(i), events[i].Adds(side)[j])
  {
    hide MakeEntry;
  }

  /** Some consume brings a non-empty detail for this hash. */
  ghost predicate Fills(cs: seq<Consume>, fullHash: string) {
    exists j :: 0 <= j < |cs| && Lower(cs[j].actionHash) == Lower(fullHash) && cs[j].actionDetail != map[]
  }

  /** Some event before event n, on either side, brings a non-empty detail for this hash. */
  ghost predicate FilledBefore(events: seq<ContractEvent>, fullHash: string, n: nat)
    requires n <= |events|
  {
    exists i :: 0 <= i < n && (Fills(events[i].l1Consumes, fullHash) || Fills(events[i].l2Consumes, fullHash))
  }

  lemma FillsSnoc(cs: seq<Consume>, c: Consume, fullHash: string)
    ensures Fills(cs + [c], fullHash) <==>
            Fills(cs, fullHash) || (Lower(c.actionHash) == Lower(fullHash) && c.actionDetail != map[])
  {
    hide Lower;
    var all := cs + [c];
    assert forall j :: 0 <= j < |cs| ==> all[j] == cs[j];
    assert all[|cs|] == c;
  }

  /** Remembering answers the same from any two caches once a consume filled the hash in, and
      otherwise leaves the answer alone. */
  lemma {:induction false} RememberLooksUp(c: Cache, d: Cache, cs: seq<Consume>, h: string)
    ensures if Fills(cs, h) then LookUp(Remember(c, cs), h) == LookUp(Remember(d, cs), h)
            else LookUp(Remember(c, cs), h) == LookUp(c, h) && LookUp(Remember(d, cs), h) == LookUp(d, h)
    ensures LookUp(c, h) == LookUp(d, h) ==> LookUp(Remember(c, cs), h) == LookUp(Remember(d, cs), h)
  {
    if cs != [] {
      hide Fills, Lower;
      var init, last := cs[..|cs| - 1], cs[|cs| - 1];
      RememberLooksUp(c, d, init, h);
      assert cs == init + [last];
      FillsSnoc(init, last, h);
    } else {
      assert !Fills([], h);
    }
  }

  lemma FilledStep(events: seq<ContractEvent>, h: string, n: nat)
    requires n < |events|
    ensures FilledBefore(events, h, n + 1) <==>
            FilledBefore(events, h, n) || Fills(events[n].l1Consumes, h) || Fills(events[n].l2Consumes, h)
  {
    hide Fills;
  }

  lemma {:induction false} CacheLooksUp(events: seq<ContractEvent>, c: Cache, d: Cache, n: nat, h: string)
    requires n <= |events|
    ensures LookUp(CacheAt(events, c, n), h) == LookUp(CacheAt(events, d, n), h) <==>
            LookUp(c, h) == LookUp(d, h) || FilledBefore(events, h, n)
    ensures !FilledBefore(events, h, n) ==> LookUp(CacheAt(events, c, n), h) == LookUp(c, h)
    ensures !FilledBefore(events, h, n) ==> LookUp(CacheAt(events, d, n), h) == LookUp(d, h)
  {
    if n > 0 {
      hide FilledBefore, Fills, LookUp, Remember;
      var e, x, y := events[n - 1], CacheAt(events, c, n - 1), CacheAt(events, d, n - 1);
      CacheLooksUp(events, c, d, n - 1, h);
      FilledStep(events, h, n - 1);
      RememberLooksUp(x, y, e.l1Consumes, h);
      RememberLooksUp(Remember(x, e.l1Consumes), Remember(y, e.l1Consumes), e.l2Consumes, h);
    } else {
      assert !FilledBefore(events, h, 0);
    }
  }

  // ---------------------------------------------------------------------------
  // Exactly when the cache shows
  // ---------------------------------------------------------------------------

  /** No earlier entry shows the same truncated hash. */
  ghost predicate FirstOrigin(origins: seq<Origin>, p: nat)
    requires p < |origins|
  {
    forall q :: 0 <= q < p ==> TruncateHex(origins[q].entry.fullHash) != TruncateHex(origins[p].entry.fullHash)
  }

  /** Some consume of this truncated hash brings a non-empty detail. */
  ghost predicate Brings(cs: seq<Consume>, hash: string) {
    exists j :: 0 <= j < |cs| && TruncateHex(cs[j].actionHash) == hash && cs[j].actionDetail != map[]
  }

  /** Entry p of the table at event k shows the same detail whichever of c and d the replay
      starts from: they agree on it, or an event before its own filled it in, or a consume has
      overwritten it since. */
  ghost predicate DetailFixed(events: seq<ContractEvent>, c: Cache, d: Cache, side: Side, k: nat, p: nat)
    requires k < |events| && p < |Origins(events, side, k + 1)|
  {
    var origins := Origins(events, side, k + 1);
    var o := origins[p];
    o.event <= k && (
    || LookUp(c, o.entry.fullHash) == LookUp(d, o.entry.fullHash)
    || FilledBefore(events, o.entry.fullHash, o.event)
    || (FirstOrigin(origins, p) && BroughtBefore(events, side, TruncateHex(o.entry.fullHash), o.event, k + 1)))
  }

  lemma {:induction false} LastDetailIffBrings(cs: seq<Consume>, hash: string)
    ensures LastDetail(cs, hash).Some? <==> Brings(cs, hash)
  {
    if cs != [] {
      hide TruncateHex;
      var init := cs[..|cs| - 1];
      LastDetailIffBrings(init, hash);
      assert forall j :: 0 <= j < |init| ==> init[j] == cs[j];
    }
  }

  lemma {:induction false} OriginEvents(events: seq<ContractEvent>, side: Side, n: nat)
    requires n <= |events|
    ensures forall p :: 0 <= p < |Origins(events, side, n)| ==> Origins(events, side, n)[p].event < n
  {
    if n > 0 {
      OriginEvents(events, side, n - 1);
    }
  }

  /** An entry is in the table from its own event on. */
  lemma {:induction false} OriginPosition(events: seq<ContractEvent>, side: Side, n: nat, m: nat, p: nat)
    requires n <= m <= |events| && p < |Origins(events, side, m)|
    ensures p < |Origins(events, side, n)| <==> Origins(events, side, m)[p].event < n
    decreases m
  {
    hide Origins;
    OriginEvents(events, side, n);
    if n < m {
      OriginsGrow(events, side, n, m - 1);
      if p < |Origins(events, side, m - 1)| {
        OriginPosition(events, side, n, m - 1, p);
        OriginKept(events, side, m - 1, p);
      } else {
        OriginNew(events, side, m - 1, p);
      }
    }
  }

  lemma OriginNew(events: seq<ContractEvent>, side: Side, n: nat, p: nat)
    requires n < |events| && |Origins(events, side, n)| <= p < |Origins(events, side, n + 1)|
    ensures Origins(events, side, n + 1)[p].event == n
  {
  }

  lemma OriginKept(events: seq<ContractEvent>, side: Side, n: nat, p: nat)
    requires n < |events| && p < |Origins(events, side, n)|
    ensures p < |Origins(events, side, n + 1)| && Origins(events, side, n + 1)[p] == Origins(events, side, n)[p]
  {
  }

  lemma {:induction false} OriginsGrow(events: seq<ContractEvent>, side: Side, n: nat, m: nat)
    requires n <= m <= |events|
    ensures |Origins(events, side, n)| <= |Origins(events, side, m)|
  {
    if n < m {
      OriginsGrow(events, side, n, m - 1);
    }
  }

  /** The changes consume what the events do, and add as many entries. */
  ghost predicate Mirrors(events: seq<ContractEvent>, side: Side, changes: seq<Change>) {
    && |changes| == |events|
    && (forall i :: 0 <= i < |events| ==> changes[i].consumes == events[i].ConsumesOn(side))
    && forall i :: 0 <= i <= |events| ==> |Origins(events, side, i)| == |AddedBefore(changes, i)|
  }

  lemma MirrorsAt(events: seq<ContractEvent>, side: Side, changes: seq<Change>, n: nat)
    requires Mirrors(events, side, changes) && n < |events|
    ensures |changes| == |events| && changes[n].consumes == events[n].ConsumesOn(side)
    ensures |Origins(events, side, n + 1)| == |AddedBefore(changes, n + 1)|
  {
    hide Origins, AddedBefore;
  }

  /** The details within a table's changes do not depend on the cache, and are there iff an
      event from the entry's own on brings one. */
  lemma {:induction false} DetailWithinIff(events: seq<ContractEvent>, side: Side, changes: seq<Change>, p: nat, hash: string, n: nat, k: nat)
    requires n <= k + 1 <= |events| && p < |Origins(events, side, k + 1)|
    requires Mirrors(events, side, changes)
    ensures DetailWithin(changes, p, hash, n).Some? <==>
            BroughtBefore(events, side, hash, Origins(events, side, k + 1)[p].event, n)
  {
    hide BroughtBefore, Brings, LastDetail, Origins, DetailWithin, AddedBefore, Mirrors, TruncateHex;
    var first := Origins(events, side, k + 1)[p].event;
    if n == 0 {
      NothingBrought(events, side, changes, p, hash, first);
    } else {
      DetailWithinIff(events, side, changes, p, hash, n - 1, k);
      BroughtStep(events, side, hash, first, n - 1);
      NewestDetail(events, side, changes, p, hash, n - 1, k);
    }
  }

  lemma NothingBrought(events: seq<ContractEvent>, side: Side, changes: seq<Change>, p: nat, hash: string, first: nat)
    ensures DetailWithin(changes, p, hash, 0) == None && !BroughtBefore(events, side, hash, first, 0)
  {
  }

  /** Whether one more event leaves a detail: it must not be older than the entry. */
  lemma NewestDetail(events: seq<ContractEvent>, side: Side, changes: seq<Change>, p: nat, hash: string, n: nat, k: nat)
    requires n <= k < |events| && p < |Origins(events, side, k + 1)| && Mirrors(events, side, changes)
    ensures var first := Origins(events, side, k + 1)[p].event;
      && (first <= n ==> (DetailWithin(changes, p, hash, n + 1).Some? <==>
                          DetailWithin(changes, p, hash, n).Some? || Brings(events[n].ConsumesOn(side), hash)))
      && (first > n ==> DetailWithin(changes, p, hash, n + 1) == None)
  {
    hide Brings, LastDetail, Origins, DetailWithin, AddedBefore, Mirrors, TruncateHex;
    MirrorsAt(events, side, changes, n);
    LastDetailIffBrings(events[n].ConsumesOn(side), hash);
    OriginPosition(events, side, n + 1, k + 1, p);
    if p < |AddedBefore(changes, n + 1)| {
      DetailWithinStep(changes, p, hash, n);
    } else {
      NoneBefore(changes, p, hash, n + 1);
    }
  }

  lemma NoneBefore(changes: seq<Change>, p: nat, hash: string, n: nat)
    requires n <= |changes| && p >= |AddedBefore(changes, n)|
    ensures DetailWithin(changes, p, hash, n) == None
  {
  }

  /** Some event from `first` up to, not including, event n brings a detail for the hash. */
  ghost predicate BroughtBefore(events: seq<ContractEvent>, side: Side, hash: string, first: nat, n: nat)
    requires n <= |events|
  {
    exists i :: first <= i < n && Brings(events[i].ConsumesOn(side), hash)
  }

  lemma BroughtStep(events: seq<ContractEvent>, side: Side, hash: string, first: nat, n: nat)
    requires n < |events|
    ensures BroughtBefore(events, side, hash, first, n + 1) <==>
            BroughtBefore(events, side, hash, first, n) || (first <= n && Brings(events[n].ConsumesOn(side), hash))
    ensures first > n ==> !BroughtBefore(events, side, hash, first, n + 1)
  {
    hide Brings;
  }

  lemma {:induction false} DetailWithinSame(cc: seq<Change>, dd: seq<Change>, p: nat, hash: string, n: nat)
    requires SameChanges(cc, dd) && n <= |cc|
    ensures DetailWithin(cc, p, hash, n) == DetailWithin(dd, p, hash, n)
  {
    if n > 0 {
      hide LastDetail;
      assert SameEntries(AddedBefore(cc, n), AddedBefore(dd, n));
      DetailWithinSame(cc, dd, p, hash, n - 1);
    }
  }

  /** The consumes and the number of entries do not depend on the cache. */
  lemma ChangesAgree(events: seq<ContractEvent>, c: Cache, d: Cache, side: Side)
    ensures SameChanges(ChangesOf(events, c, side), ChangesOf(events, d, side))
  {
    hide MakeEntries, SameEntries, AddedBefore;
    var cc, dd := ChangesOf(events, c, side), ChangesOf(events, d, side);
    forall i | 0 <= i < |cc| ensures SameEntries(cc[i].adds, dd[i].adds) {
      MakeEntriesSame(CacheAt(events, c, i), CacheAt(events, d, i), events[i].Adds(side));
    }
    forall n | 0 <= n <= |cc| ensures SameEntries(AddedBefore(cc, n), AddedBefore(dd, n)) {
      AddedSame(cc, dd, n);
    }
  }

  /** Everything about entry p of the table at event k, replayed from cache c. */
  lemma EntryAt(events: seq<ContractEvent>, c: Cache, side: Side, k: nat, p: nat)
    requires k < |events| && p < |Origins(events, side, k + 1)|
    ensures var table, o := TableAt(ChangesOf(events, c, side), k), Origins(events, side, k + 1)[p];
      && |table| == |Origins(events, side, k + 1)| && o.event <= k
      && table[p].actionHash == TruncateHex(o.entry.fullHash)
      && table[p].actionDetail
         == OrElse(OnlyIf(IsFirst(table, p), DetailWithin(ChangesOf(events, c, side), p, table[p].actionHash, k + 1)),
                   LookUp(CacheAt(events, c, o.event), o.entry.fullHash))
  {
    hide TableAt, DetailWithin, IsFirst, ChangesOf, CacheAt, Origins, AddsFrom, AddedBefore, TruncateHex, LastDetail;
    var changes := ChangesOf(events, c, side);
    ChangesAddFrom(events, c, side);
    OriginsLength(events, side, CachesOf(events, c), changes, k + 1);
    OriginAdded(events, side, CachesOf(events, c), changes, k + 1, p);
    DetailsAt(changes, k, p);
  }

  lemma FirstIffFirstOrigin(events: seq<ContractEvent>, c: Cache, side: Side, k: nat, p: nat)
    requires k < |events| && p < |Origins(events, side, k + 1)| && p < |TableAt(ChangesOf(events, c, side), k)|
    ensures IsFirst(TableAt(ChangesOf(events, c, side), k), p) <==> FirstOrigin(Origins(events, side, k + 1), p)
  {
    hide TableAt, ChangesOf, CacheAt, Origins, TruncateHex, DetailWithin, LookUp;
    forall q | 0 <= q <= p
      ensures TableAt(ChangesOf(events, c, side), k)[q].actionHash == TruncateHex(Origins(events, side, k + 1)[q].entry.fullHash)
    {
      EntryAt(events, c, side, k, q);
    }
    SameFirst(TableAt(ChangesOf(events, c, side), k), Origins(events, side, k + 1), p);
  }

  lemma SameFirst(table: seq<TableEntry>, origins: seq<Origin>, p: nat)
    requires p < |table| && p < |origins|
    requires forall q :: 0 <= q <= p ==> table[q].actionHash == TruncateHex(origins[q].entry.fullHash)
    ensures IsFirst(table, p) <==> FirstOrigin(origins, p)
  {
    hide TruncateHex;
    if IsFirst(table, p) {
      assert forall q :: 0 <= q < p ==> table[q].actionHash == TruncateHex(origins[q].entry.fullHash);
    }
  }

  lemma OverwrittenIff(events: seq<ContractEvent>, c: Cache, side: Side, k: nat, p: nat, hash: string)
    requires k < |events| && p < |Origins(events, side, k + 1)|
    ensures DetailWithin(ChangesOf(events, c, side), p, hash, k + 1).Some? <==>
            BroughtBefore(events, side, hash, Origins(events, side, k + 1)[p].event, k + 1)
  {
    hide DetailWithin, BroughtBefore, CacheAt, Origins, AddedBefore, MakeEntries;
    var changes := ChangesOf(events, c, side);
    ChangesAddFrom(events, c, side);
    forall i | 0 <= i <= |events| ensures |Origins(events, side, i)| == |AddedBefore(changes, i)| {
      OriginsLength(events, side, CachesOf(events, c), changes, i);
    }
    DetailWithinIff(events, side, changes, p, hash, k + 1, k);
  }

  /** One entry shows the same detail from both caches exactly under the three conditions. */
  lemma DetailSameIff(events: seq<ContractEvent>, c: Cache, d: Cache, side: Side, k: nat, p: nat)
    requires k < |events| && p < |Origins(events, side, k + 1)|
    ensures var a, b := TableAt(ChangesOf(events, c, side), k), TableAt(ChangesOf(events, d, side), k);
      && p < |a| && p < |b|
      && (a[p].actionDetail == b[p].actionDetail <==> DetailFixed(events, c, d, side, k, p))
  {
    hide TableAt, ChangesOf, DetailWithin, CacheAt, Origins, BroughtBefore, FilledBefore, IsFirst, FirstOrigin, LookUp, TruncateHex;
    var cc, dd, o := ChangesOf(events, c, side), ChangesOf(events, d, side), Origins(events, side, k + 1)[p];
    EntryAt(events, c, side, k, p);
    EntryAt(events, d, side, k, p);
    FirstIffFirstOrigin(events, c, side, k, p);
    FirstIffFirstOrigin(events, d, side, k, p);
    OverwrittenIff(events, c, side, k, p, TruncateHex(o.entry.fullHash));
    ChangesAgree(events, c, d, side);
    DetailWithinSame(cc, dd, p, TruncateHex(o.entry.fullHash), k + 1);
    CacheLooksUp(events, c, d, o.event, o.entry.fullHash);
  }

  /** Two replays of the same events to the same event show the same table exactly when, for
      every entry, the starting caches agree on it, an event before its own filled it in, or
      a consume has overwritten it since. */
  lemma SameTableIff(events: seq<ContractEvent>, c: Cache, d: Cache, side: Side, k: nat)
    requires k < |events|
    ensures TableAt(ChangesOf(events, c, side), k) == TableAt(ChangesOf(events, d, side), k) <==>
            forall p :: 0 <= p < |Origins(events, side, k + 1)| ==> DetailFixed(events, c, d, side, k, p)
  {
    hide TableAt, ChangesOf, DetailFixed, Origins, DetailWithin, IsFirst, LookUp, CacheAt;
    var a, b, n := TableAt(ChangesOf(events, c, side), k), TableAt(ChangesOf(events, d, side), k), |Origins(events, side, k + 1)|;
    TableLength(events, c, side, k);
    TableLength(events, d, side, k);
    forall p | 0 <= p < n
      ensures a[p] == b[p] <==> DetailFixed(events, c, d, side, k, p)
    {
      DetailSameIff(events, c, d, side, k, p);
      CacheNeverChangesStatuses(events, c, d, side, k, p);
    }
    EqualPointwise(a, b);
  }

  lemma EqualPointwise(a: seq<TableEntry>, b: seq<TableEntry>)
    requires |a| == |b|
    ensures a == b <==> forall p :: 0 <= p < |a| ==> a[p] == b[p]
  {
  }

  lemma TableLength(events: seq<ContractEvent>, c: Cache, side: Side, k: nat)
    requires k < |events|
    ensures |TableAt(ChangesOf(events, c, side), k)| == |Origins(events, side, k + 1)|
  {
    hide TableAt, ChangesOf, CacheAt, Origins, AddsFrom, AddedBefore;
    ChangesAddFrom(events, c, side);
    OriginsLength(events, side, CachesOf(events, c), ChangesOf(events, c, side), k + 1);
    LengthAt(ChangesOf(events, c, side), k);
  }

  function Filler(): string {
    seq(64, _ => '1')
  }

  /** So a fresh page and a page that has looked ahead can show the same event differently: a
      detail brought by a later event on the other side appears, and nothing overwrites it. */
  lemma CacheLeaksLaterDetail(detail: Detail) returns (events: seq<ContractEvent>, hash: string)
    requires "computedHash" in detail
    ensures |hash| == 66 && hash[..2] == "0x" && |events| == 2
    ensures events[1].l2Consumes == [Consume(hash, detail)] && events[0].l1Adds == [AddedEntry("a", hash)]
    ensures TableAt(ChangesOf(events, map[], Side.L1), 0)
            != TableAt(ChangesOf(events, CacheAt(events, map[], 2), Side.L1), 0)
  {
    hash := "0x" + Filler();
    assert hash[..2] == "0x";
    var consume := Consume(hash, detail);
    assert detail != map[];
    events := [ContractEvent([AddedEntry("a", hash)], [], [], [], []), ContractEvent([], [], [], [consume], [])];
    var cache := CacheAt(events, map[], 2);
    assert LookUp(cache, hash) == detail by {
      LooksAhead(events, hash, detail);
    }
    assert LookUp(map[], hash) == map["actionHash" := hash];
    assert "computedHash" !in map["actionHash" := hash];
    var origins := Origins(events, Side.L1, 1);
    assert origins == [Origin(0, AddedEntry("a", hash))] by {
      assert Origins(events, Side.L1, 0) == [];
    }
    assert !DetailFixed(events, map[], cache, Side.L1, 0, 0);
    SameTableIff(events, map[], cache, Side.L1, 0);
  }

  lemma LooksAhead(events: seq<ContractEvent>, hash: string, detail: Detail)
    requires |events| == 2 && detail != map[] && events[1].l1Consumes == [] && events[1].l2Consumes == [Consume(hash, detail)]
    ensures LookUp(CacheAt(events, map[], 2), hash) == detail
  {
    hide Lower;
    var before := Remember(CacheAt(events, map[], 1), []);
    var consume := Consume(hash, detail);
    assert [consume][..0] == [];
    assert Remember(before, [consume]) == before[Lower(hash) := detail];
  }
}
