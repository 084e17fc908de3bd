/** Annotations that the host sends for the calls of a run: which batches are taken, and
    the exact byte budget they are charged against. */
module Annotations {
  import opened Prelude
  import opened TraceModel

  const MAX_ITEMS: nat := 4096
  const MAX_FIELD: nat := 32768
  const MAX_BATCH: nat := 1024 * 1024
  const MAX_STORED: nat := 4 * 1024 * 1024

  datatype Key = Name | Method | Signature | Arguments | Returns | Error | Note

  const KEYS: seq<Key> := [Name, Method, Signature, Arguments, Returns, Error, Note]

  datatype Value = Text(text: string) | NotText

  /** One received item. `id` is None when it is not an integer. `source` is the run the
      sender decoded; it is a label for the theorems, and no step reads it. */
  datatype Item = Item(id: Option<int>, values: map<Key, Value>, source: Run)

  datatype Entry = Entry(texts: map<Key, string>, source: Run)

  // ---------------------------------------------------------------------------
  // Sizes
  // ---------------------------------------------------------------------------

  function TextSize(texts: map<Key, string>, n: nat): nat
    requires n <= |KEYS|
  {
    if n == 0 then 0
    else TextSize(texts, n - 1) + if KEYS[n - 1] in texts then |texts[KEYS[n - 1]]| else 0
  }

  function EntrySize(texts: map<Key, string>): nat {
    TextSize(texts, |KEYS|)
  }

  function SizeAt(decoded: map<nat, Entry>, id: nat): nat {
    if id in decoded then EntrySize(decoded[id].texts) else 0
  }

  /** The length of everything stored for the calls below n. */
  function StoredSize(decoded: map<nat, Entry>, n: nat): nat {
    if n == 0 then 0 else StoredSize(decoded, n - 1) + SizeAt(decoded, n - 1)
  }

  predicate ValidFields(item: Item) {
    forall key :: key in item.values ==> item.values[key].Text? && |item.values[key].text| <= MAX_FIELD
  }

  function Texts(item: Item): map<Key, string>
    requires ValidFields(item)
  {
    map key | key in item.values :: item.values[key].text
  }

  ghost predicate DistinctIds(items: seq<Item>) {
    forall i, j :: 0 <= i < j < |items| ==> items[i].id != items[j].id
  }

  ghost predicate WellFormed(items: seq<Item>, frames: nat) {
    && DistinctIds(items)
    && forall i :: 0 <= i < |items| ==>
         items[i].id.Some? && 0 <= items[i].id.value < frames && ValidFields(items[i])
  }

  ghost function BatchSize(items: seq<Item>, frames: nat): nat
    requires WellFormed(items, frames)
  {
    if items == [] then 0
    else BatchSize(items[..|items| - 1], frames) + EntrySize(Texts(items[|items| - 1]))
  }

  /** What a batch must be to be considered at all. */
  ghost predicate ValidBatch(items: seq<Item>, frames: nat) {
    && |items| <= MAX_ITEMS
    && WellFormed(items, frames)
    && BatchSize(items, frames) <= MAX_BATCH
  }

  /** Stored text that the batch would overwrite. */
  ghost function Replaced(decoded: map<nat, Entry>, items: seq<Item>, frames: nat): nat
    requires WellFormed(items, frames)
  {
    if items == [] then 0
    else Replaced(decoded, items[..|items| - 1], frames) + SizeAt(decoded, items[|items| - 1].id.value)
  }

  ghost function Merge(decoded: map<nat, Entry>, items: seq<Item>, frames: nat): map<nat, Entry>
    requires WellFormed(items, frames)
  {
    if items == [] then decoded
    else
      var last := items[|items| - 1];
      Merge(decoded, items[..|items| - 1], frames)[last.id.value := Entry(Texts(last), last.source)]
  }

  /** The batch is stored, whole, iff it is valid and fits the budget. */
  ghost predicate Stored(decoded: map<nat, Entry>, bytes: int, items: seq<Item>, frames: nat) {
    ValidBatch(items, frames) && bytes - Replaced(decoded, items, frames) + BatchSize(items, frames) <= MAX_STORED
  }

  // ---------------------------------------------------------------------------
  // The budget is exact
  // ---------------------------------------------------------------------------

  lemma {:induction false} TotalUpdate(decoded: map<nat, Entry>, id: nat, e: Entry, n: nat)
    ensures StoredSize(decoded[id := e], n) == StoredSize(decoded, n) + if id < n then EntrySize(e.texts) - SizeAt(decoded, id) else 0
  {
    if n > 0 {
      TotalUpdate(decoded, id, e, n - 1);
    }
  }

  lemma {:induction false} MergeKeeps(decoded: map<nat, Entry>, items: seq<Item>, frames: nat, id: nat)
    requires WellFormed(items, frames) && forall i :: 0 <= i < |items| ==> items[i].id != Some(id)
    ensures var after := Merge(decoded, items, frames);
      (id in after <==> id in decoded) && (id in after ==> after[id] == decoded[id])
  {
    if items != [] {
      hide Texts, ValidFields;
      MergeKeeps(decoded, items[..|items| - 1], frames, id);
    }
  }

  /** Storing a batch changes the total by exactly its size less what it overwrites. */
  lemma {:induction false} MergeTotal(decoded: map<nat, Entry>, items: seq<Item>, frames: nat)
    requires WellFormed(items, frames)
    ensures StoredSize(Merge(decoded, items, frames), frames)
            == StoredSize(decoded, frames) - Replaced(decoded, items, frames) + BatchSize(items, frames)
  {
    if items != [] {
      hide EntrySize, Texts, ValidFields;
      var before, last := items[..|items| - 1], items[|items| - 1];
      MergeTotal(decoded, before, frames);
      MergeKeeps(decoded, before, frames, last.id.value);
      TotalUpdate(Merge(decoded, before, frames), last.id.value, Entry(Texts(last), last.source), frames);
    }
  }

  /** Every stored entry was there before or comes from an item of the batch. */
  lemma {:induction false} MergeSources(decoded: map<nat, Entry>, items: seq<Item>, frames: nat, id: nat)
    requires WellFormed(items, frames) && id in Merge(decoded, items, frames)
    ensures (id in decoded && Merge(decoded, items, frames)[id] == decoded[id])
            || exists i :: 0 <= i < |items| && items[i].id == Some(id) && Merge(decoded, items, frames)[id].source == items[i].source
  {
    if items != [] {
      var before, last := items[..|items| - 1], items[|items| - 1];
      if last.id.value == id {
        assert items[|items| - 1].id == Some(id);
      } else {
        MergeSources(decoded, before, frames, id);
        if !(id in decoded && Merge(decoded, before, frames)[id] == decoded[id]) {
          var i :| 0 <= i < |before| && before[i].id == Some(id) && Merge(decoded, before, frames)[id].source == before[i].source;
          assert items[i] == before[i];
        }
      }
    }
  }

  /** What a stored batch leaves: every item under its own id, everything else as it was. */
  ghost predicate Overlaid(decoded: map<nat, Entry>, items: seq<Item>, after: map<nat, Entry>) {
    && (forall i :: 0 <= i < |items| ==>
          && items[i].id.Some? && items[i].id.value >= 0 && ValidFields(items[i])
          && items[i].id.value in after && after[items[i].id.value] == Entry(Texts(items[i]), items[i].source))
    && forall id: nat :: (forall i :: 0 <= i < |items| ==> items[i].id != Some(id)) ==>
         (id in after <==> id in decoded) && (id in after ==> after[id] == decoded[id])
  }

  lemma {:induction false} MergeStores(decoded: map<nat, Entry>, items: seq<Item>, frames: nat, i: nat)
    requires WellFormed(items, frames) && i < |items|
    ensures var id, after := items[i].id.value, Merge(decoded, items, frames);
      id in after && after[id] == Entry(Texts(items[i]), items[i].source)
  {
    hide Texts, ValidFields;
    if i < |items| - 1 {
      MergeStores(decoded, items[..|items| - 1], frames, i);
      assert items[i].id != items[|items| - 1].id;
    }
  }

  lemma MergeOverlays(decoded: map<nat, Entry>, items: seq<Item>, frames: nat)
    requires WellFormed(items, frames)
    ensures Overlaid(decoded, items, Merge(decoded, items, frames))
  {
    hide Texts, ValidFields, Merge;
    var after := Merge(decoded, items, frames);
    forall i | 0 <= i < |items|
      ensures items[i].id.value in after && after[items[i].id.value] == Entry(Texts(items[i]), items[i].source)
    {
      MergeStores(decoded, items, frames, i);
    }
    forall id: nat | (forall i :: 0 <= i < |items| ==> items[i].id != Some(id))
      ensures (id in after <==> id in decoded) && (id in after ==> after[id] == decoded[id])
    {
      MergeKeeps(decoded, items, frames, id);
    }
  }

  lemma {:induction false} BatchGrows(items: seq<Item>, frames: nat, n: nat)
    requires WellFormed(items, frames) && n <= |items|
    ensures BatchSize(items[..n], frames) <= BatchSize(items, frames)
  {
    if n < |items| {
      var before := items[..|items| - 1];
      BatchGrows(before, frames, n);
      assert before[..n] == items[..n];
    } else {
      assert items[..n] == items;
    }
  }

  lemma {:induction false} TextGrows(texts: map<Key, string>, n: nat, m: nat)
    requires n <= m <= |KEYS|
    ensures TextSize(texts, n) <= TextSize(texts, m)
  {
    if n < m {
      TextGrows(texts, n, m - 1);
    }
  }

  lemma {:induction false} SameTextSize(a: map<Key, string>, b: map<Key, string>, n: nat)
    requires n <= |KEYS|
    requires forall k :: 0 <= k < n ==> (KEYS[k] in a <==> KEYS[k] in b) && (KEYS[k] in a ==> a[KEYS[k]] == b[KEYS[k]])
    ensures TextSize(a, n) == TextSize(b, n)
  {
    if n > 0 {
      SameTextSize(a, b, n - 1);
    }
  }

  lemma EveryKeyListed(key: Key)
    ensures key in KEYS
  {
  }
}
