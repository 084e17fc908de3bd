/** The call tree of the selected run: which call is selected first, and which calls
    a search or the expansion state leaves visible. */
module TraceTree {
  import opened Prelude
  import opened TraceModel

  const OPEN_DEPTH: nat := 4

  /** text.includes(search) */
  predicate Includes(text: string, search: string) {
    search <= text || (text != [] && Includes(text[1..], search))
  }

  predicate OccursAt(text: string, search: string, i: nat) {
    i + |search| <= |text| && text[i..i + |search|] == search
  }

  /** Searching finds a text wherever it stands. */
  lemma {:induction false} IncludesIff(text: string, search: string)
    ensures Includes(text, search) <==> exists i: nat :: OccursAt(text, search, i)
  {
    if search <= text {
      assert OccursAt(text, search, 0);
    }
    if text != [] {
      var rest := text[1..];
      IncludesIff(rest, search);
      if i: nat :| OccursAt(text, search, i) && i > 0 {
        assert OccursAt(rest, search, i - 1) by { assert rest[i - 1..i - 1 + |search|] == text[i..i + |search|]; }
      }
      if i: nat :| OccursAt(rest, search, i) {
        assert OccursAt(text, search, i + 1) by { assert text[i + 1..i + 1 + |search|] == rest[i..i + |search|]; }
      }
    }
  }

  /** a is a strict ancestor of i. */
  ghost predicate Above(frames: seq<Frame>, a: nat, i: nat)
    requires Forest(frames) && i < |frames|
  {
    a != i && AncestorOrSelf(frames, a, i)
  }

  /** i or a descendant of i matches. */
  ghost predicate MatchBelow(frames: seq<Frame>, matches: seq<bool>, i: nat)
    requires Forest(frames) && |matches| == |frames|
  {
    exists d :: i <= d < |frames| && AncestorOrSelf(frames, i, d) && matches[d]
  }

  ghost predicate AncestorsOpen(frames: seq<Frame>, expanded: set<nat>, i: nat)
    requires Forest(frames) && i < |frames|
  {
    forall a :: 0 <= a < i && Above(frames, a, i) ==> a in expanded
  }

  lemma {:induction false} AncestorsTransitive(frames: seq<Frame>, a: nat, b: nat, i: nat)
    requires Forest(frames) && i < |frames| && b < |frames| && AncestorOrSelf(frames, a, b) && AncestorOrSelf(frames, b, i)
    ensures AncestorOrSelf(frames, a, i)
    decreases i
  {
    if b != i {
      AncestorsTransitive(frames, a, b, frames[i].parentId.value);
    }
  }

  /** A matching descendant is the frame itself or lies below one of its children. */
  lemma {:induction false} ChildOnPath(frames: seq<Frame>, i: nat, d: nat) returns (c: nat)
    requires Forest(frames) && d < |frames| && i != d && AncestorOrSelf(frames, i, d)
    ensures c < |frames| && frames[c].parentId == Some(i) && AncestorOrSelf(frames, c, d) && c <= d
    decreases d
  {
    var p: nat := frames[d].parentId.value;
    if p == i {
      c := d;
    } else {
      c := ChildOnPath(frames, i, p);
    }
  }

  lemma MatchBelowStep(frames: seq<Frame>, matches: seq<bool>, i: nat)
    requires Forest(frames) && |matches| == |frames| && i < |frames|
    ensures MatchBelow(frames, matches, i) <==>
            matches[i] || exists c :: i < c < |frames| && frames[c].parentId == Some(i) && MatchBelow(frames, matches, c)
  {
    assert AncestorOrSelf(frames, i, i);
    if MatchBelow(frames, matches, i) && !matches[i] {
      var d :| i <= d < |frames| && AncestorOrSelf(frames, i, d) && matches[d];
      var c := ChildOnPath(frames, i, d);
      assert MatchBelow(frames, matches, c);
    }
    if c :| i < c < |frames| && frames[c].parentId == Some(i) && MatchBelow(frames, matches, c) {
      var d :| c <= d < |frames| && AncestorOrSelf(frames, c, d) && matches[d];
      assert AncestorOrSelf(frames, i, c);
      AncestorsTransitive(frames, i, c, d);
    }
  }

  /** What the backward pass has established when frames from n on are done. */
  ghost predicate IncludedFrom(frames: seq<Frame>, matches: seq<bool>, kept: seq<bool>, n: nat)
    requires Forest(frames) && |matches| == |kept| == |frames|
  {
    forall j :: 0 <= j < |frames| ==>
      (kept[j] <==> matches[j] || exists c :: n <= c < |frames| && frames[c].parentId == Some(j) && MatchBelow(frames, matches, c))
  }

  lemma BackwardStep(frames: seq<Frame>, matches: seq<bool>, before: seq<bool>, after: seq<bool>, i: nat)
    requires Forest(frames) && |matches| == |before| == |after| == |frames| && i < |frames|
    requires IncludedFrom(frames, matches, before, i + 1)
    requires forall j :: 0 <= j < |frames| ==> after[j] == (before[j] || (before[i] && frames[i].parentId == Some(j)))
    ensures IncludedFrom(frames, matches, after, i)
    ensures before[i] <==> MatchBelow(frames, matches, i)
  {
    hide MatchBelow;
    MatchBelowStep(frames, matches, i);
    forall j | 0 <= j < |frames|
      ensures after[j] <==> matches[j] || exists c :: i <= c < |frames| && frames[c].parentId == Some(j) && MatchBelow(frames, matches, c)
    {
      if after[j] && !before[j] {
        assert frames[i].parentId == Some(j) && MatchBelow(frames, matches, i);
      }
    }
  }

  lemma AllIncluded(frames: seq<Frame>, matches: seq<bool>, kept: seq<bool>)
    requires Forest(frames) && |matches| == |kept| == |frames| && IncludedFrom(frames, matches, kept, 0)
    ensures forall j :: 0 <= j < |frames| ==> kept[j] == MatchBelow(frames, matches, j)
  {
    hide MatchBelow;
    forall j | 0 <= j < |frames| ensures kept[j] == MatchBelow(frames, matches, j) {
      MatchBelowStep(frames, matches, j);
    }
  }

  /** A frame is shown under a search iff it or a descendant matches; without a search iff
      every strict ancestor is expanded. */
  ghost predicate Shown(frames: seq<Frame>, expanded: set<nat>, searching: bool, matches: seq<bool>, i: nat)
    requires Forest(frames) && |matches| == |frames| && i < |frames|
  {
    if searching then MatchBelow(frames, matches, i) else AncestorsOpen(frames, expanded, i)
  }

  lemma AncestorsOpenStep(frames: seq<Frame>, expanded: set<nat>, i: nat)
    requires Forest(frames) && i < |frames|
    ensures AncestorsOpen(frames, expanded, i) <==>
            frames[i].parentId.None? ||
            (frames[i].parentId.value in expanded && AncestorsOpen(frames, expanded, frames[i].parentId.value))
  {
    if frames[i].parentId.Some? {
      var p: nat := frames[i].parentId.value;
      assert AncestorOrSelf(frames, p, p);
      assert Above(frames, p, i);
      forall a | 0 <= a < i && Above(frames, a, i) ensures a <= p {
        AncestorIsEarlier(frames, a, p);
      }
      if AncestorsOpen(frames, expanded, i) {
        forall a | 0 <= a < p && Above(frames, a, p) ensures a in expanded {
          assert Above(frames, a, i);
        }
      }
    }
  }

  lemma MatchBelowParent(frames: seq<Frame>, matches: seq<bool>, i: nat)
    requires Forest(frames) && |matches| == |frames| && i < |frames| && MatchBelow(frames, matches, i)
    ensures frames[i].parentId.Some? ==> MatchBelow(frames, matches, frames[i].parentId.value)
  {
    if frames[i].parentId.Some? {
      MatchBelowStep(frames, matches, frames[i].parentId.value);
    }
  }

  /** One frame of the forward pass. */
  lemma ForwardStep(frames: seq<Frame>, expanded: set<nat>, searching: bool, matches: seq<bool>, i: nat)
    requires Forest(frames) && |matches| == |frames| && i < |frames|
    requires !searching ==> forall j :: 0 <= j < |frames| ==> matches[j]
    ensures Shown(frames, expanded, searching, matches, i) <==>
            MatchBelow(frames, matches, i) &&
            (frames[i].parentId.None? ||
             (Shown(frames, expanded, searching, matches, frames[i].parentId.value)
              && (searching || frames[i].parentId.value in expanded)))
  {
    AncestorsOpenStep(frames, expanded, i);
    MatchBelowStep(frames, matches, i);
    if MatchBelow(frames, matches, i) {
      MatchBelowParent(frames, matches, i);
    }
  }

  // ---------------------------------------------------------------------------
  // The smallest parent-closed set
  // ---------------------------------------------------------------------------

  ghost predicate ParentClosed(frames: seq<Frame>, s: set<nat>)
    requires Forest(frames)
  {
    forall i :: i in s && i < |frames| && frames[i].parentId.Some? ==> frames[i].parentId.value in s
  }

  ghost predicate ContainsMatches(matches: seq<bool>, s: set<nat>) {
    forall i :: 0 <= i < |matches| && matches[i] ==> i in s
  }

  lemma {:induction false} ClosedUpward(frames: seq<Frame>, s: set<nat>, a: nat, i: nat)
    requires Forest(frames) && ParentClosed(frames, s) && i < |frames| && i in s && AncestorOrSelf(frames, a, i)
    ensures a in s
    decreases i
  {
    if a != i {
      ClosedUpward(frames, s, a, frames[i].parentId.value);
    }
  }

  /** With a search, the shown calls are parent-closed, contain every match, and are
      contained in every other set that does both. */
  lemma SearchShowsLeastClosedSet(frames: seq<Frame>, expanded: set<nat>, matches: seq<bool>, shown: set<nat>)
    requires Forest(frames) && |matches| == |frames|
    requires forall i: nat :: i in shown <==> i < |frames| && Shown(frames, expanded, true, matches, i)
    ensures ParentClosed(frames, shown) && ContainsMatches(matches, shown)
    ensures forall s: set<nat> :: ParentClosed(frames, s) && ContainsMatches(matches, s) ==> shown <= s
  {
    forall i | i in shown && frames[i].parentId.Some? ensures frames[i].parentId.value in shown {
      MatchBelowParent(frames, matches, i);
    }
    forall i | 0 <= i < |matches| && matches[i] ensures i in shown {
      MatchBelowStep(frames, matches, i);
    }
    forall s: set<nat> | ParentClosed(frames, s) && ContainsMatches(matches, s) ensures shown <= s {
      forall i | i in shown ensures i in s {
        var d :| i <= d < |frames| && AncestorOrSelf(frames, i, d) && matches[d];
        ClosedUpward(frames, s, i, d);
      }
    }
  }

  // ---------------------------------------------------------------------------
  // First selection
  // ---------------------------------------------------------------------------

  predicate HasFailedChild(frames: seq<Frame>, ix: Index, i: nat)
    requires i < |ix.children|
  {
    exists k :: 0 <= k < |ix.children[i]| && ix.children[i][k] < |frames| && Failed(frames[ix.children[i][k]])
  }

  /** A failed call whose own calls did not fail. */
  predicate FailedLeaf(frames: seq<Frame>, ix: Index, i: nat)
    requires i < |frames| && |ix.children| == |frames|
  {
    Failed(frames[i]) && !HasFailedChild(frames, ix, i)
  }

  /** In terms of parent pointers: it failed, and no call it made did. */
  lemma FailedLeafMeaning(frames: seq<Frame>, ix: Index, i: nat)
    requires Forest(frames) && CorrectIndex(frames, ix) && i < |frames|
    ensures FailedLeaf(frames, ix, i) <==>
            Failed(frames[i]) && forall c :: 0 <= c < |frames| && frames[c].parentId == Some(i) ==> !Failed(frames[c])
  {
    hide Depth, Root, UnderFailure, UnderIncomplete;
    var list := ix.children[i];
    assert Lists(list, frames, Some(i), |frames|);
    forall c | 0 <= c < |frames| && frames[c].parentId == Some(i) && Failed(frames[c]) ensures HasFailedChild(frames, ix, i) {
      assert c in list;
    }
    if HasFailedChild(frames, ix, i) {
      var k :| 0 <= k < |list| && list[k] < |frames| && Failed(frames[list[k]]);
      assert list[k] in list;
    }
  }

  /** Among failed calls the latest has no failed child, so a failed leaf exists. */
  lemma {:induction false} FailedLeafExists(frames: seq<Frame>, ix: Index, i: nat) returns (leaf: nat)
    requires Forest(frames) && CorrectIndex(frames, ix) && i < |frames| && Failed(frames[i])
    ensures i <= leaf < |frames| && FailedLeaf(frames, ix, leaf)
    decreases |frames| - i
  {
    if HasFailedChild(frames, ix, i) {
      var k :| 0 <= k < |ix.children[i]| && ix.children[i][k] < |frames| && Failed(frames[ix.children[i][k]]);
      var c := ix.children[i][k];
      assert c in ix.children[i] && Lists(ix.children[i], frames, Some(i), |frames|);
      leaf := FailedLeafExists(frames, ix, c);
    } else {
      leaf := i;
    }
  }

  /** Every strict ancestor of id; nothing for an id outside the run. */
  ghost function Ancestors(frames: seq<Frame>, id: nat): set<nat>
    requires Forest(frames)
  {
    set a: nat | a < |frames| && id < |frames| && Above(frames, a, id)
  }

  lemma AncestorsOfParent(frames: seq<Frame>, id: nat)
    requires Forest(frames) && id < |frames|
    ensures Ancestors(frames, id) ==
            if frames[id].parentId.None? then {} else Ancestors(frames, frames[id].parentId.value) + {frames[id].parentId.value}
  {
    if frames[id].parentId.Some? {
      var p: nat := frames[id].parentId.value;
      assert AncestorOrSelf(frames, p, p);
      forall a: nat | a < |frames| && Above(frames, a, p) ensures Above(frames, a, id) {
        AncestorIsEarlier(frames, a, p);
      }
    }
  }

  /** A call is as deep as it has calls above it. */
  lemma {:induction false} DepthCountsAncestors(frames: seq<Frame>, id: nat)
    requires Forest(frames) && id < |frames|
    ensures |Ancestors(frames, id)| == Depth(frames, id)
    decreases id
  {
    AncestorsOfParent(frames, id);
    if frames[id].parentId.Some? {
      DepthCountsAncestors(frames, frames[id].parentId.value);
    }
  }

  lemma OpenedAncestors(frames: seq<Frame>, expanded: set<nat>, id: nat)
    requires Forest(frames) && id < |frames| && Ancestors(frames, id) <= expanded
    ensures AncestorsOpen(frames, expanded, id)
  {
  }

  /** Which calls match: all of them without a search. */
  function Matches(texts: seq<string>, search: string): (m: seq<bool>)
    ensures |m| == |texts|
    ensures forall i :: 0 <= i < |texts| ==> m[i] == (search == "" || Includes(Lower(texts[i]), Lower(search)))
  {
    seq(|texts|, i requires 0 <= i < |texts| => search == "" || Includes(Lower(texts[i]), Lower(search)))
  }

  /** Where a fresh run puts the selection: the first failed root, else the first failed
      call without a failed child, else the first call. */
  ghost predicate FirstSelected(frames: seq<Frame>, ix: Index, selected: nat)
    requires |ix.children| == |frames|
  {
    if exists i :: 0 <= i < |frames| && FailedRoot(frames, i) then
      selected < |frames| && FailedRoot(frames, selected) && forall i :: 0 <= i < selected ==> !FailedRoot(frames, i)
    else if exists i :: 0 <= i < |frames| && FailedLeaf(frames, ix, i) then
      selected < |frames| && FailedLeaf(frames, ix, selected) && forall i :: 0 <= i < selected ==> !FailedLeaf(frames, ix, i)
    else
      selected == 0
  }

  predicate FailedRoot(frames: seq<Frame>, i: nat)
    requires i < |frames|
  {
    frames[i].parentId.None? && Failed(frames[i])
  }

  /** A run with a failed call never opens on a call that did not fail. */
  lemma FirstSelectedIsFailed(frames: seq<Frame>, ix: Index, selected: nat, i: nat)
    requires Forest(frames) && CorrectIndex(frames, ix) && FirstSelected(frames, ix, selected)
    requires i < |frames| && Failed(frames[i])
    ensures selected < |frames| && Failed(frames[selected])
    ensures FailedRoot(frames, selected) || FailedLeaf(frames, ix, selected)
  {
    var leaf := FailedLeafExists(frames, ix, i);
  }

  /** The tree part of the viewer. */
  class TreeView {
    var frames: seq<Frame>
    var index: Index
    var selected: nat
    var expanded: set<nat>
    var search: string

    ghost predicate Valid()
      reads this
    {
      Forest(frames) && CorrectIndex(frames, index)
    }

    constructor ()
      ensures Valid() && frames == [] && search == ""
    {
      frames, index, selected, expanded, search := [], Index([], [], [], [], [], []), 0, {}, "";
    }

    /** Opens every strict ancestor of id, and nothing else. The walk ends because a parent
        pointer names an earlier frame. */
    method OpenAncestors(id: nat)
      requires Forest(frames)
      modifies this`expanded
      ensures expanded == old(expanded) + Ancestors(frames, id)
    {
      if id >= |frames| {
        return;
      }
      AncestorsOfParent(frames, id);
      ghost var at: nat := id;
      var parent := frames[id].parentId;
      while parent.Some?
        invariant at < |frames| && parent == frames[at].parentId
        invariant expanded + Ancestors(frames, at) == old(expanded) + Ancestors(frames, id)
        decreases at
      {
        AncestorsOfParent(frames, at);
        at := parent.value;
        expanded := expanded + {parent.value};
        parent := frames[parent.value].parentId;
      }
      AncestorsOfParent(frames, at);
    }

    method FirstFailedRoot() returns (found: Option<nat>)
      ensures found.Some? ==> found.value < |frames| && FailedRoot(frames, found.value)
                              && forall i :: 0 <= i < found.value ==> !FailedRoot(frames, i)
      ensures found.None? ==> forall i :: 0 <= i < |frames| ==> !FailedRoot(frames, i)
    {
      for i := 0 to |frames|
        invariant forall j :: 0 <= j < i ==> !FailedRoot(frames, j)
      {
        if FailedRoot(frames, i) {
          return Some(i);
        }
      }
      return None;
    }

    method FirstFailedLeaf() returns (found: Option<nat>)
      requires |index.children| == |frames|
      ensures found.Some? ==> found.value < |frames| && FailedLeaf(frames, index, found.value)
                              && forall i :: 0 <= i < found.value ==> !FailedLeaf(frames, index, i)
      ensures found.None? ==> forall i :: 0 <= i < |frames| ==> !FailedLeaf(frames, index, i)
    {
      for i := 0 to |frames|
        invariant forall j :: 0 <= j < i ==> !FailedLeaf(frames, index, j)
      {
        if FailedLeaf(frames, index, i) {
          return Some(i);
        }
      }
      return None;
    }

    method SelectFirst()
      requires Valid()
      modifies this`selected
      ensures FirstSelected(frames, index, selected)
    {
      selected := 0;
      var root := FirstFailedRoot();
      if root.Some? {
        selected := root.value;
      } else {
        var leaf := FirstFailedLeaf();
        if leaf.Some? {
          selected := leaf.value;
        }
      }
    }

    method SelectRun(run: seq<Frame>)
      requires Forest(run)
      modifies this
      ensures Valid() && frames == run && search == ""
      ensures FirstSelected(run, index, selected)
      ensures expanded == Ancestors(run, selected)
              + set i: nat | i < |run| && (|Ancestors(run, i)| < 4 || run[i].crossChain)
      ensures selected < |run| ==> SelectionShown()
    {
      hide FirstSelected, FailedLeaf, UnderFailure, UnderIncomplete, Lists, AncestorOrSelf, Depth, Root, MatchBelow, Total;
      frames, search := run, "";
      index := IndexRun(run);
      expanded := set i: nat | i < |run| && (index.depth[i] < OPEN_DEPTH || run[i].crossChain);
      SelectFirst();
      forall i: nat | i < |run| ensures |Ancestors(run, i)| == Depth(run, i) {
        DepthCountsAncestors(run, i);
      }
      OpenAncestors(selected);
      if selected < |run| {
        OpenedAncestors(run, expanded, selected);
      }
    }

    method FocusFrame(id: nat)
      requires Valid() && id < |frames|
      modifies this
      ensures Valid() && frames == old(frames) && index == old(index)
      ensures selected == id && search == "" && SelectionShown()
      ensures expanded == old(expanded) + Ancestors(frames, id)
    {
      selected := id;
      OpenAncestors(id);
      search := "";
      OpenedAncestors(frames, expanded, id);
    }

    /** The selected call is drawn, whatever the texts of the calls. */
    ghost predicate SelectionShown()
      requires Valid()
      reads this
    {
      && selected < |frames|
      && forall texts: seq<string> :: |texts| == |frames| ==>
           Shown(frames, expanded, search != "", Matches(texts, search), selected)
    }

    /** Which calls are drawn: one backward pass that keeps the parents of kept calls, one
        forward pass that hides what is below a hidden or closed call. */
    method DrawTree(texts: seq<string>) returns (visible: array<bool>)
      requires Valid() && |texts| == |frames|
      ensures fresh(visible) && visible.Length == |frames|
      ensures forall i :: 0 <= i < |frames| ==>
                visible[i] == Shown(frames, expanded, search != "", Matches(texts, search), i)
    {
      hide MatchBelow, AncestorsOpen, Includes, IndexUpTo, Lists, Shown, Matches, Lower;
      var matches := Matches(texts, search);
      var kept := new bool[|frames|](i requires 0 <= i < |matches| => matches[i]);
      assert kept[..] == matches;
      var i := |frames|;
      while i > 0
        invariant 0 <= i <= |frames| == kept.Length
        invariant IncludedFrom(frames, matches, kept[..], i)
      {
        i := i - 1;
        ghost var before := kept[..];
        if kept[i] && frames[i].parentId.Some? {
          kept[frames[i].parentId.value] := true;
        }
        BackwardStep(frames, matches, before, kept[..], i);
      }
      AllIncluded(frames, matches, kept[..]);
      visible := new bool[|frames|];
      for id := 0 to |frames|
        invariant forall j :: 0 <= j < |frames| ==> kept[j] == MatchBelow(frames, matches, j)
        invariant forall j :: 0 <= j < id ==> visible[j] == Shown(frames, expanded, search != "", matches, j)
      {
        var parent := frames[id].parentId;
        visible[id] := kept[id] && (parent.None? || (visible[parent.value] && (search != "" || parent.value in expanded)));
        ForwardStep(frames, expanded, search != "", matches, id);
      }
    }
  }
}
