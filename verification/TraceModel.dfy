/** A captured quote trace: validation of call frames, the forest index built from
    their parent pointers, and the two ways of summing up what a run did. */
module TraceModel {
  import opened Prelude
  import opened Numerals

  const MAX_RUNS: nat := 128
  const MAX_FRAMES: nat := 4096
  const MAX_CAPTURED_BYTES: nat := 4096
  const MAX_SAFE_INTEGER: int := 9_007_199_254_740_991

  datatype Status = Success | Revert | Halt | Incomplete

  datatype Bytes = Bytes(hex: string, length: int, truncated: bool)

  /** One call. Absent addresses are null in the capture. */
  datatype Frame = Frame(id: int, parentId: Option<int>, chainId: string, status: Status, kind: string, crossChain: bool,
                         from: Option<string>, to: Option<string>, codeAddress: Option<string>,
                         value: string, gas: string, gasUsed: Option<string>,
                         input: Bytes, output: Option<Bytes>, result: Option<string>)

  datatype Run = Run(id: int, phase: string, pass: int, purpose: string, txType: string, chainId: string,
                     complete: bool, input: Bytes, frames: seq<Frame>)

  predicate Failed(f: Frame) {
    f.status.Revert? || f.status.Halt?
  }

  // ---------------------------------------------------------------------------
  // Validation
  // ---------------------------------------------------------------------------

  /** "0x" and whole bytes, at most the capture limit; the stated length covers what was
      captured, and the truncation flag says whether it exceeds it. */
  predicate ValidBytes(b: Bytes) {
    && HexPrefixed(b.hex)
    && (|b.hex| - 2) % 2 == 0
    && Captured(b) <= MAX_CAPTURED_BYTES
    && 0 <= b.length <= MAX_SAFE_INTEGER
    && Captured(b) <= b.length
    && b.truncated == (b.length > Captured(b))
  }

  predicate HexPrefixed(s: string) {
    |s| >= 2 && s[0] == '0' && LowerChar(s[1]) == 'x' && AllDigits(s[2..], Hex)
  }

  /** 0x0, or up to 64 digits without a leading zero. */
  predicate Quantity(s: string) {
    HexPrefixed(s) && 3 <= |s| <= 66 && (s[2] == '0' ==> |s| == 3)
  }

  predicate NullableAddress(a: Option<string>) {
    a.None? || (HexPrefixed(a.value) && |a.value| == 42)
  }

  predicate ValidKind(f: Frame) {
    Quantity(f.chainId) && |f.kind| <= 32
  }

  /** The other texts of a frame. */
  predicate ValidTexts(f: Frame) {
    && NullableAddress(f.from) && NullableAddress(f.to) && NullableAddress(f.codeAddress)
    && Quantity(f.value) && Quantity(f.gas) && (f.gasUsed.Some? ==> Quantity(f.gasUsed.value))
    && (f.result.Some? ==> |f.result.value| <= 64)
  }

  /** The texts and numbers of a run. */
  predicate ValidRunFields(r: Run) {
    && |r.phase| <= 64 && 0 <= r.pass <= MAX_SAFE_INTEGER && |r.purpose| <= 64
    && (r.txType == "0x0" || r.txType == "0x2") && Quantity(r.chainId)
  }

  function Captured(b: Bytes): nat
    requires |b.hex| >= 2
  {
    (|b.hex| - 2) / 2
  }

  predicate ValidFrame(frames: seq<Frame>, i: nat)
    requires i < |frames|
  {
    var f := frames[i];
    && f.id == i
    && (f.parentId.Some? ==> 0 <= f.parentId.value < i)
    && ValidKind(f) && ValidTexts(f)
    && f.crossChain == (f.parentId.Some? && f.chainId != frames[f.parentId.value].chainId)
    && ValidBytes(f.input)
    && ((f.status.Incomplete? && f.output.None?) || (f.output.Some? && ValidBytes(f.output.value)))
  }

  ghost predicate ValidFrames(frames: seq<Frame>) {
    forall i :: 0 <= i < |frames| ==> ValidFrame(frames, i)
  }

  function FrameCount(runs: seq<Run>): nat {
    if runs == [] then 0 else FrameCount(runs[..|runs| - 1]) + |runs[|runs| - 1].frames|
  }

  ghost predicate ValidRuns(runs: seq<Run>) {
    && |runs| <= MAX_RUNS
    && FrameCount(runs) <= MAX_FRAMES
    && forall r :: 0 <= r < |runs| ==> runs[r].id == r && ValidRunFields(runs[r]) && ValidBytes(runs[r].input) && ValidFrames(runs[r].frames)
  }

  datatype Verdict = Accepted | Rejected(reason: string)

  method CheckFrames(frames: seq<Frame>) returns (v: Verdict)
    ensures v.Accepted? <==> ValidFrames(frames)
  {
    for id := 0 to |frames|
      invariant forall i :: 0 <= i < id ==> ValidFrame(frames, i)
    {
      var frame := frames[id];
      if frame.id != id || (frame.parentId.Some? && !(0 <= frame.parentId.value < id)) || !ValidKind(frame) {
        assert !ValidFrame(frames, id);
        return Rejected("Invalid call frame or parent");
      }
      if !ValidTexts(frame) {
        assert !ValidFrame(frames, id);
        return Rejected("Invalid frame fields");
      }
      if frame.crossChain != (frame.parentId.Some? && frame.chainId != frames[frame.parentId.value].chainId) {
        assert !ValidFrame(frames, id);
        return Rejected("Invalid cross-chain link");
      }
      if !ValidBytes(frame.input) {
        assert !ValidFrame(frames, id);
        return Rejected("Invalid captured bytes");
      }
      if !frame.status.Incomplete? || frame.output.Some? {
        if frame.output.None? || !ValidBytes(frame.output.value) {
          assert !ValidFrame(frames, id);
          return Rejected("Invalid captured bytes");
        }
      }
    }
    return Accepted;
  }

  lemma {:induction false} FrameCountGrows(runs: seq<Run>, n: nat)
    requires n <= |runs|
    ensures FrameCount(runs[..n]) <= FrameCount(runs)
  {
    if n < |runs| {
      var init := runs[..|runs| - 1];
      FrameCountGrows(init, n);
      assert init[..n] == runs[..n];
    } else {
      assert runs[..n] == runs;
    }
  }

  method CheckRuns(runs: seq<Run>) returns (v: Verdict)
    ensures v.Accepted? <==> ValidRuns(runs)
  {
    hide ValidRunFields, ValidBytes, ValidFrames;
    if |runs| > MAX_RUNS {
      return Rejected("Invalid trace runs");
    }
    var count := 0;
    for index := 0 to |runs|
      invariant count == FrameCount(runs[..index]) <= MAX_FRAMES
      invariant forall r :: 0 <= r < index ==> runs[r].id == r && ValidRunFields(runs[r]) && ValidBytes(runs[r].input) && ValidFrames(runs[r].frames)
    {
      var run := runs[index];
      if run.id != index || !ValidRunFields(run) {
        return Rejected("Invalid execution run");
      }
      count := count + |run.frames|;
      assert runs[..index + 1][..index] == runs[..index];
      FrameCountGrows(runs, index + 1);
      if count > MAX_FRAMES {
        return Rejected("Trace exceeds 4096 frames");
      }
      if !ValidBytes(run.input) {
        return Rejected("Invalid captured bytes");
      }
      var frames := CheckFrames(run.frames);
      if frames.Rejected? {
        return frames;
      }
    }
    assert runs[..|runs|] == runs;
    return Accepted;
  }

  // ---------------------------------------------------------------------------
  // The forest that parent pointers describe
  // ---------------------------------------------------------------------------

  /** Every parent pointer names an earlier frame. */
  ghost predicate Forest(frames: seq<Frame>) {
    forall i :: 0 <= i < |frames| ==> frames[i].parentId.Some? ==> 0 <= frames[i].parentId.value < i
  }

  lemma ValidFramesAreForest(frames: seq<Frame>)
    requires ValidFrames(frames)
    ensures Forest(frames) && forall i :: 0 <= i < |frames| ==> frames[i].id == i
  {
    forall i | 0 <= i < |frames|
      ensures frames[i].id == i && (frames[i].parentId.Some? ==> 0 <= frames[i].parentId.value < i)
    {
      assert ValidFrame(frames, i);
    }
  }

  ghost function Depth(frames: seq<Frame>, i: nat): nat
    requires Forest(frames) && i < |frames|
  {
    if frames[i].parentId.None? then 0 else 1 + Depth(frames, frames[i].parentId.value)
  }

  ghost function Root(frames: seq<Frame>, i: nat): (r: nat)
    requires Forest(frames) && i < |frames|
    ensures r <= i
  {
    if frames[i].parentId.None? then i else Root(frames, frames[i].parentId.value)
  }

  /** a is i or one of i's ancestors. */
  ghost predicate AncestorOrSelf(frames: seq<Frame>, a: nat, i: nat)
    requires Forest(frames) && i < |frames|
  {
    a == i || (frames[i].parentId.Some? && AncestorOrSelf(frames, a, frames[i].parentId.value))
  }

  ghost predicate UnderFailure(frames: seq<Frame>, i: nat)
    requires Forest(frames) && i < |frames|
  {
    exists a :: 0 <= a <= i && AncestorOrSelf(frames, a, i) && Failed(frames[a])
  }

  ghost predicate UnderIncomplete(frames: seq<Frame>, i: nat)
    requires Forest(frames) && i < |frames|
  {
    exists a :: 0 <= a <= i && AncestorOrSelf(frames, a, i) && frames[a].status.Incomplete?
  }

  datatype Index = Index(children: seq<seq<nat>>, roots: seq<nat>, depth: seq<nat>,
                         unwound: seq<bool>, incomplete: seq<bool>, rootId: seq<nat>)

  /** `list` is exactly the frames below n whose parent pointer is `parent`, in increasing order. */
  ghost predicate Lists(list: seq<nat>, frames: seq<Frame>, parent: Option<int>, n: nat)
    requires n <= |frames|
  {
    && Increasing(list)
    && forall j: nat :: j in list <==> j < n && frames[j].parentId == parent
  }

  ghost predicate IndexUpTo(frames: seq<Frame>, ix: Index, n: nat)
    requires Forest(frames) && n <= |frames|
  {
    && |ix.children| == |frames|
    && |ix.depth| == |ix.unwound| == |ix.incomplete| == |ix.rootId| == n
    && Lists(ix.roots, frames, None, n)
    && (forall p :: 0 <= p < |frames| ==> Lists(ix.children[p], frames, Some(p), n))
    && forall i :: 0 <= i < n ==>
         && ix.depth[i] == Depth(frames, i)
         && ix.rootId[i] == Root(frames, i)
         && ix.unwound[i] == UnderFailure(frames, i)
         && ix.incomplete[i] == UnderIncomplete(frames, i)
  }

  ghost predicate CorrectIndex(frames: seq<Frame>, ix: Index)
    requires Forest(frames)
  {
    IndexUpTo(frames, ix, |frames|)
  }

  function Total(lists: seq<seq<nat>>): nat {
    if lists == [] then 0 else |lists[0]| + Total(lists[1..])
  }

  lemma {:induction false} TotalAppend(lists: seq<seq<nat>>, p: nat, id: nat)
    requires p < |lists|
    ensures Total(lists[p := lists[p] + [id]]) == Total(lists) + 1
  {
    var updated := lists[p := lists[p] + [id]];
    if p > 0 {
      TotalAppend(lists[1..], p - 1, id);
      assert updated[1..] == lists[1..][p - 1 := lists[1..][p - 1] + [id]];
    } else {
      assert updated[1..] == lists[1..];
    }
  }

  lemma {:induction false} TotalEmpty(n: nat)
    ensures Total(seq(n, _ => [])) == 0
  {
    if n > 0 {
      TotalEmpty(n - 1);
      var none: seq<seq<nat>> := seq(n, _ => []);
      var fewer: seq<seq<nat>> := seq(n - 1, _ => []);
      assert none[1..] == fewer;
    }
  }

  lemma UnderFailureStep(frames: seq<Frame>, i: nat)
    requires Forest(frames) && i < |frames|
    ensures UnderFailure(frames, i) <==>
            Failed(frames[i]) || (frames[i].parentId.Some? && UnderFailure(frames, frames[i].parentId.value))
    ensures UnderIncomplete(frames, i) <==>
            frames[i].status.Incomplete? || (frames[i].parentId.Some? && UnderIncomplete(frames, frames[i].parentId.value))
  {
    assert AncestorOrSelf(frames, i, i);
    if frames[i].parentId.Some? {
      var p: nat := frames[i].parentId.value;
      if UnderFailure(frames, p) {
        var a :| 0 <= a <= p && AncestorOrSelf(frames, a, p) && Failed(frames[a]);
        assert AncestorOrSelf(frames, a, i);
      }
      if UnderIncomplete(frames, p) {
        var a :| 0 <= a <= p && AncestorOrSelf(frames, a, p) && frames[a].status.Incomplete?;
        assert AncestorOrSelf(frames, a, i);
      }
      forall a | 0 <= a <= i && AncestorOrSelf(frames, a, i) && a != i ensures a <= p {
        AncestorIsEarlier(frames, a, p);
      }
    }
  }

  lemma {:induction false} AncestorIsEarlier(frames: seq<Frame>, a: nat, i: nat)
    requires Forest(frames) && i < |frames| && AncestorOrSelf(frames, a, i)
    ensures a <= i
    decreases i
  {
    if a != i {
      AncestorIsEarlier(frames, a, frames[i].parentId.value);
    }
  }

  /** Adding frame id to one list keeps every list exact one frame further. */
  lemma ListsStep(list: seq<nat>, frames: seq<Frame>, parent: Option<int>, id: nat)
    requires id < |frames| && Lists(list, frames, parent, id)
    ensures Lists(if frames[id].parentId == parent then list + [id] else list, frames, parent, id + 1)
  {
    assert forall j :: 0 <= j < |list| ==> list[j] in list;
    assert forall j: nat :: j in list + [id] <==> j in list || j == id;
  }

  /** The index entries that one more frame adds, from those of its parent. */
  ghost predicate IndexStep(frames: seq<Frame>, ix: Index, next: Index, id: nat)
    requires Forest(frames) && id < |frames| && IndexUpTo(frames, ix, id)
  {
    var f := frames[id];
    && (if f.parentId.None?
        then next.roots == ix.roots + [id] && next.children == ix.children
             && next.depth == ix.depth + [0] && next.rootId == ix.rootId + [id]
        else
          var p: nat := f.parentId.value;
          && next.roots == ix.roots && next.children == ix.children[p := ix.children[p] + [id]]
          && next.depth == ix.depth + [ix.depth[p] + 1] && next.rootId == ix.rootId + [ix.rootId[p]])
    && next.unwound == ix.unwound + [Failed(f) || (f.parentId.Some? && ix.unwound[f.parentId.value])]
    && next.incomplete == ix.incomplete + [f.status.Incomplete? || (f.parentId.Some? && ix.incomplete[f.parentId.value])]
  }

  lemma ListsAfterStep(frames: seq<Frame>, ix: Index, next: Index, id: nat)
    requires Forest(frames) && id < |frames| && IndexUpTo(frames, ix, id) && IndexStep(frames, ix, next, id)
    ensures |next.children| == |frames| && Lists(next.roots, frames, None, id + 1)
    ensures forall p :: 0 <= p < |frames| ==> Lists(next.children[p], frames, Some(p), id + 1)
  {
    hide UnderFailure, UnderIncomplete, Depth, Root, Lists;
    ListsStep(ix.roots, frames, None, id);
    forall p | 0 <= p < |frames| ensures Lists(next.children[p], frames, Some(p), id + 1) {
      ListsStep(ix.children[p], frames, Some(p), id);
    }
  }

  lemma IndexStepCorrect(frames: seq<Frame>, ix: Index, next: Index, id: nat)
    requires Forest(frames) && id < |frames| && IndexUpTo(frames, ix, id) && IndexStep(frames, ix, next, id)
    ensures IndexUpTo(frames, next, id + 1)
  {
    hide UnderFailure, UnderIncomplete, Lists;
    ListsAfterStep(frames, ix, next, id);
    UnderFailureStep(frames, id);
  }

  /** The index, in one forward pass. */
  method IndexRun(frames: seq<Frame>) returns (ix: Index)
    requires Forest(frames)
    ensures CorrectIndex(frames, ix)
    ensures |ix.roots| + Total(ix.children) == |frames|
  {
    hide Total, Lists, UnderFailure, UnderIncomplete, Depth, Root;
    var children: seq<seq<nat>> := seq(|frames|, _ => []);
    var roots: seq<nat>, depth: seq<nat>, unwound, incomplete, rootId: seq<nat> := [], [], [], [], [];
    TotalEmpty(|frames|);
    NothingListed(frames, children);
    for id := 0 to |frames|
      invariant IndexUpTo(frames, Index(children, roots, depth, unwound, incomplete, rootId), id)
      invariant |roots| + Total(children) == id
    {
      ghost var before := Index(children, roots, depth, unwound, incomplete, rootId);
      var frame := frames[id];
      if frame.parentId.None? {
        roots := roots + [id];
        depth := depth + [0];
        rootId := rootId + [id];
      } else {
        var p: nat := frame.parentId.value;
        TotalAppend(children, p, id);
        children := children[p := children[p] + [id]];
        depth := depth + [depth[p] + 1];
        rootId := rootId + [rootId[p]];
      }
      unwound := unwound + [Failed(frame) || (frame.parentId.Some? && unwound[frame.parentId.value])];
      incomplete := incomplete + [frame.status.Incomplete? || (frame.parentId.Some? && incomplete[frame.parentId.value])];
      IndexStepCorrect(frames, before, Index(children, roots, depth, unwound, incomplete, rootId), id);
    }
    ix := Index(children, roots, depth, unwound, incomplete, rootId);
  }

  lemma NothingListed(frames: seq<Frame>, children: seq<seq<nat>>)
    requires Forest(frames) && |children| == |frames| && forall p :: 0 <= p < |children| ==> children[p] == []
    ensures IndexUpTo(frames, Index(children, [], [], [], [], []), 0)
  {
  }

  /** Roots and child lists together name every frame exactly once. */
  lemma EveryFrameListedOnce(frames: seq<Frame>, ix: Index, id: nat)
    requires Forest(frames) && CorrectIndex(frames, ix) && id < |frames|
    ensures id in ix.roots <==> frames[id].parentId == None
    ensures forall p :: 0 <= p < |frames| ==> (id in ix.children[p] <==> frames[id].parentId == Some(p))
    ensures frames[id].parentId.Some? ==> id in ix.children[frames[id].parentId.value]
    ensures Distinct(ix.roots) && forall p :: 0 <= p < |frames| ==> Distinct(ix.children[p])
  {
  }

  /** The root is an ancestor without a parent, and the only one. */
  lemma {:induction false} RootIsTheParentlessAncestor(frames: seq<Frame>, i: nat, a: nat)
    requires Forest(frames) && i < |frames|
    ensures AncestorOrSelf(frames, Root(frames, i), i) && frames[Root(frames, i)].parentId.None?
    ensures a < |frames| && AncestorOrSelf(frames, a, i) && frames[a].parentId.None? ==> a == Root(frames, i)
    decreases i
  {
    if frames[i].parentId.Some? {
      RootIsTheParentlessAncestor(frames, frames[i].parentId.value, a);
    }
  }

  /** A frame on another chain than its root was reached through a cross-chain call. */
  lemma {:induction false} ChainChangeIsRecorded(frames: seq<Frame>, i: nat) returns (a: nat)
    requires ValidFrames(frames) && i < |frames|
    requires Forest(frames) && frames[i].chainId != frames[Root(frames, i)].chainId
    ensures a < |frames| && AncestorOrSelf(frames, a, i) && frames[a].crossChain
    decreases i
  {
    assert ValidFrame(frames, i);
    if frames[i].crossChain {
      a := i;
    } else {
      a := ChainChangeIsRecorded(frames, frames[i].parentId.value);
    }
  }

  // ---------------------------------------------------------------------------
  // Disposition of a frame, summary of a run
  // ---------------------------------------------------------------------------

  datatype Disposition = EffectsUnknown | InsideSuccess | FailedFrame | RolledBack | Succeeded

  function DispositionOf(frames: seq<Frame>, ix: Index, i: nat): Disposition
    requires Forest(frames) && CorrectIndex(frames, ix) && i < |frames|
  {
    if ix.incomplete[i] then EffectsUnknown
    else if Failed(frames[i]) then
      if frames[ix.rootId[i]].status.Success? then InsideSuccess else FailedFrame
    else if ix.unwound[i] then RolledBack
    else Succeeded
  }

  /** What each label says of the frame and the calls above it. */
  lemma DispositionMeaning(frames: seq<Frame>, ix: Index, i: nat)
    requires Forest(frames) && CorrectIndex(frames, ix) && i < |frames|
    ensures var d := DispositionOf(frames, ix, i);
      var known := forall a :: 0 <= a <= i && AncestorOrSelf(frames, a, i) ==> !frames[a].status.Incomplete?;
      && (d.EffectsUnknown? <==> !known)
      && (d.FailedFrame? || d.InsideSuccess? <==> known && Failed(frames[i]))
      && (d.InsideSuccess? ==> exists a :: 0 <= a <= i && AncestorOrSelf(frames, a, i) && frames[a].parentId.None? && frames[a].status.Success?)
      && (d.FailedFrame? ==> exists a :: 0 <= a <= i && AncestorOrSelf(frames, a, i) && frames[a].parentId.None? && Failed(frames[a]))
      && (d.RolledBack? <==> known && frames[i].status.Success?
                             && exists a :: 0 <= a <= i && AncestorOrSelf(frames, a, i) && Failed(frames[a]))
      && (d.Succeeded? <==> forall a :: 0 <= a <= i && AncestorOrSelf(frames, a, i) ==> frames[a].status.Success?)
  {
    hide Lists, Depth;
    RootIsTheParentlessAncestor(frames, i, i);
    assert AncestorOrSelf(frames, i, i) && AncestorOrSelf(frames, Root(frames, i), i);
  }

  /** filter over frame ids: the increasing list of those below n that qualify. */
  function Where(n: nat, keep: nat -> bool): (r: seq<nat>)
    ensures Increasing(r) && forall i: nat :: i in r <==> i < n && keep(i)
  {
    if n == 0 then []
    else if keep(n - 1) then
      var before := Where(n - 1, keep);
      assert forall i :: 0 <= i < |before| ==> before[i] in before;
      assert forall i: nat :: i in before + [n - 1] <==> i in before || i == n - 1;
      before + [n - 1]
    else Where(n - 1, keep)
  }

  function FailedIds(frames: seq<Frame>): (r: seq<nat>)
    ensures Increasing(r) && forall i: nat :: i in r <==> i < |frames| && Failed(frames[i])
  {
    Where(|frames|, (i: nat) => i < |frames| && Failed(frames[i]))
  }

  function FailedRoots(frames: seq<Frame>, ix: Index): (r: seq<nat>)
    ensures Increasing(r) && forall i: nat :: i in r <==> i < |frames| && i in ix.roots && Failed(frames[i])
  {
    Where(|frames|, (i: nat) => i < |frames| && i in ix.roots && Failed(frames[i]))
  }

  function IncompleteIds(frames: seq<Frame>): (r: seq<nat>)
    ensures Increasing(r) && forall i: nat :: i in r <==> i < |frames| && frames[i].status.Incomplete?
  {
    Where(|frames|, (i: nat) => i < |frames| && frames[i].status.Incomplete?)
  }

  /** Calls that returned although a failed ancestor undid their effects. */
  function RolledBackIds(frames: seq<Frame>, ix: Index): (r: seq<nat>)
    requires |ix.unwound| == |frames|
    ensures Increasing(r) && forall i: nat :: i in r <==> i < |frames| && frames[i].status.Success? && ix.unwound[i]
  {
    Where(|frames|, (i: nat) => i < |frames| && frames[i].status.Success? && ix.unwound[i])
  }

  datatype Title = EvidenceIncomplete | FailedInRun(roots: seq<nat>) | NestedFailure | NoFailure

  datatype Summary = Summary(title: Title, failed: seq<nat>, focus: Option<nat>, lastChild: Option<nat>, rolledBack: nat)

  /** failedRoots[0] ?? failed[0] */
  function Focus(frames: seq<Frame>, ix: Index): (r: Option<nat>)
    ensures r.Some? ==> r.value < |frames| && Failed(frames[r.value])
  {
    var failed, failedRoots := FailedIds(frames), FailedRoots(frames, ix);
    if failedRoots != [] then assert failedRoots[0] in failedRoots; Some(failedRoots[0])
    else if failed != [] then assert failed[0] in failed; Some(failed[0])
    else None
  }

  function Last(list: seq<nat>): Option<nat> {
    if list == [] then None else Some(list[|list| - 1])
  }

  function SummaryOf(run: Run, ix: Index): Summary
    requires Forest(run.frames) && CorrectIndex(run.frames, ix)
  {
    var frames := run.frames;
    var failed, failedRoots, focus := FailedIds(frames), FailedRoots(frames, ix), Focus(frames, ix);
    var title :=
      if !run.complete || IncompleteIds(frames) != [] then EvidenceIncomplete
      else if failedRoots != [] then FailedInRun(failedRoots)
      else if failed != [] then NestedFailure
      else NoFailure;
    Summary(title, failed, focus, if focus.None? then None else Last(ix.children[focus.value]),
            |RolledBackIds(frames, ix)|)
  }

  // ---------------------------------------------------------------------------
  // The summary and the dispositions are two views of the same facts
  // ---------------------------------------------------------------------------

  ghost predicate SomeFrame(frames: seq<Frame>, ix: Index, d: Disposition)
    requires Forest(frames) && CorrectIndex(frames, ix)
  {
    exists i :: 0 <= i < |frames| && DispositionOf(frames, ix, i) == d
  }

  lemma RootFacts(frames: seq<Frame>, ix: Index, i: nat)
    requires Forest(frames) && CorrectIndex(frames, ix) && i < |frames|
    ensures ix.rootId[i] in ix.roots
    ensures i in ix.roots ==> ix.rootId[i] == i
    ensures Failed(frames[i]) ==> ix.unwound[i]
    ensures frames[i].status.Incomplete? ==> ix.incomplete[i]
    ensures ix.unwound[i] ==> exists a :: 0 <= a < |frames| && Failed(frames[a])
    ensures ix.incomplete[i] ==> exists a :: 0 <= a < |frames| && frames[a].status.Incomplete?
  {
    RootIsTheParentlessAncestor(frames, i, i);
    assert Lists(ix.roots, frames, None, |frames|);
    assert AncestorOrSelf(frames, i, i);
  }

  lemma NonEmpty(list: seq<nat>)
    ensures list != [] <==> exists i: nat :: i in list
  {
    if list != [] {
      assert list[0] in list;
    }
  }

  lemma UnknownIffIncomplete(frames: seq<Frame>, ix: Index)
    requires Forest(frames) && CorrectIndex(frames, ix)
    ensures SomeFrame(frames, ix, EffectsUnknown) <==> IncompleteIds(frames) != []
  {
    hide CorrectIndex;
    NonEmpty(IncompleteIds(frames));
    if SomeFrame(frames, ix, EffectsUnknown) {
      var i :| 0 <= i < |frames| && DispositionOf(frames, ix, i) == EffectsUnknown;
      RootFacts(frames, ix, i);
      var a :| 0 <= a < |frames| && frames[a].status.Incomplete?;
      assert a in IncompleteIds(frames);
    }
    if i :| i in IncompleteIds(frames) {
      RootFacts(frames, ix, i);
      assert DispositionOf(frames, ix, i) == EffectsUnknown;
    }
  }

  /** Without incomplete frames: a frame is labelled failed iff a root failed. */
  lemma FailedFrameIffRootFailed(frames: seq<Frame>, ix: Index)
    requires Forest(frames) && CorrectIndex(frames, ix) && IncompleteIds(frames) == []
    ensures SomeFrame(frames, ix, FailedFrame) <==> FailedRoots(frames, ix) != []
  {
    hide Lists, Depth, Root, UnderFailure, UnderIncomplete;
    NonEmpty(FailedRoots(frames, ix));
    if SomeFrame(frames, ix, FailedFrame) {
      var i :| 0 <= i < |frames| && DispositionOf(frames, ix, i) == FailedFrame;
      RootFacts(frames, ix, i);
      var r := ix.rootId[i];
      assert r !in IncompleteIds(frames);
      assert r in FailedRoots(frames, ix);
    }
    if i :| i in FailedRoots(frames, ix) {
      RootFacts(frames, ix, i);
      NoneUnknown(frames, ix, i);
      assert DispositionOf(frames, ix, i) == FailedFrame;
    }
  }

  lemma NoneUnknown(frames: seq<Frame>, ix: Index, i: nat)
    requires Forest(frames) && CorrectIndex(frames, ix) && IncompleteIds(frames) == [] && i < |frames|
    ensures DispositionOf(frames, ix, i) != EffectsUnknown
  {
  }

  /** Without incomplete frames: every frame succeeded iff none failed. */
  lemma AllSucceededIffNoneFailed(frames: seq<Frame>, ix: Index)
    requires Forest(frames) && CorrectIndex(frames, ix) && IncompleteIds(frames) == []
    ensures (forall i :: 0 <= i < |frames| ==> DispositionOf(frames, ix, i) == Succeeded) <==> FailedIds(frames) == []
    ensures FailedIds(frames) != [] <==> SomeFrame(frames, ix, FailedFrame) || SomeFrame(frames, ix, InsideSuccess)
  {
    hide Lists, Depth, Root, UnderFailure, UnderIncomplete;
    NonEmpty(FailedIds(frames));
    forall i | 0 <= i < |frames|
      ensures DispositionOf(frames, ix, i) != EffectsUnknown
      ensures Failed(frames[i]) ==> DispositionOf(frames, ix, i) in {FailedFrame, InsideSuccess}
      ensures DispositionOf(frames, ix, i) in {FailedFrame, InsideSuccess} ==> i in FailedIds(frames)
      ensures FailedIds(frames) == [] ==> DispositionOf(frames, ix, i) == Succeeded
    {
      NoneUnknown(frames, ix, i);
      RootFacts(frames, ix, i);
      if ix.unwound[i] {
        var a :| 0 <= a < |frames| && Failed(frames[a]);
        assert a in FailedIds(frames);
      }
    }
    if i :| i in FailedIds(frames) {
      assert DispositionOf(frames, ix, i) in {FailedFrame, InsideSuccess};
    }
  }

  /** The title is determined by the dispositions shown for the individual frames. */
  lemma TitleAgreesWithDispositions(run: Run, ix: Index)
    requires Forest(run.frames) && CorrectIndex(run.frames, ix)
    ensures var t := SummaryOf(run, ix).title;
            var unknown := !run.complete || SomeFrame(run.frames, ix, EffectsUnknown);
            && (t.EvidenceIncomplete? <==> unknown)
            && (t.FailedInRun? <==> !unknown && SomeFrame(run.frames, ix, FailedFrame))
            && (t.NestedFailure? <==> !unknown && !SomeFrame(run.frames, ix, FailedFrame)
                                      && SomeFrame(run.frames, ix, InsideSuccess))
            && (t.NoFailure? <==> run.complete && forall i :: 0 <= i < |run.frames| ==>
                                      DispositionOf(run.frames, ix, i) == Succeeded)
  {
    hide SomeFrame, CorrectIndex, DispositionOf;
    var frames := run.frames;
    UnknownIffIncomplete(frames, ix);
    if IncompleteIds(frames) == [] {
      FailedFrameIffRootFailed(frames, ix);
      AllSucceededIffNoneFailed(frames, ix);
      NoFailedRootWithoutFailure(frames, ix);
    } else {
      SomeUnknownIsNotSucceeded(frames, ix);
    }
  }

  lemma NoFailedRootWithoutFailure(frames: seq<Frame>, ix: Index)
    ensures FailedIds(frames) == [] ==> FailedRoots(frames, ix) == []
  {
    if FailedRoots(frames, ix) != [] {
      assert FailedRoots(frames, ix)[0] in FailedRoots(frames, ix);
      assert FailedRoots(frames, ix)[0] in FailedIds(frames);
    }
  }

  lemma SomeUnknownIsNotSucceeded(frames: seq<Frame>, ix: Index)
    requires Forest(frames) && CorrectIndex(frames, ix) && SomeFrame(frames, ix, EffectsUnknown)
    ensures exists i :: 0 <= i < |frames| && DispositionOf(frames, ix, i) != Succeeded
  {
  }

  /** Each failed frame under each title: a nested failure sits inside a success, and a
      failed root is labelled failed. */
  lemma FailedFramesUnderTitle(run: Run, ix: Index, i: nat)
    requires Forest(run.frames) && CorrectIndex(run.frames, ix) && i in FailedIds(run.frames)
    ensures SummaryOf(run, ix).title.NestedFailure? ==> DispositionOf(run.frames, ix, i) == InsideSuccess
    ensures SummaryOf(run, ix).title.FailedInRun? && i in ix.roots ==> DispositionOf(run.frames, ix, i) == FailedFrame
    ensures SummaryOf(run, ix).title.FailedInRun? ==>
              (i in SummaryOf(run, ix).title.roots <==> i in ix.roots)
  {
    hide CorrectIndex;
    TitleAgreesWithDispositions(run, ix);
    RootFacts(run.frames, ix, i);
  }

  // ---------------------------------------------------------------------------
  // The rolled-back count
  // ---------------------------------------------------------------------------

  ghost function LabelledRolledBack(frames: seq<Frame>, ix: Index): (r: seq<nat>)
    requires Forest(frames) && CorrectIndex(frames, ix)
    ensures Increasing(r) && forall i: nat :: i in r <==> i < |frames| && DispositionOf(frames, ix, i) == RolledBack
  {
    Where(|frames|, (i: nat) => i < |frames| && Forest(frames) && CorrectIndex(frames, ix)
                                && DispositionOf(frames, ix, i) == RolledBack)
  }

  /** Returned calls under both a failed and an incomplete ancestor. */
  ghost predicate HiddenRollback(frames: seq<Frame>, ix: Index, i: nat)
    requires Forest(frames) && CorrectIndex(frames, ix) && i < |frames|
  {
    frames[i].status.Success? && ix.unwound[i] && ix.incomplete[i]
  }

  /** The summary counts exactly the frames labelled "rolled back by an ancestor" if and
      only if no returned call under a failure also sits under an incomplete frame; in
      particular whenever nothing is incomplete. */
  lemma RolledBackCountAgrees(run: Run, ix: Index)
    requires Forest(run.frames) && CorrectIndex(run.frames, ix)
    ensures |LabelledRolledBack(run.frames, ix)| <= SummaryOf(run, ix).rolledBack
    ensures SummaryOf(run, ix).rolledBack == |LabelledRolledBack(run.frames, ix)|
            <==> forall i :: 0 <= i < |run.frames| ==> !HiddenRollback(run.frames, ix, i)
  {
    hide Lists, Depth, Root, UnderFailure, UnderIncomplete;
    var frames := run.frames;
    var counted, labelled := RolledBackIds(frames, ix), LabelledRolledBack(frames, ix);
    DistinctCardinality(counted);
    DistinctCardinality(labelled);
    forall i | i in counted || i in labelled
      ensures i in counted && (i in labelled <==> !HiddenRollback(frames, ix, i))
    {
      RolledBackLabel(frames, ix, i);
    }
    var c, l := ToSet(counted), ToSet(labelled);
    SubsetSize(l, c);
    assert c - l == {} <==> forall i :: i in counted ==> i in labelled by {
      if c - l == {} {
        forall i | i in counted ensures i in labelled { assert i !in c - l; }
      }
    }
    assert forall i :: 0 <= i < |frames| && HiddenRollback(frames, ix, i) ==> i in counted;
  }

  /** The count is the number of calls that returned under a failed call. */
  lemma RolledBackCountIs(run: Run, ix: Index)
    requires Forest(run.frames) && CorrectIndex(run.frames, ix)
    ensures SummaryOf(run, ix).rolledBack
            == |set i: nat | i < |run.frames| && run.frames[i].status.Success? && UnderFailure(run.frames, i)|
  {
    hide Lists, Depth, Root, UnderFailure, UnderIncomplete;
    var counted := RolledBackIds(run.frames, ix);
    DistinctCardinality(counted);
    assert ToSet(counted) == set i: nat | i < |run.frames| && run.frames[i].status.Success? && UnderFailure(run.frames, i);
  }

  /** A counted frame carries the label unless an incomplete ancestor hides it. */
  lemma RolledBackLabel(frames: seq<Frame>, ix: Index, i: nat)
    requires Forest(frames) && CorrectIndex(frames, ix)
    requires i in RolledBackIds(frames, ix) || i in LabelledRolledBack(frames, ix)
    ensures i < |frames| && i in RolledBackIds(frames, ix)
    ensures i in LabelledRolledBack(frames, ix) <==> !HiddenRollback(frames, ix, i)
  {
  }

  lemma SubsetSize(l: set<nat>, c: set<nat>)
    requires l <= c
    ensures |l| <= |c| && (|l| == |c| <==> c - l == {})
  {
    assert c == l + (c - l);
    assert |c| == |l| + |c - l|;
  }

  /** A failed call that made an unfinished call, which made one that returned. */
  function Interrupted(frame: Frame): seq<Frame> {
    [frame.(id := 0, parentId := None, status := Revert),
     frame.(id := 1, parentId := Some(0), status := Incomplete),
     frame.(id := 2, parentId := Some(1), status := Success)]
  }

  lemma InterruptedIsValid(frame: Frame)
    requires ValidFrame([frame.(id := 0, parentId := None)], 0) && frame.output.Some? && ValidBytes(frame.output.value)
    ensures ValidFrames(Interrupted(frame)) && Forest(Interrupted(frame))
  {
    hide ValidKind, ValidTexts, ValidBytes;
    var frames := Interrupted(frame);
    assert ValidKind(frame) && ValidTexts(frame) by { SameTexts(frame, [frame.(id := 0, parentId := None)][0]); }
    forall i | 0 <= i < |frames| ensures ValidKind(frames[i]) && ValidTexts(frames[i]) {
      SameTexts(frames[i], frame);
    }
  }

  lemma SameTexts(f: Frame, g: Frame)
    requires f == g.(id := f.id, parentId := f.parentId, status := f.status) && ValidKind(g) && ValidTexts(g)
    ensures ValidKind(f) && ValidTexts(f)
  {
  }

  lemma InterruptedHides(frame: Frame, ix: Index)
    requires Forest(Interrupted(frame)) && CorrectIndex(Interrupted(frame), ix)
    ensures HiddenRollback(Interrupted(frame), ix, 2)
  {
    hide Lists;
    var frames := Interrupted(frame);
    UnderFailureStep(frames, 0);
    UnderFailureStep(frames, 1);
    UnderFailureStep(frames, 2);
  }

  /** Such runs are accepted, and their rolled-back count exceeds the labels shown. */
  lemma CountExceedsLabels(frame: Frame, run: Run, ix: Index)
    requires ValidFrame([frame.(id := 0, parentId := None)], 0) && frame.output.Some? && ValidBytes(frame.output.value)
    requires run.id == 0 && run.frames == Interrupted(frame) && ValidRunFields(run) && ValidBytes(run.input)
    ensures ValidRuns([run]) && Forest(run.frames)
    ensures CorrectIndex(run.frames, ix) ==> |LabelledRolledBack(run.frames, ix)| < SummaryOf(run, ix).rolledBack
  {
    hide ValidFrame, ValidRuns, ValidFrames, Forest, CorrectIndex, HiddenRollback;
    InterruptedIsValid(frame);
    OneRun(run);
    if CorrectIndex(run.frames, ix) {
      InterruptedHides(frame, ix);
      RolledBackCountAgrees(run, ix);
    }
  }

  lemma OneRun(run: Run)
    requires run.id == 0 && ValidRunFields(run) && ValidBytes(run.input) && ValidFrames(run.frames) && |run.frames| <= MAX_FRAMES
    ensures ValidRuns([run])
  {
    hide ValidFrames;
    assert [run][..0] == [];
    assert FrameCount([run]) == |run.frames|;
  }

  lemma RolledBackCountWhenComplete(run: Run, ix: Index)
    requires Forest(run.frames) && CorrectIndex(run.frames, ix) && IncompleteIds(run.frames) == []
    ensures SummaryOf(run, ix).rolledBack == |LabelledRolledBack(run.frames, ix)|
  {
    hide CorrectIndex;
    RolledBackCountAgrees(run, ix);
    forall i | 0 <= i < |run.frames| ensures !HiddenRollback(run.frames, ix, i) {
      NoneUnknown(run.frames, ix, i);
    }
  }

  /** The focus is a failed frame, a root if any root failed, and the first such. */
  lemma FocusIsFirstFailure(frames: seq<Frame>, ix: Index)
    ensures var focus, roots := Focus(frames, ix), FailedRoots(frames, ix);
            && (focus.Some? <==> FailedIds(frames) != [])
            && (focus.Some? ==>
                  && focus.value in FailedIds(frames)
                  && (roots != [] ==> focus.value in roots && forall i :: i in roots ==> focus.value <= i)
                  && (roots == [] ==> forall i :: i in FailedIds(frames) ==> focus.value <= i))
  {
  }

  /** The last recorded child of the focus is the latest call it made, if it made any. */
  lemma LastChildIsLatestCall(run: Run, ix: Index)
    requires Forest(run.frames) && CorrectIndex(run.frames, ix)
    requires SummaryOf(run, ix).focus.Some?
    ensures var focus, child := SummaryOf(run, ix).focus.value, SummaryOf(run, ix).lastChild;
            && (child.None? ==> forall j :: 0 <= j < |run.frames| ==> run.frames[j].parentId != Some(focus))
            && (child.Some? ==>
                  && child.value < |run.frames| && run.frames[child.value].parentId == Some(focus)
                  && forall j :: child.value < j < |run.frames| ==> run.frames[j].parentId != Some(focus))
  {
    hide Depth, Root, UnderFailure, UnderIncomplete, FailedIds, FailedRoots, IncompleteIds, RolledBackIds;
    var f := SummaryOf(run, ix).focus.value;
    assert Lists(ix.children[f], run.frames, Some(f), |run.frames|);
    LastIsGreatest(ix.children[f]);
  }

  lemma LastIsGreatest(list: seq<nat>)
    requires Increasing(list)
    ensures forall i :: i in list ==> i <= list[|list| - 1]
    ensures list != [] ==> list[|list| - 1] in list
  {
  }

  /** The summary of an accepted run, against the labels its frames are shown with: the title
      says exactly what the labels say, the count misses no rolled-back label, and the focus
      is a failed call whenever there is one. */
  method FailureSummary(run: Run) returns (s: Summary, ix: Index)
    requires ValidFrames(run.frames)
    ensures Forest(run.frames) && CorrectIndex(run.frames, ix)
    ensures s.title.NoFailure? <==>
            run.complete && forall i :: 0 <= i < |run.frames| ==> DispositionOf(run.frames, ix, i) == Succeeded
    ensures s.title.FailedInRun? || s.title.NestedFailure? ==>
            run.complete && forall i :: 0 <= i < |run.frames| ==> DispositionOf(run.frames, ix, i) != EffectsUnknown
    ensures s.title.FailedInRun? ==> SomeFrame(run.frames, ix, FailedFrame)
    ensures s.title.NestedFailure? ==> !SomeFrame(run.frames, ix, FailedFrame) && SomeFrame(run.frames, ix, InsideSuccess)
    ensures forall i: nat :: i in s.failed <==> i < |run.frames| && Failed(run.frames[i])
    ensures s.focus.Some? <==> s.failed != []
    ensures s.focus.Some? ==> s.focus.value in s.failed
    ensures s.title.FailedInRun? ==> Increasing(s.title.roots)
    ensures s.title.FailedInRun? ==> forall i: nat :: i in s.title.roots <==> i < |run.frames| && run.frames[i].parentId.None? && Failed(run.frames[i])
    ensures s.lastChild.Some? ==> s.focus.Some? && s.lastChild.value < |run.frames|
    ensures s.lastChild.Some? ==> run.frames[s.lastChild.value].parentId == Some(s.focus.value)
    ensures s.focus.Some? && s.lastChild.None? ==> forall j :: 0 <= j < |run.frames| ==> run.frames[j].parentId != Some(s.focus.value)
    ensures s.rolledBack == |set i: nat | i < |run.frames| && run.frames[i].status.Success? && UnderFailure(run.frames, i)|
    ensures |LabelledRolledBack(run.frames, ix)| <= s.rolledBack
    ensures (forall i :: 0 <= i < |run.frames| ==> !HiddenRollback(run.frames, ix, i)) ==> s.rolledBack == |LabelledRolledBack(run.frames, ix)|
  {
    hide DispositionOf, IndexUpTo, LabelledRolledBack, HiddenRollback, Total, ValidFrame;
    ValidFramesAreForest(run.frames);
    ix := IndexRun(run.frames);
    s := SummaryOf(run, ix);
    TitleAgreesWithDispositions(run, ix);
    RolledBackCountAgrees(run, ix);
    FocusIsFirstFailure(run.frames, ix);
    RolledBackCountIs(run, ix);
    RootsAreParentless(run.frames, ix);
    if s.focus.Some? {
      LastChildIsLatestCall(run, ix);
    }
  }

  lemma RootsAreParentless(frames: seq<Frame>, ix: Index)
    requires Forest(frames) && CorrectIndex(frames, ix)
    ensures forall i: nat :: i in FailedRoots(frames, ix) <==> i < |frames| && frames[i].parentId.None? && Failed(frames[i])
  {
    hide Depth, Root, UnderFailure, UnderIncomplete;
  }
}
