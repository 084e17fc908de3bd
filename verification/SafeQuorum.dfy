/** Owner snapshots of a Safe, the text that says whether two of them agree, and the
    quorum that a submission must carry. */
module SafeQuorum {
  import opened Prelude
  import opened Numerals

  datatype SafeChain = L1 | L2

  datatype Snapshot = Snapshot(source: SafeChain, owners: seq<string>, threshold: nat, nonce: nat)

  /** The Safe call under review. `payload` stands for every signed field but the nonce. */
  datatype SafeTransaction = SafeTransaction(payload: int, nonce: nat)

  /** A collected signature: whose, over which transaction, and the snapshots read just
      before the wallet was asked and just after it answered. */
  datatype Approval = Approval(owner: string, transaction: SafeTransaction, before: Snapshot, after: Snapshot)

  /** What reading a snapshot checks. */
  predicate ValidSnapshot(s: Snapshot) {
    0 < s.threshold <= |s.owners| && forall i :: 0 <= i < |s.owners| ==> IsAddress(s.owners[i])
  }

  /** Addresses are compared without regard to letter case. */
  predicate SameAddress(a: string, b: string) {
    Lower(a) == Lower(b)
  }

  predicate Owns(s: Snapshot, a: string) {
    exists i :: 0 <= i < |s.owners| && SameAddress(s.owners[i], a)
  }

  /** owners.join(",") */
  function Joined(owners: seq<string>): string {
    if owners == [] then ""
    else if |owners| == 1 then owners[0]
    else Joined(owners[..|owners| - 1]) + "," + owners[|owners| - 1]
  }

  function Fingerprint(s: Snapshot): string {
    Print(s.threshold, Decimal) + ":" + Lower(Joined(s.owners))
  }

  predicate Unchanged(a: Snapshot, b: Snapshot) {
    a.source == b.source && a.nonce == b.nonce && Fingerprint(a) == Fingerprint(b)
  }

  // ---------------------------------------------------------------------------
  // The fingerprint identifies threshold and owners
  // ---------------------------------------------------------------------------

  lemma {:induction false} JoinedLength(owners: seq<string>)
    requires owners != [] && forall i :: 0 <= i < |owners| ==> |owners[i]| == ADDRESS_LENGTH
    ensures |Joined(owners)| == (ADDRESS_LENGTH + 1) * |owners| - 1
  {
    if |owners| > 1 {
      JoinedLength(owners[..|owners| - 1]);
    }
  }

  lemma LowerSlice(s: string, i: nat, j: nat)
    requires i <= j <= |s|
    ensures Lower(s[i..j]) == Lower(s)[i..j]
  {
  }

  /** Equal joined texts come from the same addresses, position by position. */
  lemma {:induction false} JoinedInjective(a: seq<string>, b: seq<string>)
    requires a != [] && b != [] && Lower(Joined(a)) == Lower(Joined(b))
    requires forall i :: 0 <= i < |a| ==> |a[i]| == ADDRESS_LENGTH
    requires forall i :: 0 <= i < |b| ==> |b[i]| == ADDRESS_LENGTH
    ensures |a| == |b| && forall i :: 0 <= i < |a| ==> SameAddress(a[i], b[i])
  {
    JoinedLength(a);
    JoinedLength(b);
    assert |Lower(Joined(a))| == |Joined(a)| && |Lower(Joined(b))| == |Joined(b)|;
    var n := |a|;
    if n > 1 {
      hide Lower;
      var p, q := a[..n - 1], b[..n - 1];
      JoinedLength(p);
      JoinedLength(q);
      var x, y, cut := Joined(a), Joined(b), |Joined(p)|;
      assert x[0..cut] == Joined(p) && y[0..cut] == Joined(q);
      assert x[cut + 1..|x|] == a[n - 1] && y[cut + 1..|x|] == b[n - 1];
      LowerSlice(x, 0, cut);
      LowerSlice(y, 0, cut);
      LowerSlice(x, cut + 1, |x|);
      LowerSlice(y, cut + 1, |x|);
      JoinedInjective(p, q);
      forall i | 0 <= i < n ensures SameAddress(a[i], b[i]) {
        if i < n - 1 {
          assert p[i] == a[i] && q[i] == b[i];
        }
      }
    }
  }

  lemma PrefixBeforeColon(p: string, q: string, r: string, s: string)
    requires AllDigits(p, Decimal) && AllDigits(q, Decimal) && p + ":" + r == q + ":" + s
    ensures p == q && r == s
  {
    var t := p + ":" + r;
    assert t[|p|] == ':' && t[|q|] == ':';
    assert forall i :: 0 <= i < |p| ==> IsDigit(t[i], Decimal);
    assert forall i :: 0 <= i < |q| ==> IsDigit(t[i], Decimal);
    assert t[..|p|] == p && t[..|q|] == q;
    assert t[|p| + 1..] == r && t[|q| + 1..] == s;
  }

  /** The comparison the screen makes decides exactly whether source, nonce, threshold and
      owners are the same. */
  lemma UnchangedIffSameOwners(a: Snapshot, b: Snapshot)
    requires ValidSnapshot(a) && ValidSnapshot(b)
    ensures Unchanged(a, b) <==>
            a.source == b.source && a.nonce == b.nonce && a.threshold == b.threshold
            && |a.owners| == |b.owners| && forall i :: 0 <= i < |a.owners| ==> SameAddress(a.owners[i], b.owners[i])
  {
    hide Lower, Print, Joined;
    assert forall i :: 0 <= i < |a.owners| ==> IsAddress(a.owners[i]);
    assert forall i :: 0 <= i < |b.owners| ==> IsAddress(b.owners[i]);
    PrintValue(a.threshold, Decimal);
    PrintValue(b.threshold, Decimal);
    if Unchanged(a, b) {
      PrefixBeforeColon(Print(a.threshold, Decimal), Print(b.threshold, Decimal), Lower(Joined(a.owners)), Lower(Joined(b.owners)));
      JoinedInjective(a.owners, b.owners);
    } else if |a.owners| == |b.owners| && (forall i :: 0 <= i < |a.owners| ==> SameAddress(a.owners[i], b.owners[i])) {
      JoinedSame(a.owners, b.owners);
    }
  }

  lemma {:induction false} JoinedSame(a: seq<string>, b: seq<string>)
    requires |a| == |b| && forall i :: 0 <= i < |a| ==> SameAddress(a[i], b[i])
    ensures Lower(Joined(a)) == Lower(Joined(b))
  {
    if |a| > 1 {
      JoinedSame(a[..|a| - 1], b[..|b| - 1]);
      assert SameAddress(a[|a| - 1], b[|b| - 1]);
      LowerOfJoin(Joined(a[..|a| - 1]), a[|a| - 1]);
      LowerOfJoin(Joined(b[..|b| - 1]), b[|b| - 1]);
    }
  }

  lemma LowerOfJoin(s: string, t: string)
    ensures Lower(s + "," + t) == Lower(s) + "," + Lower(t)
  {
  }

  lemma UnchangedOwns(a: Snapshot, b: Snapshot, owner: string)
    requires ValidSnapshot(a) && ValidSnapshot(b) && Unchanged(a, b) && Owns(b, owner)
    ensures Owns(a, owner)
  {
    hide Fingerprint, Lower;
    UnchangedIffSameOwners(a, b);
    var i :| 0 <= i < |b.owners| && SameAddress(b.owners[i], owner);
    assert SameAddress(a.owners[i], owner);
  }

  // ---------------------------------------------------------------------------
  // The quorum
  // ---------------------------------------------------------------------------

  predicate DistinctOwners(approvals: seq<Approval>) {
    forall i, j :: 0 <= i < j < |approvals| ==> !SameAddress(approvals[i].owner, approvals[j].owner)
  }

  predicate DistinctAddresses(owners: seq<string>) {
    forall i, j :: 0 <= i < j < |owners| ==> !SameAddress(owners[i], owners[j])
  }

  /** What packing a submission demands: enough signatures over this transaction, each by a
      different owner. A recovered signer is an approval of that transaction. */
  predicate Quorum(transaction: SafeTransaction, s: Snapshot, approvals: seq<Approval>) {
    && DistinctAddresses(s.owners)
    && 1 <= s.threshold <= |s.owners|
    && s.threshold <= |approvals| <= |s.owners|
    && DistinctOwners(approvals)
    && forall i :: 0 <= i < |approvals| ==> approvals[i].transaction == transaction && Owns(s, approvals[i].owner)
  }

  function LowerOwners(approvals: seq<Approval>): set<string> {
    set i | 0 <= i < |approvals| :: Lower(approvals[i].owner)
  }

  function LowerAddresses(owners: seq<string>): set<string> {
    set i | 0 <= i < |owners| :: Lower(owners[i])
  }

  lemma {:induction false} AddressCount(owners: seq<string>)
    ensures |LowerAddresses(owners)| <= |owners|
  {
    if owners != [] {
      var init := owners[..|owners| - 1];
      AddressCount(init);
      assert LowerAddresses(owners) == LowerAddresses(init) + {Lower(owners[|owners| - 1])};
    }
  }

  /** Distinct approvals name as many owners as there are approvals. */
  lemma {:induction false} OwnerCount(approvals: seq<Approval>)
    requires DistinctOwners(approvals)
    ensures |LowerOwners(approvals)| == |approvals|
  {
    if approvals != [] {
      hide Lower;
      var init, last := approvals[..|approvals| - 1], approvals[|approvals| - 1];
      OwnerCount(init);
      assert LowerOwners(approvals) == LowerOwners(init) + {Lower(last.owner)};
      forall i | 0 <= i < |init| ensures Lower(init[i].owner) != Lower(last.owner) {
        assert !SameAddress(approvals[i].owner, approvals[|approvals| - 1].owner);
      }
    }
  }

  lemma SubsetCount(a: set<string>, b: set<string>)
    requires a <= b
    ensures |a| <= |b|
  {
    assert b == a + (b - a);
  }

  /** Distinct owner approvals cannot outnumber the owners. */
  lemma NoMoreApprovalsThanOwners(s: Snapshot, approvals: seq<Approval>)
    requires DistinctOwners(approvals) && forall i :: 0 <= i < |approvals| ==> Owns(s, approvals[i].owner)
    ensures |approvals| <= |s.owners|
  {
    hide Lower;
    OwnerCount(approvals);
    AddressCount(s.owners);
    forall a | a in LowerOwners(approvals) ensures a in LowerAddresses(s.owners) {
      var i :| 0 <= i < |approvals| && a == Lower(approvals[i].owner);
      var j :| 0 <= j < |s.owners| && SameAddress(s.owners[j], approvals[i].owner);
      assert Lower(s.owners[j]) in LowerAddresses(s.owners);
    }
    SubsetCount(LowerOwners(approvals), LowerAddresses(s.owners));
  }
}
