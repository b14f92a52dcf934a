/** `SectorInfo`, `RecoveryParams` and the `sort.Interface` of `SectorInfos`:
    the order the exporter puts sectors in before walking the chain. */
module SectorInfos {
  import opened Chain

  /** One sector to recover.  `ticket` is empty until the randomness walk
      fills it in. */
  datatype SectorInfo = SectorInfo(
    sectorNumber: SectorNumber,
    activation: ChainEpoch,
    ticket: Randomness,
    sealProof: RegisteredSealProof,
    sealedCid: Cid)

  /** The exported record. */
  datatype RecoveryParams = RecoveryParams(
    miner: Address,
    sectorSize: SectorSize,
    sectorInfos: seq<SectorInfo>)

  /** `SectorInfos.Less`: later activation first, then lower sector number. */
  predicate Less(x: SectorInfo, y: SectorInfo) {
    if x.activation != y.activation then x.activation > y.activation
    else x.sectorNumber < y.sectorNumber
  }

  /** The key `Less` compares by. */
  function Key(x: SectorInfo): (ChainEpoch, SectorNumber) {
    (x.activation, x.sectorNumber)
  }

  lemma LessIrreflexive(x: SectorInfo)
    ensures !Less(x, x)
  {
  }

  lemma LessAsymmetric(x: SectorInfo, y: SectorInfo)
    ensures Less(x, y) ==> !Less(y, x)
  {
  }

  lemma LessTransitive(x: SectorInfo, y: SectorInfo, z: SectorInfo)
    ensures Less(x, y) && Less(y, z) ==> Less(x, z)
  {
  }

  /** Two entries with different keys are ordered one way, and only one way;
      two entries with the same key are not ordered at all. */
  lemma LessTrichotomous(x: SectorInfo, y: SectorInfo)
    ensures Key(x) != Key(y) <==> (Less(x, y) != Less(y, x))
    ensures Key(x) == Key(y) ==> !Less(x, y) && !Less(y, x)
  {
  }

  /** What `sort.Sort` establishes: no later entry is `Less` than an earlier one. */
  ghost predicate Sorted(s: seq<SectorInfo>) {
    forall i, j :: 0 <= i < j < |s| ==> !Less(s[j], s[i])
  }

  /** The same order, stated on neighbours only. */
  ghost predicate AdjacentSorted(s: seq<SectorInfo>) {
    forall k :: 0 <= k < |s| - 1 ==>
      s[k].activation > s[k + 1].activation ||
      (s[k].activation == s[k + 1].activation && s[k].sectorNumber <= s[k + 1].sectorNumber)
  }

  ghost predicate SortedPermutationOf(s: seq<SectorInfo>, t: seq<SectorInfo>) {
    Sorted(s) && multiset(s) == multiset(t)
  }

  /** Entries of `s` are told apart by their key alone. */
  ghost predicate KeysIdentify(s: seq<SectorInfo>) {
    forall i, j :: 0 <= i < |s| && 0 <= j < |s| && Key(s[i]) == Key(s[j]) ==> s[i] == s[j]
  }

  /** Sortedness and its neighbour-only form say the same. */
  lemma {:induction false} SortedIffAdjacentSorted(s: seq<SectorInfo>)
    ensures Sorted(s) <==> AdjacentSorted(s)
  {
    if AdjacentSorted(s) && |s| > 1 {
      assert AdjacentSorted(s[1..]);
      SortedIffAdjacentSorted(s[1..]);
      forall i, j | 0 <= i < j < |s| ensures !Less(s[j], s[i]) {
        if i > 0 {
          assert s[j] == s[1..][j - 1] && s[i] == s[1..][i - 1];
        } else if j > 1 {
          assert s[j] == s[1..][j - 1] && s[1] == s[1..][0];
        }
      }
    }
  }

  /** The activation epochs of a sorted list never increase: the epochs the
      randomness walk visits go backwards along the chain. */
  lemma {:induction false} SortedEpochsNonIncreasing(s: seq<SectorInfo>, i: int, j: int)
    requires AdjacentSorted(s)
    requires 0 <= i <= j < |s|
    ensures s[i].activation >= s[j].activation
    decreases j - i
  {
    if i < j {
      SortedEpochsNonIncreasing(s, i + 1, j);
    }
  }

  /** Sorting cannot change the result, whatever algorithm does it: when
      entries are told apart by key, two sorted permutations of one list are
      the same list.  (`sort.Sort` is not stable; this is why it need not be.) */
  lemma {:induction false} SortedPermutationUnique(s: seq<SectorInfo>, t: seq<SectorInfo>)
    requires Sorted(s) && Sorted(t)
    requires multiset(s) == multiset(t)
    requires KeysIdentify(s)
    ensures s == t
  {
    assert |t| == |multiset(t)| == |multiset(s)| == |s|;
    if |s| != 0 {
      SortedHeadsAgree(s, t);
      MultisetOfTail(s);
      MultisetOfTail(t);
      KeysIdentifyTail(s);
      SortedPermutationUnique(s[1..], t[1..]);
      assert s == [s[0]] + s[1..] && t == [t[0]] + t[1..];
    }
  }

  /** Two sorted permutations of one list start with the same entry. */
  lemma SortedHeadsAgree(s: seq<SectorInfo>, t: seq<SectorInfo>)
    requires Sorted(s) && Sorted(t)
    requires multiset(s) == multiset(t)
    requires KeysIdentify(s)
    requires |s| > 0 && |t| > 0
    ensures s[0] == t[0]
  {
    assert s[0] in multiset(t) && t[0] in multiset(s);
    var j :| 0 <= j < |t| && t[j] == s[0];
    var i :| 0 <= i < |s| && s[i] == t[0];
    assert !Less(s[i], s[0]);
    assert !Less(t[j], t[0]);
    assert Key(s[i]) == Key(s[0]);
  }

  lemma MultisetOfTail(s: seq<SectorInfo>)
    requires |s| > 0
    ensures multiset(s[1..]) == multiset(s) - multiset{s[0]}
  {
    assert s == [s[0]] + s[1..];
  }

  lemma KeysIdentifyTail(s: seq<SectorInfo>)
    requires |s| > 0 && KeysIdentify(s)
    ensures KeysIdentify(s[1..])
  {
    forall p, q | 0 <= p < |s[1..]| && 0 <= q < |s[1..]| && Key(s[1..][p]) == Key(s[1..][q])
      ensures s[1..][p] == s[1..][q]
    {
      assert s[1..][p] == s[p + 1] && s[1..][q] == s[q + 1];
    }
  }

  /** Being told apart by key is a property of the multiset of entries. */
  lemma KeysIdentifyPermutation(s: seq<SectorInfo>, t: seq<SectorInfo>)
    requires multiset(s) == multiset(t) && KeysIdentify(t)
    ensures KeysIdentify(s)
  {
    forall i, j | 0 <= i < |s| && 0 <= j < |s| && Key(s[i]) == Key(s[j])
      ensures s[i] == s[j]
    {
      assert s[i] in multiset(t) && s[j] in multiset(t);
      var i' :| 0 <= i' < |t| && t[i'] == s[i];
      var j' :| 0 <= j' < |t| && t[j'] == s[j];
    }
  }

  /** `SectorInfos.Swap`: exchanges entries `i` and `j` and nothing else. */
  method Swap(a: array<SectorInfo>, i: int, j: int)
    requires 0 <= i < a.Length && 0 <= j < a.Length
    modifies a
    ensures a[i] == old(a[j]) && a[j] == old(a[i])
    ensures forall k :: 0 <= k < a.Length && k != i && k != j ==> a[k] == old(a[k])
    ensures multiset(a[..]) == multiset(old(a[..]))
  {
    a[i], a[j] := a[j], a[i];
  }

  /** `sort.Sort(sectorInfos)`, as an insertion sort driven by `Less` and `Swap`. */
  method Sort(a: array<SectorInfo>)
    modifies a
    ensures Sorted(a[..])
    ensures multiset(a[..]) == multiset(old(a[..]))
  {
    var i := 0;
    while i < a.Length
      invariant 0 <= i <= a.Length
      invariant forall p, q :: 0 <= p < q < i ==> !Less(a[q], a[p])
      invariant multiset(a[..]) == multiset(old(a[..]))
    {
      var j := i;
      while 0 < j && Less(a[j], a[j - 1])
        invariant 0 <= j <= i
        invariant forall p, q :: 0 <= p < q <= i && p != j && q != j ==> !Less(a[q], a[p])
        invariant forall q :: j < q <= i ==> Less(a[j], a[q])
        invariant multiset(a[..]) == multiset(old(a[..]))
      {
        Swap(a, j - 1, j);
        j := j - 1;
      }
      i := i + 1;
    }
  }
}
