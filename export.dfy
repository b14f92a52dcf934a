/** `ExportCmd.Action`: classify the requested sectors, sort them, walk the
    chain for their tickets, and assemble the recovery record. */
module Export {
  import opened Chain
  import opened SectorInfos
  import opened Classify
  import opened Randomness

  /** What `Action` writes out (`RecoveryParams`) and reports (`failtSectors`). */
  datatype Report = Report(params: RecoveryParams, failtSectors: seq<SectorNumber>)

  /** `rep` is the record for `sectors`: the classified entries in sorted
      order with their tickets resolved, after the classification failures
      the walk's failures. */
  ghost predicate Exported(node: FullNode, miner: Address, minerCbor: seq<byte>, sectors: seq<GoInt>,
                           sectorSize: SectorSize, rep: Report)
    requires AllPreCommitsAnswered(node, miner, sectors)
  {
    var o := Outcomes(node, miner, sectors);
    rep.params.miner == miner && rep.params.sectorSize == sectorSize &&
    (exists s :: SortedPermutationOf(s, Successes(o))) &&
    (forall s :: SortedPermutationOf(s, Successes(o)) ==>
      rep.params.sectorInfos == ResolvedAll(node, minerCbor, s) &&
      rep.failtSectors == Failures(o) + WalkFailures(node, minerCbor, s, |s|))
  }

  /** The walk keeps the sort order: it changes tickets only, and `Less`
      does not look at tickets. */
  lemma ResolvedAllSorted(node: FullNode, minerCbor: seq<byte>, s: seq<SectorInfo>)
    requires Sorted(s)
    ensures |ResolvedAll(node, minerCbor, s)| == |s|
    ensures forall k :: 0 <= k < |s| ==> Key(ResolvedAll(node, minerCbor, s)[k]) == Key(s[k])
    ensures Sorted(ResolvedAll(node, minerCbor, s))
  {
    var r := ResolvedAll(node, minerCbor, s);
    forall k | 0 <= k < |s| ensures Key(r[k]) == Key(s[k]) {
      ResolvedChangesOnlyTicket(node, minerCbor, s, k);
    }
  }

  /** In the record, an entry whose randomness request failed has no ticket
      (it was classified without one), and one whose request succeeded has
      exactly the returned bytes. */
  lemma TicketsInRecord(node: FullNode, miner: Address, minerCbor: seq<byte>, sectors: seq<GoInt>, s: seq<SectorInfo>)
    requires AllPreCommitsAnswered(node, miner, sectors)
    requires SortedPermutationOf(s, Successes(Outcomes(node, miner, sectors)))
    ensures forall k :: 0 <= k < |s| ==>
      (TicketQuery(node, minerCbor, s, k).Err? ==> ResolvedAll(node, minerCbor, s)[k].ticket == []) &&
      (TicketQuery(node, minerCbor, s, k).Ok? ==>
        ResolvedAll(node, minerCbor, s)[k].ticket == TicketQuery(node, minerCbor, s, k).value)
  {
    ClassifiedByNumber(node, miner, sectors);
    forall k | 0 <= k < |s| ensures s[k].ticket == [] {
      assert s[k] in multiset(Successes(Outcomes(node, miner, sectors)));
    }
  }

  /** `ExportCmd.Action` once the miner address is parsed and the node is
      reached; `minerCbor` is the outcome of `maddr.MarshalCBOR`. */
  method Action(node: FullNode, miner: Address, minerCbor: Result<seq<byte>>, sectors: seq<GoInt>)
    returns (r: Result<Report>)
    requires node.stateMinerInfo(miner, EmptyTSK).Ok? ==> AllPreCommitsAnswered(node, miner, sectors)
    ensures r.Ok? <==> node.stateMinerInfo(miner, EmptyTSK).Ok? && minerCbor.Ok?
    ensures r.Ok? ==>
      Exported(node, miner, minerCbor.value, sectors, node.stateMinerInfo(miner, EmptyTSK).value.sectorSize, r.value)
    ensures r.Ok? ==>
      |r.value.params.sectorInfos| + |Failures(Outcomes(node, miner, sectors))| == |sectors| &&
      AdjacentSorted(r.value.params.sectorInfos)
  {
    var mi := node.stateMinerInfo(miner, EmptyTSK);
    if mi.Err? {
      return Err("Getting StateMinerInfo err:");
    }
    var sectorInfos, failtSectors := ClassifySectors(node, miner, sectors);
    var a := new SectorInfo[|sectorInfos|](i requires 0 <= i < |sectorInfos| => sectorInfos[i]);
    assert a[..] == sectorInfos;
    Sort(a);
    if minerCbor.Err? {
      return Err("Address MarshalCBOR err:");
    }
    ghost var sorted := a[..];
    failtSectors := ResolveTickets(node, minerCbor.value, a, failtSectors);
    r := Ok(Report(RecoveryParams(miner, mi.value.sectorSize, a[..]), failtSectors));

    ghost var o := Outcomes(node, miner, sectors);
    assert SortedPermutationOf(sorted, Successes(o));
    ClassifiedByNumber(node, miner, sectors);
    forall s | SortedPermutationOf(s, Successes(o)) ensures s == sorted {
      KeysIdentifyPermutation(s, Successes(o));
      SortedPermutationUnique(s, sorted);
    }
    PartitionCount(o);
    ResolvedAllSorted(node, minerCbor.value, sorted);
    SortedIffAdjacentSorted(a[..]);
  }

  // An example: sectors [5, 3, 9] are requested; sector 5 is committed with
  // activation 200, sector 3 is only pre-committed at epoch 150, and sector 9
  // is unknown.

  const ExampleMiner: Address := Address([0, 0xe8, 0x07])

  function ExampleNode(): FullNode {
    FullNode(
      (m, key) => Ok(MinerInfo(0x8_0000_0000)),
      (m, n, key) => if n == 5 then Ok(Some(SectorOnChainInfo(8, Cid([5]), 200))) else Ok(None),
      (m, n, key) =>
        if n == 3 then Ok(Some(SectorPreCommitOnChainInfo(SectorPreCommitInfo(8, Cid([3])), 150)))
        else Err("not found"),
      (e, key) => TipSetReply(TipSet(TipSetKey([Cid([(e % 256) as byte])]), e), None),
      (tag, e, entropy, key) => Ok([1, 2, 3]))
  }

  const ExampleEntries: seq<SectorInfo> :=
    [SectorInfo(5, 200, [], 8, Cid([5])), SectorInfo(3, 150, [], 8, Cid([3]))]

  /** Sector 5 is taken from its committed record, sector 3 from its
      pre-commit with the pre-commit epoch as activation, sector 9 fails. */
  lemma ExampleClassification()
    ensures AllPreCommitsAnswered(ExampleNode(), ExampleMiner, [5, 3, 9])
    ensures Successes(Outcomes(ExampleNode(), ExampleMiner, [5, 3, 9])) == ExampleEntries
    ensures Failures(Outcomes(ExampleNode(), ExampleMiner, [5, 3, 9])) == [9]
  {
    var node := ExampleNode();
    var c5 := Classified(ExampleEntries[0]);
    var c3 := Classified(ExampleEntries[1]);
    assert ClassifyOne(node, ExampleMiner, 5) == c5;
    assert ClassifyOne(node, ExampleMiner, 3) == c3;
    assert ClassifyOne(node, ExampleMiner, 9) == Failed(9);
    var o := Outcomes(node, ExampleMiner, [5, 3, 9]);
    assert o == [c5, c3, Failed(9)];
    assert [c5][..0] == [];
    assert Successes([c5]) == [c5.info] && Failures([c5]) == [];
    assert [c5, c3][..1] == [c5];
    assert Successes([c5, c3]) == ExampleEntries && Failures([c5, c3]) == [];
    assert o[..2] == [c5, c3];
  }

  /** Whatever sorts them, the entries come out as sector 5 then sector 3. */
  lemma ExampleOrder(s: seq<SectorInfo>)
    requires AllPreCommitsAnswered(ExampleNode(), ExampleMiner, [5, 3, 9])
    requires SortedPermutationOf(s, Successes(Outcomes(ExampleNode(), ExampleMiner, [5, 3, 9])))
    ensures s == ExampleEntries
  {
    ExampleClassification();
    SortedExampleEntries(s);
  }

  lemma SortedExampleEntries(s: seq<SectorInfo>)
    requires SortedPermutationOf(s, ExampleEntries)
    ensures s == ExampleEntries
  {
    assert Sorted(ExampleEntries) && KeysIdentify(ExampleEntries);
    KeysIdentifyPermutation(s, ExampleEntries);
    SortedPermutationUnique(s, ExampleEntries);
  }

  /** The walk fetches epoch 200 from the chain head, then epoch 150 starting
      from the tipset found for 200, and asks for randomness at each. */
  lemma ExampleWalk()
    // the record's first two keys, by the definition of the walk
    ensures SearchKey(ExampleNode(), ExampleEntries, 1) ==
      ExampleNode().chainGetTipSetByHeight(200, EmptyTSK).tipSet.key
    ensures SearchKey(ExampleNode(), ExampleEntries, 2) ==
      ExampleNode().chainGetTipSetByHeight(150, SearchKey(ExampleNode(), ExampleEntries, 1)).tipSet.key
    ensures ResolvedAll(ExampleNode(), [0x42], ExampleEntries) ==
      [ExampleEntries[0].(ticket := [1, 2, 3]), ExampleEntries[1].(ticket := [1, 2, 3])]
    ensures WalkFailures(ExampleNode(), [0x42], ExampleEntries, 2) == []
  {
    var r := ResolvedAll(ExampleNode(), [0x42], ExampleEntries);
    assert r[0] == ExampleEntries[0].(ticket := [1, 2, 3]);
    assert r[1] == ExampleEntries[1].(ticket := [1, 2, 3]);
  }

  /** A sector requested twice whose randomness requests both fail is
      reported twice. */
  lemma ExampleRepeatedFailure(node: FullNode, minerCbor: seq<byte>, e: SectorInfo)
    requires forall tag, epoch, entropy, key :: node.stateGetRandomnessFromTickets(tag, epoch, entropy, key).Err?
    ensures WalkFailures(node, minerCbor, [e, e], 2) == [e.sectorNumber, e.sectorNumber]
    ensures ResolvedAll(node, minerCbor, [e, e]) == [e, e]
  {
    var r := ResolvedAll(node, minerCbor, [e, e]);
    assert r[0] == e && r[1] == e;
    assert TicketQuery(node, minerCbor, [e, e], 0).Err? && TicketQuery(node, minerCbor, [e, e], 1).Err?;
    assert WalkFailures(node, minerCbor, [e, e], 1) == [e.sectorNumber];
  }
}
