/** The classification loop of `ExportCmd.Action`: each requested sector is
    looked up as a committed sector, falls back to its pre-commit when it has
    none, and becomes a `SectorInfo` or a failed sector number. */
module Classify {
  import opened Chain
  import opened SectorInfos

  /** What one requested sector turns into. */
  datatype Outcome = Classified(info: SectorInfo) | Failed(sector: SectorNumber)

  /** The exporter reads `preCommitInfo.Info` whenever the pre-commit query
      returns no error, so a node that answers "no committed sector" must not
      also answer "no pre-commit, no error" for the same sector. */
  predicate PreCommitAnswered(node: FullNode, miner: Address, n: SectorNumber) {
    node.stateSectorGetInfo(miner, n, EmptyTSK) == Ok(None) ==>
      node.stateSectorPreCommitInfo(miner, n, EmptyTSK) != Ok(None)
  }

  predicate AllPreCommitsAnswered(node: FullNode, miner: Address, sectors: seq<GoInt>) {
    forall i :: 0 <= i < |sectors| ==> PreCommitAnswered(node, miner, ToSectorNumber(sectors[i]))
  }

  /** One turn of the classification loop. */
  function ClassifyOne(node: FullNode, miner: Address, n: SectorNumber): (r: Outcome)
    requires PreCommitAnswered(node, miner, n)
    // a sector fails exactly when the committed query errs, or it finds
    // nothing and the pre-commit query errs; a failure records the sector
    ensures r.Failed? <==>
      (node.stateSectorGetInfo(miner, n, EmptyTSK).Err? ||
       (node.stateSectorGetInfo(miner, n, EmptyTSK) == Ok(None) &&
        node.stateSectorPreCommitInfo(miner, n, EmptyTSK).Err?))
    ensures r.Failed? ==> r.sector == n
    // every entry carries the requested number and no ticket yet
    ensures r.Classified? ==> r.info.sectorNumber == n && r.info.ticket == []
    // committed: proof type, activation and sealed CID of the committed record
    ensures node.stateSectorGetInfo(miner, n, EmptyTSK).Ok? &&
            node.stateSectorGetInfo(miner, n, EmptyTSK).value.Some? ==>
      var si := node.stateSectorGetInfo(miner, n, EmptyTSK).value.value;
      r.Classified? && r.info.sealProof == si.sealProof &&
      r.info.activation == si.activation && r.info.sealedCid == si.sealedCid
    // only pre-committed: the pre-commit's proof type and sealed CID, and the
    // pre-commit epoch standing in for the activation
    ensures node.stateSectorGetInfo(miner, n, EmptyTSK) == Ok(None) &&
            node.stateSectorPreCommitInfo(miner, n, EmptyTSK).Ok? ==>
      var pc := node.stateSectorPreCommitInfo(miner, n, EmptyTSK).value.value;
      r.Classified? && r.info.sealProof == pc.info.sealProof &&
      r.info.activation == pc.preCommitEpoch && r.info.sealedCid == pc.info.sealedCid
  {
    match node.stateSectorGetInfo(miner, n, EmptyTSK)
    case Err(_) => Failed(n)
    case Ok(Some(si)) => Classified(SectorInfo(n, si.activation, [], si.sealProof, si.sealedCid))
    case Ok(None) =>
      match node.stateSectorPreCommitInfo(miner, n, EmptyTSK)
      case Err(_) => Failed(n)
      case Ok(pc) =>
        var p := pc.value;
        Classified(SectorInfo(n, p.preCommitEpoch, [], p.info.sealProof, p.info.sealedCid))
  }

  /** The outcome of every requested sector, in request order. */
  function Outcomes(node: FullNode, miner: Address, sectors: seq<GoInt>): (o: seq<Outcome>)
    requires AllPreCommitsAnswered(node, miner, sectors)
    ensures |o| == |sectors|
    ensures forall i :: 0 <= i < |sectors| ==> o[i] == ClassifyOne(node, miner, ToSectorNumber(sectors[i]))
  {
    if sectors == [] then []
    else
      var init := sectors[..|sectors| - 1];
      assert forall i :: 0 <= i < |init| ==> init[i] == sectors[i];
      Outcomes(node, miner, init) + [ClassifyOne(node, miner, ToSectorNumber(sectors[|sectors| - 1]))]
  }

  /** The entries appended to `sectorInfos`, in order. */
  function Successes(o: seq<Outcome>): seq<SectorInfo> {
    if o == [] then []
    else
      var last := o[|o| - 1];
      Successes(o[..|o| - 1]) + (if last.Classified? then [last.info] else [])
  }

  /** The sector numbers appended to `failtSectors`, in order. */
  function Failures(o: seq<Outcome>): seq<SectorNumber> {
    if o == [] then []
    else
      var last := o[|o| - 1];
      Failures(o[..|o| - 1]) + (if last.Failed? then [last.sector] else [])
  }

  /** The positions of `o` that were classified (`ok`) or failed (`!ok`), in order. */
  function Positions(o: seq<Outcome>, ok: bool): seq<int> {
    if o == [] then []
    else
      Positions(o[..|o| - 1], ok) + (if o[|o| - 1].Classified? == ok then [|o| - 1] else [])
  }

  /** Every requested sector lands on exactly one side. */
  lemma {:induction false} PartitionCount(o: seq<Outcome>)
    ensures |Successes(o)| + |Failures(o)| == |o|
  {
    if o != [] {
      PartitionCount(o[..|o| - 1]);
    }
  }

  /** `Positions` lists, in increasing order, exactly the positions on one side. */
  lemma {:induction false} PositionsSpec(o: seq<Outcome>, ok: bool)
    ensures forall k :: 0 <= k < |Positions(o, ok)| ==> 0 <= Positions(o, ok)[k] < |o|
    ensures forall k, l :: 0 <= k < l < |Positions(o, ok)| ==> Positions(o, ok)[k] < Positions(o, ok)[l]
    ensures forall i :: 0 <= i < |o| ==> (i in Positions(o, ok) <==> o[i].Classified? == ok)
  {
    if o != [] {
      var init := o[..|o| - 1];
      PositionsSpec(init, ok);
      assert forall i :: 0 <= i < |init| ==> init[i] == o[i];
    }
  }

  /** The entries are the classified outcomes, taken in request order. */
  lemma {:induction false} SuccessesInOrder(o: seq<Outcome>)
    ensures |Successes(o)| == |Positions(o, true)|
    ensures forall k :: 0 <= k < |Successes(o)| ==>
      0 <= Positions(o, true)[k] < |o| && o[Positions(o, true)[k]] == Classified(Successes(o)[k])
  {
    PositionsSpec(o, true);
    if o != [] {
      var init := o[..|o| - 1];
      SuccessesInOrder(init);
      PositionsSpec(init, true);
      assert forall i :: 0 <= i < |init| ==> init[i] == o[i];
    }
  }

  /** The failed sector numbers are those of the failed outcomes, in request order. */
  lemma {:induction false} FailuresInOrder(o: seq<Outcome>)
    ensures |Failures(o)| == |Positions(o, false)|
    ensures forall k :: 0 <= k < |Failures(o)| ==>
      0 <= Positions(o, false)[k] < |o| && o[Positions(o, false)[k]] == Failed(Failures(o)[k])
  {
    PositionsSpec(o, false);
    if o != [] {
      var init := o[..|o| - 1];
      FailuresInOrder(init);
      PositionsSpec(init, false);
      assert forall i :: 0 <= i < |init| ==> init[i] == o[i];
    }
  }

  /** Every classified entry is what its own sector number classifies to, so
      entries with one sector number are one entry (duplicates in the request
      give equal entries), and none of them has a ticket yet. */
  lemma ClassifiedByNumber(node: FullNode, miner: Address, sectors: seq<GoInt>)
    requires AllPreCommitsAnswered(node, miner, sectors)
    ensures forall x :: x in Successes(Outcomes(node, miner, sectors)) ==>
      PreCommitAnswered(node, miner, x.sectorNumber) &&
      ClassifyOne(node, miner, x.sectorNumber) == Classified(x) && x.ticket == []
    ensures KeysIdentify(Successes(Outcomes(node, miner, sectors)))
  {
    var o := Outcomes(node, miner, sectors);
    SuccessesInOrder(o);
    forall x | x in Successes(o)
      ensures PreCommitAnswered(node, miner, x.sectorNumber) &&
              ClassifyOne(node, miner, x.sectorNumber) == Classified(x) && x.ticket == []
    {
      var k :| 0 <= k < |Successes(o)| && Successes(o)[k] == x;
      var p := Positions(o, true)[k];
      assert o[p] == ClassifyOne(node, miner, ToSectorNumber(sectors[p]));
    }
  }

  /** The classification loop of `ExportCmd.Action`. */
  method ClassifySectors(node: FullNode, miner: Address, sectors: seq<GoInt>)
    returns (sectorInfos: seq<SectorInfo>, failtSectors: seq<SectorNumber>)
    requires AllPreCommitsAnswered(node, miner, sectors)
    ensures sectorInfos == Successes(Outcomes(node, miner, sectors))
    ensures failtSectors == Failures(Outcomes(node, miner, sectors))
  {
    sectorInfos, failtSectors := [], [];
    for i := 0 to |sectors|
      invariant sectorInfos == Successes(Outcomes(node, miner, sectors[..i]))
      invariant failtSectors == Failures(Outcomes(node, miner, sectors[..i]))
    {
      assert sectors[..i + 1][..i] == sectors[..i];
      ghost var o := Outcomes(node, miner, sectors[..i + 1]);
      assert o[..i] == Outcomes(node, miner, sectors[..i]);
      var n := ToSectorNumber(sectors[i]);
      var si := node.stateSectorGetInfo(miner, n, EmptyTSK);
      if si.Err? {
        failtSectors := failtSectors + [n];
        continue;
      }
      if si.value.None? {
        var preCommitInfo := node.stateSectorPreCommitInfo(miner, n, EmptyTSK);
        if preCommitInfo.Err? {
          failtSectors := failtSectors + [n];
          continue;
        }
        var p := preCommitInfo.value.value;
        sectorInfos := sectorInfos + [SectorInfo(n, p.preCommitEpoch, [], p.info.sealProof, p.info.sealedCid)];
        continue;
      }
      var c := si.value.value;
      sectorInfos := sectorInfos + [SectorInfo(n, c.activation, [], c.sealProof, c.sealedCid)];
    }
    assert sectors[..|sectors|] == sectors;
  }
}
