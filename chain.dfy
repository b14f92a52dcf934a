/** Values exchanged with the Filecoin full node, and the node itself as a
    bundle of oracles.  Every remote call the exporter makes is a field of
    `FullNode`: a total function from the call's arguments to the reply the
    node gives.  Nothing about the node's internals is assumed. */
module Chain {

  /** A Go error return: the value, or an error message. */
  datatype Result<+T> = Ok(value: T) | Err(message: string)

  /** A Go pointer that may be nil. */
  datatype Option<+T> = None | Some(value: T)

  newtype byte = x: int | 0 <= x < 256

  const TwoTo64: int := 0x1_0000_0000_0000_0000
  const TwoTo63: int := 0x8000_0000_0000_0000

  /** Go's `int` on a 64-bit platform: the element type of the `sector` flag. */
  type GoInt = x: int | -TwoTo63 <= x < TwoTo63

  /** `abi.SectorNumber` is a `uint64`. */
  type SectorNumber = n: int | 0 <= n < TwoTo64

  /** `abi.ChainEpoch` (an `int64`); only compared, never computed with. */
  type ChainEpoch = int

  /** `abi.RegisteredSealProof`, an enumeration tag; copied, never inspected. */
  type RegisteredSealProof = int

  /** `abi.SectorSize` (a `uint64`). */
  type SectorSize = nat

  /** `abi.Randomness`: the ticket bytes. */
  type Randomness = seq<byte>

  /** A content identifier, kept opaque. */
  datatype Cid = Cid(bytes: seq<byte>)

  /** A miner's chain address, kept opaque. */
  datatype Address = Address(bytes: seq<byte>)

  /** The key of a tipset: the CIDs of its blocks. */
  datatype TipSetKey = TipSetKey(cids: seq<Cid>)

  /** `types.EmptyTSK`: the empty key, which the node reads as "the chain head". */
  const EmptyTSK: TipSetKey := TipSetKey([])

  datatype TipSet = TipSet(key: TipSetKey, height: ChainEpoch)

  /** `crypto.DomainSeparationTag`. */
  type DomainSeparationTag = int

  /** `crypto.DomainSeparationTag_SealRandomness` in the Filecoin crypto package. */
  const DomainSeparationTagSealRandomness: DomainSeparationTag := 5

  /** The fields of `miner.MinerInfo` the exporter reads. */
  datatype MinerInfo = MinerInfo(sectorSize: SectorSize)

  /** The fields of the committed-sector record (`miner.SectorOnChainInfo`) the exporter reads. */
  datatype SectorOnChainInfo = SectorOnChainInfo(
    sealProof: RegisteredSealProof,
    sealedCid: Cid,
    activation: ChainEpoch)

  /** `miner.SectorPreCommitInfo`, restricted to the fields the exporter reads. */
  datatype SectorPreCommitInfo = SectorPreCommitInfo(sealProof: RegisteredSealProof, sealedCid: Cid)

  /** `miner.SectorPreCommitOnChainInfo`: the pre-commit and the epoch it landed on chain. */
  datatype SectorPreCommitOnChainInfo = SectorPreCommitOnChainInfo(
    info: SectorPreCommitInfo,
    preCommitEpoch: ChainEpoch)

  /** The `(tipset, error)` pair `ChainGetTipSetByHeight` returns.  The
      exporter never reads the error, so the tipset part is always present. */
  datatype TipSetReply = TipSetReply(tipSet: TipSet, err: Option<string>)

  /** The full-node API, one oracle per remote call the exporter makes. */
  datatype FullNode = FullNode(
    stateMinerInfo: (Address, TipSetKey) -> Result<MinerInfo>,
    stateSectorGetInfo: (Address, SectorNumber, TipSetKey) -> Result<Option<SectorOnChainInfo>>,
    stateSectorPreCommitInfo: (Address, SectorNumber, TipSetKey) -> Result<Option<SectorPreCommitOnChainInfo>>,
    chainGetTipSetByHeight: (ChainEpoch, TipSetKey) -> TipSetReply,
    stateGetRandomnessFromTickets: (DomainSeparationTag, ChainEpoch, seq<byte>, TipSetKey) -> Result<Randomness>)

  /** Go's conversion of an `int` to `uint64` (`abi.SectorNumber(sector)`,
      `uint64(sector)`): two's-complement reinterpretation. */
  function ToSectorNumber(x: GoInt): (n: SectorNumber)
    ensures 0 <= x ==> n == x
    ensures x < 0 ==> n == x + TwoTo64
  {
    x % TwoTo64
  }
}
