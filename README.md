# Sector-recovery export, modelled in Dafny

This project models the `export` command of a Filecoin sector-recovery
tool. For one storage miner and a list of sector numbers, the command asks a
full node about each sector, orders the sectors, and fetches each sector's
seal randomness (its *ticket*) from the chain. It then assembles the
recovery record (`RecoveryParams`) that offline proof tooling consumes.

The pipeline has three stages:

1. **Classification** (`Classify`). Each requested sector is looked up as a
   committed sector (`StateSectorGetInfo`). If it has no committed record,
   its pre-commit is used instead (`StateSectorPreCommitInfo`), with the
   pre-commit epoch standing in for the activation. An error from either
   query makes the sector a failure (`failtSectors`) and the loop moves on.
2. **Ordering** (`SectorInfos`). `sort.Sort` orders the entries by `Less`:
   later activation first, then lower sector number. `Swap` exchanges two
   entries. `Len` is the array's length (`a.Length`).
3. **Randomness walk** (`Randomness`). The loop carries a tipset key `tsk`,
   which starts as `EmptyTSK`. For each entry it fetches the tipset at the
   entry's activation, searching from `tsk`, and moves `tsk` to that
   tipset's key. It then asks for seal randomness at that epoch and key,
   using the miner's CBOR bytes. On success it stores the ticket in place.
   On failure it appends the sector number to `failtSectors`.

`Export.Action` chains the three stages and builds the record.

The node is a `Chain.FullNode`: one function-typed field per remote call.
Each field maps the call's arguments to the node's reply. Most replies are
`Ok(value)` or `Err(message)`. `chainGetTipSetByHeight` instead returns a
`TipSetReply`: a tipset paired with an optional error, as Go's `(ts, err)`
pair. Because each field is a function of its arguments alone, a call with
the same arguments gets the same answer throughout a run. "Left out" lists
this and the node's other assumptions.

Modules: `Chain` (node values and the node), `SectorInfos` (entries, `Less`,
`Swap`, the sort), `Classify`, `Randomness`, `Export`.

Main results:
- Classification is an order-preserving partition of the request. Each
  requested sector yields either one entry or one failed number.
- Any two sorted permutations of the classified entries are the same list
  (`SortedPermutationUnique`). So the record does not depend on which sorting
  algorithm runs, even though `sort.Sort` is not stable.
- The walk changes tickets only. Each entry's ticket depends only on that
  entry's own randomness answer. The tipset walk ignores both the randomness
  answers and the error half of the tipset lookup.
- The in-place loop (`ResolveTickets`), the entry-by-entry description
  (`ResolvedAll`, `WalkFailures`) and the fold over the sorted list (`Walk`)
  are proved to be the same walk.
- An example (`Export.ExampleNode`, with the lemmas `ExampleClassification`,
  `ExampleOrder` and `ExampleWalk`) requests sectors `[5, 3, 9]`: sector 5
  is committed with activation 200, sector 3 is only pre-committed at epoch
  150, and sector 9 is unknown to the node.
  The rows below that say "in the example" refer to it.

Three behaviours of the code are modelled as written:
- **A failed tipset lookup does not mark its sector failed.** The error
  returned by `ChainGetTipSetByHeight` (export/export.go:105) is overwritten
  at line 108 before anything reads it, and `tsk` advances unconditionally
  (line 106). Only a randomness error causes a failure, and
  `Randomness.SearchKeyIgnoresAllElse` shows the walk does not depend on the
  lookup's error.
- **Duplicate sector numbers are not rejected.** A sector number requested
  twice yields two equal entries, and each is handled on its own. The sort
  order is therefore stated with `<=` on sector numbers (`AdjacentSorted`),
  not `<`. When both walk requests for such a sector fail, it is reported
  twice (`Export.ExampleRepeatedFailure`).
- **Negative epochs are not rejected.** The code never checks that
  activation epochs are non-negative.

## Model

| member | source | states |
|---|---|---|
| `Chain.ToSectorNumber` | export/export.go:62 | Converting the requested `int` to a sector number keeps non-negative values and wraps negative ones modulo 2^64, as Go's `abi.SectorNumber(sector)` / `uint64(sector)` conversion does |
| `Classify.ClassifyOne` | export/export.go:62-91 | A sector fails exactly when the committed query errs, or when it finds nothing and the pre-commit query errs; a failure records the requested number. An entry always carries the requested number and no ticket. Committed path: proof type, activation and sealed CID come from the committed record. Pre-commit path: proof type and sealed CID come from the pre-commit, and the activation is the pre-commit epoch |
| `Classify.Outcomes` | export/export.go:61-92 | One outcome per requested sector, in request order; the i-th is the classification of the i-th requested number |
| `Classify.PartitionCount` | export/export.go:59-92 | Number of entries plus number of classification failures equals the number of requested sectors |
| `Classify.PositionsSpec` | export/export.go:61-92 | The positions on each side (classified / failed) are strictly increasing, lie in range, and a position is listed exactly when its outcome is on that side |
| `Classify.SuccessesInOrder` | export/export.go:77-91 | The k-th entry is the info of the k-th classified outcome, in request order |
| `Classify.FailuresInOrder` | export/export.go:63-75 | The k-th failed number is that of the k-th failed outcome, in request order |
| `Classify.ClassifiedByNumber` | export/export.go:77-91 | Every entry is what its own sector number classifies to, and has an empty ticket; so entries are told apart by their key even when numbers are requested twice |
| `Classify.ClassifySectors` | export/export.go:59-92 | The loop's entries and failures are exactly the classified infos and the failed numbers of the outcomes, in order |
| `SectorInfos.Less` | export/export.go:163-169 | The comparison: a later activation comes first; for equal activations the lower sector number comes first. Its order properties are the four lemmas below |
| `SectorInfos.LessIrreflexive` | export/export.go:163-169 | No entry is `Less` than itself |
| `SectorInfos.LessAsymmetric` | export/export.go:163-169 | `Less(x, y)` rules out `Less(y, x)` |
| `SectorInfos.LessTransitive` | export/export.go:163-169 | `Less` is transitive |
| `SectorInfos.LessTrichotomous` | export/export.go:163-169 | For distinct (activation, sector number) keys exactly one of `Less(x, y)`, `Less(y, x)` holds; for equal keys neither does |
| `SectorInfos.SortedIffAdjacentSorted` | export/export.go:96 | The list is sorted under `Less` exactly when every adjacent pair has a later activation, or an equal activation and a sector number no larger |
| `SectorInfos.SortedEpochsNonIncreasing` | export/export.go:94-96 | In a sorted list activation epochs never increase, so the walk queries epochs in non-increasing order |
| `SectorInfos.SortedPermutationUnique` | export/export.go:96 | Two sorted permutations of one list whose entries are told apart by key are equal: the sorted order is unique |
| `SectorInfos.KeysIdentifyPermutation` | export/export.go:96 | Being told apart by key carries over to any permutation |
| `SectorInfos.Swap` | export/export.go:161 | Entries i and j are exchanged and every other entry is unchanged |
| `SectorInfos.Sort` | export/export.go:96 | After sorting, the array is sorted under `Less` and is a permutation of what it held |
| `Randomness.ResolvedChangesOnlyTicket` | export/export.go:104-115 | The walk changes only an entry's ticket: on success it is exactly the returned bytes, on failure the entry is unchanged |
| `Randomness.SearchChain` | export/export.go:103-108 | The first tipset search starts from `EmptyTSK`. Search k+1 starts from the key found for entry k. The randomness request for entry k uses the seal-randomness tag, the entry's activation, the miner's CBOR bytes and the key just found |
| `Randomness.WalkFailuresSpec` | export/export.go:109-112 | A sector number is reported by the walk exactly when one of its entries' randomness requests failed |
| `Randomness.WalkFailuresAreFailures` | export/export.go:109-112 | The walk's reports are exactly the failed numbers of the per-entry walk outcomes (`WalkOutcomes`): one report per failed entry, in walk order |
| `Randomness.WalkFailuresInOrder` | export/export.go:104-112 | The j-th reported number is that of the j-th entry whose randomness request failed, and an entry is among the reported positions exactly when its request failed |
| `Randomness.SearchKeyIgnoresAllElse` | export/export.go:105-106 | The tipset keys the walk visits depend only on the tipsets the node returns, not on the lookup's error or on any randomness answer |
| `Randomness.ResolvedIsolated` | export/export.go:104-115 | Entry k after the walk depends only on the randomness answer for entry k; the answers for other entries do not affect it |
| `Randomness.Walk` | export/export.go:103-115 | The fold the loop performs: carry `tsk` from `EmptyTSK`, move it to the tipset found at each entry's activation, ask for randomness there, and either set the ticket or report the number. Its meaning is stated by `WalkAgrees` |
| `Randomness.WalkAgrees` | export/export.go:103-115 | The fold that carries `tsk` along the list yields the same entries and failures as the entry-by-entry description |
| `Randomness.ResolveTickets` | export/export.go:103-115 | The in-place loop leaves the array equal to the walked list and appends exactly the walk's failures to `failtSectors` |
| `Export.ResolvedAllSorted` | export/export.go:104-121 | The walk keeps each entry's key, so the exported list stays sorted |
| `Export.TicketsInRecord` | export/export.go:104-121 | In the record, an entry whose randomness request failed has an empty ticket, and one whose request succeeded has exactly the returned bytes |
| `Export.Action` | export/export.go:53-121 | Fails exactly when `StateMinerInfo` or the CBOR encoding fails. Otherwise the record holds the miner and its sector size, and its list is the walk over the unique sorted order of the classified entries. Failures are the classification failures followed by the walk's failures. Entries plus classification failures number as many as the requested sectors, and the list is sorted |
| `Export.ExampleClassification` | export/export.go:61-92 | In the example, committed sector 5 (activation 200) and pre-committed sector 3 (pre-commit epoch 150) are classified, and unknown sector 9 is a failure |
| `Export.ExampleOrder` | export/export.go:96 | In the example, every sorted order is sector 5 followed by sector 3 |
| `Export.ExampleRepeatedFailure` | export/export.go:104-112 | An entry listed twice whose randomness requests both fail is reported twice and both entries are left unchanged |
| `Export.ExampleWalk` | export/export.go:103-115 | In the example, the walk fetches epoch 200 starting from `EmptyTSK`, then epoch 150 starting from the tipset found for 200, and stores both tickets |

## Left out

- The node's network calls (`StateMinerInfo`, `StateSectorGetInfo`, `StateSectorPreCommitInfo`, `ChainGetTipSetByHeight`, `StateGetRandomnessFromTickets`) are oracle fields of `FullNode`. Connecting to the node (`GetFullNodeAPI`) and closing the connection are not modelled.
- Address parsing (`address.NewFromString`) and its fatal early return are not modelled: the miner is an already parsed opaque `Address`. `maddr.MarshalCBOR` is foreign code: `Action` receives its outcome as a parameter, and an error there makes `Action` fail, as at export/export.go:99-101.
- Classify.AllPreCommitsAnswered (a requirement of `Action`): if a node reports no committed record and also a nil pre-commit with no error, the source dereferences nil (export/export.go:79) and the process panics. Once `StateMinerInfo` has succeeded, the model requires the node not to answer that way for any requested sector. When `StateMinerInfo` fails the source returns before the loop, and the model requires nothing.
- The node's answers are taken to stay fixed for the length of a run: each oracle is a function of its arguments. In the source, the `EmptyTSK` queries (export/export.go:54, 62, 71 and the first lookup at 105) read the chain head, which can move during a run. `Classify.ClassifiedByNumber`'s "entries with one sector number are one entry" rests on this, and so does `Export.Action`'s use of the unique sorted order.
- What `ts.Key()` returns for a nil tipset is library code and is not part of this model. Like the source, the model never consults the lookup's error, and its tipset oracle always returns a tipset.
- `sort.Sort`'s own algorithm is library code. The model sorts with an insertion sort driven by `Less` and `Swap`. `SortedPermutationUnique` shows that every algorithm producing a sorted permutation gives the same list.
- The entries are `*SectorInfo` pointers in the source. Each pointer is freshly allocated and none is shared, so the model keeps an array of values and updates the ticket in place (`a[i] := a[i].(ticket := …)`). Pointer identity is not modelled.
- CLI flag definitions and parsing, JSON marshalling, `homedir.Expand`, writing the file, the elapsed-time printout and the `log.Errorf` diagnostics are I/O. `Action` returns the record and the failure list that the source writes and prints. The error returns of `json.MarshalIndent`, `homedir.Expand` and `ioutil.WriteFile` (export/export.go:122-134) are not modelled, so `Action`'s "fails exactly when" covers only the errors before and during the walk.
- The exact value of `DomainSeparationTag_SealRandomness` (5) comes from the Filecoin crypto package. That package is not part of this model.
