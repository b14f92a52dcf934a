/** The randomness loop of `ExportCmd.Action`: walk the sorted sectors,
    carrying the key of the last tipset found, and fetch each sector's seal
    randomness (its ticket) anchored at that tipset. */
module Randomness {
  import opened Chain
  import opened SectorInfos
  import opened Classify

  /** The key the tipset search for entry `k` starts from (`tsk` before turn
      `k`); `SearchKey(node, s, k + 1)` is the key of the tipset found for
      entry `k`. */
  function SearchKey(node: FullNode, s: seq<SectorInfo>, k: nat): TipSetKey
    requires k <= |s|
  {
    if k == 0 then EmptyTSK
    else node.chainGetTipSetByHeight(s[k - 1].activation, SearchKey(node, s, k - 1)).tipSet.key
  }

  /** The randomness request made for entry `k`. */
  function TicketQuery(node: FullNode, minerCbor: seq<byte>, s: seq<SectorInfo>, k: nat): Result<Randomness>
    requires k < |s|
  {
    node.stateGetRandomnessFromTickets(
      DomainSeparationTagSealRandomness, s[k].activation, minerCbor, SearchKey(node, s, k + 1))
  }

  /** Entry `k` after the walk. */
  function Resolved(node: FullNode, minerCbor: seq<byte>, s: seq<SectorInfo>, k: nat): SectorInfo
    requires k < |s|
  {
    match TicketQuery(node, minerCbor, s, k)
    case Ok(ticket) => s[k].(ticket := ticket)
    case Err(_) => s[k]
  }

  /** The whole list after the walk. */
  function ResolvedAll(node: FullNode, minerCbor: seq<byte>, s: seq<SectorInfo>): seq<SectorInfo> {
    seq(|s|, k requires 0 <= k < |s| => Resolved(node, minerCbor, s, k))
  }

  /** The sector numbers the walk appends to `failtSectors` in its first `n` turns. */
  function WalkFailures(node: FullNode, minerCbor: seq<byte>, s: seq<SectorInfo>, n: nat): seq<SectorNumber>
    requires n <= |s|
  {
    if n == 0 then []
    else
      WalkFailures(node, minerCbor, s, n - 1) +
      (if TicketQuery(node, minerCbor, s, n - 1).Err? then [s[n - 1].sectorNumber] else [])
  }

  /** The walk as the fold the source writes: carry `tsk`, move it to the
      tipset found at each entry's activation, then ask for randomness there. */
  function Walk(node: FullNode, minerCbor: seq<byte>, s: seq<SectorInfo>, tsk: TipSetKey)
    : (seq<SectorInfo>, seq<SectorNumber>)
    decreases |s|
  {
    if s == [] then ([], [])
    else
      var next := node.chainGetTipSetByHeight(s[0].activation, tsk).tipSet.key;
      var rest := Walk(node, minerCbor, s[1..], next);
      match node.stateGetRandomnessFromTickets(DomainSeparationTagSealRandomness, s[0].activation, minerCbor, next)
      case Ok(ticket) => ([s[0].(ticket := ticket)] + rest.0, rest.1)
      case Err(_) => ([s[0]] + rest.0, [s[0].sectorNumber] + rest.1)
  }

  /** The walk changes nothing but tickets: on success the ticket is exactly
      the returned bytes, on failure the entry is left as it was. */
  lemma ResolvedChangesOnlyTicket(node: FullNode, minerCbor: seq<byte>, s: seq<SectorInfo>, k: nat)
    requires k < |s|
    ensures Resolved(node, minerCbor, s, k).(ticket := s[k].ticket) == s[k]
    ensures TicketQuery(node, minerCbor, s, k).Ok? ==>
      Resolved(node, minerCbor, s, k).ticket == TicketQuery(node, minerCbor, s, k).value
    ensures TicketQuery(node, minerCbor, s, k).Err? ==> Resolved(node, minerCbor, s, k) == s[k]
  {
  }

  /** The first search starts from the chain head; every later one from the
      tipset found for the entry before; each randomness request asks at the
      entry's own activation and at the tipset just found.  These unfold the
      definitions of `SearchKey` and `TicketQuery`; the loop itself is tied to
      this chain of keys by the invariant `tsk == SearchKey(node, s, i)` of
      `ResolveTickets`. */
  lemma SearchChain(node: FullNode, minerCbor: seq<byte>, s: seq<SectorInfo>, k: nat)
    requires k < |s|
    ensures SearchKey(node, s, 0) == EmptyTSK
    ensures SearchKey(node, s, k + 1) ==
      node.chainGetTipSetByHeight(s[k].activation, SearchKey(node, s, k)).tipSet.key
    ensures TicketQuery(node, minerCbor, s, k) ==
      node.stateGetRandomnessFromTickets(DomainSeparationTagSealRandomness, s[k].activation, minerCbor,
        node.chainGetTipSetByHeight(s[k].activation, SearchKey(node, s, k)).tipSet.key)
  {
  }

  /** A sector number is reported as failed by the walk exactly when one of
      its entries' randomness requests failed. */
  lemma {:induction false} WalkFailuresSpec(node: FullNode, minerCbor: seq<byte>, s: seq<SectorInfo>, n: nat)
    requires n <= |s|
    ensures |WalkFailures(node, minerCbor, s, n)| <= n
    ensures forall x :: x in WalkFailures(node, minerCbor, s, n) <==>
      exists k :: 0 <= k < n && TicketQuery(node, minerCbor, s, k).Err? && s[k].sectorNumber == x
  {
    if n > 0 {
      WalkFailuresSpec(node, minerCbor, s, n - 1);
    }
  }

  /** What each of the first `n` turns of the walk yields, as a classification
      outcome: the entry with its ticket, or the entry's number when its
      randomness request failed. */
  function WalkOutcomes(node: FullNode, minerCbor: seq<byte>, s: seq<SectorInfo>, n: nat): seq<Outcome>
    requires n <= |s|
  {
    seq(n, k requires 0 <= k < n =>
      if TicketQuery(node, minerCbor, s, k).Err? then Failed(s[k].sectorNumber)
      else Classified(Resolved(node, minerCbor, s, k)))
  }

  /** The walk's reports are the failed turns' numbers: one report per failed
      entry, in walk order, so a sector listed twice whose requests both fail
      is reported twice. */
  lemma {:induction false} WalkFailuresAreFailures(node: FullNode, minerCbor: seq<byte>, s: seq<SectorInfo>, n: nat)
    requires n <= |s|
    ensures WalkFailures(node, minerCbor, s, n) == Failures(WalkOutcomes(node, minerCbor, s, n))
  {
    if n > 0 {
      WalkFailuresAreFailures(node, minerCbor, s, n - 1);
      var o := WalkOutcomes(node, minerCbor, s, n);
      assert o[..n - 1] == WalkOutcomes(node, minerCbor, s, n - 1);
    }
  }

  /** The j-th number the walk reports is that of the j-th entry whose
      randomness request failed. */
  lemma WalkFailuresInOrder(node: FullNode, minerCbor: seq<byte>, s: seq<SectorInfo>, n: nat)
    requires n <= |s|
    ensures |WalkFailures(node, minerCbor, s, n)| == |Positions(WalkOutcomes(node, minerCbor, s, n), false)|
    ensures forall j :: 0 <= j < |WalkFailures(node, minerCbor, s, n)| ==>
      var p := Positions(WalkOutcomes(node, minerCbor, s, n), false)[j];
      0 <= p < n && TicketQuery(node, minerCbor, s, p).Err? &&
      WalkFailures(node, minerCbor, s, n)[j] == s[p].sectorNumber
    ensures forall p :: 0 <= p < n ==>
      (p in Positions(WalkOutcomes(node, minerCbor, s, n), false) <==> TicketQuery(node, minerCbor, s, p).Err?)
  {
    var o := WalkOutcomes(node, minerCbor, s, n);
    WalkFailuresAreFailures(node, minerCbor, s, n);
    FailuresInOrder(o);
    PositionsSpec(o, false);
  }

  /** The tipset walk depends on the node's tipsets alone: neither the error
      half of `ChainGetTipSetByHeight` nor any randomness answer moves it. */
  lemma {:induction false} SearchKeyIgnoresAllElse(n1: FullNode, n2: FullNode, s: seq<SectorInfo>, k: nat)
    requires forall e, key :: n1.chainGetTipSetByHeight(e, key).tipSet == n2.chainGetTipSetByHeight(e, key).tipSet
    requires k <= |s|
    ensures SearchKey(n1, s, k) == SearchKey(n2, s, k)
  {
    if k > 0 {
      SearchKeyIgnoresAllElse(n1, n2, s, k - 1);
    }
  }

  /** Failures are isolated: entry `k` after the walk depends only on its own
      randomness answer, whatever the node answers for the other entries. */
  lemma ResolvedIsolated(n1: FullNode, n2: FullNode, minerCbor: seq<byte>, s: seq<SectorInfo>, k: nat)
    requires forall e, key :: n1.chainGetTipSetByHeight(e, key).tipSet == n2.chainGetTipSetByHeight(e, key).tipSet
    requires k < |s|
    requires n1.stateGetRandomnessFromTickets(DomainSeparationTagSealRandomness, s[k].activation, minerCbor, SearchKey(n1, s, k + 1))
          == n2.stateGetRandomnessFromTickets(DomainSeparationTagSealRandomness, s[k].activation, minerCbor, SearchKey(n1, s, k + 1))
    ensures Resolved(n1, minerCbor, s, k) == Resolved(n2, minerCbor, s, k)
  {
    SearchKeyIgnoresAllElse(n1, n2, s, k + 1);
  }

  /** `SearchKey` on a suffix, started from the key reached so far. */
  function SearchKeyFrom(node: FullNode, s: seq<SectorInfo>, tsk: TipSetKey, k: nat): TipSetKey
    requires k <= |s|
  {
    if k == 0 then tsk
    else node.chainGetTipSetByHeight(s[k - 1].activation, SearchKeyFrom(node, s, tsk, k - 1)).tipSet.key
  }

  lemma {:induction false} SearchKeyFromStart(node: FullNode, s: seq<SectorInfo>, k: nat)
    requires k <= |s|
    ensures SearchKeyFrom(node, s, EmptyTSK, k) == SearchKey(node, s, k)
  {
    if k > 0 {
      SearchKeyFromStart(node, s, k - 1);
    }
  }

  /** Dropping the first entry: the search from the key found for it. */
  lemma {:induction false} SearchKeyFromTail(node: FullNode, s: seq<SectorInfo>, tsk: TipSetKey, k: nat)
    requires 0 < |s| && k < |s|
    ensures SearchKeyFrom(node, s[1..], node.chainGetTipSetByHeight(s[0].activation, tsk).tipSet.key, k)
         == SearchKeyFrom(node, s, tsk, k + 1)
  {
    if k > 0 {
      SearchKeyFromTail(node, s, tsk, k - 1);
      assert s[1..][k - 1] == s[k];
    }
  }

  /** The entries the fold produces, one by one. */
  lemma {:induction false} WalkSpec(node: FullNode, minerCbor: seq<byte>, s: seq<SectorInfo>, tsk: TipSetKey)
    ensures |Walk(node, minerCbor, s, tsk).0| == |s|
    ensures forall k :: 0 <= k < |s| ==>
      var key := SearchKeyFrom(node, s, tsk, k + 1);
      var answer := node.stateGetRandomnessFromTickets(DomainSeparationTagSealRandomness, s[k].activation, minerCbor, key);
      Walk(node, minerCbor, s, tsk).0[k] == (if answer.Ok? then s[k].(ticket := answer.value) else s[k])
    decreases |s|
  {
    if s != [] {
      var next := node.chainGetTipSetByHeight(s[0].activation, tsk).tipSet.key;
      WalkSpec(node, minerCbor, s[1..], next);
      forall k | 1 <= k < |s|
        ensures SearchKeyFrom(node, s[1..], next, k) == SearchKeyFrom(node, s, tsk, k + 1)
      {
        SearchKeyFromTail(node, s, tsk, k);
      }
    }
  }

  /** The failures of the fold on `s[..n + 1]` are those on `s[..n]` plus the
      `n`-th entry's, when its randomness request fails. */
  lemma {:induction false} WalkFailuresSnoc(node: FullNode, minerCbor: seq<byte>, s: seq<SectorInfo>, tsk: TipSetKey, n: nat)
    requires n < |s|
    ensures Walk(node, minerCbor, s[..n + 1], tsk).1 ==
      Walk(node, minerCbor, s[..n], tsk).1 +
      (if node.stateGetRandomnessFromTickets(DomainSeparationTagSealRandomness, s[n].activation, minerCbor,
            SearchKeyFrom(node, s, tsk, n + 1)).Err?
       then [s[n].sectorNumber] else [])
    decreases n
  {
    var next := node.chainGetTipSetByHeight(s[0].activation, tsk).tipSet.key;
    if n == 0 {
      assert s[..1][1..] == [];
    } else {
      assert s[..n + 1][1..] == s[1..][..n];
      assert s[..n][1..] == s[1..][..n - 1];
      assert s[..n + 1][0] == s[..n][0] == s[0];
      WalkFailuresSnoc(node, minerCbor, s[1..], next, n - 1);
      SearchKeyFromTail(node, s, tsk, n);
    }
  }

  /** The fold and the entry-by-entry description are the same walk. */
  lemma WalkAgrees(node: FullNode, minerCbor: seq<byte>, s: seq<SectorInfo>)
    ensures Walk(node, minerCbor, s, EmptyTSK) ==
      (ResolvedAll(node, minerCbor, s), WalkFailures(node, minerCbor, s, |s|))
  {
    WalkSpec(node, minerCbor, s, EmptyTSK);
    forall k | 0 <= k < |s|
      ensures Walk(node, minerCbor, s, EmptyTSK).0[k] == Resolved(node, minerCbor, s, k)
    {
      SearchKeyFromStart(node, s, k + 1);
    }
    assert Walk(node, minerCbor, s, EmptyTSK).0 == ResolvedAll(node, minerCbor, s);
    WalkFailuresPrefix(node, minerCbor, s, |s|);
    assert s[..|s|] == s;
  }

  lemma {:induction false} WalkFailuresPrefix(node: FullNode, minerCbor: seq<byte>, s: seq<SectorInfo>, n: nat)
    requires n <= |s|
    ensures Walk(node, minerCbor, s[..n], EmptyTSK).1 == WalkFailures(node, minerCbor, s, n)
  {
    if n > 0 {
      WalkFailuresPrefix(node, minerCbor, s, n - 1);
      WalkFailuresSnoc(node, minerCbor, s, EmptyTSK, n - 1);
      SearchKeyFromStart(node, s, n);
    }
  }

  /** The randomness loop of `ExportCmd.Action`: sets each entry's ticket in
      place and appends the numbers of the entries whose request failed. */
  method ResolveTickets(node: FullNode, minerCbor: seq<byte>, a: array<SectorInfo>, failtSectors: seq<SectorNumber>)
    returns (failed: seq<SectorNumber>)
    modifies a
    ensures a[..] == ResolvedAll(node, minerCbor, old(a[..]))
    ensures failed == failtSectors + WalkFailures(node, minerCbor, old(a[..]), a.Length)
  {
    ghost var s := a[..];
    failed := failtSectors;
    var tsk := EmptyTSK;
    for i := 0 to a.Length
      invariant tsk == SearchKey(node, s, i)
      invariant forall k :: 0 <= k < i ==> a[k] == Resolved(node, minerCbor, s, k)
      invariant forall k :: i <= k < a.Length ==> a[k] == s[k]
      invariant failed == failtSectors + WalkFailures(node, minerCbor, s, i)
    {
      var ts := node.chainGetTipSetByHeight(a[i].activation, tsk);
      tsk := ts.tipSet.key;
      var ticket := node.stateGetRandomnessFromTickets(DomainSeparationTagSealRandomness, a[i].activation, minerCbor, tsk);
      if ticket.Err? {
        failed := failed + [a[i].sectorNumber];
        continue;
      }
      a[i] := a[i].(ticket := ticket.value);
    }
  }
}
