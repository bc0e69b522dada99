/**
 Expert-parallel dispatch and combine: how the kernels address slots, rows and peers. A job is turned into
 a routing of the exchange protocol, and each kernel program is shown to perform exactly the writes of the
 corresponding protocol step.
 */
module ExpertParallel {
  import opened Arith
  import opened Results
  import opened ExpertAssignment
  import opened Exchange

  datatype Job = Job(
    nRanks: nat,
    nLocal: nat,                  // tokens per rank
    nTokens: nat,                 // tokens of all ranks, padding included
    nAct: nat,                    // experts per token
    nExperts: nat,
    dict: seq<ShardEntry>,        // who owns which expert
    assignment: Assignment,       // its encodings
    exptIndx: seq<nat>,           // expert of a slot `token * nAct + k`
    gateIndx: seq<nat>,           // row of a slot in the owner's buffer
    topkIndx: seq<nat>,           // slot of a row
    width: nat,                   // columns of a row
    src: seq<seq<Row>>)           // the token rows of each rank

  function SlotCount(j: Job): nat {
    MulNonNeg(j.nTokens, j.nAct);
    j.nTokens * j.nAct
  }

  /** Result rows per rank: the combine kernel shares the slots out evenly, and drops the remainder. */
  function PerRank(j: Job): nat {
    if j.nRanks == 0 then 0 else SlotCount(j) / j.nRanks
  }

  /** Nothing is dropped. */
  predicate Even(j: Job) {
    SlotCount(j) == j.nRanks * PerRank(j)
  }

  ghost predicate AssignmentOk(j: Job) {
    && DistinctShards(j.dict)
    && Accepted(j.nRanks, j.nExperts, j.dict)
    && Encodes(j.assignment, j.nRanks, j.nExperts, j.dict)
  }

  /** `gateIndx` is a permutation of the slots, `topkIndx` its inverse, and every slot names a known expert. */
  ghost predicate IndicesOk(j: Job, slots: nat) {
    && |j.exptIndx| == |j.gateIndx| == |j.topkIndx| == slots
    && (forall i :: 0 <= i < slots ==> j.exptIndx[i] < j.nExperts)
    && (forall i :: 0 <= i < slots ==> j.gateIndx[i] < slots && j.topkIndx[j.gateIndx[i]] == i)
    && (forall m :: 0 <= m < slots ==> j.topkIndx[m] < slots && j.gateIndx[j.topkIndx[m]] == m)
  }

  ghost predicate SourceOk(j: Job) {
    && |j.src| == j.nRanks
    && (forall q :: 0 <= q < j.nRanks ==> |j.src[q]| == j.nLocal)
    && (forall q, p :: 0 <= q < j.nRanks && 0 <= p < j.nLocal ==> |j.src[q][p]| == j.width)
  }

  ghost predicate ValidJob(j: Job) {
    && j.nLocal * j.nRanks <= j.nTokens
    && AssignmentOk(j) && IndicesOk(j, SlotCount(j)) && SourceOk(j)
  }

  // ---------------------------------------------------------------- slots and homes

  /** Slot of the `k`-th expert of token `p` of rank `q`, as the dispatch kernel addresses it. */
  function SlotOf(j: Job, q: int, p: int, k: int): int {
    (p + j.nLocal * q) * j.nAct + k
  }

  /** Rank and local token that a slot routes; the slots after the last rank's tokens are padding. */
  function TokenOf(j: Job, i: nat): (t: Option<Place>)
    requires i < SlotCount(j)
    ensures t.Some? ==> t.value.0 < j.nRanks && t.value.1 < j.nLocal
  {
    PositiveFactors(j.nTokens, j.nAct);
    var g := i / j.nAct;
    if g < j.nRanks * j.nLocal then
      PositiveFactors(j.nRanks, j.nLocal);
      BlockSplit(g, j.nRanks, j.nLocal);
      Some((g / j.nLocal, g % j.nLocal))
    else None
  }

  /** The kernel's slots of a token are slots that route it. */
  lemma SlotRoutesToken(j: Job, q: nat, p: nat, k: nat)
    requires j.nLocal * j.nRanks <= j.nTokens && q < j.nRanks && p < j.nLocal && k < j.nAct
    ensures 0 <= SlotOf(j, q, p, k) < SlotCount(j)
    ensures TokenOf(j, SlotOf(j, q, p, k)) == Some((q, p))
  {
    var g := q * j.nLocal + p;
    BlockBound(q, j.nRanks, j.nLocal, p);
    BlockBound(g, j.nTokens, j.nAct, k);
    DivMod(g, j.nAct, k);
    DivMod(q, j.nLocal, p);
  }

  /** And there are no others. */
  lemma TokenHasSlot(j: Job, i: nat) returns (k: nat)
    requires i < SlotCount(j) && TokenOf(j, i).Some?
    ensures k < j.nAct && SlotOf(j, TokenOf(j, i).value.0, TokenOf(j, i).value.1, k) == i
  {
    PositiveFactors(j.nTokens, j.nAct);
    PositiveFactors(j.nRanks, j.nLocal);
    BlockSplit(i, j.nTokens, j.nAct);
    BlockSplit(i / j.nAct, j.nRanks, j.nLocal);
    k := i % j.nAct;
  }

  lemma RowsFit(j: Job)
    ensures 0 <= j.nRanks * PerRank(j) <= SlotCount(j)
  {
    MulNonNeg(j.nRanks, PerRank(j));
  }

  /** Rank and row where the combine kernel puts the result of a slot. */
  function HomeOf(j: Job, i: nat): (h: Place)
    requires i < j.nRanks * PerRank(j)
    ensures h.0 < j.nRanks && h.1 < PerRank(j)
  {
    PositiveFactors(j.nRanks, PerRank(j));
    BlockSplit(i, j.nRanks, PerRank(j));
    (i / PerRank(j), i % PerRank(j))
  }

  /** Row `c` of rank `q` is the home of slot `q * PerRank + c`. */
  function SlotAt(j: Job, q: nat, c: nat): (i: nat)
    requires q < j.nRanks && c < PerRank(j)
    ensures i < j.nRanks * PerRank(j) <= SlotCount(j) && HomeOf(j, i) == (q, c)
  {
    BlockBound(q, j.nRanks, PerRank(j), c);
    DivMod(q, PerRank(j), c);
    RowsFit(j);
    q * PerRank(j) + c
  }

  /** And of no other. */
  lemma HomesAreDistinct(j: Job, i: nat, i': nat)
    requires i < j.nRanks * PerRank(j) && i' < j.nRanks * PerRank(j) && HomeOf(j, i) == HomeOf(j, i')
    ensures i == i'
  {
  }

  /** The rank that the combine kernel computes for a slot is one that exists. */
  predicate HasPeer(j: Job, i: nat) {
    PerRank(j) != 0 && i / PerRank(j) < j.nRanks
  }

  /** Every result has a rank to go to exactly if the ranks share the slots out evenly. */
  lemma EverySlotHasPeer(j: Job)
    ensures (forall i: nat :: i < SlotCount(j) ==> HasPeer(j, i)) <==> Even(j)
  {
    RowsFit(j);
    if Even(j) {
      forall i: nat | i < SlotCount(j)
        ensures HasPeer(j, i)
      {
        var h := HomeOf(j, i);
      }
    } else {
      var i := j.nRanks * PerRank(j);
      if PerRank(j) != 0 {
        DivMod(j.nRanks, PerRank(j), 0);
      }
      assert !HasPeer(j, i);
    }
  }

  /** Every token is some rank's: there is no padding. */
  predicate Full(j: Job) {
    j.nLocal * j.nRanks == j.nTokens
  }

  lemma FullIsEven(j: Job)
    requires Full(j) && 0 < j.nRanks
    ensures Even(j) && PerRank(j) == j.nLocal * j.nAct
  {
    MulSwap(j.nLocal, j.nRanks, j.nAct);
    MulNonNeg(j.nLocal, j.nAct);
    DivMod(j.nLocal * j.nAct, j.nRanks, 0);
  }

  /** A row of the result buffer belongs to a token of the same rank. */
  predicate Returned(j: Job, i: nat)
    requires i < SlotCount(j) == j.nRanks * PerRank(j)
  {
    TokenOf(j, i).Some? ==> HomeOf(j, i).0 == TokenOf(j, i).value.0 && HomeOf(j, i).1 / j.nAct == TokenOf(j, i).value.1
  }

  /**
   The combine kernel recomputes the tokens of a rank from the padded total, so results go back to the rank that sent
   the token exactly if there is no padding, one rank, or nothing to send.
   */
  lemma ReturnsToSender(j: Job)
    requires Even(j) && 0 < j.nRanks && j.nLocal * j.nRanks <= j.nTokens
    ensures (forall i: nat :: i < SlotCount(j) ==> Returned(j, i)) <==>
              Full(j) || j.nRanks == 1 || j.nLocal == 0 || j.nAct == 0
  {
    if Full(j) || j.nRanks == 1 || j.nLocal == 0 || j.nAct == 0 {
      forall i: nat | i < SlotCount(j)
        ensures Returned(j, i)
      {
        if TokenOf(j, i).Some? {
          RoutedIsReturned(j, i);
        }
      }
    } else {
      PaddingMisleads(j);
    }
  }

  lemma RoutedIsReturned(j: Job, i: nat)
    requires Even(j) && i < SlotCount(j) && TokenOf(j, i).Some? && (Full(j) || j.nRanks == 1)
    ensures Returned(j, i)
  {
    var q, p := TokenOf(j, i).value.0, TokenOf(j, i).value.1;
    var k := TokenHasSlot(j, i);
    if Full(j) {
      FullIsEven(j);
      SlotSplits(j, q, p, k);
      BlockBound(p, j.nLocal, j.nAct, k);
      DivMod(q, PerRank(j), p * j.nAct + k);
    } else {
      DivMod(0, PerRank(j), i);
    }
    DivMod(p, j.nAct, k);
  }

  lemma SlotSplits(j: Job, q: int, p: int, k: int)
    ensures SlotOf(j, q, p, k) == q * (j.nLocal * j.nAct) + (p * j.nAct + k)
  {
    MulAssoc(q, j.nLocal, j.nAct);
  }

  /** With padding, the first slot of the second rank goes to the first. */
  lemma PaddingMisleads(j: Job)
    requires Even(j) && j.nLocal * j.nRanks < j.nTokens && 1 < j.nRanks && 0 < j.nLocal && 0 < j.nAct
    ensures 0 <= SlotOf(j, 1, 0, 0) < SlotCount(j) && !Returned(j, SlotOf(j, 1, 0, 0))
  {
    SlotRoutesToken(j, 1, 0, 0);
    var i := SlotOf(j, 1, 0, 0);
    assert i < PerRank(j) by {
      MulMono(j.nLocal * j.nRanks + 1, j.nTokens, j.nAct);
      MulSwap(j.nLocal, j.nRanks, j.nAct);
      if PerRank(j) <= i {
        MulMono(PerRank(j), j.nLocal * j.nAct, j.nRanks);
      }
    }
    DivMod(0, PerRank(j), i);
  }

  // ---------------------------------------------------------------- the routing of a job

  /** The owner of the expert that a slot selects. */
  ghost function Owner(j: Job, i: nat): (o: nat)
    requires AssignmentOk(j) && IndicesOk(j, SlotCount(j)) && i < SlotCount(j)
    ensures o < j.nRanks && forall s :: Owns(j.dict, s, j.exptIndx[i]) <==> s == o
  {
    OwnerIsUnique(j.nRanks, j.nExperts, j.dict, j.exptIndx[i]);
    OwnerOf(j.dict, j.exptIndx[i])
  }

  ghost function HomePlaces(j: Job): set<Place> {
    set q: nat, c: nat | q < j.nRanks && c < PerRank(j) :: (q, c)
  }

  ghost function HomeMap(j: Job): map<Place, nat> {
    map h | h in HomePlaces(j) :: SlotAt(j, h.0, h.1)
  }

  ghost function Homes(j: Job): (homes: seq<Place>)
    ensures |homes| == j.nRanks * PerRank(j)
    ensures forall i :: 0 <= i < |homes| ==> homes[i] == HomeOf(j, i)
  {
    RowsFit(j);
    seq(j.nRanks * PerRank(j), i requires 0 <= i < j.nRanks * PerRank(j) => HomeOf(j, i))
  }

  ghost function RoutingOf(j: Job): (t: Routing)
    requires ValidJob(j)
    ensures t.Slots() == SlotCount(j) == |t.token| && t.home == Homes(j)
    ensures forall i :: 0 <= i < SlotCount(j) ==> t.owner[i] == Owner(j, i) && t.token[i] == TokenOf(j, i)
    ensures Dispatchable(t)
  {
    var n := SlotCount(j);
    Routing(j.nRanks, j.nLocal, seq(n, i requires 0 <= i < n => Owner(j, i)), j.gateIndx, j.topkIndx,
            seq(n, i requires 0 <= i < n => TokenOf(j, i)), Homes(j), HomeMap(j), j.src)
  }

  /** An accepted assignment with a permutation of the slots can be combined exactly if every result has a peer. */
  lemma RoutingIsValid(j: Job)
    requires ValidJob(j)
    ensures Valid(RoutingOf(j)) <==> Even(j)
  {
    if Even(j) {
      RoutingHomes(j);
    }
  }

  ghost function EvenRoutingOf(j: Job): (t: Routing)
    requires ValidJob(j) && Even(j)
    ensures Valid(t) && t == RoutingOf(j)
  {
    RoutingIsValid(j);
    RoutingOf(j)
  }

  lemma RoutingHomes(j: Job)
    requires ValidJob(j) && Even(j)
    ensures var t := RoutingOf(j);
            && (forall i :: 0 <= i < t.Slots() ==> t.home[i] in t.homes && t.homes[t.home[i]] == i)
            && (forall h :: h in t.homes ==> h.0 < t.nRanks && t.homes[h] < t.Slots() && t.home[t.homes[h]] == h)
  {
    var t := RoutingOf(j);
    forall i | 0 <= i < t.Slots()
      ensures t.home[i] in t.homes && t.homes[t.home[i]] == i
    {
      HomeMapAt(j, i);
    }
    forall h | h in t.homes
      ensures h.0 < t.nRanks && t.homes[h] < t.Slots() && t.home[t.homes[h]] == h
    {
      assert t.home[t.homes[h]] == HomeOf(j, SlotAt(j, h.0, h.1));
    }
  }

  lemma HomeMapAt(j: Job, i: nat)
    requires i < j.nRanks * PerRank(j)
    ensures HomeOf(j, i) in HomeMap(j) && HomeMap(j)[HomeOf(j, i)] == i
  {
    var h := HomeOf(j, i);
    assert (h.0, h.1) in HomePlaces(j);
    HomesAreDistinct(j, i, SlotAt(j, h.0, h.1));
  }

  /** Jobs that follow each other among the same ranks. */
  ghost predicate ValidJobs(js: seq<Job>) {
    && 0 < |js|
    && forall r :: 0 <= r < |js| ==> ValidJob(js[r]) && Even(js[r]) && js[r].nRanks == js[0].nRanks
  }

  ghost function RoutingsOf(js: seq<Job>): (ts: seq<Routing>)
    requires ValidJobs(js)
    ensures |ts| == |js| && (forall r :: 0 <= r < |js| ==> ts[r] == RoutingOf(js[r])) && ValidRounds(ts)
  {
    seq(|js|, r requires 0 <= r < |js| => EvenRoutingOf(js[r]))
  }

  /**
   Dispatch, any row-wise computation on the owners, and combine: once a rank has finished a round, the home row of each
   of its slots holds what the owner of the slot's expert made of the slot's own token, and keeps it until the rank has
   dispatched the tokens of the next round.
   */
  lemma ExchangeRoundTrip(js: seq<Job>, f: RowFunction, trace: seq<Cluster>, steps: seq<Step>, n: nat, r: nat, i: nat)
    requires ValidJobs(js) && Run(RoutingsOf(js), f, trace, steps) && n <= |steps|
    requires r < |js| && i < SlotCount(js[r]) && TokenOf(js[r], i).Some? && |trace[n].at| == js[0].nRanks
    requires HasResultsOf(trace[n].at[HomeOf(js[r], i).0], r)
    ensures HomeOf(js[r], i) in trace[n].tokens
    ensures var j, token := js[r], TokenOf(js[r], i).value;
            trace[n].tokens[HomeOf(j, i)] == f(r, Owner(j, i), j.gateIndx[i], j.src[token.0][token.1])
  {
    var ts := RoutingsOf(js);
    assert ts[r].home[i] in ts[r].homes && ts[r].homes[ts[r].home[i]] == i;
    RoundTrip(ts, f, trace, steps, n, r, ts[r].home[i]);
  }

  /** Without padding, row `c` of a rank that has finished is the answer for its own token `c / nAct`. */
  lemma RankReceivesItsResults(js: seq<Job>, f: RowFunction, trace: seq<Cluster>, steps: seq<Step>, n: nat, r: nat,
                               q: nat, c: nat)
    requires ValidJobs(js) && Run(RoutingsOf(js), f, trace, steps) && n <= |steps| && r < |js| && Full(js[r])
    requires q < js[r].nRanks && c < PerRank(js[r]) && |trace[n].at| == js[0].nRanks && HasResultsOf(trace[n].at[q], r)
    ensures (q, c) in trace[n].tokens
    ensures trace[n].tokens[(q, c)] == AnswerFor(js[r], f, r, q, c)
  {
    RowOfToken(js[r], q, c);
    ExchangeRoundTrip(js, f, trace, steps, n, r, SlotAt(js[r], q, c));
  }

  /** What the owner of slot `q * PerRank + c` computes in round `r` from token `c / nAct` of rank `q`. */
  ghost function AnswerFor(j: Job, f: RowFunction, r: nat, q: nat, c: nat): Row
    requires ValidJob(j) && Full(j) && q < j.nRanks && c < PerRank(j)
  {
    RowOfToken(j, q, c);
    var i := SlotAt(j, q, c);
    f(r, Owner(j, i), j.gateIndx[i], j.src[q][c / j.nAct])
  }

  lemma RowOfToken(j: Job, q: nat, c: nat)
    requires Full(j) && q < j.nRanks && c < PerRank(j)
    ensures 0 < j.nAct && c / j.nAct < j.nLocal && TokenOf(j, SlotAt(j, q, c)) == Some((q, c / j.nAct))
  {
    FullIsEven(j);
    PositiveFactors(j.nLocal, j.nAct);
    BlockSplit(c, j.nLocal, j.nAct);
    SlotSplits(j, q, c / j.nAct, c % j.nAct);
    SlotRoutesToken(j, q, c / j.nAct, c % j.nAct);
  }

  // ---------------------------------------------------------------- the kernels

  const BLOCK: nat := 512

  /** The masked copy of one row, `BLOCK` columns at a time. */
  method StoreRow(dst: Row, src: Row) returns (row: Row)
    requires |dst| == |src|
    ensures row == src
  {
    row := dst;
    var start := 0;
    while start < |src|
      invariant 0 <= start && |row| == |src|
      invariant forall c :: 0 <= c < start && c < |src| ==> row[c] == src[c]
    {
      row := seq(|src|, c requires 0 <= c < |src| == |row| => if start <= c < start + BLOCK then src[c] else row[c]);
      start := start + BLOCK;
    }
  }

  /** `tl.sum(offs_r * expt_filter)`: weigh each rank by its bit and add up. */
  method WeighRanks(bitmask: seq<seq<int>>, nRanks: nat, e: nat) returns (rank: int)
    requires nRanks <= |bitmask| && forall s :: 0 <= s < nRanks ==> e / 32 < |bitmask[s]|
    ensures rank == RankWeightedBits(bitmask, e, nRanks)
  {
    rank := 0;
    var r := 0;
    while r < nRanks
      invariant 0 <= r <= nRanks
      invariant rank == RankWeightedBits(bitmask, e, r)
    {
      rank := rank + r * MaskBit(bitmask, r, e);
      r := r + 1;
    }
  }

  /** The peer whose index equals `rank`, found by comparing every index in turn; a null pointer if there is none. */
  method SelectPeer(nRanks: nat, rank: nat) returns (peer: Option<nat>)
    ensures peer == if rank < nRanks then Some(rank) else None
  {
    peer := None;
    var r := 0;
    while r < nRanks
      invariant 0 <= r <= nRanks
      invariant peer == if rank < r then Some(rank) else None
    {
      if r == rank { peer := Some(r); }
      r := r + 1;
    }
  }

  /** What the kernels decode from the bitmask is the owner. */
  lemma KernelsAgreeOnOwner(j: Job, i: nat)
    requires AssignmentOk(j) && IndicesOk(j, SlotCount(j)) && i < SlotCount(j)
    ensures j.nRanks == |j.assignment.bitmask|
    ensures forall s :: 0 <= s < j.nRanks ==> j.exptIndx[i] / 32 < |j.assignment.bitmask[s]|
    ensures RankWeightedBits(j.assignment.bitmask, j.exptIndx[i], j.nRanks) == Owner(j, i)
    ensures forall s :: 0 <= s < j.nRanks ==>
                          (MaskBit(j.assignment.bitmask, s, j.exptIndx[i]) == 1 <==> s == Owner(j, i))
  {
    KernelFindsOwner(j.assignment, j.nRanks, j.nExperts, j.dict, j.exptIndx[i]);
  }

  /** Owner and row of a slot, as the dispatch kernel computes them. */
  method LocateSlot(j: Job, i: nat) returns (peer: nat, row: nat)
    requires AssignmentOk(j) && IndicesOk(j, SlotCount(j)) && i < SlotCount(j)
    ensures peer == Owner(j, i) && row == j.gateIndx[i] < SlotCount(j)
  {
    KernelsAgreeOnOwner(j, i);
    var rank := WeighRanks(j.assignment.bitmask, j.nRanks, j.exptIndx[i]);
    var found := SelectPeer(j.nRanks, rank);
    peer, row := found.value, j.gateIndx[i];
  }

  ghost predicate Buffers(peers: array2<Row>, nRanks: nat, rows: nat, width: nat)
    reads peers
  {
    && peers.Length0 == nRanks && peers.Length1 == rows
    && forall r, m :: 0 <= r < nRanks && 0 <= m < rows ==> |peers[r, m]| == width
  }

  /** One of the first `n` slots of token `p` of rank `q` is sent to this place. */
  ghost predicate SentTo(j: Job, q: nat, p: nat, n: nat, place: Place)
    requires ValidJob(j) && q < j.nRanks && p < j.nLocal && n <= j.nAct
  {
    exists k: nat :: k < n && SlotDestination(j, q, p, k) == place
  }

  ghost function SlotDestination(j: Job, q: nat, p: nat, k: nat): Place
    requires ValidJob(j) && q < j.nRanks && p < j.nLocal && k < j.nAct
  {
    SlotRoutesToken(j, q, p, k);
    (Owner(j, SlotOf(j, q, p, k)), j.gateIndx[SlotOf(j, q, p, k)])
  }

  /** The slots of a token cover exactly the places that its dispatch program must write. */
  lemma SentToAllSlots(j: Job, q: nat, p: nat, place: Place)
    requires ValidJob(j) && q < j.nRanks && p < j.nLocal
    ensures SentTo(j, q, p, j.nAct, place) <==> Sends(RoutingOf(j), q, p, place)
  {
    if SentTo(j, q, p, j.nAct, place) {
      var k: nat :| k < j.nAct && SlotDestination(j, q, p, k) == place;
      SlotIsSent(j, q, p, place, k);
    }
    if Sends(RoutingOf(j), q, p, place) {
      SentHasSlot(j, q, p, place);
    }
  }

  lemma SlotIsSent(j: Job, q: nat, p: nat, place: Place, k: nat)
    requires ValidJob(j) && q < j.nRanks && p < j.nLocal
    requires k < j.nAct && SlotDestination(j, q, p, k) == place
    ensures Sends(RoutingOf(j), q, p, place)
  {
    SlotRoutesToken(j, q, p, k);
  }

  lemma SentHasSlot(j: Job, q: nat, p: nat, place: Place)
    requires ValidJob(j) && q < j.nRanks && p < j.nLocal
    requires Sends(RoutingOf(j), q, p, place)
    ensures SentTo(j, q, p, j.nAct, place)
  {
    var k := TokenHasSlot(j, RoutingOf(j).topk[place.1]);
    assert SlotDestination(j, q, p, k) == place;
  }

  /** The store of the `k`-th expert of a dispatch program. */
  method DispatchOne(j: Job, q: nat, p: nat, k: nat, peers: array2<Row>)
    requires ValidJob(j) && q < j.nRanks && p < j.nLocal && k < j.nAct
    requires Buffers(peers, j.nRanks, SlotCount(j), j.width)
    modifies peers
    ensures Buffers(peers, j.nRanks, SlotCount(j), j.width)
    ensures forall r: nat, m: nat :: r < j.nRanks && m < SlotCount(j) ==>
              peers[r, m] == if (r, m) == SlotDestination(j, q, p, k) then j.src[q][p] else old(peers[r, m])
  {
    SlotRoutesToken(j, q, p, k);
    var peer, row := LocateSlot(j, SlotOf(j, q, p, k));
    var stored := StoreRow(peers[peer, row], j.src[q][p]);
    peers[peer, row] := stored;
  }

  lemma SentToStep(j: Job, q: nat, p: nat, k: nat, place: Place)
    requires ValidJob(j) && q < j.nRanks && p < j.nLocal && k < j.nAct
    ensures SentTo(j, q, p, k + 1, place) <==> SentTo(j, q, p, k, place) || place == SlotDestination(j, q, p, k)
  {
  }

  /** One program of the dispatch kernel stores its token row into exactly the places of its protocol step. */
  method ConvertDpToEp(j: Job, q: nat, p: nat, peers: array2<Row>)
    requires ValidJob(j) && q < j.nRanks && p < j.nLocal
    requires Buffers(peers, j.nRanks, SlotCount(j), j.width)
    modifies peers
    ensures Buffers(peers, j.nRanks, SlotCount(j), j.width)
    ensures forall r: nat, m: nat :: r < j.nRanks && m < SlotCount(j) ==>
              peers[r, m] == if Sends(RoutingOf(j), q, p, (r, m)) then j.src[q][p] else old(peers[r, m])
  {
    var k := 0;
    while k < j.nAct
      invariant 0 <= k <= j.nAct
      invariant Buffers(peers, j.nRanks, SlotCount(j), j.width)
      invariant forall r: nat, m: nat :: r < j.nRanks && m < SlotCount(j) ==>
                  peers[r, m] == if SentTo(j, q, p, k, (r, m)) then j.src[q][p] else old(peers[r, m])
    {
      DispatchOne(j, q, p, k, peers);
      forall place: Place
        ensures SentTo(j, q, p, k + 1, place) <==> SentTo(j, q, p, k, place) || place == SlotDestination(j, q, p, k)
      {
        SentToStep(j, q, p, k, place);
      }
      k := k + 1;
    }
    forall r: nat, m: nat | r < j.nRanks && m < SlotCount(j)
      ensures SentTo(j, q, p, j.nAct, (r, m)) <==> Sends(RoutingOf(j), q, p, (r, m))
    {
      SentToAllSlots(j, q, p, (r, m));
    }
  }

  lemma PeersAreFirst(j: Job, slot: nat)
    ensures HasPeer(j, slot) <==> slot < j.nRanks * PerRank(j)
    ensures HasPeer(j, slot) ==> HomeOf(j, slot) == (slot / PerRank(j), slot - slot / PerRank(j) * PerRank(j))
  {
    if PerRank(j) != 0 {
      QuotientBelow(slot, j.nRanks, PerRank(j));
    }
  }

  /** Rank and row that the combine kernel computes for a slot, if there is such a rank. */
  method LocateHome(j: Job, slot: nat) returns (place: Option<Place>)
    ensures place.Some? <==> HasPeer(j, slot)
    ensures place.Some? ==> slot < j.nRanks * PerRank(j) && place.value == HomeOf(j, slot)
  {
    var perRank := PerRank(j);
    PeersAreFirst(j, slot);
    if perRank == 0 {
      return None;
    }
    var rank := slot / perRank;
    var peer := SelectPeer(j.nRanks, rank);
    if peer.None? {
      return None;
    }
    return Some((peer.value, slot - rank * perRank));
  }

  /** The combine program for row `m` on rank `r` stores into this place. */
  ghost predicate StoresTo(j: Job, r: nat, m: nat, place: Place)
    requires ValidJob(j) && m < SlotCount(j)
  {
    var slot := j.topkIndx[m];
    Owner(j, slot) == r && slot < j.nRanks * PerRank(j) && place == HomeOf(j, slot)
  }

  lemma CombineStores(j: Job, r: nat, m: nat, result: Row)
    requires ValidJob(j) && Even(j) && r < j.nRanks && m < SlotCount(j)
    ensures forall place :: StoresTo(j, r, m, place) <==> place in CombineWrites(EvenRoutingOf(j), r, m, result)
  {
  }

  /**
   One program of the combine kernel stores the result at the slot's home, if the rank owns the slot's expert; it stores
   through a null pointer exactly if it owns the expert and the home does not exist. If every slot has a home, these are
   exactly the writes of the program's protocol step.
   */
  method ConvertEpToDp(j: Job, r: nat, m: nat, result: Row, peers: array2<Row>) returns (faults: bool)
    requires ValidJob(j) && r < j.nRanks && m < SlotCount(j)
    requires |result| == j.width && Buffers(peers, j.nRanks, PerRank(j), j.width)
    modifies peers
    ensures Buffers(peers, j.nRanks, PerRank(j), j.width)
    ensures faults <==> Owner(j, j.topkIndx[m]) == r && !HasPeer(j, j.topkIndx[m])
    ensures forall q: nat, c: nat :: q < j.nRanks && c < PerRank(j) ==>
              peers[q, c] == if StoresTo(j, r, m, (q, c)) then result else old(peers[q, c])
    ensures Even(j) ==> !faults && forall place ::
              StoresTo(j, r, m, place) <==> place in CombineWrites(EvenRoutingOf(j), r, m, result)
  {
    var slot := j.topkIndx[m];
    KernelsAgreeOnOwner(j, slot);
    PeersAreFirst(j, slot);
    if Even(j) {
      CombineStores(j, r, m, result);
    }
    var home := LocateHome(j, slot);
    if MaskBit(j.assignment.bitmask, r, j.exptIndx[slot]) != 1 {
      return false;
    }
    if home.None? {
      return true;
    }
    var stored := StoreRow(peers[home.value.0, home.value.1], result);
    peers[home.value.0, home.value.1] := stored;
    return false;
  }
}
