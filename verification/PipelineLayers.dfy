/** Which pipeline stage runs which layer: the split and its inverse. */
module PipelineLayers {
  import opened Arith
  import opened Results
  import opened Ranges
  import opened Tensors
  import opened Topology

  datatype LayerError = LayerOutOfRange | WrongStageCount | WrongLayerCount | NegativeStage

  /** Sizes of `torch.tensor_split`: the first `n % pp` stages get one layer more. */
  function EvenSizes(n: nat, pp: nat): seq<int>
    requires 0 < pp
  {
    seq(pp, i requires 0 <= i < pp => n / pp + if i < n % pp then 1 else 0)
  }

  function EvenStart(n: nat, pp: nat, i: nat): int
    requires 0 < pp
  {
    Share(n / pp, n % pp, i)
  }

  /** Layers before stage `i`, when every stage has `base` and the first `rem` have one more. */
  function Share(base: nat, rem: nat, i: nat): int {
    i * base + if i < rem then i else rem
  }

  lemma {:induction false} EvenCut(n: nat, pp: nat, i: nat)
    requires 0 < pp && i <= pp
    ensures Cut(EvenSizes(n, pp), i) == EvenStart(n, pp, i)
  {
    if i > 0 {
      EvenCut(n, pp, i - 1);
      CutStep(EvenSizes(n, pp), i - 1);
      assert i * (n / pp) == (i - 1) * (n / pp) + n / pp;
    } else {
      assert 0 * (n / pp) == 0;
    }
  }

  lemma EvenSplits(n: nat, pp: nat)
    requires 0 < pp
    ensures Splits(Range(0, n), EvenSizes(n, pp))
  {
    EvenCut(n, pp, pp);
    WholeShare(n, pp);
  }

  lemma WholeShare(n: nat, pp: nat)
    requires 0 < pp
    ensures EvenStart(n, pp, pp) == n
  {
    assert pp * (n / pp) + n % pp == n;
  }

  /** The sizes that `pp_layers` splits by, with the checks it makes on a custom partition. */
  function StageSizes(m: Mapping, n: nat): (r: Result<seq<int>, LayerError>)
    requires 0 < m.pp
    ensures r.Ok? ==> |r.value| == m.pp && Splits(Range(0, n), r.value)
  {
    if m.partition.Some? then
      var p := m.partition.value;
      if |p| != m.pp then Err(WrongStageCount)
      else if Sum(p) != n then Err(WrongLayerCount)
      else if !NonNegative(p) then Err(NegativeStage)
      else assert p[..|p|] == p; Ok(p)
    else
      EvenSplits(n, m.pp);
      Ok(EvenSizes(n, m.pp))
  }

  /** The layers of every stage. */
  function Stages(m: Mapping, n: nat): Result<seq<seq<int>>, LayerError>
    requires 0 < m.pp
  {
    match StageSizes(m, n)
    case Ok(sizes) => Ok(SplitSizes(Range(0, n), sizes))
    case Err(e) => Err(e)
  }

  /** `pp_layers`: the layers of the stage this rank belongs to. */
  function PpLayers(m: Mapping, n: nat): Result<seq<int>, LayerError>
    requires 0 < m.tp && 0 < m.cp && 0 < m.tp * m.cp && 0 <= PpRank(m) < m.pp
  {
    match Stages(m, n)
    case Ok(stages) => Ok(stages[PpRank(m)])
    case Err(e) => Err(e)
  }

  /** Over all stages, in order, the layers are exactly `0 .. n - 1`. */
  lemma StagesConcatenate(m: Mapping, n: nat)
    requires 0 < m.pp && Stages(m, n).Ok?
    ensures |Stages(m, n).value| == m.pp && Concat(Stages(m, n).value) == Range(0, n)
  {
    ConcatOfSplit(Range(0, n), StageSizes(m, n).value);
  }

  lemma LayerInStage(sizes: seq<int>, n: nat, p: nat, layer: int)
    requires Splits(Range(0, n), sizes) && p < |sizes|
    ensures layer in SplitSizes(Range(0, n), sizes)[p] <==> Cut(sizes, p) <= layer < Cut(sizes, p + 1)
  {
    CutMono(sizes, p, p + 1);
    CutMono(sizes, p + 1, |sizes|);
    var part := Part(Range(0, n), sizes, p);
    if Cut(sizes, p) <= layer < Cut(sizes, p + 1) {
      assert part[layer - Cut(sizes, p)] == layer;
    }
  }

  ghost predicate OwnedBy(stages: seq<seq<int>>, layer: int, r: int) {
    forall p :: 0 <= p < |stages| ==> (layer in stages[p] <==> p == r)
  }

  lemma OwnerFromCuts(sizes: seq<int>, n: nat, layer: int, r: nat)
    requires Splits(Range(0, n), sizes) && r < |sizes|
    requires Cut(sizes, r) <= layer < Cut(sizes, r + 1)
    ensures OwnedBy(SplitSizes(Range(0, n), sizes), layer, r)
  {
    forall p | 0 <= p < |sizes|
      ensures layer in SplitSizes(Range(0, n), sizes)[p] <==> p == r
    {
      LayerInStage(sizes, n, p, layer);
      if Cut(sizes, p) <= layer < Cut(sizes, p + 1) {
        PartIsUnique(sizes, layer, p, r);
      }
    }
  }

  /** Stage `r` is the first that ends beyond the layer. */
  ghost predicate EndsBeyond(partition: seq<int>, layer: int, r: nat) {
    r < |partition| && layer < Cut(partition, r + 1) && forall i :: 0 <= i <= r ==> Cut(partition, i) <= layer
  }

  /** The running-sum search of a custom partition: the first stage whose end lies beyond the layer. */
  method FindStage(partition: seq<int>, layer: nat) returns (r: nat)
    requires layer < Sum(partition)
    ensures EndsBeyond(partition, layer, r)
  {
    var end := 0;
    assert partition[..|partition|] == partition;
    r := 0;
    while r < |partition|
      invariant r <= |partition| && end == Cut(partition, r)
      invariant forall i :: 0 <= i <= r ==> Cut(partition, i) <= layer
    {
      CutStep(partition, r);
      end := end + partition[r];
      if layer < end {
        return;
      }
      r := r + 1;
    }
    assert false;
  }

  /** The closed form for the even split. */
  function EvenRank(layer: nat, n: nat, pp: nat): int
    requires layer < n && 0 < pp
  {
    ShareRank(layer, n / pp, n % pp)
  }

  function ShareRank(layer: nat, base: nat, rem: nat): int {
    if base == 0 then layer
    else
      var cutoff := (base + 1) * rem;
      if layer < cutoff then layer / (base + 1) else rem + (layer - cutoff) / base
  }

  /** The closed form names the stage whose even share holds the layer, also with fewer layers than stages. */
  lemma EvenRankIsOwner(layer: nat, n: nat, pp: nat)
    requires layer < n && 0 < pp
    ensures 0 <= EvenRank(layer, n, pp) < pp
    ensures var r := EvenRank(layer, n, pp); EvenStart(n, pp, r) <= layer < EvenStart(n, pp, r + 1)
  {
    assert n == pp * (n / pp) + n % pp;
    ShareRankIsOwner(layer, n / pp, n % pp, pp);
  }

  lemma ShareRankIsOwner(layer: nat, base: nat, rem: nat, pp: nat)
    requires rem < pp && layer < pp * base + rem
    ensures 0 <= ShareRank(layer, base, rem) < pp
    ensures var r := ShareRank(layer, base, rem); Share(base, rem, r) <= layer < Share(base, rem, r + 1)
  {
    if base == 0 {
      assert pp * base == layer * base == (layer + 1) * base == 0;
    } else if layer < (base + 1) * rem {
      LongShare(layer, base, rem);
    } else {
      ShortShare(layer, base, rem, pp);
    }
  }

  lemma LongShare(layer: nat, base: nat, rem: nat)
    requires layer < (base + 1) * rem
    ensures var r := layer / (base + 1);
            0 <= r < rem && r * base + r <= layer < (r + 1) * base + r + 1
  {
    BlockSplit(layer, rem, base + 1);
    var r := layer / (base + 1);
    assert r * (base + 1) == r * base + r;
    assert (r + 1) * base == r * base + base;
  }

  lemma ShortShare(layer: nat, base: nat, rem: nat, pp: nat)
    requires (base + 1) * rem <= layer < pp * base + rem && 0 < base
    ensures var r := rem + (layer - (base + 1) * rem) / base;
            rem <= r < pp && r * base + rem <= layer < (r + 1) * base + rem
  {
    var x := layer - (base + 1) * rem;
    assert x < (pp - rem) * base;
    BlockSplit(x, pp - rem, base);
    var q := x / base;
    assert (rem + q) * base == rem * base + q * base;
    assert (rem + q + 1) * base == rem * base + q * base + base;
    assert (base + 1) * rem == rem * base + rem;
  }

  /**
   `pp_rank_of_layer`. Whenever `pp_layers` accepts the mapping, the stage returned is the only one whose list holds
   the layer. The two agree on what they accept except that a single stage is not checked here, and that negative
   stage sizes with the right sum pass.
   */
  method PpRankOfLayer(m: Mapping, layer: int, n: nat) returns (r: Result<nat, LayerError>)
    requires 0 < m.pp
    ensures r == Err(LayerOutOfRange) <==> !(0 <= layer < n)
    ensures 0 <= layer < n ==>
              (r.Ok? <==> Stages(m, n).Ok? || m.pp == 1 || Stages(m, n) == Err(NegativeStage))
    ensures 0 <= layer < n && r.Err? ==> Stages(m, n) == Err(r.error)
    ensures r.Ok? && Stages(m, n).Ok? ==> r.value < m.pp && OwnedBy(Stages(m, n).value, layer, r.value)
    ensures r.Ok? && m.pp == 1 ==> r.value == 0
    ensures r.Ok? && m.pp != 1 && m.partition.Some? ==> EndsBeyond(m.partition.value, layer, r.value)
  {
    if layer < 0 || layer >= n {
      return Err(LayerOutOfRange);
    }
    if m.pp == 1 {
      SingleStageOwns(m, layer, n);
      return Ok(0);
    }
    if m.partition.Some? {
      r := RankInPartition(m, layer, n);
    } else {
      EvenStageOwns(m, layer, n);
      r := Ok(EvenRank(layer, n, m.pp));
    }
  }

  method RankInPartition(m: Mapping, layer: nat, n: nat) returns (r: Result<nat, LayerError>)
    requires 0 < m.pp && layer < n && m.partition.Some?
    ensures r.Ok? <==> Stages(m, n).Ok? || Stages(m, n) == Err(NegativeStage)
    ensures r.Err? ==> Stages(m, n) == Err(r.error) && r.error != LayerOutOfRange
    ensures r.Ok? && Stages(m, n).Ok? ==> r.value < m.pp && OwnedBy(Stages(m, n).value, layer, r.value)
    ensures r.Ok? ==> EndsBeyond(m.partition.value, layer, r.value)
  {
    var partition := m.partition.value;
    if |partition| != m.pp {
      return Err(WrongStageCount);
    }
    if Sum(partition) != n {
      return Err(WrongLayerCount);
    }
    var stage := FindStage(partition, layer);
    if NonNegative(partition) {
      OwnerFromCuts(StageSizes(m, n).value, n, layer, stage);
    }
    r := Ok(stage);
  }

  /** A negative stage size with the right sum: `pp_layers` raises, `pp_rank_of_layer` answers. */
  method NegativeStagePasses(m: Mapping) returns (r: Result<nat, LayerError>)
    requires m.pp == 2 && m.partition == Some([3, -1])
    ensures Stages(m, 2) == Err(NegativeStage) && r == Ok(0)
  {
    var partition := [3, -1];
    assert partition[..1] == [3] && partition[..2] == partition && partition[1] == -1;
    assert Cut(partition, 1) == 3;
    r := PpRankOfLayer(m, 1, 2);
  }

  /** A partition for another number of layers: with one stage only `pp_layers` raises. */
  method SingleStageIsNotChecked(m: Mapping) returns (r: Result<nat, LayerError>)
    requires m.pp == 1 && m.partition == Some([3])
    ensures Stages(m, 2) == Err(WrongLayerCount) && r == Ok(0)
  {
    var partition := [3];
    assert partition[..0] == [];
    assert Sum(partition) == 3;
    r := PpRankOfLayer(m, 1, 2);
  }

  lemma EvenStageOwns(m: Mapping, layer: nat, n: nat)
    requires 0 < m.pp && layer < n && m.partition.None?
    ensures Stages(m, n).Ok? && 0 <= EvenRank(layer, n, m.pp) < m.pp
    ensures OwnedBy(Stages(m, n).value, layer, EvenRank(layer, n, m.pp))
  {
    EvenRankIsOwner(layer, n, m.pp);
    var stage := EvenRank(layer, n, m.pp);
    EvenCut(n, m.pp, stage);
    EvenCut(n, m.pp, stage + 1);
    OwnerFromCuts(StageSizes(m, n).value, n, layer, stage);
  }

  lemma SingleStageOwns(m: Mapping, layer: nat, n: nat)
    requires m.pp == 1 && layer < n
    ensures Stages(m, n).Ok? ==> OwnedBy(Stages(m, n).value, layer, 0)
  {
    if StageSizes(m, n).Ok? {
      SingleStage(StageSizes(m, n).value, n);
      OwnerFromCuts(StageSizes(m, n).value, n, layer, 0);
    }
  }

  lemma SingleStage(sizes: seq<int>, n: nat)
    requires |sizes| == 1 && Splits(Range(0, n), sizes)
    ensures Cut(sizes, 0) == 0 && Cut(sizes, 1) == n
  {
  }

  /** Every layer is run by some rank: each stage holds `tp * cp` ranks, and its list is theirs. */
  lemma EveryLayerHasARank(m: Mapping, n: nat, stage: nat)
    requires Placed(m) && stage < m.pp && Stages(m, n).Ok?
    ensures var k := m.(rank := stage * (m.tp * m.cp));
            0 <= k.rank < m.world && 0 < m.tp * m.cp && PpRank(k) == stage
            && PpLayers(k, n) == Ok(Stages(m, n).value[stage])
  {
    WorldIsGrid(m);
    DivMod(stage, m.tp * m.cp, 0);
    BlockBound(stage, m.pp, m.tp * m.cp, 0);
  }
}
