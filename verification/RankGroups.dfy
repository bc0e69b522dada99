/** The six families of rank groups that a mapping builds, and the group each rank's properties return. */
module RankGroups {
  import opened Arith
  import opened Results
  import opened Ranges
  import opened Grid
  import opened Topology

  datatype Groups = Groups(
    pp: seq<seq<int>>, cp: seq<seq<int>>, tp: seq<seq<int>>,
    moeTp: seq<seq<int>>, moeCluster: seq<seq<int>>, moeEp: seq<seq<int>>)

  // ---------------------------------------------------------------- the loops

  method PpGroups(P: nat, T: nat, C: nat) returns (groups: seq<seq<int>>)
    requires 0 < T * C
    ensures LinesAlongP(groups, P, T, C)
  {
    var w := T * C;
    groups := [];
    var i := 0;
    while i < w
      invariant 0 <= i <= w && |groups| == i
      invariant forall k :: 0 <= k < i ==> groups[k] == RangeStep(k, P * w, w)
    {
      groups := groups + [RangeStep(i, P * w, w)];
      i := i + 1;
    }
    PlaneLines(groups, P, T, C);
  }

  method TpGroups(P: nat, T: nat, C: nat) returns (groups: seq<seq<int>>)
    requires 0 < C
    ensures LinesAlongT(groups, P, T, C)
  {
    var line := (i: nat, j: nat) =>
      if C == 0 then [] else RangeStep(i * (T * C) + j, (i + 1) * (T * C) + j, C);
    groups := BuildTable(P, C, line);
    SteppedLines(groups, P, T, C, line);
  }

  /** Like the tensor-parallel groups, but every range ends at the end of its plane. */
  method MoeTpGroups(P: nat, T: nat, C: nat) returns (groups: seq<seq<int>>)
    requires 0 < C
    ensures LinesAlongT(groups, P, T, C)
  {
    var line := (i: nat, j: nat) =>
      if C == 0 then [] else RangeStep(i * (T * C) + j, (i + 1) * (T * C), C);
    groups := BuildTable(P, C, line);
    SteppedLines(groups, P, T, C, line);
  }

  method ConsecutiveGroups(P: nat, T: nat, C: nat) returns (groups: seq<seq<int>>)
    ensures LinesAlongC(groups, P, T, C)
  {
    var line := (i: nat, j: nat) => Consecutive(i * (T * C), j, C);
    groups := BuildTable(P, T, line);
    ConsecutiveLines(groups, P, T, C, line);
  }

  /** Consecutive ranges of length `ep`, from the one numbered `first` on. */
  ghost predicate EpRows(rows: seq<seq<int>>, start: int, first: int, ep: nat) {
    forall x :: 0 <= x < |rows| ==> rows[x] == Consecutive(start, first + x, ep)
  }

  method EpCluster(start: int, j: nat, cluster: nat, ep: nat) returns (rows: seq<seq<int>>)
    ensures |rows| == cluster && EpRows(rows, start, j * cluster, ep)
  {
    rows := [];
    var base := start + j * cluster * ep;
    var k := 0;
    while k < cluster
      invariant 0 <= k <= cluster && |rows| == k && EpRows(rows, start, j * cluster, ep)
    {
      assert base + k * ep == start + (j * cluster + k) * ep;
      assert base + (k + 1) * ep == start + (j * cluster + k + 1) * ep;
      rows := rows + [Range(base + k * ep, base + (k + 1) * ep)];
      k := k + 1;
    }
  }

  method EpPlane(start: int, moeTp: nat, cluster: nat, ep: nat) returns (rows: seq<seq<int>>)
    ensures |rows| == Times(moeTp, cluster) && EpRows(rows, start, 0, ep)
  {
    rows := [];
    var j := 0;
    while j < moeTp
      invariant 0 <= j <= moeTp && |rows| == Times(j, cluster) && EpRows(rows, start, 0, ep)
    {
      var more := EpCluster(start, j, cluster, ep);
      assert (j + 1) * cluster == j * cluster + cluster;
      rows := rows + more;
      j := j + 1;
    }
  }

  /** The three nested loops over stages, MoE tensor-parallel ranks and cluster ranks. */
  method MoeEpGroups(P: nat, moeTp: nat, cluster: nat, ep: nat) returns (groups: seq<seq<int>>)
    ensures LinesAlongC(groups, P, Times(moeTp, cluster), ep)
  {
    var T := Times(moeTp, cluster);
    var line := (i: nat, x: nat) => Consecutive(i * (T * ep), x, ep);
    groups := [];
    var i := 0;
    while i < P
      invariant 0 <= i <= P && groups == Table(i, T, line)
    {
      var plane := EpPlane(i * (T * ep), moeTp, cluster, ep);
      assert plane == seq(T, x requires 0 <= x < T => line(i, x));
      groups := groups + plane;
      i := i + 1;
    }
    ConsecutiveLines(groups, P, T, ep, line);
  }

  lemma SpanIsPositive(m: Mapping)
    requires Placed(m)
    ensures 0 < m.moeTp && 0 < m.moeCluster && 0 < m.moeEp && 0 < m.moeCluster * m.moeEp && 0 < m.moeTp * m.moeCluster
    ensures m.moeSpan == m.moeTp * (m.moeCluster * m.moeEp) == (m.moeTp * m.moeCluster) * m.moeEp
  {
    WorldIsGrid(m);
    MulMono(1, m.moeCluster, m.moeEp);
    MulMono(1, m.moeTp, m.moeCluster);
  }

  /** `_init_parallel_groups`: each family consists of the lines of a grid in one direction. */
  method InitParallelGroups(m: Mapping) returns (g: Groups)
    requires Placed(m)
    ensures LinesAlongP(g.pp, m.pp, m.tp, m.cp)
    ensures LinesAlongC(g.cp, m.pp, m.tp, m.cp)
    ensures LinesAlongT(g.tp, m.pp, m.tp, m.cp)
    ensures LinesAlongT(g.moeTp, m.pp, m.moeTp, Times(m.moeCluster, m.moeEp))
    ensures LinesAlongC(g.moeCluster, m.pp, m.moeTp, Times(m.moeCluster, m.moeEp))
    ensures LinesAlongC(g.moeEp, m.pp, Times(m.moeTp, m.moeCluster), m.moeEp)
  {
    WorldIsGrid(m);
    SpanIsPositive(m);
    var ppGroups := PpGroups(m.pp, m.tp, m.cp);
    var cpGroups := ConsecutiveGroups(m.pp, m.tp, m.cp);
    var tpGroups := TpGroups(m.pp, m.tp, m.cp);
    var moeTpGroups := MoeTpGroups(m.pp, m.moeTp, Times(m.moeCluster, m.moeEp));
    var clusterGroups := ConsecutiveGroups(m.pp, m.moeTp, Times(m.moeCluster, m.moeEp));
    var epGroups := MoeEpGroups(m.pp, m.moeTp, m.moeCluster, m.moeEp);
    g := Groups(ppGroups, cpGroups, tpGroups, moeTpGroups, clusterGroups, epGroups);
  }

  // ---------------------------------------------------------------- MoE coordinates

  /** Everything that the rank properties divide by is positive. */
  predicate Sized(m: Mapping) {
    && 0 < m.tp && 0 < m.cp && 0 < m.tp * m.cp
    && 0 < m.moeEp && 0 < m.moeCluster && 0 < m.moeEp * m.moeCluster
  }

  lemma PlacedIsSized(m: Mapping)
    requires Placed(m)
    ensures Sized(m)
  {
    WorldIsGrid(m);
    MulMono(1, m.moeEp, m.moeCluster);
  }

  function MoeTpRank(m: Mapping): int
    requires Sized(m)
  {
    TpRank(m) / (m.moeEp * m.moeCluster)
  }

  function MoeClusterRank(m: Mapping): int
    requires Sized(m)
  {
    TpRank(m) % m.moeCluster
  }

  function MoeEpRank(m: Mapping): int
    requires Sized(m)
  {
    if m.dwdpSize > 1 then 0 else TpRank(m) % m.moeEp
  }

  /** Index that `moe_cluster_group` uses, for rank `r`. */
  function MoeClusterGroupIndex(m: Mapping, r: int): int
    requires Sized(m)
  {
    var n := m.(rank := r);
    PpRank(n) * m.moeTp + MoeTpRank(n)
  }

  /** Index that `moe_tp_group` uses, for rank `r`. */
  function MoeTpGroupIndex(m: Mapping, r: int): int
    requires Sized(m)
  {
    var n := m.(rank := r);
    PpRank(n) * m.moeCluster * m.moeEp + MoeClusterRank(n) * m.moeEp + MoeEpRank(n)
  }

  /** Index that `moe_ep_group` uses, for rank `r`. */
  function MoeEpGroupIndex(m: Mapping, r: int): int
    requires Sized(m)
  {
    var n := m.(rank := r);
    PpRank(n) * m.moeTp * m.moeCluster + MoeTpRank(n) * m.moeCluster + MoeClusterRank(n)
  }

  // ---------------------------------------------------------------- every family partitions

  lemma SameFunctions(groups: seq<seq<int>>, world: int, index: int -> int, coordinate: int -> int,
                      index': int -> int, coordinate': int -> int)
    requires Partitions(groups, world, index, coordinate)
    requires forall r :: 0 <= r < world ==> index(r) == index'(r) && coordinate(r) == coordinate'(r)
    ensures Partitions(groups, world, index', coordinate')
  {
  }

  /** Tensor, pipeline and context groups: each family partitions the world, and `tp_group`, `pp_group` and
      `cp_group` return the group that holds the rank, at its own coordinate. */
  lemma DenseFamiliesPartition(m: Mapping, g: Groups)
    requires Placed(m) && Sized(m)
    requires LinesAlongP(g.pp, m.pp, m.tp, m.cp)
    requires LinesAlongC(g.cp, m.pp, m.tp, m.cp)
    requires LinesAlongT(g.tp, m.pp, m.tp, m.cp)
    ensures Partitions(g.tp, m.world,
                       r => PpRank(m.(rank := r)) * m.cp + CpRank(m.(rank := r)), r => TpRank(m.(rank := r)))
    ensures Partitions(g.pp, m.world,
                       r => TpRank(m.(rank := r)) * m.cp + CpRank(m.(rank := r)), r => PpRank(m.(rank := r)))
    ensures Partitions(g.cp, m.world,
                       r => PpRank(m.(rank := r)) * m.tp + TpRank(m.(rank := r)), r => CpRank(m.(rank := r)))
  {
    WorldIsGrid(m);
    var T, C := m.tp, m.cp;
    LinesAlongTPartition(g.tp, m.pp, T, C);
    SameFunctions(g.tp, m.world, r => Flat(PDigit(T, C, r), C, CDigit(C, r)), r => TDigit(T, C, r),
                  r => PpRank(m.(rank := r)) * m.cp + CpRank(m.(rank := r)), r => TpRank(m.(rank := r)));
    LinesAlongPPartition(g.pp, m.pp, T, C);
    SameFunctions(g.pp, m.world, r => Flat(TDigit(T, C, r), C, CDigit(C, r)), r => PDigit(T, C, r),
                  r => TpRank(m.(rank := r)) * m.cp + CpRank(m.(rank := r)), r => PpRank(m.(rank := r)));
    LinesAlongCPartition(g.cp, m.pp, T, C);
    SameFunctions(g.cp, m.world, r => Flat(PDigit(T, C, r), T, TDigit(T, C, r)), r => CDigit(C, r),
                  r => PpRank(m.(rank := r)) * m.tp + TpRank(m.(rank := r)), r => CpRank(m.(rank := r)));
  }

  lemma ModOfMod(r: nat, T: nat, C: nat)
    requires 0 < T && 0 < C && 0 < T * C
    ensures (r % (T * C)) % C == r % C
  {
    var w := T * C;
    var q, x := r / w, r % w;
    assert r == q * w + x;
    assert x == (x / C) * C + x % C;
    assert r == (q * T + x / C) * C + x % C;
    DivMod(q * T + x / C, C, x % C);
  }

  /** With one context rank, the MoE coordinates of a rank are its digits in the two MoE grids. */
  lemma MoeDigits(m: Mapping, r: nat)
    requires Placed(m) && Sized(m) && m.cp == 1 && m.dwdpSize <= 1 && r < m.world
    ensures m.world == m.pp * m.moeSpan && m.moeSpan == m.tp
    ensures var n, C := m.(rank := r), Times(m.moeCluster, m.moeEp);
            && 0 < m.moeTp * C && 0 < C
            && PDigit(m.moeTp, C, r) == PpRank(n) && TDigit(m.moeTp, C, r) == MoeTpRank(n)
            && CDigit(C, r) == MoeClusterRank(n) * m.moeEp + MoeEpRank(n)
    ensures var n, T := m.(rank := r), Times(m.moeTp, m.moeCluster);
            && 0 < T * m.moeEp
            && PDigit(T, m.moeEp, r) == PpRank(n) && CDigit(m.moeEp, r) == MoeEpRank(n)
            && TDigit(T, m.moeEp, r) == MoeTpRank(n) * m.moeCluster + MoeClusterRank(n)
  {
    WorldIsGrid(m);
    SpanIsPositive(m);
    var n, x := m.(rank := r), r % m.tp;
    assert m.tp * m.cp == m.tp;
    assert TpRank(n) == x;
    assert m.moeEp * m.moeCluster == m.moeCluster * m.moeEp;
    ModOfMod(r, m.moeTp, Times(m.moeCluster, m.moeEp));
    ModOfMod(r, Times(m.moeTp, m.moeCluster), m.moeEp);
    if m.moeCluster == 1 {
      assert MoeClusterRank(n) == 0;
    } else {
      assert m.moeEp == 1;
      assert x == (x / m.moeCluster) * m.moeCluster + x % m.moeCluster;
    }
  }

  /** The group indices of a rank are the indices of its lines in the two MoE grids. */
  lemma MoeIndices(m: Mapping, r: nat)
    requires Placed(m) && Sized(m) && m.cp == 1 && m.dwdpSize <= 1 && r < m.world
    ensures var C := Times(m.moeCluster, m.moeEp);
            && 0 < m.moeTp * C && 0 < C
            && Flat(PDigit(m.moeTp, C, r), C, CDigit(C, r)) == MoeTpGroupIndex(m, r)
            && Flat(PDigit(m.moeTp, C, r), m.moeTp, TDigit(m.moeTp, C, r)) == MoeClusterGroupIndex(m, r)
    ensures var T := Times(m.moeTp, m.moeCluster);
            0 < T * m.moeEp && Flat(PDigit(T, m.moeEp, r), T, TDigit(T, m.moeEp, r)) == MoeEpGroupIndex(m, r)
  {
    MoeDigits(m, r);
    var n := m.(rank := r);
    MulAssoc(PpRank(n), m.moeCluster, m.moeEp);
    MulAssoc(PpRank(n), m.moeTp, m.moeCluster);
  }

  /** With one context rank and no DWDP, the MoE tensor-parallel family partitions the world, and `moe_tp_group`
      returns the group that holds the rank, at its own MoE coordinate. */
  lemma MoeTpFamilyPartitions(m: Mapping, groups: seq<seq<int>>)
    requires Placed(m) && Sized(m) && m.cp == 1 && m.dwdpSize <= 1
    requires LinesAlongT(groups, m.pp, m.moeTp, Times(m.moeCluster, m.moeEp))
    ensures Partitions(groups, m.world, r => MoeTpGroupIndex(m, r), r => MoeTpRank(m.(rank := r)))
  {
    var T, C := m.moeTp, Times(m.moeCluster, m.moeEp);
    SpanIsPositive(m);
    MoeDigits(m, m.rank);
    LinesAlongTPartition(groups, m.pp, T, C);
    forall r | 0 <= r < m.world
      ensures Flat(PDigit(T, C, r), C, CDigit(C, r)) == MoeTpGroupIndex(m, r)
      ensures TDigit(T, C, r) == MoeTpRank(m.(rank := r))
    {
      MoeDigits(m, r);
      MoeIndices(m, r);
    }
    SameFunctions(groups, m.world, r => Flat(PDigit(T, C, r), C, CDigit(C, r)), r => TDigit(T, C, r),
                  r => MoeTpGroupIndex(m, r), r => MoeTpRank(m.(rank := r)));
  }

  /** The same for the expert-parallel family and `moe_ep_group`. */
  lemma MoeEpFamilyPartitions(m: Mapping, groups: seq<seq<int>>)
    requires Placed(m) && Sized(m) && m.cp == 1 && m.dwdpSize <= 1
    requires LinesAlongC(groups, m.pp, Times(m.moeTp, m.moeCluster), m.moeEp)
    ensures Partitions(groups, m.world, r => MoeEpGroupIndex(m, r), r => MoeEpRank(m.(rank := r)))
  {
    var T, C := Times(m.moeTp, m.moeCluster), m.moeEp;
    SpanIsPositive(m);
    MoeDigits(m, m.rank);
    LinesAlongCPartition(groups, m.pp, T, C);
    forall r | 0 <= r < m.world
      ensures Flat(PDigit(T, C, r), T, TDigit(T, C, r)) == MoeEpGroupIndex(m, r)
      ensures CDigit(C, r) == MoeEpRank(m.(rank := r))
    {
      MoeDigits(m, r);
      MoeIndices(m, r);
    }
    SameFunctions(groups, m.world, r => Flat(PDigit(T, C, r), T, TDigit(T, C, r)), r => CDigit(C, r),
                  r => MoeEpGroupIndex(m, r), r => MoeEpRank(m.(rank := r)));
  }

  /** The same for the cluster family and `moe_cluster_group`. */
  lemma MoeClusterFamilyPartitions(m: Mapping, groups: seq<seq<int>>)
    requires Placed(m) && Sized(m) && m.cp == 1 && m.dwdpSize <= 1
    requires LinesAlongC(groups, m.pp, m.moeTp, Times(m.moeCluster, m.moeEp))
    ensures Partitions(groups, m.world, r => MoeClusterGroupIndex(m, r),
                       r => MoeClusterRank(m.(rank := r)) * m.moeEp + MoeEpRank(m.(rank := r)))
  {
    var T, C := m.moeTp, Times(m.moeCluster, m.moeEp);
    SpanIsPositive(m);
    MoeDigits(m, m.rank);
    LinesAlongCPartition(groups, m.pp, T, C);
    forall r | 0 <= r < m.world
      ensures Flat(PDigit(T, C, r), T, TDigit(T, C, r)) == MoeClusterGroupIndex(m, r)
      ensures CDigit(C, r) == MoeClusterRank(m.(rank := r)) * m.moeEp + MoeEpRank(m.(rank := r))
    {
      MoeDigits(m, r);
      MoeIndices(m, r);
    }
    SameFunctions(groups, m.world, r => Flat(PDigit(T, C, r), T, TDigit(T, C, r)), r => CDigit(C, r),
                  r => MoeClusterGroupIndex(m, r),
                  r => MoeClusterRank(m.(rank := r)) * m.moeEp + MoeEpRank(m.(rank := r)));
  }

  // ---------------------------------------------------------------- MoE groups under context parallelism

  ghost predicate Holds(groups: seq<seq<int>>, index: int, r: int) {
    0 <= index < |groups| && r in groups[index]
  }

  lemma QuotientOfRank(p: nat, x: nat, moeTp: nat, cluster: nat, ep: nat)
    requires 0 < cluster && 0 < ep && 0 < ep * cluster && (cluster == 1 || ep == 1)
    ensures p * moeTp * cluster + (x / (ep * cluster)) * cluster + x % cluster == p * (moeTp * cluster) + x / ep
  {
    if cluster != 1 {
      assert x == (x / cluster) * cluster + x % cluster;
    }
    MulAssoc(p, moeTp, cluster);
  }

  lemma RemainderOfRank(p: nat, x: nat, cluster: nat, ep: nat)
    requires 0 < cluster && 0 < ep && 0 < cluster * ep && (cluster == 1 || ep == 1)
    ensures p * cluster * ep + (x % cluster) * ep + x % ep == p * (cluster * ep) + x % (cluster * ep)
  {
    MulAssoc(p, cluster, ep);
  }

  /** Without a cluster, or without expert parallelism, the index terms of `moe_ep_group` are one quotient. */
  lemma EpIndexIsQuotient(m: Mapping, r: nat)
    requires Placed(m) && Sized(m) && r < m.world
    ensures MoeEpGroupIndex(m, r) == PpRank(m.(rank := r)) * (m.moeTp * m.moeCluster) + TpRank(m.(rank := r)) / m.moeEp
  {
    var n := m.(rank := r);
    RankFromCoordinates(n);
    QuotientOfRank(PpRank(n), TpRank(n), m.moeTp, m.moeCluster, m.moeEp);
  }

  /** And those of `moe_tp_group` are one remainder. */
  lemma TpIndexIsRemainder(m: Mapping, r: nat)
    requires Placed(m) && Sized(m) && m.dwdpSize <= 1 && r < m.world
    ensures 0 < Times(m.moeCluster, m.moeEp)
    ensures MoeTpGroupIndex(m, r) == PpRank(m.(rank := r)) * Times(m.moeCluster, m.moeEp)
                                     + TpRank(m.(rank := r)) % Times(m.moeCluster, m.moeEp)
  {
    var n := m.(rank := r);
    RankFromCoordinates(n);
    RemainderOfRank(PpRank(n), TpRank(n), m.moeCluster, m.moeEp);
  }

  /** Group `p * T + y` of a family of consecutive ranks holds exactly the ranks from `(p * T + y) * C` on. */
  lemma ConsecutiveMembers(groups: seq<seq<int>>, P: nat, T: nat, C: nat, p: nat, y: nat, r: int)
    requires LinesAlongC(groups, P, T, C) && p < P && y < T
    ensures Holds(groups, p * T + y, r) <==> p * (T * C) + y * C <= r < p * (T * C) + y * C + C
  {
    assert LineAlongC(groups, T, C, p, y);
    var i := Flat(p, T, y);
    if p * (T * C) + y * C <= r < p * (T * C) + y * C + C {
      assert groups[i][r - (p * (T * C) + y * C)] == r;
    }
  }

  lemma QuotientTooLow(tp: nat, cp: nat, T: nat, C: nat, y: nat)
    requires 0 < tp && 1 < cp && 0 < C && 0 < T && (Times(T, C) == tp || Times(T, C) == tp * cp)
    requires C != tp * cp && y == (tp - 1) / C
    ensures y < T && y * C + C < tp * cp
  {
    MulMono(2, cp, tp);
    assert y * C <= tp - 1;
    MulMono(1, T, C);
    if y >= T { MulMono(T, y, C); assert false; }
    if C > tp { DivMod(0, C, tp - 1); }
  }

  /** The quotient index finds the rank at stage `p`, tensor rank `x`, when there is one context rank. */
  lemma OneContextHolds(groups: seq<seq<int>>, P: nat, T: nat, C: nat, p: nat, x: nat)
    requires LinesAlongC(groups, P, T, C) && 0 < C && p < P && x < T * C
    ensures Holds(groups, p * T + x / C, p * (T * C) + x)
  {
    BlockSplit(x, T, C);
    ConsecutiveMembers(groups, P, T, C, p, x / C, p * (T * C) + x);
  }

  lemma SingleGroupHolds(groups: seq<seq<int>>, P: nat, C: nat, p: nat, x: nat, d: nat)
    requires LinesAlongC(groups, P, 1, C) && p < P && x < C && d < C
    ensures Holds(groups, p * 1 + x / C, p * C + d)
  {
    DivMod(0, C, x);
    ConsecutiveMembers(groups, P, 1, C, p, 0, p * C + d);
  }

  lemma LastRank(m: Mapping)
    requires Placed(m) && Sized(m)
    ensures var n := m.(rank := m.tp * m.cp - 1);
            0 <= n.rank < m.world && PpRank(n) == 0 && TpRank(n) == m.tp - 1
  {
    WorldIsGrid(m);
    MulMono(1, m.pp, m.tp * m.cp);
    AtDigits(m.pp, m.tp, m.cp, 0, m.tp - 1, m.cp - 1);
    assert (m.tp - 1) * m.cp == m.tp * m.cp - m.cp;
  }

  lemma LastRankMisses(m: Mapping, groups: seq<seq<int>>, T: nat, C: nat)
    requires Placed(m) && Sized(m) && LinesAlongC(groups, m.pp, T, C) && m.cp > 1 && C != m.tp * m.cp
    requires 0 < T && 0 < C && (Times(T, C) == m.tp || Times(T, C) == m.tp * m.cp)
    ensures 0 <= m.tp * m.cp - 1 < m.world && !QuotientHolds(m, groups, T, C, m.tp * m.cp - 1)
  {
    LastRank(m);
    var y := (m.tp - 1) / C;
    QuotientTooLow(m.tp, m.cp, T, C, y);
    ConsecutiveMembers(groups, m.pp, T, C, 0, y, m.tp * m.cp - 1);
  }

  ghost predicate QuotientHolds(m: Mapping, groups: seq<seq<int>>, T: nat, C: nat, r: int)
    requires Sized(m) && 0 < C
  {
    Holds(groups, PpRank(m.(rank := r)) * T + TpRank(m.(rank := r)) / C, r)
  }

  lemma QuotientFamilyHolds(m: Mapping, groups: seq<seq<int>>, T: nat, C: nat, r: nat)
    requires Placed(m) && Sized(m) && LinesAlongC(groups, m.pp, T, C) && r < m.world
    requires 0 < T && 0 < C && (Times(T, C) == m.tp || Times(T, C) == m.tp * m.cp)
    requires m.cp == 1 || C == m.tp * m.cp
    ensures QuotientHolds(m, groups, T, C, r)
  {
    var n := m.(rank := r);
    RankFromCoordinates(n);
    if m.cp == 1 {
      OneContextHolds(groups, m.pp, T, C, PpRank(n), TpRank(n));
    } else {
      OnlyOneGroup(m.tp, m.cp, T, C);
      BlockBound(TpRank(n), m.tp, m.cp, CpRank(n));
      MulMono(1, m.cp, m.tp);
      SingleGroupHolds(groups, m.pp, C, PpRank(n), TpRank(n), TpRank(n) * m.cp + CpRank(n));
    }
  }

  lemma OnlyOneGroup(tp: nat, cp: nat, T: nat, C: nat)
    requires 0 < tp && 1 < cp && 0 < T && C == tp * cp && (Times(T, C) == tp || Times(T, C) == tp * cp)
    ensures T == 1
  {
    MulMono(2, cp, tp);
    if T > 1 {
      MulMono(2, T, C);
    }
  }

  /**
   A family of `T` groups of `C` consecutive ranks per stage, indexed by the tensor rank divided by `C`: every rank of
   the world is in its own group exactly when there is one context rank or one group spans the stage.
   */
  lemma QuotientFamilyExact(m: Mapping, groups: seq<seq<int>>, T: nat, C: nat)
    requires Placed(m) && Sized(m) && LinesAlongC(groups, m.pp, T, C)
    requires 0 < T && 0 < C && (Times(T, C) == m.tp || Times(T, C) == m.tp * m.cp)
    ensures (forall r :: 0 <= r < m.world ==> QuotientHolds(m, groups, T, C, r)) <==> m.cp == 1 || C == m.tp * m.cp
  {
    if m.cp == 1 || C == m.tp * m.cp {
      forall r | 0 <= r < m.world
        ensures QuotientHolds(m, groups, T, C, r)
      {
        QuotientFamilyHolds(m, groups, T, C, r);
      }
    } else {
      LastRankMisses(m, groups, T, C);
    }
  }

  /** `moe_ep_group` returns a group that holds the rank, for every rank of the world, exactly under this condition. */
  lemma MoeEpGroupExact(m: Mapping, groups: seq<seq<int>>)
    requires Placed(m) && Sized(m) && m.dwdpSize <= 1
    requires LinesAlongC(groups, m.pp, Times(m.moeTp, m.moeCluster), m.moeEp)
    ensures (forall r :: 0 <= r < m.world ==> Holds(groups, MoeEpGroupIndex(m, r), r))
       <==> m.cp == 1 || m.moeEp == m.tp * m.cp
  {
    SpanIsPositive(m);
    QuotientFamilyExact(m, groups, Times(m.moeTp, m.moeCluster), m.moeEp);
    forall r | 0 <= r < m.world
      ensures Holds(groups, MoeEpGroupIndex(m, r), r)
         <==> QuotientHolds(m, groups, Times(m.moeTp, m.moeCluster), m.moeEp, r)
    {
      EpIndexIsQuotient(m, r);
    }
  }

  /** The same for `moe_cluster_group`. */
  lemma MoeClusterGroupExact(m: Mapping, groups: seq<seq<int>>)
    requires Placed(m) && Sized(m) && m.dwdpSize <= 1
    requires LinesAlongC(groups, m.pp, m.moeTp, Times(m.moeCluster, m.moeEp))
    ensures (forall r :: 0 <= r < m.world ==> Holds(groups, MoeClusterGroupIndex(m, r), r))
       <==> m.cp == 1 || m.moeCluster * m.moeEp == m.tp * m.cp
  {
    SpanIsPositive(m);
    QuotientFamilyExact(m, groups, m.moeTp, Times(m.moeCluster, m.moeEp));
    forall r | 0 <= r < m.world
      ensures Holds(groups, MoeClusterGroupIndex(m, r), r)
         <==> QuotientHolds(m, groups, m.moeTp, Times(m.moeCluster, m.moeEp), r)
    {
      assert m.moeEp * m.moeCluster == m.moeCluster * m.moeEp;
    }
  }

  /** Group `p * C + y` of a family of stepped ranks holds the ranks of its plane that leave remainder `y`. */
  lemma SteppedMembers(groups: seq<seq<int>>, P: nat, T: nat, C: nat, p: nat, y: nat, d: int)
    requires LinesAlongT(groups, P, T, C) && p < P && y < C
    ensures Holds(groups, p * C + y, p * (T * C) + d) <==> 0 <= d < T * C && d % C == y
  {
    assert LineAlongT(groups, T, C, p, y);
    var i := Flat(p, C, y);
    if 0 <= d < T * C && d % C == y {
      BlockSplit(d, T, C);
      assert groups[i][d / C] == p * (T * C) + d;
    }
    if Holds(groups, p * C + y, p * (T * C) + d) {
      var t :| 0 <= t < |groups[i]| && groups[i][t] == p * (T * C) + d;
      BlockBound(t, T, C, y);
      DivMod(t, C, y);
    }
  }

  ghost predicate RemainderHolds(m: Mapping, groups: seq<seq<int>>, C: nat, r: int)
    requires Sized(m) && 0 < C
  {
    Holds(groups, PpRank(m.(rank := r)) * C + TpRank(m.(rank := r)) % C, r)
  }

  lemma RemainderFamilyHolds(m: Mapping, groups: seq<seq<int>>, T: nat, C: nat, r: nat)
    requires Placed(m) && Sized(m) && LinesAlongT(groups, m.pp, T, C) && r < m.world && 0 < T && 0 < C
    requires (m.cp == 1 && Times(T, C) == m.tp) || (C == 1 && Times(T, C) == m.tp * m.cp)
    ensures RemainderHolds(m, groups, C, r)
  {
    var n := m.(rank := r);
    RankFromCoordinates(n);
    BlockBound(TpRank(n), m.tp, m.cp, CpRank(n));
    SteppedMembers(groups, m.pp, T, C, PpRank(n), TpRank(n) % C, TpRank(n) * m.cp + CpRank(n));
  }

  /** A family that spans only the tensor ranks of one context rank misses the last rank of the first stage. */
  lemma ShortFamilyMisses(m: Mapping, groups: seq<seq<int>>, T: nat, C: nat)
    requires Placed(m) && Sized(m) && LinesAlongT(groups, m.pp, T, C) && 0 < C && m.cp > 1 && Times(T, C) == m.tp
    ensures 0 <= m.tp * m.cp - 1 < m.world && !RemainderHolds(m, groups, C, m.tp * m.cp - 1)
  {
    LastRank(m);
    MulMono(2, m.cp, m.tp);
    SteppedMembers(groups, m.pp, T, C, 0, (m.tp - 1) % C, m.tp * m.cp - 1);
  }

  lemma SecondRank(m: Mapping)
    requires Placed(m) && Sized(m) && m.cp > 1
    ensures var n := m.(rank := 1); 1 < m.world && PpRank(n) == 0 && TpRank(n) == 0
  {
    WorldIsGrid(m);
    AtDigits(m.pp, m.tp, m.cp, 0, 0, 1);
  }

  /** A family with more than one group per stage misses rank 1, the second context rank of tensor rank 0. */
  lemma SecondRankMisses(m: Mapping, groups: seq<seq<int>>, T: nat, C: nat)
    requires Placed(m) && Sized(m) && LinesAlongT(groups, m.pp, T, C) && 1 < C && m.cp > 1
    ensures 1 < m.world && !RemainderHolds(m, groups, C, 1)
  {
    SecondRank(m);
    SteppedMembers(groups, m.pp, T, C, 0, 0, 1);
  }

  /**
   `moe_tp_group` returns a group that holds the rank, for every rank of the world, exactly when there is one context
   rank, or there is neither a cluster nor expert parallelism and the context ranks take part in the MoE layer.
   */
  lemma MoeTpGroupExact(m: Mapping, groups: seq<seq<int>>)
    requires Placed(m) && Sized(m) && m.dwdpSize <= 1
    requires LinesAlongT(groups, m.pp, m.moeTp, Times(m.moeCluster, m.moeEp))
    ensures (forall r :: 0 <= r < m.world ==> Holds(groups, MoeTpGroupIndex(m, r), r))
       <==> m.cp == 1 || (m.moeCluster * m.moeEp == 1 && !CpTypeOf(m.cpType).Ulysses?)
  {
    SpanIsPositive(m);
    var C := Times(m.moeCluster, m.moeEp);
    forall r | 0 <= r < m.world
      ensures Holds(groups, MoeTpGroupIndex(m, r), r) <==> RemainderHolds(m, groups, C, r)
    {
      TpIndexIsRemainder(m, r);
    }
    if m.cp == 1 || (C == 1 && !CpTypeOf(m.cpType).Ulysses?) {
      forall r | 0 <= r < m.world
        ensures Holds(groups, MoeTpGroupIndex(m, r), r)
      {
        RemainderFamilyHolds(m, groups, m.moeTp, C, r);
      }
    } else if C > 1 {
      SecondRankMisses(m, groups, m.moeTp, C);
    } else {
      ShortFamilyMisses(m, groups, m.moeTp, C);
    }
  }

  /** An accepted Helix mapping with ranks that are not in the groups their properties return. */
  lemma ContextRanksMissTheirGroups(a: Args, g: Groups)
    requires a == Args(4, 3, 2, 1, 2, Some(Helix), None, AUTO, 2, 2, AUTO, AUTO, false, false, 0, 0)
    requires LinesAlongC(g.moeEp, 1, 2, 2) && LinesAlongC(g.moeCluster, 1, 2, 2) && LinesAlongT(g.moeTp, 1, 2, 2)
    ensures Make(a).Ok? && Placed(Make(a).value) && Sized(Make(a).value)
    ensures var m := Make(a).value;
            && !Holds(g.moeEp, MoeEpGroupIndex(m, 3), 3)
            && !Holds(g.moeCluster, MoeClusterGroupIndex(m, 3), 3)
            && !Holds(g.moeTp, MoeTpGroupIndex(m, 1), 1)
  {
    var m := Make(a).value;
    EpIndexIsQuotient(m, 3);
    LastRankMisses(m, g.moeEp, 2, 2);
    LastRankMisses(m, g.moeCluster, 2, 2);
    TpIndexIsRemainder(m, 1);
    SecondRankMisses(m, g.moeTp, 2, 2);
  }

  // ---------------------------------------------------------------- Helix ranks repurposed for the FFN

  /** `repurpose_helix_cp_to_tp`: the context ranks of a Helix mapping become tensor-parallel ranks. */
  function Repurposed(m: Mapping): Args {
    Args(m.world, m.rank, m.tp * m.cp, m.pp, 1, None, m.partition, m.moeCluster, m.moeTp, m.moeEp,
         AUTO, AUTO, m.attentionDp, m.lmHeadTp, m.dwdpSize, m.dwdpRank)
  }

  /** The mapping that comes of it: `width` tensor ranks and one context rank. */
  function Flattened(m: Mapping, width: int): Mapping {
    m.(tp := width, cp := 1, cpType := None, attnTp := width, attnCp := 1)
  }

  lemma WorldIsFlat(m: Mapping, width: int)
    requires m.world == m.tp * m.pp * m.cp && width == m.tp * m.cp
    ensures m.world == width * m.pp * 1
  {
    MulSwap(m.tp, m.pp, m.cp);
    assert width * m.pp == m.pp * width;
  }

  lemma RepurposedIsMade(m: Mapping, width: int)
    requires Accepted(m) && Positive(m) && m.cp > 1 && m.cpType == Some(Helix) && width == m.tp * m.cp
    ensures Make(Repurposed(m)) == Ok(Flattened(m, width))
  {
    WorldIsFlat(m, width);
  }

  /** Stage and tensor rank of a rank written in one context rank's terms. */
  lemma FlatCoordinates(m: Mapping, p: int, x: int)
    requires m.cp == 1 && 0 <= x < m.tp && m.rank == p * m.tp + x
    ensures 0 < m.tp * m.cp && PpRank(m) == p && TpRank(m) == x
  {
    assert m.tp * m.cp == m.tp;
    DivMod(p, m.tp, x);
  }

  /** Every accepted Helix mapping repurposes to an accepted one: same rank and stage, flattened tensor rank. */
  lemma HelixRepurposes(m: Mapping)
    requires Placed(m) && m.cp > 1 && m.cpType == Some(Helix)
    ensures Make(Repurposed(m)).Ok?
    ensures var m' := Make(Repurposed(m)).value;
            && Placed(m') && 0 < m.tp * m.cp && 0 < m'.tp * m'.cp && m'.cp == 1
            && m'.rank == m.rank && m'.partition == m.partition && PpRank(m') == PpRank(m)
            && TpRank(m') == TpRank(m) * m.cp + CpRank(m)
            && m'.moeTp == m.moeTp && m'.moeEp == m.moeEp && m'.moeCluster == m.moeCluster
  {
    var width := m.tp * m.cp;
    RankFromCoordinates(m);
    RepurposedIsMade(m, width);
    MadeIsAccepted(Repurposed(m));
    BlockBound(TpRank(m), m.tp, m.cp, CpRank(m));
    FlatCoordinates(Flattened(m, width), PpRank(m), TpRank(m) * m.cp + CpRank(m));
  }

  // ---------------------------------------------------------------- experts of a rank

  /** `ep_experts` */
  function EpExperts(epRank: nat, epSize: nat, nExperts: nat): seq<int>
    requires 0 < epSize
  {
    Range(epRank * (nExperts / epSize), (epRank + 1) * (nExperts / epSize))
  }

  /** `compute_target_rank_id`, for one selected expert. */
  function TargetRank(expert: nat, nExperts: nat, epSize: nat): int
    requires 0 < epSize && 0 < nExperts / epSize
  {
    expert / (nExperts / epSize)
  }

  /** Tokens are sent to exactly the expert-parallel rank that holds the selected expert. */
  lemma TargetHoldsExpert(expert: nat, nExperts: nat, epSize: nat, epRank: nat)
    requires 0 < epSize && nExperts % epSize == 0 && expert < nExperts && epRank < epSize
    ensures 0 < nExperts / epSize
    ensures expert in EpExperts(epRank, epSize, nExperts) <==> epRank == TargetRank(expert, nExperts, epSize)
    ensures 0 <= TargetRank(expert, nExperts, epSize) < epSize
  {
    var per := nExperts / epSize;
    assert nExperts == epSize * per;
    PositiveFactors(epSize, per);
    BlockSplit(expert, epSize, per);
    InRange(epRank * per, (epRank + 1) * per);
    assert (epRank + 1) * per == epRank * per + per;
    if expert in EpExperts(epRank, epSize, nExperts) {
      DivMod(epRank, per, expert - epRank * per);
    }
  }
}
