/** Parallel mappings: how sizes are resolved and accepted, and where a rank sits. */
module Topology {
  import opened Arith
  import opened Results
  import opened Grid

  datatype CpType = Ulysses | Star | Ring | Helix

  /** A size that the constructor is to resolve. */
  const AUTO: int := -1

  /** Constructor arguments; a missing `cp_type` is `None`. */
  datatype Args = Args(
    world: int, rank: int, tp: int, pp: int, cp: int, cpType: Option<CpType>, partition: Option<seq<int>>,
    moeCluster: int, moeTp: int, moeEp: int, attnTp: int, attnCp: int,
    attentionDp: bool, lmHeadTp: bool, dwdpSize: int, dwdpRank: int)

  datatype Mapping = Mapping(
    world: int, rank: int, tp: int, pp: int, cp: int, cpType: Option<CpType>, partition: Option<seq<int>>,
    moeCluster: int, moeTp: int, moeEp: int, moeSpan: int, attnTp: int, attnCp: int,
    attentionDp: bool, lmHeadTp: bool, dwdpSize: int, dwdpRank: int)

  datatype MappingError =
    | BadDwdpSize | BadDwdpRank | UlyssesNeedsAttnCpOne | WorldMismatch | MoeMismatch | AttnMismatch  // ValueError
    | MoeEpNeedsHelix                                                                       // NotImplementedError
    | ClusterExcludesEp | LmHeadNeedsAttentionDp                                            // AssertionError
    | RankOutOfRange                                                                        // ValueError
    | DivisionByZero                                                                        // ZeroDivisionError

  function CpTypeOf(t: Option<CpType>): CpType {
    if t.Some? then t.value else Ulysses
  }

  /** Ranks that share one MoE layer. */
  function MoeWorld(tp: int, cp: int, t: Option<CpType>): int {
    if CpTypeOf(t).Ulysses? then tp else tp * cp
  }

  /** Python's `//`, which rounds down also for a negative divisor. */
  function Divide(a: int, b: int): Result<int, MappingError> {
    if b == 0 then Err(DivisionByZero) else if b > 0 then Ok(a / b) else Ok((-a) / (-b))
  }

  /** MoE (tp, ep, cluster) sizes; with DWDP the fused MoE sees a single full expert table. */
  function ResolveMoe(a: Args): Result<(int, int, int), MappingError> {
    var cluster := if a.moeCluster == AUTO then 1 else a.moeCluster;
    var span := MoeWorld(a.tp, a.cp, a.cpType);
    if a.dwdpSize > 1 then Ok((1, 1, 1))
    else if a.moeTp == AUTO && a.moeEp == AUTO then
      match Divide(span, cluster) case Ok(tp) => Ok((tp, 1, cluster)) case Err(e) => Err(e)
    else if a.moeTp == AUTO then
      match Divide(span, a.moeEp * cluster) case Ok(tp) => Ok((tp, a.moeEp, cluster)) case Err(e) => Err(e)
    else if a.moeEp == AUTO then
      match Divide(span, a.moeTp * cluster) case Ok(ep) => Ok((a.moeTp, ep, cluster)) case Err(e) => Err(e)
    else Ok((a.moeTp, a.moeEp, cluster))
  }

  function ResolveAttention(a: Args): Result<(int, int), MappingError> {
    var all := a.tp * a.cp;
    if a.attnTp == AUTO && a.attnCp == AUTO then
      if CpTypeOf(a.cpType).Ulysses? then Ok((all, 1)) else Ok((a.tp, a.cp))
    else if a.attnTp == AUTO then
      match Divide(all, a.attnCp) case Ok(tp) => Ok((tp, a.attnCp)) case Err(e) => Err(e)
    else if a.attnCp == AUTO then
      match Divide(all, a.attnTp) case Ok(cp) => Ok((a.attnTp, cp)) case Err(e) => Err(e)
    else Ok((a.attnTp, a.attnCp))
  }

  function Validate(m: Mapping): Result<Mapping, MappingError> {
    if m.attnCp != 1 && CpTypeOf(m.cpType).Ulysses? then Err(UlyssesNeedsAttnCpOne)
    else if m.tp * m.pp * m.cp != m.world then Err(WorldMismatch)
    else if !(m.dwdpSize > 1) && m.moeSpan != MoeWorld(m.tp, m.cp, m.cpType) then Err(MoeMismatch)
    else if m.attnTp * m.attnCp != m.tp * m.cp then Err(AttnMismatch)
    else if m.moeEp != 1 && m.cp > 1 && !CpTypeOf(m.cpType).Helix? then Err(MoeEpNeedsHelix)
    else if m.moeCluster > 1 && m.moeEp != 1 then Err(ClusterExcludesEp)
    else if m.lmHeadTp && !m.attentionDp then Err(LmHeadNeedsAttentionDp)
    else if !m.attentionDp && !(0 <= m.rank < m.world) then Err(RankOutOfRange)
    else Ok(m)
  }

  /** The constructor: resolve the sizes, then accept or reject them. */
  function Make(a: Args): Result<Mapping, MappingError> {
    if a.dwdpSize < 0 || a.dwdpSize == 1 then Err(BadDwdpSize)
    else if a.dwdpSize > 1 && !(0 <= a.dwdpRank < a.dwdpSize) then Err(BadDwdpRank)
    else
      match ResolveMoe(a)
      case Err(e) => Err(e)
      case Ok((moeTp, moeEp, cluster)) =>
        match ResolveAttention(a)
        case Err(e) => Err(e)
        case Ok((attnTp, attnCp)) =>
          var span := if a.dwdpSize > 1 then cluster else moeTp * moeEp * cluster;
          Validate(Mapping(a.world, a.rank, a.tp, a.pp, a.cp, a.cpType, a.partition, cluster, moeTp, moeEp, span,
                           attnTp, attnCp, a.attentionDp, a.lmHeadTp, a.dwdpSize, a.dwdpRank))
  }

  /** What an accepted mapping looks like. */
  ghost predicate Accepted(m: Mapping) {
    && m.world == m.tp * m.pp * m.cp
    && m.attnTp * m.attnCp == m.tp * m.cp
    && (CpTypeOf(m.cpType).Ulysses? ==> m.attnCp == 1)
    && (CpTypeOf(m.cpType).Helix? || m.cp <= 1 || m.moeEp == 1)
    && (m.moeCluster <= 1 || m.moeEp == 1)
    && (m.attentionDp || (!m.lmHeadTp && 0 <= m.rank < m.world))
    && (m.dwdpSize == 0 || 0 <= m.dwdpRank < m.dwdpSize) && m.dwdpSize != 1
    && (m.dwdpSize > 1 ==> m.moeTp == m.moeEp == m.moeCluster == m.moeSpan == 1)
    && (m.dwdpSize == 0 ==> m.moeSpan == m.moeTp * m.moeEp * m.moeCluster == MoeWorld(m.tp, m.cp, m.cpType))
  }

  lemma MadeIsAccepted(a: Args)
    requires Make(a).Ok?
    ensures Accepted(Make(a).value)
    ensures Make(a).value.rank == a.rank && Make(a).value.world == a.world
    ensures Make(a).value.tp == a.tp && Make(a).value.pp == a.pp && Make(a).value.cp == a.cp
  {
  }

  /** Sizes that were asked for are kept; a size that was not follows from the others, or is the default. */
  lemma RequestsAreKept(a: Args)
    requires Make(a).Ok?
    ensures var m := Make(a).value;
            && (m.cpType, m.partition, m.attentionDp, m.lmHeadTp) == (a.cpType, a.partition, a.attentionDp, a.lmHeadTp)
            && (a.dwdpSize == 0 ==> (a.moeTp == AUTO || m.moeTp == a.moeTp) && (a.moeEp == AUTO || m.moeEp == a.moeEp))
            && (a.dwdpSize == 0 ==> m.moeCluster == if a.moeCluster == AUTO then 1 else a.moeCluster)
            && (a.dwdpSize == 0 && a.moeTp == AUTO && a.moeEp == AUTO ==> m.moeEp == 1)
            && (a.attnTp == AUTO || m.attnTp == a.attnTp) && (a.attnCp == AUTO || m.attnCp == a.attnCp)
            && (a.attnTp == AUTO && a.attnCp == AUTO && !CpTypeOf(a.cpType).Ulysses? ==>
                  m.attnTp == a.tp && m.attnCp == a.cp)
  {
  }

  /** `to_dict`: the resolved sizes, but not the pipeline partition. */
  function ToArgs(m: Mapping): Args {
    Args(m.world, m.rank, m.tp, m.pp, m.cp, m.cpType, None, m.moeCluster, m.moeTp, m.moeEp,
         m.attnTp, m.attnCp, m.attentionDp, m.lmHeadTp, m.dwdpSize, m.dwdpRank)
  }

  /** No resolved size reads as a size to be resolved. */
  predicate Resolved(m: Mapping) {
    m.moeCluster != AUTO && m.moeTp != AUTO && m.moeEp != AUTO && m.attnTp != AUTO && m.attnCp != AUTO
  }

  /** Whatever satisfies the equations is what the constructor returns for its own sizes: it rejects nothing else. */
  lemma AcceptedIsMade(m: Mapping)
    requires Accepted(m) && Resolved(m)
    ensures Make(ToArgs(m)) == Ok(m.(partition := None))
  {
  }

  lemma DivideExactly(a: int, b: int)
    requires b != 0
    ensures Divide(a * b, b) == Ok(a)
  {
    if b > 0 {
      DivMod(a, b, 0);
    } else {
      DivMod(a, -b, 0);
      assert -(a * b) == a * (-b);
    }
  }

  lemma MoeTpResolvesAgain(span: int, moeTp: int, moeEp: int, cluster: int)
    requires span == moeTp * moeEp * cluster && moeEp * cluster != 0
    ensures Divide(span, moeEp * cluster) == Ok(moeTp)
  {
    MulAssoc(moeTp, moeEp, cluster);
    DivideExactly(moeTp, moeEp * cluster);
  }

  lemma MoeEpResolvesAgain(span: int, moeTp: int, moeEp: int, cluster: int)
    requires span == moeTp * moeEp * cluster && moeTp * cluster != 0
    ensures Divide(span, moeTp * cluster) == Ok(moeEp)
  {
    MulSwap(moeTp, moeEp, cluster);
    DivideExactly(moeEp, moeTp * cluster);
  }

  lemma MoeResolvesAgain(a: Args)
    requires Make(a).Ok?
    ensures var m := Make(a).value; ResolveMoe(ToArgs(m)) == Ok((m.moeTp, m.moeEp, m.moeCluster))
  {
    var m := Make(a).value;
    if a.dwdpSize == 0 && m.moeTp == AUTO {
      MoeTpResolvesAgain(m.moeSpan, m.moeTp, m.moeEp, m.moeCluster);
    } else if a.dwdpSize == 0 && m.moeEp == AUTO {
      MoeEpResolvesAgain(m.moeSpan, m.moeTp, m.moeEp, m.moeCluster);
    }
  }

  /** A resolved attention size of -1 next to one of 0: reading the first as a size to be resolved divides by zero. */
  predicate Unreadable(m: Mapping) {
    (m.attnTp == AUTO && m.attnCp == 0) || (m.attnCp == AUTO && m.attnTp == 0)
  }

  /** For example: with no context ranks under attention data parallelism. */
  lemma UnreadableIsMade(a: Args)
    requires a == Args(0, 0, -1, 1, 0, Some(Star), None, AUTO, AUTO, AUTO, AUTO, AUTO, true, false, 0, 0)
    ensures Make(a).Ok? && Unreadable(Make(a).value) && Make(ToArgs(Make(a).value)) == Err(DivisionByZero)
  {
  }

  lemma AttentionResolvesAgain(a: Args)
    requires Make(a).Ok?
    ensures var m := Make(a).value;
            ResolveAttention(ToArgs(m)) == if Unreadable(m) then Err(DivisionByZero) else Ok((m.attnTp, m.attnCp))
  {
    var m := Make(a).value;
    if !Unreadable(m) && m.attnTp == AUTO && m.attnCp != AUTO {
      DivideExactly(m.attnTp, m.attnCp);
    } else if !Unreadable(m) && m.attnCp == AUTO && m.attnTp != AUTO {
      assert m.tp * m.cp == m.attnCp * m.attnTp;
      DivideExactly(m.attnCp, m.attnTp);
    }
  }

  /**
   `from_dict(to_dict(m))` for every mapping that was made: accepted again unless unreadable, and then `m` without its
   custom partition, so `m` itself exactly when it had none.
   */
  lemma DictRoundTrip(a: Args)
    requires Make(a).Ok?
    ensures var m := Make(a).value;
            && Make(ToArgs(m)) == (if Unreadable(m) then Err(DivisionByZero) else Ok(m.(partition := None)))
            && (Make(ToArgs(m)) == Ok(m) <==> m.partition.None? && !Unreadable(m))
  {
    MadeIsAccepted(a);
    MoeResolvesAgain(a);
    AttentionResolvesAgain(a);
  }

  // ---------------------------------------------------------------- where a rank sits

  /** The sizes count something. The constructor checks their products only. */
  ghost predicate Positive(m: Mapping) {
    0 < m.tp && 0 < m.pp && 0 < m.cp && 0 < m.moeTp && 0 < m.moeEp && 0 < m.moeCluster
  }

  /** Two negative sizes are accepted; there is then no tensor rank in range, and no stage. */
  lemma NegativeSizesAreAccepted(a: Args)
    requires a == Args(1, 0, -1, -1, 1, None, None, AUTO, AUTO, AUTO, AUTO, AUTO, false, false, 0, 0)
    ensures Make(a).Ok? && !Positive(Make(a).value) && Make(a).value.tp == Make(a).value.pp == -1
  {
  }

  /** A mapping whose own rank lies in the world; the rank check is skipped under attention DP. */
  ghost predicate Placed(m: Mapping) {
    Accepted(m) && Positive(m) && 0 <= m.rank < m.world
  }

  lemma WorldIsGrid(m: Mapping)
    requires Accepted(m) && Positive(m)
    ensures 0 < m.tp * m.cp && m.world == m.pp * (m.tp * m.cp)
  {
    MulSwap(m.tp, m.pp, m.cp);
    MulMono(1, m.tp, m.cp);
  }

  function TpRank(m: Mapping): int
    requires 0 <= m.tp && 0 < m.tp * m.cp && 0 < m.cp
  {
    TDigit(m.tp, m.cp, m.rank)
  }

  function PpRank(m: Mapping): int
    requires 0 <= m.tp && 0 <= m.cp && 0 < m.tp * m.cp
  {
    PDigit(m.tp, m.cp, m.rank)
  }

  function CpRank(m: Mapping): int
    requires 0 < m.cp
  {
    CDigit(m.cp, m.rank)
  }

  /** Every integer rank is determined by its coordinates; its stage is in range exactly when it is in the world. */
  lemma RankFromCoordinates(m: Mapping)
    requires Accepted(m) && Positive(m)
    ensures 0 < m.tp * m.cp && 0 < m.cp
    ensures 0 <= TpRank(m) < m.tp && 0 <= CpRank(m) < m.cp
    ensures 0 <= PpRank(m) < m.pp <==> 0 <= m.rank < m.world
    ensures m.rank == PpRank(m) * (m.tp * m.cp) + TpRank(m) * m.cp + CpRank(m)
  {
    WorldIsGrid(m);
    DigitsOf(m.pp, m.tp, m.cp, m.rank);
  }

  /** Every triple of coordinates in range is taken by exactly one rank. */
  lemma CoordinatesFromRank(m: Mapping, p: nat, t: nat, c: nat)
    requires Placed(m) && p < m.pp && t < m.tp && c < m.cp
    ensures var m' := m.(rank := p * (m.tp * m.cp) + t * m.cp + c);
            0 < m.tp * m.cp && Placed(m') && PpRank(m') == p && TpRank(m') == t && CpRank(m') == c
  {
    WorldIsGrid(m);
    AtDigits(m.pp, m.tp, m.cp, p, t, c);
    assert p * (m.tp * m.cp) + t * m.cp + c == At(m.tp, m.cp, p, t, c);
  }

  // ---------------------------------------------------------------- ring moves

  function NextPp(m: Mapping): int {
    var p := m.rank + m.tp * m.cp;
    if p >= m.world then p - m.world else p
  }

  function PrevPp(m: Mapping): int {
    var p := m.rank - m.tp * m.cp;
    if p < 0 then p + m.world else p
  }

  function NextCp(m: Mapping): int
    requires 0 < m.cp
  {
    if CpRank(m) == m.cp - 1 then m.rank - m.cp + 1 else m.rank + 1
  }

  function PrevCp(m: Mapping): int
    requires 0 < m.cp
  {
    if CpRank(m) == 0 then m.rank + m.cp - 1 else m.rank - 1
  }

  /** The mapping that sits at the given coordinates of the same grid. */
  ghost predicate SitsAtCoordinates(m: Mapping, p: int, t: int, c: int) {
    && Placed(m) && 0 < m.tp * m.cp && 0 < m.cp
    && PpRank(m) == p && TpRank(m) == t && CpRank(m) == c
  }

  lemma Relocate(m: Mapping, p: int, t: int, c: int)
    requires Placed(m) && 0 <= p < m.pp && 0 <= t < m.tp && 0 <= c < m.cp
    ensures SitsAtCoordinates(m.(rank := At(m.tp, m.cp, p, t, c)), p, t, c)
  {
    WorldIsGrid(m);
    AtDigits(m.pp, m.tp, m.cp, p, t, c);
  }

  lemma Coordinates(m: Mapping) returns (p: int, t: int, c: int)
    requires Placed(m)
    ensures SitsAtCoordinates(m, p, t, c) && 0 <= p < m.pp && 0 <= t < m.tp && 0 <= c < m.cp
    ensures m.rank == At(m.tp, m.cp, p, t, c) && m.world == m.pp * (m.tp * m.cp)
  {
    WorldIsGrid(m);
    RankFromCoordinates(m);
    p, t, c := PpRank(m), TpRank(m), CpRank(m);
  }

  /** The pipeline moves change only the pipeline coordinate, by one step around the ring, and undo each other. */
  lemma PpMoves(m: Mapping)
    requires Placed(m)
    ensures 0 < m.tp * m.cp && 0 < m.cp
    ensures SitsAtCoordinates(m.(rank := NextPp(m)), Up(PpRank(m), m.pp), TpRank(m), CpRank(m))
    ensures SitsAtCoordinates(m.(rank := PrevPp(m)), Down(PpRank(m), m.pp), TpRank(m), CpRank(m))
    ensures PrevPp(m.(rank := NextPp(m))) == m.rank && NextPp(m.(rank := PrevPp(m))) == m.rank
  {
    var p, t, c := Coordinates(m);
    var up, down := Up(p, m.pp), Down(p, m.pp);
    UpDown(p, m.pp);
    PlaneUp(m.pp, m.tp, m.cp, p, t, c);
    PlaneDown(m.pp, m.tp, m.cp, p, t, c);
    Relocate(m, up, t, c);
    Relocate(m, down, t, c);
    PlaneDown(m.pp, m.tp, m.cp, up, t, c);
    PlaneUp(m.pp, m.tp, m.cp, down, t, c);
  }

  /** The context-parallel moves change only that coordinate, by one step around the ring, and undo each other. */
  lemma CpMoves(m: Mapping)
    requires Placed(m)
    ensures 0 < m.tp * m.cp && 0 < m.cp
    ensures SitsAtCoordinates(m.(rank := NextCp(m)), PpRank(m), TpRank(m), Up(CpRank(m), m.cp))
    ensures SitsAtCoordinates(m.(rank := PrevCp(m)), PpRank(m), TpRank(m), Down(CpRank(m), m.cp))
    ensures PrevCp(m.(rank := NextCp(m))) == m.rank && NextCp(m.(rank := PrevCp(m))) == m.rank
  {
    var p, t, c := Coordinates(m);
    UpDown(c, m.cp);
    Relocate(m, p, t, Up(c, m.cp));
    Relocate(m, p, t, Down(c, m.cp));
  }

  function PpSteps(m: Mapping, k: nat): Mapping {
    if k == 0 then m else var n := PpSteps(m, k - 1); n.(rank := NextPp(n))
  }

  /** `k` moves lead to the member of the pipeline group `k` positions on; `pp` moves lead back. */
  lemma {:induction false} PpCycle(m: Mapping, k: nat)
    requires Placed(m)
    ensures 0 < m.tp * m.cp && 0 < m.cp && 0 < m.pp
    ensures PpSteps(m, k) == m.(rank := PpSteps(m, k).rank)
    ensures SitsAtCoordinates(PpSteps(m, k), (PpRank(m) + k) % m.pp, TpRank(m), CpRank(m))
    ensures k == m.pp ==> PpSteps(m, k) == m
  {
    var p, t, c := Coordinates(m);
    if k == 0 {
      FullTurn(p, m.pp);
    } else {
      PpCycle(m, k - 1);
      PpMoves(PpSteps(m, k - 1));
      UpModulo(p, k - 1, m.pp);
    }
    if k == m.pp {
      FullTurn(p, m.pp);
      SameCoordinates(m, PpSteps(m, k), p, t, c);
    }
  }

  lemma SameCoordinates(m: Mapping, n: Mapping, p: int, t: int, c: int)
    requires SitsAtCoordinates(m, p, t, c) && SitsAtCoordinates(n, p, t, c) && n == m.(rank := n.rank)
    ensures n == m
  {
    RankFromCoordinates(m);
    RankFromCoordinates(n);
  }

  function CpSteps(m: Mapping, k: nat): (r: Mapping)
    requires 0 < m.cp
    ensures r.cp == m.cp
  {
    if k == 0 then m else var n := CpSteps(m, k - 1); n.(rank := NextCp(n))
  }

  /** The same around a context-parallel group. */
  lemma {:induction false} CpCycle(m: Mapping, k: nat)
    requires Placed(m)
    ensures 0 < m.tp * m.cp && 0 < m.cp
    ensures CpSteps(m, k) == m.(rank := CpSteps(m, k).rank)
    ensures SitsAtCoordinates(CpSteps(m, k), PpRank(m), TpRank(m), (CpRank(m) + k) % m.cp)
    ensures k == m.cp ==> CpSteps(m, k) == m
  {
    var p, t, c := Coordinates(m);
    if k == 0 {
      FullTurn(c, m.cp);
    } else {
      CpCycle(m, k - 1);
      CpMoves(CpSteps(m, k - 1));
      UpModulo(c, k - 1, m.cp);
    }
    if k == m.cp {
      FullTurn(c, m.cp);
      SameCoordinates(m, CpSteps(m, k), p, t, c);
    }
  }
}
