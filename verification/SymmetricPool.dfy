/** The symmetric memory pool: named regions laid out one after the other in one buffer per rank. */
module SymmetricPool {
  import opened Arith
  import opened Results

  datatype Region = Region(name: string, base: int, size: int, alignment: int)

  datatype PoolError =
    | AlreadyInitialized        // RuntimeError
    | AlreadyReserved           // ValueError
    | NotInitialized            // RuntimeError
    | UnknownRegion             // ValueError
    | MisalignedOffset          // ValueError
    | ExceedsRegion             // ValueError
    | ExceedsStorage            // ValueError
    | NegativeAddress           // RuntimeError, from setting the tensor's storage offset

  /** A tensor on every rank: the bytes `start .. start + nbytes`, addressed from element `element`. */
  datatype Tensor = Tensor(start: int, nbytes: int, element: int)

  // ---------------------------------------------------------------- alignment

  function AlignUp(value: int, alignment: int): (r: int)
    requires 0 <= value
    ensures value <= r && (alignment <= 1 ==> r == value)
    ensures alignment > 1 ==> r % alignment == 0 && r < value + alignment
  {
    if alignment <= 1 then value
    else
      AlignUpFacts(value, alignment);
      ((value + alignment - 1) / alignment) * alignment
  }

  lemma AlignUpFacts(value: int, alignment: int)
    requires 0 <= value && 1 < alignment
    ensures var r := ((value + alignment - 1) / alignment) * alignment;
            value <= r < value + alignment && r % alignment == 0
  {
    var n := value + alignment - 1;
    DivMod(n / alignment, alignment, 0);
  }

  /** Rounding up moves exactly the values that are not multiples already. */
  lemma AlignUpFixes(value: int, alignment: int)
    requires 0 <= value && 0 < alignment
    ensures AlignUp(value, alignment) == value <==> value % alignment == 0
  {
    if alignment > 1 && value % alignment == 0 {
      DivMod(value / alignment, alignment, alignment - 1);
      assert value == (value / alignment) * alignment;
    }
  }

  // ---------------------------------------------------------------- layouts

  function EndOf(regions: seq<Region>): int {
    if regions == [] then 0 else regions[|regions| - 1].base + regions[|regions| - 1].size
  }

  /** Regions in reservation order, each reserved at the end of the one before it. */
  ghost predicate Laid(regions: seq<Region>)
    ensures Laid(regions) ==> 0 <= EndOf(regions)
  {
    regions == [] ||
    var before, r := regions[..|regions| - 1], regions[|regions| - 1];
    Laid(before) && 1 <= r.alignment && 0 <= r.size && r.base == AlignUp(EndOf(before), r.alignment)
  }

  /** The alignment of every region divides the offset at which it was reserved. */
  ghost predicate NoPadding(regions: seq<Region>)
  {
    regions == [] ||
    var before, r := regions[..|regions| - 1], regions[|regions| - 1];
    NoPadding(before) && 1 <= r.alignment && EndOf(before) % r.alignment == 0
  }

  /** `sum(region.size for region in regions.values())` */
  function TotalSize(regions: seq<Region>): int {
    if regions == [] then 0 else TotalSize(regions[..|regions| - 1]) + regions[|regions| - 1].size
  }

  /**
   The pool takes the plain sum of the region sizes for its size. That is never more than the end of the
   layout, and it is the end exactly when no reservation had to be padded.
   */
  lemma {:induction false} SumIsEnd(regions: seq<Region>)
    requires Laid(regions)
    ensures TotalSize(regions) <= EndOf(regions)
    ensures TotalSize(regions) == EndOf(regions) <==> NoPadding(regions)
  {
    if regions != [] {
      var before, r := regions[..|regions| - 1], regions[|regions| - 1];
      SumIsEnd(before);
      AlignUpFixes(EndOf(before), r.alignment);
    }
  }

  /** A padded layout: the sum is 129 bytes although the second region ends at byte 256. */
  lemma PaddedLayoutIsShort()
    ensures var regions := [Region("a", 0, 1, 1), Region("b", 128, 128, 128)];
            Laid(regions) && TotalSize(regions) == 129 && EndOf(regions) == 256
  {
    var a, b := Region("a", 0, 1, 1), Region("b", 128, 128, 128);
    assert [a, b][..1] == [a] && [a][..0] == [];
    assert Laid([a]) && TotalSize([a]) == 1 && EndOf([a]) == 1;
    assert AlignUp(1, 128) == 128;
  }

  /** Bytes of region `i`. */
  ghost predicate Inside(regions: seq<Region>, i: nat, byte: int)
    requires i < |regions|
  {
    regions[i].base <= byte < regions[i].base + regions[i].size
  }

  lemma {:induction false} RegionsAreOrdered(regions: seq<Region>, i: nat)
    requires Laid(regions) && i < |regions|
    ensures 0 <= regions[i].base && 0 <= regions[i].size && regions[i].base + regions[i].size <= EndOf(regions)
    ensures i < |regions| - 1 ==> regions[i].base + regions[i].size <= regions[|regions| - 1].base
  {
    if i < |regions| - 1 { RegionsAreOrdered(regions[..|regions| - 1], i); }
  }

  /** Two regions of a layout never share a byte. */
  lemma {:induction false} RegionsAreDisjoint(regions: seq<Region>, i: nat, k: nat)
    requires Laid(regions) && i < k < |regions|
    ensures regions[i].base + regions[i].size <= regions[k].base
  {
    if k < |regions| - 1 {
      RegionsAreDisjoint(regions[..|regions| - 1], i, k);
    } else {
      RegionsAreOrdered(regions, i);
    }
  }

  /** Without padding the regions tile the buffer: every byte below the size lies in exactly one of them. */
  lemma {:induction false} RegionsTile(regions: seq<Region>, byte: int)
    requires Laid(regions) && NoPadding(regions)
    ensures 0 <= byte < TotalSize(regions) <==> exists i :: 0 <= i < |regions| && Inside(regions, i, byte)
    ensures forall i, k :: 0 <= i < |regions| && 0 <= k < |regions| ==>
                             Inside(regions, i, byte) && Inside(regions, k, byte) ==> i == k
  {
    SumIsEnd(regions);
    if regions != [] {
      var n := |regions| - 1;
      var before := regions[..n];
      RegionsTile(before, byte);
      SumIsEnd(before);
      AlignUpFixes(EndOf(before), regions[n].alignment);
      assert forall i :: 0 <= i < n ==> (Inside(before, i, byte) <==> Inside(regions, i, byte));
      if 0 <= byte < EndOf(before) {
        var i :| 0 <= i < n && Inside(before, i, byte);
        assert Inside(regions, i, byte);
      } else if byte < EndOf(regions) && 0 <= byte {
        assert Inside(regions, n, byte);
      }
    }
  }

  // ---------------------------------------------------------------- sizes of the three regions

  datatype Shape = Shape(nTokens: nat, dInput: nat, dModel: nat, nAct: nat, nExperts: nat, elemSize: nat, nRanks: nat)

  /** Top-k logits (4 bytes), indices (2 bytes) and the expert bitmatrix (one bit per padded entry). */
  function TopkBytes(s: Shape): nat {
    MulNonNeg(s.nTokens, s.nAct);
    MulNonNeg(CeilDiv(s.nTokens, 32) * 32, CeilDiv(s.nExperts, 32) * 32);
    s.nTokens * s.nAct * 4 + s.nTokens * s.nAct * 2
    + ((CeilDiv(s.nTokens, 32) * 32) * (CeilDiv(s.nExperts, 32) * 32)) / 32 * 4
  }

  function Product4(a: nat, b: nat, c: nat, d: nat): nat {
    MulNonNeg(a, b);
    MulNonNeg(a * b, c);
    MulNonNeg(a * b * c, d);
    a * b * c * d
  }

  function DispatchBytes(s: Shape): nat {
    Product4(s.nTokens, s.nAct, s.dInput, s.elemSize)
  }

  function CombineBytes(s: Shape): nat
    requires 0 < s.nRanks
  {
    Product4(s.nTokens / s.nRanks, s.nAct, s.dModel, s.elemSize)
  }

  function ThreeRegions(a: nat, b: nat, c: nat): seq<Region> {
    [Region("topk", 0, a, 128), Region("ep_to_dp", a, b, 128), Region("dp_to_ep", a + b, c, 128)]
  }

  /** The layout of `initialize_matmul_ogs`. */
  function MatmulRegions(s: Shape): seq<Region>
    requires 0 < s.nRanks
  {
    AlignedRegions(TopkBytes(s), CombineBytes(s), DispatchBytes(s))
  }

  function AlignedRegions(topk: nat, combine: nat, dispatch: nat): seq<Region> {
    ThreeRegions(AlignUp(topk, 128), AlignUp(combine, 128), AlignUp(dispatch, 128))
  }

  lemma ThreeAligned(a: nat, b: nat)
    requires a % 128 == 0 && b % 128 == 0
    ensures AlignUp(0, 128) == 0 && AlignUp(a, 128) == a && AlignUp(a + b, 128) == a + b
  {
    AlignUpFixes(0, 128);
    AlignUpFixes(a, 128);
    AlignUpFixes(a + b, 128);
  }

  lemma ThreeRegionsTile(a: nat, b: nat, c: nat)
    requires a % 128 == 0 && b % 128 == 0 && c % 128 == 0
    ensures var regions := ThreeRegions(a, b, c);
            Laid(regions) && NoPadding(regions) && TotalSize(regions) == EndOf(regions) == a + b + c
  {
    var regions := ThreeRegions(a, b, c);
    AppendRegion([], regions[0]);
    AppendRegion([] + [regions[0]], regions[1]);
    AppendRegion([] + [regions[0]] + [regions[1]], regions[2]);
    assert [] + [regions[0]] + [regions[1]] + [regions[2]] == regions;
    SumIsEnd(regions);
  }

  lemma {:induction false} AppendRegion(before: seq<Region>, r: Region)
    requires Laid(before) && NoPadding(before)
    requires 1 <= r.alignment && 0 <= r.size && r.base == EndOf(before) && r.base % r.alignment == 0
    ensures Laid(before + [r]) && NoPadding(before + [r]) && EndOf(before + [r]) == r.base + r.size
  {
    assert (before + [r])[..|before|] == before;
    AlignUpFixes(EndOf(before), r.alignment);
  }

  lemma AlignedRegionsTile(topk: nat, combine: nat, dispatch: nat)
    ensures var regions := AlignedRegions(topk, combine, dispatch);
            && Laid(regions) && NoPadding(regions) && TotalSize(regions) == EndOf(regions)
            && forall i :: 0 <= i < 3 ==> regions[i].base % 128 == 0 && regions[i].size % 128 == 0
  {
    ThreeRegionsTile(AlignUp(topk, 128), AlignUp(combine, 128), AlignUp(dispatch, 128));
  }

  /** The three regions are reserved back to back on multiples of 128, so they tile the pool. */
  lemma MatmulRegionsTile(s: Shape)
    requires 0 < s.nRanks
    ensures var regions := MatmulRegions(s);
            && Laid(regions) && NoPadding(regions) && TotalSize(regions) == EndOf(regions)
            && forall i :: 0 <= i < 3 ==> regions[i].base % 128 == 0 && regions[i].size % 128 == 0
  {
    AlignedRegionsTile(TopkBytes(s), CombineBytes(s), DispatchBytes(s));
  }

  /** The first region holds 6 bytes per slot and, for every padded token, a 4-byte word per 32 experts. */
  lemma TopkRequestFits(s: Shape)
    requires 0 < s.nRanks
    ensures var rows, words := CeilDiv(s.nTokens, 32) * 32, CeilDiv(s.nExperts, 32);
            && s.nTokens <= rows && s.nExperts <= words * 32
            && s.nTokens * s.nAct * 6 + rows * words * 4 <= MatmulRegions(s)[0].size
  {
    var rows, words := CeilDiv(s.nTokens, 32) * 32, CeilDiv(s.nExperts, 32);
    assert rows * (words * 32) == (rows * words) * 32;
    DivMod(rows * words, 32, 0);
  }

  /** What the dispatch driver asks for, one row per slot and at most `dInput` columns, fits its region. */
  lemma DispatchRequestFits(s: Shape, columns: nat)
    requires 0 < s.nRanks && columns <= s.dInput
    ensures Product4(s.nTokens, s.nAct, columns, s.elemSize) <= MatmulRegions(s)[2].size
  {
    var rows := s.nTokens * s.nAct;
    MulNonNeg(s.nTokens, s.nAct);
    MulMono(columns, s.dInput, rows);
    MulMono(rows * columns, rows * s.dInput, s.elemSize);
  }

  /** What the combine driver asks for, `slots // nRanks` rows, fits its region when the ranks share tokens evenly. */
  lemma CombineRequestFits(s: Shape)
    requires 0 < s.nRanks && s.nTokens % s.nRanks == 0
    ensures (s.nTokens * s.nAct) / s.nRanks == (s.nTokens / s.nRanks) * s.nAct
    ensures CombineBytes(s) <= MatmulRegions(s)[1].size
  {
    var per := s.nTokens / s.nRanks;
    assert s.nTokens == per * s.nRanks;
    assert s.nTokens * s.nAct == (per * s.nAct) * s.nRanks;
    DivMod(per * s.nAct, s.nRanks, 0);
  }

  /** With an element size that divides 128, the element index of a tensor addresses exactly its first byte. */
  lemma ElementAddressIsExact(base: int, offset: int, elemSize: int)
    requires 0 < elemSize && 128 % elemSize == 0 && base % 128 == 0 && offset % elemSize == 0
    ensures ((base + offset) / elemSize) * elemSize == base + offset
  {
    var d, b, o := 128 / elemSize, base / 128, offset / elemSize;
    assert base == (b * d) * elemSize;
    assert base + offset == (b * d + o) * elemSize;
    DivMod(b * d + o, elemSize, 0);
  }

  /** Tensors cut from different regions, at offsets that are not negative, never overlap. */
  lemma {:induction false} TensorsAreDisjoint(regions: seq<Region>, i: nat, k: nat, t: Tensor, u: Tensor)
    requires Laid(regions) && i < |regions| && k < |regions| && i != k
    requires regions[i].base <= t.start && t.start + t.nbytes <= regions[i].base + regions[i].size
    requires regions[k].base <= u.start && u.start + u.nbytes <= regions[k].base + regions[k].size
    ensures t.start + t.nbytes <= u.start || u.start + u.nbytes <= t.start
  {
    if i < k { RegionsAreDisjoint(regions, i, k); } else { RegionsAreDisjoint(regions, k, i); }
  }

  // ---------------------------------------------------------------- the pool

  function Find(regions: seq<Region>, name: string): (r: Option<Region>)
    ensures r.None? <==> forall i :: 0 <= i < |regions| ==> regions[i].name != name
    ensures r.Some? ==> r.value in regions && r.value.name == name
  {
    if regions == [] then None
    else if regions[|regions| - 1].name == name then Some(regions[|regions| - 1])
    else Find(regions[..|regions| - 1], name)
  }

  class SymmetricMemoryPool {
    var initialized: bool
    var size: int
    var regions: seq<Region>

    constructor ()
      ensures !initialized && size == 0 && regions == []
    {
      initialized, size, regions := false, 0, [];
    }

    method ReserveRegion(name: string, bytes: nat, alignment: int, offset: nat) returns (r: Result<int, PoolError>)
      modifies this
      ensures initialized == old(initialized) && size == old(size)
      ensures old(initialized) ==> r == Err(AlreadyInitialized)
      ensures !old(initialized) && Find(old(regions), name).Some? ==> r == Err(AlreadyReserved)
      ensures r.Err? ==> regions == old(regions)
      ensures !old(initialized) && Find(old(regions), name).None? ==>
                var a := if alignment < 1 then 1 else alignment;
                regions == old(regions) + [Region(name, AlignUp(offset, a), AlignUp(bytes, a), a)]
                && r == Ok(EndOf(regions))
    {
      if initialized {
        return Err(AlreadyInitialized);
      }
      if Find(regions, name).Some? {
        return Err(AlreadyReserved);
      }
      var alignment' := if alignment < 1 then 1 else alignment;
      var sizeAligned := AlignUp(bytes, alignment');
      var base := AlignUp(offset, alignment');
      regions := regions + [Region(name, base, sizeAligned, alignment')];
      return Ok(base + sizeAligned);
    }

    method Initialize()
      modifies this
      ensures initialized && regions == old(regions)
      ensures size == if old(initialized) then old(size) else TotalSize(regions)
    {
      if initialized {
        return;
      }
      size := 0;
      var i := 0;
      while i < |regions|
        invariant 0 <= i <= |regions| && regions == old(regions) && !initialized
        invariant size == TotalSize(regions[..i])
      {
        assert regions[..i + 1][..i] == regions[..i];
        size := size + regions[i].size;
        i := i + 1;
      }
      assert regions[..i] == regions;
      initialized := true;
    }

    /** On a fresh pool: three regions that tile `0 .. size`. On an initialized one: nothing. */
    method InitializeMatmulOgs(s: Shape) returns (r: Result<(), PoolError>)
      requires 0 < s.nRanks
      modifies this
      ensures old(initialized) ==> r.Ok? && initialized && regions == old(regions) && size == old(size)
      ensures !old(initialized) && old(regions) == [] ==>
                r.Ok? && initialized && regions == MatmulRegions(s)
                && Laid(regions) && NoPadding(regions) && size == EndOf(regions) == TotalSize(regions)
      ensures r.Err? ==> initialized == old(initialized) == false && size == old(size) && old(regions) <= regions
    {
      if initialized {
        return Ok(());
      }
      r := ReserveThree(TopkBytes(s), CombineBytes(s), DispatchBytes(s));
      if r.Ok? {
        Initialize();
        MatmulRegionsTile(s);
      }
    }

    method ReserveThree(topk: nat, combine: nat, dispatch: nat) returns (r: Result<(), PoolError>)
      requires !initialized
      modifies this
      ensures !initialized && size == old(size) && old(regions) <= regions
      ensures old(regions) == [] ==> r.Ok? && regions == AlignedRegions(topk, combine, dispatch)
    {
      ThreeAligned(AlignUp(topk, 128), AlignUp(combine, 128));
      var end := ReserveRegion("topk", topk, 128, 0);
      if end.Err? { return Err(end.error); }
      end := ReserveRegion("ep_to_dp", combine, 128, end.value);
      if end.Err? { return Err(end.error); }
      end := ReserveRegion("dp_to_ep", dispatch, 128, end.value);
      if end.Err? { return Err(end.error); }
      return Ok(());
    }

    /**
     A tensor cut from a region. Success means that the requested bytes end inside the region and inside the storage,
     and start inside the storage; they also start inside the region exactly when the caller's offset is not negative.
     */
    method MakeEmpty(numel: nat, elemSize: nat, region: string, regionOffset: int)
      returns (r: Result<Tensor, PoolError>)
      requires 0 < elemSize
      ensures r.Ok? <==>
              && initialized && Find(regions, region).Some? && regionOffset % elemSize == 0
              && regionOffset + numel * elemSize <= Find(regions, region).value.size
              && 0 <= Find(regions, region).value.base + regionOffset
              && Find(regions, region).value.base + regionOffset + numel * elemSize <= size
      ensures r.Ok? ==>
                var base := Find(regions, region).value.base;
                && r.value == Tensor(base + regionOffset, numel * elemSize, (base + regionOffset) / elemSize)
                && (base <= r.value.start <==> 0 <= regionOffset)
      ensures r.Err? ==>
                r.error ==
                if !initialized then NotInitialized
                else if Find(regions, region).None? then UnknownRegion
                else if regionOffset % elemSize != 0 then MisalignedOffset
                else if regionOffset + numel * elemSize > Find(regions, region).value.size then ExceedsRegion
                else if Find(regions, region).value.base + regionOffset + numel * elemSize > size then ExceedsStorage
                else NegativeAddress
    {
      if !initialized {
        return Err(NotInitialized);
      }
      var found := Find(regions, region);
      if found.None? {
        return Err(UnknownRegion);
      }
      if regionOffset % elemSize != 0 {
        return Err(MisalignedOffset);
      }
      var nbytes := numel * elemSize;
      var regionStart := found.value.base + regionOffset;
      var regionEnd := found.value.base + found.value.size;
      if regionStart + nbytes > regionEnd {
        return Err(ExceedsRegion);
      }
      if regionStart + nbytes > size {
        return Err(ExceedsStorage);
      }
      if regionStart / elemSize < 0 {
        return Err(NegativeAddress);
      }
      return Ok(Tensor(regionStart, nbytes, regionStart / elemSize));
    }
  }

  /** A negative offset that is accepted: the tensor lies in the region before the one it was asked from. */
  method OffsetReachesOtherRegion(pool: SymmetricMemoryPool, s: Shape) returns (r: Result<Tensor, PoolError>)
    requires pool.initialized && 0 < s.nRanks && 0 < s.nTokens && 0 < s.nAct
    requires pool.regions == MatmulRegions(s) && pool.size == TotalSize(pool.regions)
    ensures var topk := pool.regions[0];
            && r.Ok? && r.value.nbytes == 4
            && topk.base <= r.value.start && r.value.start + r.value.nbytes <= topk.base + topk.size
  {
    MatmulRegionsTile(s);
    TopkIsPositive(s);
    var regions := pool.regions;
    assert regions[..2][1] == regions[1] && regions[2].name == "dp_to_ep";
    assert Find(regions, "ep_to_dp") == Find(regions[..2], "ep_to_dp") == Some(regions[1]);
    r := pool.MakeEmpty(1, 4, "ep_to_dp", -4);
  }

  lemma TopkIsPositive(s: Shape)
    requires 0 < s.nRanks && 0 < s.nTokens && 0 < s.nAct
    ensures 128 <= MatmulRegions(s)[0].size
  {
    MulMono(1, s.nTokens, s.nAct);
    MulNonNeg(CeilDiv(s.nTokens, 32) * 32, CeilDiv(s.nExperts, 32) * 32);
    AlignUpFixes(TopkBytes(s), 128);
  }
}
