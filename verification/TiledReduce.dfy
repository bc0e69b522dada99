/**
 Sum of a scaled and masked three-dimensional tensor over one dimension: the tiled kernel with its stride arithmetic,
 over exact reals, against the broadcasting sum it stands for.
 */
module TiledReduce {
  import opened Arith
  import opened Results

  /** One value per dimension. */
  type Triple<T> = (T, T, T)

  /** A tensor as memory seen through a shape and strides. */
  datatype View<T> = View(data: int -> T, shape: Triple<nat>, strides: Triple<int>)

  datatype Input = Input(x: View<real>, mask: Option<View<int>>, scale: Option<View<real>>)

  datatype ReduceError = BadDimension

  function Nth<T>(t: Triple<T>, d: nat): T
    requires d < 3
  {
    if d == 0 then t.0 else if d == 1 then t.1 else t.2
  }

  function Address(strides: Triple<int>, c: Triple<nat>): int {
    c.0 * strides.0 + c.1 * strides.1 + c.2 * strides.2
  }

  // ---------------------------------------------------------------- what the reduction means

  /** Broadcasting: a dimension of size one is read at index zero whatever the index. */
  function BroadcastIndex(size: nat, i: nat): nat {
    if size == 1 then 0 else i
  }

  function Broadcast(shape: Triple<nat>, c: Triple<nat>): Triple<nat> {
    (BroadcastIndex(shape.0, c.0), BroadcastIndex(shape.1, c.1), BroadcastIndex(shape.2, c.2))
  }

  function Read<T>(v: View<T>, c: Triple<nat>): T {
    v.data(Address(v.strides, Broadcast(v.shape, c)))
  }

  /** `where(mask, x * scale, 0)` at one coordinate. */
  function ReferenceTerm(input: Input, c: Triple<nat>): real {
    var s := if input.scale.Some? then Read(input.scale.value, c) else 1.0;
    if input.mask.Some? && Read(input.mask.value, c) == 0 then 0.0
    else input.x.data(Address(input.x.strides, c)) * s
  }

  /** The coordinate with `k` in dimension `dim` and `i`, `j` in the two others, in order. */
  function Place(dim: nat, k: nat, i: nat, j: nat): Triple<nat>
    requires dim < 3
  {
    if dim == 0 then (k, i, j) else if dim == 1 then (i, k, j) else (i, j, k)
  }

  function ReferenceSum(input: Input, dim: nat, i: nat, j: nat, n: nat): real
    requires dim < 3
  {
    if n == 0 then 0.0
    else ReferenceSum(input, dim, i, j, n - 1) + ReferenceTerm(input, Place(dim, n - 1, i, j))
  }

  // ---------------------------------------------------------------- what the kernel reads

  /** The two dimensions that are left. */
  function NonReduced(dim: nat): (nat, nat)
    requires dim < 3
  {
    (if dim == 0 then 1 else 0, if dim == 2 then 1 else 2)
  }

  /** A stride of zero is the kernel's broadcast flag. */
  function Offset(stride: int, i: nat): int {
    if stride == 0 then 0 else i * stride
  }

  function Pointer(strides: Triple<int>, dim: nat, k: nat, i: nat, j: nat): int
    requires dim < 3
  {
    var rest := NonReduced(dim);
    Offset(Nth(strides, dim), k) + Offset(Nth(strides, rest.0), i) + Offset(Nth(strides, rest.1), j)
  }

  lemma PointerIsAddress(strides: Triple<int>, dim: nat, k: nat, i: nat, j: nat)
    requires dim < 3
    ensures Pointer(strides, dim, k, i, j) == Address(strides, Place(dim, k, i, j))
  {
  }

  /** What a lane adds in iteration `k`; lanes outside the tensor load neutral values. */
  function LaneTerm(input: Input, dim: nat, k: nat, i: nat, j: nat, valid: bool): real
    requires dim < 3
  {
    var x := if valid then input.x.data(Pointer(input.x.strides, dim, k, i, j)) else 0.0;
    var s :=
      if input.scale.None? then 1.0
      else if valid then input.scale.value.data(Pointer(input.scale.value.strides, dim, k, i, j)) else 1.0;
    var m :=
      if input.mask.None? then 1
      else if valid then input.mask.value.data(Pointer(input.mask.value.strides, dim, k, i, j)) else 1;
    if m != 0 then x * s else 0.0
  }

  function LaneSum(input: Input, dim: nat, i: nat, j: nat, valid: bool, n: nat): real
    requires dim < 3
  {
    if n == 0 then 0.0
    else LaneSum(input, dim, i, j, valid, n - 1) + LaneTerm(input, dim, n - 1, i, j, valid)
  }

  // ---------------------------------------------------------------- the kernel

  const BLOCK_S0: nat := 64
  const BLOCK_S1: nat := 128

  function Rows(input: Input, dim: nat): nat
    requires dim < 3
  {
    Nth(input.x.shape, NonReduced(dim).0)
  }

  function Columns(input: Input, dim: nat): nat
    requires dim < 3
  {
    Nth(input.x.shape, NonReduced(dim).1)
  }

  /** Cell (i, j) of the output belongs to the tile of program (p, q). */
  predicate InTile(p: nat, q: nat, i: nat, j: nat) {
    p * BLOCK_S0 <= i < p * BLOCK_S0 + BLOCK_S0 && q * BLOCK_S1 <= j < q * BLOCK_S1 + BLOCK_S1
  }

  /** Every output cell is stored by exactly one program of the grid. */
  lemma WriterIsUnique(rows: nat, columns: nat, i: nat, j: nat, p: nat, q: nat)
    requires i < rows && j < columns
    ensures i / BLOCK_S0 < CeilDiv(rows, BLOCK_S0) && j / BLOCK_S1 < CeilDiv(columns, BLOCK_S1)
    ensures InTile(p, q, i, j) <==> p == i / BLOCK_S0 && q == j / BLOCK_S1
  {
  }

  /** The accumulation loop of one program: a tile of lane sums. */
  method Accumulate(input: Input, dim: nat, p: nat, q: nat) returns (acc: array2<real>)
    requires dim < 3
    ensures fresh(acc) && acc.Length0 == BLOCK_S0 && acc.Length1 == BLOCK_S1
    ensures forall a: nat, b: nat :: a < BLOCK_S0 && b < BLOCK_S1 ==>
              var i, j := p * BLOCK_S0 + a, q * BLOCK_S1 + b;
              acc[a, b] == LaneSum(input, dim, i, j, i < Rows(input, dim) && j < Columns(input, dim),
                                   Nth(input.x.shape, dim))
  {
    acc := new real[BLOCK_S0, BLOCK_S1]((_, _) => 0.0);
    var rows, columns := Rows(input, dim), Columns(input, dim);
    var k := 0;
    while k < Nth(input.x.shape, dim)
      invariant k <= Nth(input.x.shape, dim)
      invariant forall a: nat, b: nat :: a < BLOCK_S0 && b < BLOCK_S1 ==>
                  acc[a, b] == LaneSum(input, dim, p * BLOCK_S0 + a, q * BLOCK_S1 + b,
                                       p * BLOCK_S0 + a < rows && q * BLOCK_S1 + b < columns, k)
    {
      forall a, b | 0 <= a < BLOCK_S0 && 0 <= b < BLOCK_S1 {
        acc[a, b] := acc[a, b] + LaneTerm(input, dim, k, p * BLOCK_S0 + a, q * BLOCK_S1 + b,
                                          p * BLOCK_S0 + a < rows && q * BLOCK_S1 + b < columns);
      }
      k := k + 1;
    }
  }

  /** One program: its tile of the output, clipped to the tensor, gets the sums; every other cell is left alone. */
  method Program(input: Input, dim: nat, p: nat, q: nat, y: array2<real>)
    requires dim < 3 && y.Length0 == Rows(input, dim) && y.Length1 == Columns(input, dim)
    modifies y
    ensures forall i: nat, j: nat :: i < y.Length0 && j < y.Length1 ==>
              y[i, j] == if InTile(p, q, i, j) then LaneSum(input, dim, i, j, true, Nth(input.x.shape, dim))
                         else old(y[i, j])
  {
    var acc := Accumulate(input, dim, p, q);
    forall a, b | 0 <= a < BLOCK_S0 && 0 <= b < BLOCK_S1
                  && p * BLOCK_S0 + a < y.Length0 && q * BLOCK_S1 + b < y.Length1 {
      y[p * BLOCK_S0 + a, q * BLOCK_S1 + b] := acc[a, b];
    }
    forall i: nat, j: nat | i < y.Length0 && j < y.Length1 && InTile(p, q, i, j)
      ensures y[i, j] == LaneSum(input, dim, i, j, true, Nth(input.x.shape, dim))
    {
      var a, b := i - p * BLOCK_S0, j - q * BLOCK_S1;
      assert y[p * BLOCK_S0 + a, q * BLOCK_S1 + b] == acc[a, b];
    }
  }

  ghost predicate RowDone(input: Input, dim: nat, y: array2<real>, p: nat)
    requires dim < 3
    reads y
  {
    forall i: nat, j: nat :: i < y.Length0 && j < y.Length1 && i < p * BLOCK_S0 ==>
      y[i, j] == LaneSum(input, dim, i, j, true, Nth(input.x.shape, dim))
  }

  ghost predicate TilesDone(input: Input, dim: nat, y: array2<real>, p: nat, q: nat)
    requires dim < 3
    reads y
  {
    forall i: nat, j: nat :: i < y.Length0 && j < y.Length1 && p * BLOCK_S0 <= i < p * BLOCK_S0 + BLOCK_S0
                             && j < q * BLOCK_S1 ==>
      y[i, j] == LaneSum(input, dim, i, j, true, Nth(input.x.shape, dim))
  }

  method ProgramRow(input: Input, dim: nat, p: nat, y: array2<real>)
    requires dim < 3 && y.Length0 == Rows(input, dim) && y.Length1 == Columns(input, dim)
    requires RowDone(input, dim, y, p)
    modifies y
    ensures RowDone(input, dim, y, p + 1)
  {
    var q := 0;
    while q < CeilDiv(y.Length1, BLOCK_S1)
      invariant q <= CeilDiv(y.Length1, BLOCK_S1)
      invariant RowDone(input, dim, y, p) && TilesDone(input, dim, y, p, q)
    {
      Program(input, dim, p, q, y);
      q := q + 1;
    }
    assert y.Length1 <= q * BLOCK_S1;
  }

  /**
   `reduce` over dimension `dim`, which may be given from the end. The launch covers the output, and each cell holds
   the reference sum whenever the kernel reads mask and scale where broadcasting would.
   */
  method Reduce(input: Input, dim: int) returns (r: Result<array2<real>, ReduceError>)
    ensures r.Err? <==> !(-3 <= dim < 3)
    ensures r.Ok? ==>
              var d := if dim < 0 then dim + 3 else dim;
              && r.value.Length0 == Rows(input, d) && r.value.Length1 == Columns(input, d)
              && forall i: nat, j: nat :: i < r.value.Length0 && j < r.value.Length1 ==>
                   r.value[i, j] == LaneSum(input, d, i, j, true, Nth(input.x.shape, d))
    ensures r.Ok? && ReadsAsBroadcast(input) ==>
              var d := if dim < 0 then dim + 3 else dim;
              forall i: nat, j: nat :: i < r.value.Length0 && j < r.value.Length1 ==>
                r.value[i, j] == ReferenceSum(input, d, i, j, Nth(input.x.shape, d))
  {
    var d := if dim < 0 then dim + 3 else dim;
    if d != 0 && d != 1 && d != 2 {
      return Err(BadDimension);
    }
    var y := new real[Rows(input, d), Columns(input, d)];
    var p := 0;
    while p < CeilDiv(y.Length0, BLOCK_S0)
      invariant p <= CeilDiv(y.Length0, BLOCK_S0)
      invariant RowDone(input, d, y, p)
    {
      ProgramRow(input, d, p, y);
      p := p + 1;
    }
    assert y.Length0 <= p * BLOCK_S0;
    if ReadsAsBroadcast(input) {
      forall i: nat, j: nat | i < y.Length0 && j < y.Length1
        ensures LaneSum(input, d, i, j, true, Nth(input.x.shape, d))
                == ReferenceSum(input, d, i, j, Nth(input.x.shape, d))
      {
        LaneSumIsReference(input, d, i, j, Nth(input.x.shape, d));
      }
    }
    return Ok(y);
  }

  // ---------------------------------------------------------------- when the kernel reads what broadcasting would

  predicate DimensionOk(size: nat, stride: int, extent: nat) {
    size != 1 || stride == 0 || extent <= 1
  }

  /** A dimension of size one is only read rightly with stride zero, unless there is nothing to broadcast. */
  predicate ViewOk(shape: Triple<nat>, strides: Triple<int>, extents: Triple<nat>) {
    && DimensionOk(shape.0, strides.0, extents.0)
    && DimensionOk(shape.1, strides.1, extents.1)
    && DimensionOk(shape.2, strides.2, extents.2)
  }

  predicate ReadsAsBroadcast(input: Input) {
    && (input.mask.Some? ==> ViewOk(input.mask.value.shape, input.mask.value.strides, input.x.shape))
    && (input.scale.Some? ==> ViewOk(input.scale.value.shape, input.scale.value.strides, input.x.shape))
  }

  predicate Inside(extents: Triple<nat>, c: Triple<nat>) {
    c.0 < extents.0 && c.1 < extents.1 && c.2 < extents.2
  }

  lemma SameAddress(shape: Triple<nat>, strides: Triple<int>, extents: Triple<nat>, c: Triple<nat>)
    requires ViewOk(shape, strides, extents) && Inside(extents, c)
    ensures Address(strides, c) == Address(strides, Broadcast(shape, c))
  {
  }

  ghost predicate ReadsRightly(shape: Triple<nat>, strides: Triple<int>, extents: Triple<nat>) {
    forall c :: Inside(extents, c) ==> Address(strides, c) == Address(strides, Broadcast(shape, c))
  }

  predicate Empty(extents: Triple<nat>) {
    extents.0 == 0 || extents.1 == 0 || extents.2 == 0
  }

  /** The kernel finds every element where broadcasting puts it exactly under the condition on the strides. */
  lemma ReadsRightlyExactly(shape: Triple<nat>, strides: Triple<int>, extents: Triple<nat>)
    ensures ReadsRightly(shape, strides, extents) <==> Empty(extents) || ViewOk(shape, strides, extents)
  {
    if Empty(extents) {
      assert forall c :: !Inside(extents, c);
    } else if ViewOk(shape, strides, extents) {
      forall c | Inside(extents, c)
        ensures Address(strides, c) == Address(strides, Broadcast(shape, c))
      {
        SameAddress(shape, strides, extents, c);
      }
    } else {
      var c: Triple<nat> :=
        if !DimensionOk(shape.0, strides.0, extents.0) then (1, 0, 0)
        else if !DimensionOk(shape.1, strides.1, extents.1) then (0, 1, 0)
        else (0, 0, 1);
      assert Inside(extents, c);
      assert Address(strides, c) != Address(strides, Broadcast(shape, c));
    }
  }

  lemma TermIsReference(input: Input, dim: nat, k: nat, i: nat, j: nat)
    requires dim < 3 && ReadsAsBroadcast(input)
    requires k < Nth(input.x.shape, dim) && i < Rows(input, dim) && j < Columns(input, dim)
    ensures LaneTerm(input, dim, k, i, j, true) == ReferenceTerm(input, Place(dim, k, i, j))
  {
    var c := Place(dim, k, i, j);
    PointerIsAddress(input.x.strides, dim, k, i, j);
    if input.mask.Some? {
      PointerIsAddress(input.mask.value.strides, dim, k, i, j);
      SameAddress(input.mask.value.shape, input.mask.value.strides, input.x.shape, c);
    }
    if input.scale.Some? {
      PointerIsAddress(input.scale.value.strides, dim, k, i, j);
      SameAddress(input.scale.value.shape, input.scale.value.strides, input.x.shape, c);
    }
  }

  lemma {:induction false} LaneSumIsReference(input: Input, dim: nat, i: nat, j: nat, n: nat)
    requires dim < 3 && ReadsAsBroadcast(input)
    requires n <= Nth(input.x.shape, dim) && i < Rows(input, dim) && j < Columns(input, dim)
    ensures LaneSum(input, dim, i, j, true, n) == ReferenceSum(input, dim, i, j, n)
  {
    if n > 0 {
      LaneSumIsReference(input, dim, i, j, n - 1);
      TermIsReference(input, dim, n - 1, i, j);
    }
  }

  // ---------------------------------------------------------------- and when it does not

  lemma {:induction false} LaneZero(input: Input, dim: nat, i: nat, j: nat, n: nat)
    requires dim < 3 && forall k: nat :: k < n ==> LaneTerm(input, dim, k, i, j, true) == 0.0
    ensures LaneSum(input, dim, i, j, true, n) == 0.0
  {
    if n > 0 {
      LaneZero(input, dim, i, j, n - 1);
    }
  }

  lemma {:induction false} LaneFirst(input: Input, dim: nat, i: nat, j: nat, n: nat)
    requires dim < 3 && 0 < n && forall k: nat :: 0 < k < n ==> LaneTerm(input, dim, k, i, j, true) == 0.0
    ensures LaneSum(input, dim, i, j, true, n) == LaneTerm(input, dim, 0, i, j, true)
  {
    if n > 1 {
      LaneFirst(input, dim, i, j, n - 1);
    } else {
      assert LaneSum(input, dim, i, j, true, n - 1) == 0.0;
    }
  }

  lemma {:induction false} ReferenceHits(input: Input, dim: nat, i: nat, j: nat, at: nat, n: nat)
    requires dim < 3 && forall k: nat :: k < n ==> 0.0 <= ReferenceTerm(input, Place(dim, k, i, j))
    requires ReferenceTerm(input, Place(dim, at, i, j)) == 1.0
    ensures ReferenceSum(input, dim, i, j, n) >= if at < n then 1.0 else 0.0
  {
    if n > 0 {
      ReferenceHits(input, dim, i, j, at, n - 1);
    }
  }

  lemma {:induction false} ReferenceAll(input: Input, dim: nat, i: nat, j: nat, n: nat)
    requires dim < 3 && forall k: nat :: k < n ==> ReferenceTerm(input, Place(dim, k, i, j)) == 1.0
    ensures ReferenceSum(input, dim, i, j, n) == n as real
  {
    if n > 0 {
      ReferenceAll(input, dim, i, j, n - 1);
    }
  }

  /** Shapes and strides are the same; contents may differ. */
  ghost predicate SameGeometry(a: Input, b: Input) {
    && a.x.shape == b.x.shape && a.x.strides == b.x.strides
    && a.mask.Some? == b.mask.Some? && a.scale.Some? == b.scale.Some?
    && (a.mask.Some? ==> a.mask.value.shape == b.mask.value.shape && a.mask.value.strides == b.mask.value.strides)
    && (a.scale.Some? ==> a.scale.value.shape == b.scale.value.shape && a.scale.value.strides == b.scale.value.strides)
  }

  /** All ones, except that the mask, or else the scale, is one at a single address and zero elsewhere. */
  function Probe(g: Input, masked: bool, at: int): Input {
    Input(View((a: int) => 1.0, g.x.shape, g.x.strides),
          if g.mask.None? then None
          else Some(View((a: int) => if masked && a != at then 0 else 1, g.mask.value.shape, g.mask.value.strides)),
          if g.scale.None? then None
          else Some(View((a: int) => if !masked && a != at then 0.0 else 1.0,
                         g.scale.value.shape, g.scale.value.strides)))
  }

  predicate HasOperand(g: Input, masked: bool) {
    if masked then g.mask.Some? else g.scale.Some?
  }

  function Shape(g: Input, masked: bool): Triple<nat>
    requires HasOperand(g, masked)
  {
    if masked then g.mask.value.shape else g.scale.value.shape
  }

  function Strides(g: Input, masked: bool): Triple<int>
    requires HasOperand(g, masked)
  {
    if masked then g.mask.value.strides else g.scale.value.strides
  }

  lemma ProbeTerms(g: Input, masked: bool, at: int, dim: nat, k: nat, i: nat, j: nat)
    requires dim < 3 && HasOperand(g, masked)
    ensures LaneTerm(Probe(g, masked, at), dim, k, i, j, true)
         == if Pointer(Strides(g, masked), dim, k, i, j) == at then 1.0 else 0.0
    ensures ReferenceTerm(Probe(g, masked, at), Place(dim, k, i, j))
         == if Address(Strides(g, masked), Broadcast(Shape(g, masked), Place(dim, k, i, j))) == at then 1.0 else 0.0
  {
  }

  /** Along the reduced dimension the kernel never reads `at` where broadcasting does. */
  ghost predicate NeverRead(shape: Triple<nat>, strides: Triple<int>, dim: nat, at: int, i: nat, j: nat, n: nat,
                            hit: nat)
    requires dim < 3
  {
    && (forall k: nat :: k < n ==> Pointer(strides, dim, k, i, j) != at)
    && hit < n && Address(strides, Broadcast(shape, Place(dim, hit, i, j))) == at
  }

  /** Along the reduced dimension broadcasting always reads `at`, the kernel only once. */
  ghost predicate ReadOnce(shape: Triple<nat>, strides: Triple<int>, dim: nat, at: int, i: nat, j: nat, n: nat)
    requires dim < 3
  {
    && 2 <= n
    && (forall k: nat :: 0 < k < n ==> Pointer(strides, dim, k, i, j) != at)
    && (forall k: nat :: k < n ==> Address(strides, Broadcast(shape, Place(dim, k, i, j))) == at)
  }

  lemma {:induction false} NeverReadShows(g: Input, masked: bool, dim: nat, at: int, i: nat, j: nat, n: nat, hit: nat)
    requires dim < 3 && HasOperand(g, masked)
    requires NeverRead(Shape(g, masked), Strides(g, masked), dim, at, i, j, n, hit)
    ensures LaneSum(Probe(g, masked, at), dim, i, j, true, n) != ReferenceSum(Probe(g, masked, at), dim, i, j, n)
  {
    forall k: nat | k < n
      ensures LaneTerm(Probe(g, masked, at), dim, k, i, j, true) == 0.0
      ensures 0.0 <= ReferenceTerm(Probe(g, masked, at), Place(dim, k, i, j))
    {
      ProbeTerms(g, masked, at, dim, k, i, j);
    }
    ProbeTerms(g, masked, at, dim, hit, i, j);
    LaneZero(Probe(g, masked, at), dim, i, j, n);
    ReferenceHits(Probe(g, masked, at), dim, i, j, hit, n);
  }

  lemma {:induction false} ReadOnceShows(g: Input, masked: bool, dim: nat, at: int, i: nat, j: nat, n: nat)
    requires dim < 3 && HasOperand(g, masked) && ReadOnce(Shape(g, masked), Strides(g, masked), dim, at, i, j, n)
    ensures LaneSum(Probe(g, masked, at), dim, i, j, true, n) <= 1.0
    ensures ReferenceSum(Probe(g, masked, at), dim, i, j, n) == n as real
  {
    forall k: nat | k < n
      ensures 0 < k ==> LaneTerm(Probe(g, masked, at), dim, k, i, j, true) == 0.0
      ensures ReferenceTerm(Probe(g, masked, at), Place(dim, k, i, j)) == 1.0
    {
      ProbeTerms(g, masked, at, dim, k, i, j);
    }
    ProbeTerms(g, masked, at, dim, 0, i, j);
    LaneFirst(Probe(g, masked, at), dim, i, j, n);
    ReferenceAll(Probe(g, masked, at), dim, i, j, n);
  }

  /** The end of a row of `n` equally spaced addresses that a shift leaves behind. */
  function FarEnd(stride: int, shift: int, n: nat): nat
    requires 0 < n
  {
    if (0 < shift) == (0 <= stride) then 0 else n - 1
  }

  lemma ShiftMisses(stride: int, shift: int, n: nat, k: nat)
    requires k < n && shift != 0
    ensures k * stride + shift != FarEnd(stride, shift, n) * stride
  {
    if 0 < shift && 0 <= stride {
      MulNonNeg(k, stride);
    } else if 0 < shift {
      MulMono(k, n - 1, -stride);
    } else if 0 <= stride {
      MulMono(k, n - 1, stride);
    } else {
      MulNonNeg(k, -stride);
    }
  }

  /** A misread reduced dimension: position zero is read once instead of every time. */
  lemma ReducedMisread(shape: Triple<nat>, strides: Triple<int>, extents: Triple<nat>, dim: nat)
    requires dim < 3 && !DimensionOk(Nth(shape, dim), Nth(strides, dim), Nth(extents, dim))
    ensures ReadOnce(shape, strides, dim, 0, 0, 0, Nth(extents, dim))
  {
  }

  /** A misread dimension that stays: its second line is read with an offset, so one end of the first line is missed. */
  lemma OtherMisread(shape: Triple<nat>, strides: Triple<int>, extents: Triple<nat>, dim: nat, i: nat, j: nat,
                     shift: int)
    requires dim < 3 && 0 < Nth(extents, dim) && (i, j) in {(1, 0), (0, 1)}
    requires DimensionOk(Nth(shape, dim), Nth(strides, dim), Nth(extents, dim))
    requires var d := if i == 1 then NonReduced(dim).0 else NonReduced(dim).1;
             shift == Nth(strides, d) != 0 && Nth(shape, d) == 1
    ensures var hit := FarEnd(Nth(strides, dim), shift, Nth(extents, dim));
            NeverRead(shape, strides, dim, hit * Nth(strides, dim), i, j, Nth(extents, dim), hit)
  {
    var n, stride := Nth(extents, dim), Nth(strides, dim);
    forall k: nat | k < n
      ensures Pointer(strides, dim, k, i, j) != FarEnd(stride, shift, n) * stride
    {
      ShiftMisses(stride, shift, n, k);
    }
  }

  /** Whatever the tensor's own strides are, a misread mask or scale gives a wrong sum for some contents. */
  lemma MisreadShows(g: Input, masked: bool, dim: nat) returns (at: int, i: nat, j: nat)
    requires dim < 3 && HasOperand(g, masked) && !Empty(g.x.shape)
    requires !ViewOk(Shape(g, masked), Strides(g, masked), g.x.shape)
    ensures i < Rows(g, dim) && j < Columns(g, dim)
    ensures var n := Nth(g.x.shape, dim);
            LaneSum(Probe(g, masked, at), dim, i, j, true, n) != ReferenceSum(Probe(g, masked, at), dim, i, j, n)
  {
    var shape, strides, n := Shape(g, masked), Strides(g, masked), Nth(g.x.shape, dim);
    var rest := NonReduced(dim);
    if !DimensionOk(Nth(shape, dim), Nth(strides, dim), n) {
      at, i, j := 0, 0, 0;
      ReducedMisread(shape, strides, g.x.shape, dim);
      ReadOnceShows(g, masked, dim, at, i, j, n);
    } else {
      var d := if !DimensionOk(Nth(shape, rest.0), Nth(strides, rest.0), Rows(g, dim)) then rest.0 else rest.1;
      i, j := if d == rest.0 then 1 else 0, if d == rest.0 then 0 else 1;
      var hit := FarEnd(Nth(strides, dim), Nth(strides, d), n);
      at := hit * Nth(strides, dim);
      OtherMisread(shape, strides, g.x.shape, dim, i, j, Nth(strides, d));
      NeverReadShows(g, masked, dim, at, i, j, n, hit);
    }
  }

  ghost predicate SumsAgree(input: Input, dim: nat)
    requires dim < 3
  {
    forall i: nat, j: nat :: i < Rows(input, dim) && j < Columns(input, dim) ==>
      LaneSum(input, dim, i, j, true, Nth(input.x.shape, dim))
      == ReferenceSum(input, dim, i, j, Nth(input.x.shape, dim))
  }

  lemma SumsAgreeWhenRead(input: Input, dim: nat)
    requires dim < 3 && (Empty(input.x.shape) || ReadsAsBroadcast(input))
    ensures SumsAgree(input, dim)
  {
    forall i: nat, j: nat | i < Rows(input, dim) && j < Columns(input, dim)
      ensures LaneSum(input, dim, i, j, true, Nth(input.x.shape, dim))
           == ReferenceSum(input, dim, i, j, Nth(input.x.shape, dim))
    {
      if Nth(input.x.shape, dim) > 0 {
        LaneSumIsReference(input, dim, i, j, Nth(input.x.shape, dim));
      }
    }
  }

  /**
   For given shapes and strides of the tensor, the mask and the scale, each of the two present or not, the reduction is
   right for all contents exactly when the tensor is empty or each size-one dimension of mask and scale has stride zero
   or nothing to broadcast over.
   */
  lemma SumExactly(g: Input, dim: nat)
    requires dim < 3
    ensures (forall input :: SameGeometry(g, input) ==> SumsAgree(input, dim))
       <==> Empty(g.x.shape) || ReadsAsBroadcast(g)
  {
    if Empty(g.x.shape) || ReadsAsBroadcast(g) {
      forall input | SameGeometry(g, input)
        ensures SumsAgree(input, dim)
      {
        SumsAgreeWhenRead(input, dim);
      }
    } else {
      var masked := g.mask.Some? && !ViewOk(g.mask.value.shape, g.mask.value.strides, g.x.shape);
      var at, i, j := MisreadShows(g, masked, dim);
      assert SameGeometry(g, Probe(g, masked, at)) && !SumsAgree(Probe(g, masked, at), dim);
    }
  }

  /** What the documentation asks of a mask or a scale. */
  predicate Broadcastable(shape: Triple<nat>, extents: Triple<nat>) {
    && (shape.0 == 1 || shape.0 == extents.0)
    && (shape.1 == 1 || shape.1 == extents.1)
    && (shape.2 == 1 || shape.2 == extents.2)
  }

  predicate Documented(g: Input) {
    && (g.mask.Some? ==> Broadcastable(g.mask.value.shape, g.x.shape))
    && (g.scale.Some? ==> Broadcastable(g.scale.value.shape, g.x.shape))
  }

  /** Expanded to the shape of the tensor: what is shorter has stride zero. */
  predicate Expanded(shape: Triple<nat>, strides: Triple<int>, extents: Triple<nat>) {
    && (shape.0 == extents.0 || strides.0 == 0)
    && (shape.1 == extents.1 || strides.1 == 0)
    && (shape.2 == extents.2 || strides.2 == 0)
  }

  /** For operands as documented: the reduction is right for all contents exactly when both have been expanded. */
  lemma DocumentedExactly(g: Input, dim: nat)
    requires dim < 3 && Documented(g)
    ensures (forall input :: SameGeometry(g, input) ==> SumsAgree(input, dim)) <==>
              || Empty(g.x.shape)
              || ((g.mask.Some? ==> Expanded(g.mask.value.shape, g.mask.value.strides, g.x.shape))
                  && (g.scale.Some? ==> Expanded(g.scale.value.shape, g.scale.value.strides, g.x.shape)))
  {
    SumExactly(g, dim);
  }

  /** For example: a contiguous mask of shape (1, 1, 1) over a tensor of shape (n, 1, 1) with two or more rows. */
  lemma {:induction false} ContiguousMaskIsMisread(x: int -> real, bits: int -> int, n: nat)
    requires 2 <= n
    ensures var g := Input(View(x, (n, 1, 1), (1, 1, 1)), Some(View(bits, (1, 1, 1), (1, 1, 1))), None);
            && LaneSum(Probe(g, true, 0), 0, 0, 0, true, n) <= 1.0
            && ReferenceSum(Probe(g, true, 0), 0, 0, 0, n) == n as real
  {
    var g := Input(View(x, (n, 1, 1), (1, 1, 1)), Some(View(bits, (1, 1, 1), (1, 1, 1))), None);
    ReducedMisread((1, 1, 1), (1, 1, 1), (n, 1, 1), 0);
    ReadOnceShows(g, true, 0, 0, 0, 0, n);
  }
}
