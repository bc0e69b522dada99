/**
 Fused LoRA weights (q, k, v or gate, up stored one after the other) reordered for tensor parallelism. A weight is the
 sequence of its slices along the sharded dimension.
 */
module LoraReshard {
  import opened Arith
  import opened Results
  import opened Tensors

  datatype ReorderError = OddFusedSize | SizeMismatch | NotDivisible

  // ---------------------------------------------------------------- tensor operations

  function Window<T>(s: seq<T>, lo: nat, size: nat): seq<T> {
    if lo <= |s| then s[lo..if lo + size <= |s| then lo + size else |s|] else []
  }

  /** `torch.split` by one size. An empty tensor gives a single empty chunk. */
  function SplitEvery<T>(s: seq<T>, size: nat): seq<seq<T>>
    requires size == 0 ==> s == []
  {
    if s == [] then [s]
    else
      var n := (|s| + size - 1) / size;
      seq(n, i requires 0 <= i < n => Window(s, Times(i, size), size))
  }

  lemma SplitEveryCount<T>(s: seq<T>, size: nat, n: nat)
    requires s != [] && |s| == Times(n, size)
    ensures 0 < size && |SplitEvery(s, size)| == n
  {
    DivMod(n, size, size - 1);
  }

  function Shortest<T>(lists: seq<seq<T>>): (n: nat)
    ensures forall i :: 0 <= i < |lists| ==> n <= |lists[i]|
  {
    if |lists| == 0 then 0
    else
      var last := |lists[|lists| - 1]|;
      if |lists| == 1 then last
      else
        var n := Shortest(lists[..|lists| - 1]);
        if last < n then last else n
  }

  function Column<T>(lists: seq<seq<T>>, r: nat): seq<T>
    requires r < Shortest(lists)
  {
    seq(|lists|, i requires 0 <= i < |lists| => lists[i][r])
  }

  /** Python's `zip(*lists)`, which stops at the shortest list. */
  function Zip<T>(lists: seq<seq<T>>): seq<seq<T>> {
    seq(Shortest(lists), r requires 0 <= r < Shortest(lists) => Column(lists, r))
  }

  // ---------------------------------------------------------------- the reordering

  predicate Divisible(sizes: seq<nat>, tp: nat)
    requires 0 < tp
  {
    forall i :: 0 <= i < |sizes| ==> sizes[i] % tp == 0
  }

  function Shares(sizes: seq<nat>, tp: nat): seq<nat>
    requires 0 < tp
  {
    seq(|sizes|, i requires 0 <= i < |sizes| => sizes[i] / tp)
  }

  /** Every part of the weight is `tp` shares long. */
  ghost predicate Fused<T>(w: seq<T>, tp: nat, sizes: seq<nat>, shares: seq<nat>) {
    && 0 < tp && Splits(w, sizes) && |shares| == |sizes|
    && forall i :: 0 <= i < |sizes| ==> sizes[i] == Times(tp, shares[i])
  }

  lemma {:induction false} DivisibleIsFused<T>(w: seq<T>, tp: nat, sizes: seq<nat>)
    requires 0 < tp && |w| == Sum(sizes) && Divisible(sizes, tp)
    ensures Fused(w, tp, sizes, Shares(sizes, tp))
  {
    assert sizes[..|sizes|] == sizes;
    forall i | 0 <= i < |sizes|
      ensures sizes[i] == Times(tp, Shares(sizes, tp)[i])
    {
    }
  }

  function Chunks<T>(w: seq<T>, tp: nat, sizes: seq<nat>, shares: seq<nat>, i: nat): seq<seq<T>>
    requires Fused(w, tp, sizes, shares) && i < |sizes|
  {
    PartLength(w, sizes, i);
    SplitEvery(Part(w, sizes, i), shares[i])
  }

  function PartChunks<T>(w: seq<T>, tp: nat, sizes: seq<nat>, shares: seq<nat>): seq<seq<seq<T>>>
    requires Fused(w, tp, sizes, shares)
  {
    seq(|sizes|, i requires 0 <= i < |sizes| => Chunks(w, tp, sizes, shares, i))
  }

  lemma PartLength<T>(w: seq<T>, sizes: seq<int>, i: nat)
    requires Splits(w, sizes) && i < |sizes|
    ensures |Part(w, sizes, i)| == sizes[i]
  {
    CutStep(sizes, i);
    CutMono(sizes, i, i + 1);
    CutMono(sizes, i + 1, |sizes|);
  }

  /** `interleave_fused_lora_weights_for_tp` */
  function Interleave<T>(w: seq<T>, tp: nat, sizes: seq<nat>): Result<seq<seq<T>>, ReorderError>
    requires 0 < tp
  {
    if |w| != Sum(sizes) then Err(SizeMismatch)
    else if !Divisible(sizes, tp) then Err(NotDivisible)
    else
      DivisibleIsFused(w, tp, sizes);
      Ok(Concat(Zip(PartChunks(w, tp, sizes, Shares(sizes, tp)))))
  }

  /** `prepare_fused_lora_modules_for_tp`; head counts are those of one tensor-parallel rank. */
  function Prepare<T>(name: string, w: seq<T>, tp: nat, headSize: nat, heads: nat, kvHeads: nat)
    : Result<seq<T>, ReorderError>
    requires 0 < tp
  {
    if tp == 1 then Ok(w)
    else if name == "mlp_gate_up" then
      if |w| % 2 != 0 then Err(OddFusedSize) else Cat(Interleave(w, tp, HalfSizes(|w| / 2)))
    else if name == "attn_qkv" then
      Cat(Interleave(w, tp, QkvSizes(tp, Times(headSize, heads), Times(headSize, kvHeads))))
    else Ok(w)
  }

  function Cat<T>(pieces: Result<seq<seq<T>>, ReorderError>): Result<seq<T>, ReorderError> {
    match pieces
    case Ok(list) => Ok(Concat(list))
    case Err(e) => Err(e)
  }

  function HalfSizes(half: nat): seq<nat> {
    [half, half]
  }

  function QkvSizes(tp: nat, q: nat, kv: nat): seq<nat> {
    [Times(q, tp), Times(kv, tp), Times(kv, tp)]
  }

  // ---------------------------------------------------------------- what each rank should get

  /** Rank `r`'s slice of part `i`. */
  function Piece<T>(w: seq<T>, tp: nat, sizes: seq<nat>, shares: seq<nat>, i: nat, r: nat): seq<T>
    requires Fused(w, tp, sizes, shares) && i < |sizes|
  {
    Window(Part(w, sizes, i), Times(r, shares[i]), shares[i])
  }

  function Pieces<T>(w: seq<T>, tp: nat, sizes: seq<nat>, shares: seq<nat>, r: nat): seq<seq<T>>
    requires Fused(w, tp, sizes, shares)
  {
    seq(|sizes|, i requires 0 <= i < |sizes| => Piece(w, tp, sizes, shares, i, r))
  }

  /** Every part's `r`-th slice, one after the other. */
  function RankRows<T>(w: seq<T>, tp: nat, sizes: seq<nat>, shares: seq<nat>, r: nat): seq<T>
    requires Fused(w, tp, sizes, shares)
  {
    Concat(Pieces(w, tp, sizes, shares, r))
  }

  function Reordered<T>(w: seq<T>, tp: nat, sizes: seq<nat>, shares: seq<nat>): seq<T>
    requires Fused(w, tp, sizes, shares)
  {
    Concat(Concat(Zip(PartChunks(w, tp, sizes, shares))))
  }

  /** Every part is cut into `tp` chunks. */
  predicate Whole(tp: nat, sizes: seq<nat>) {
    tp == 1 || forall i :: 0 <= i < |sizes| ==> 0 < sizes[i]
  }

  lemma ChunkIsPiece<T>(w: seq<T>, tp: nat, sizes: seq<nat>, shares: seq<nat>, i: nat)
    requires Fused(w, tp, sizes, shares) && i < |sizes|
    ensures |Chunks(w, tp, sizes, shares, i)| == if sizes[i] == 0 then 1 else tp
    ensures forall r :: 0 <= r < |Chunks(w, tp, sizes, shares, i)| ==>
              Chunks(w, tp, sizes, shares, i)[r] == Piece(w, tp, sizes, shares, i, r)
  {
    PartLength(w, sizes, i);
    if sizes[i] != 0 {
      SplitEveryCount(Part(w, sizes, i), shares[i], tp);
    }
  }

  function RowCount(tp: nat, sizes: seq<nat>): nat {
    if Whole(tp, sizes) then tp else 1
  }

  lemma {:induction false} ShortestAtLeast<T>(lists: seq<seq<T>>, n: nat)
    requires |lists| > 0 && forall i :: 0 <= i < |lists| ==> n <= |lists[i]|
    ensures n <= Shortest(lists)
  {
    if |lists| > 1 {
      ShortestAtLeast(lists[..|lists| - 1], n);
    }
  }

  lemma RowsCounted<T>(w: seq<T>, tp: nat, sizes: seq<nat>, shares: seq<nat>)
    requires Fused(w, tp, sizes, shares) && |sizes| > 0
    ensures Shortest(PartChunks(w, tp, sizes, shares)) == RowCount(tp, sizes)
  {
    var lists := PartChunks(w, tp, sizes, shares);
    forall i | 0 <= i < |sizes|
      ensures |lists[i]| == if sizes[i] == 0 then 1 else tp
    {
      ChunkIsPiece(w, tp, sizes, shares, i);
    }
    if Whole(tp, sizes) {
      assert |lists[0]| == tp;
    } else {
      var i :| 0 <= i < |sizes| && sizes[i] == 0;
      assert |lists[i]| == 1;
    }
    ShortestAtLeast(lists, RowCount(tp, sizes));
  }

  function Rows<T>(w: seq<T>, tp: nat, sizes: seq<nat>, shares: seq<nat>, n: nat): seq<seq<T>>
    requires Fused(w, tp, sizes, shares)
  {
    seq(n, r requires 0 <= r < n => RankRows(w, tp, sizes, shares, r))
  }

  /** The reordered weight is the blocks of the first `RowCount` ranks. */
  lemma ReorderedIsRows<T>(w: seq<T>, tp: nat, sizes: seq<nat>, shares: seq<nat>)
    requires Fused(w, tp, sizes, shares) && |sizes| > 0
    ensures Reordered(w, tp, sizes, shares) == Concat(Rows(w, tp, sizes, shares, RowCount(tp, sizes)))
  {
    var rows := Zip(PartChunks(w, tp, sizes, shares));
    RowsCounted(w, tp, sizes, shares);
    forall r | 0 <= r < |rows|
      ensures rows[r] == Pieces(w, tp, sizes, shares, r)
    {
      forall i | 0 <= i < |sizes|
        ensures rows[r][i] == Piece(w, tp, sizes, shares, i, r)
      {
        ChunkIsPiece(w, tp, sizes, shares, i);
      }
    }
    ConcatOfConcat(rows);
    assert Flattened(rows) == Rows(w, tp, sizes, shares, RowCount(tp, sizes));
  }

  function Flattened<T>(rows: seq<seq<seq<T>>>): seq<seq<T>> {
    seq(|rows|, r requires 0 <= r < |rows| => Concat(rows[r]))
  }

  lemma {:induction false} ConcatOfSum<T>(a: seq<seq<T>>, b: seq<seq<T>>)
    ensures Concat(a + b) == Concat(a) + Concat(b)
  {
    if |b| == 0 {
      assert a + b == a;
    } else {
      var front := b[..|b| - 1];
      assert (a + b)[..|a + b| - 1] == a + front;
      ConcatOfSum(a, front);
    }
  }

  lemma {:induction false} ConcatOfConcat<T>(rows: seq<seq<seq<T>>>)
    ensures Concat(Concat(rows)) == Concat(Flattened(rows))
  {
    if |rows| > 0 {
      var front := rows[..|rows| - 1];
      ConcatOfConcat(front);
      ConcatOfSum(Concat(front), rows[|rows| - 1]);
      assert Flattened(rows)[..|rows| - 1] == Flattened(front);
    }
  }

  // ---------------------------------------------------------------- lengths of the blocks

  lemma {:induction false} SharesSum(sizes: seq<nat>, shares: seq<nat>, tp: nat)
    requires |shares| == |sizes| && forall i :: 0 <= i < |sizes| ==> sizes[i] == Times(tp, shares[i])
    ensures Sum(sizes) == tp * Sum(shares)
  {
    if |sizes| > 0 {
      var n := |sizes| - 1;
      SharesSum(sizes[..n], shares[..n], tp);
      assert tp * (Sum(shares[..n]) + shares[n]) == tp * Sum(shares[..n]) + tp * shares[n];
    }
  }

  lemma PieceLength<T>(w: seq<T>, tp: nat, sizes: seq<nat>, shares: seq<nat>, i: nat, r: nat)
    requires Fused(w, tp, sizes, shares) && i < |sizes| && r < tp
    ensures |Piece(w, tp, sizes, shares, i, r)| == shares[i]
    ensures Times(r, shares[i]) + shares[i] == Times(r + 1, shares[i]) <= |Part(w, sizes, i)|
  {
    PartLength(w, sizes, i);
    TimesStep(r, tp, shares[i]);
  }

  lemma TimesStep(r: nat, tp: nat, c: nat)
    requires r < tp
    ensures Times(r, c) + c == Times(r + 1, c) <= Times(tp, c)
  {
    MulMono(r + 1, tp, c);
    assert (r + 1) * c == r * c + c;
  }

  ghost predicate HasLengths<T>(parts: seq<seq<T>>, lengths: seq<nat>) {
    |parts| == |lengths| && forall i :: 0 <= i < |parts| ==> |parts[i]| == lengths[i]
  }

  lemma {:induction false} ConcatLength<T>(parts: seq<seq<T>>, lengths: seq<nat>)
    requires HasLengths(parts, lengths)
    ensures |Concat(parts)| == Sum(lengths)
  {
    if |parts| > 0 {
      ConcatLength(parts[..|parts| - 1], lengths[..|parts| - 1]);
    }
  }

  /** In what was glued together, each piece is found again at its cut. */
  lemma {:induction false} WindowOfConcat<T>(parts: seq<seq<T>>, lengths: seq<nat>, i: nat)
    requires HasLengths(parts, lengths) && i < |parts|
    ensures 0 <= Cut(lengths, i) && Cut(lengths, i) + lengths[i] <= |Concat(parts)|
    ensures Window(Concat(parts), Cut(lengths, i), lengths[i]) == parts[i]
  {
    var last := |parts| - 1;
    var front := lengths[..last];
    ConcatLength(parts[..last], front);
    if i < last {
      WindowOfConcat(parts[..last], front, i);
      assert front[..i] == lengths[..i] && front[i] == lengths[i];
      assert Concat(parts) == Concat(parts[..last]) + parts[last];
    }
  }

  lemma {:induction false} BlockLength<T>(w: seq<T>, tp: nat, sizes: seq<nat>, shares: seq<nat>, r: nat)
    requires Fused(w, tp, sizes, shares) && r < tp
    ensures HasLengths(Pieces(w, tp, sizes, shares, r), shares)
    ensures |RankRows(w, tp, sizes, shares, r)| == Sum(shares)
  {
    forall i | 0 <= i < |sizes|
      ensures |Pieces(w, tp, sizes, shares, r)[i]| == shares[i]
    {
      PieceLength(w, tp, sizes, shares, i, r);
    }
    ConcatLength(Pieces(w, tp, sizes, shares, r), shares);
  }

  /** The length of one rank's block. */
  function BlockRows(shares: seq<nat>): nat {
    CutMono(shares, |shares|, |shares|);
    assert shares[..|shares|] == shares;
    Sum(shares)
  }

  lemma BlocksFill<T>(w: seq<T>, tp: nat, sizes: seq<nat>, shares: seq<nat>)
    requires Fused(w, tp, sizes, shares)
    ensures |w| == Times(tp, BlockRows(shares))
  {
    SharesSum(sizes, shares, tp);
    assert sizes[..|sizes|] == sizes;
  }

  lemma WindowOfPrefix<T>(s: seq<T>, t: seq<T>, lo: nat, size: nat)
    requires lo + size <= |s|
    ensures Window(s + t, lo, size) == Window(s, lo, size)
  {
  }

  lemma {:induction false} EqualBlocks<T>(blocks: seq<seq<T>>, b: nat)
    requires forall r :: 0 <= r < |blocks| ==> |blocks[r]| == b
    ensures |Concat(blocks)| == Times(|blocks|, b)
    ensures forall r :: 0 <= r < |blocks| ==> Window(Concat(blocks), Times(r, b), b) == blocks[r]
  {
    if |blocks| > 0 {
      var front := blocks[..|blocks| - 1];
      EqualBlocks(front, b);
      TimesStep(|front|, |blocks|, b);
      forall r | 0 <= r < |blocks|
        ensures Window(Concat(blocks), Times(r, b), b) == blocks[r]
      {
        if r < |front| {
          assert Window(Concat(front), Times(r, b), b) == front[r];
          TimesStep(r, |front|, b);
          WindowOfPrefix(Concat(front), blocks[|front|], Times(r, b), b);
        }
      }
    }
  }

  // ---------------------------------------------------------------- main results

  lemma RowsAreBlocks<T>(w: seq<T>, tp: nat, sizes: seq<nat>, shares: seq<nat>, n: nat, b: nat)
    requires Fused(w, tp, sizes, shares) && n <= tp && b == BlockRows(shares)
    ensures |Concat(Rows(w, tp, sizes, shares, n))| == Times(n, b)
    ensures forall r :: 0 <= r < n ==>
              Window(Concat(Rows(w, tp, sizes, shares, n)), Times(r, b), b) == RankRows(w, tp, sizes, shares, r)
  {
    forall r | 0 <= r < n
      ensures |Rows(w, tp, sizes, shares, n)[r]| == b
    {
      BlockLength(w, tp, sizes, shares, r);
    }
    EqualBlocks(Rows(w, tp, sizes, shares, n), b);
  }

  /**
   Reordering commutes with sharding: cutting the reordered weight into `tp` equal blocks gives rank `r` exactly the
   concatenation of every part's `r`-th slice.
   */
  lemma ShardsAreSlices<T>(w: seq<T>, tp: nat, sizes: seq<nat>, shares: seq<nat>, r: nat)
    requires Fused(w, tp, sizes, shares) && |sizes| > 0 && Whole(tp, sizes) && r < tp
    ensures var b := BlockRows(shares);
            && |Reordered(w, tp, sizes, shares)| == |w| == Times(tp, b)
            && Window(Reordered(w, tp, sizes, shares), Times(r, b), b) == RankRows(w, tp, sizes, shares, r)
  {
    ReorderedIsRows(w, tp, sizes, shares);
    BlocksFill(w, tp, sizes, shares);
    RowsAreBlocks(w, tp, sizes, shares, tp, BlockRows(shares));
  }

  /**
   The reordering keeps the number of rows exactly when every part is cut into `tp` chunks, or there are no rows.
   Otherwise an empty part ends the zip after rank 0 and only rank 0's rows are left.
   */
  lemma KeepsLengthExactly<T>(w: seq<T>, tp: nat, sizes: seq<nat>, shares: seq<nat>)
    requires Fused(w, tp, sizes, shares) && |sizes| > 0
    ensures |Reordered(w, tp, sizes, shares)| == |w| <==> Whole(tp, sizes) || w == []
    ensures !Whole(tp, sizes) ==> Reordered(w, tp, sizes, shares) == RankRows(w, tp, sizes, shares, 0)
  {
    ReorderedIsRows(w, tp, sizes, shares);
    BlocksFill(w, tp, sizes, shares);
    var b := BlockRows(shares);
    RowsAreBlocks(w, tp, sizes, shares, RowCount(tp, sizes), b);
    if !Whole(tp, sizes) {
      var rows := Rows(w, tp, sizes, shares, 1);
      assert rows == [RankRows(w, tp, sizes, shares, 0)];
      assert rows[..0] == [];
      assert 2 <= tp;
      TimesStep(1, tp, b);
    }
  }

  /** A fused weight with empty key and value parts: rank 1's query rows are lost. */
  lemma EmptyPartLosesRows<T>(a: T, b: T)
    ensures Prepare("attn_qkv", [a, b], 2, 1, 1, 0) == Ok([a])
  {
    var w, sizes, shares := [a, b], [2, 0, 0], [1, 0, 0];
    QkvFacts(2, 1, 0);
    assert QkvSizes(2, 1, 0) == sizes;
    DivisibleIsFused(w, 2, sizes);
    KeepsLengthExactly(w, 2, sizes, shares);
    assert sizes[1] == 0;
    var pieces := Pieces(w, 2, sizes, shares, 0);
    assert sizes[..1] == [2] && [2][..0] == [];
    PartLength(w, sizes, 1);
    PartLength(w, sizes, 2);
    assert Part(w, sizes, 0) == w;
    assert pieces[0] == Window(w, 0, 1) == [a];
    assert pieces[1] == Piece(w, 2, sizes, shares, 1, 0) == [];
    assert pieces[2] == Piece(w, 2, sizes, shares, 2, 0) == [];
    assert pieces[..2] == [[a], []] && [[a], []][..1] == [[a]] && [[a]][..0] == [];
    assert Concat([[a]]) == [a];
    assert Concat(pieces[..2]) == [a];
  }

  // ---------------------------------------------------------------- the inverse

  function CutAt(shares: seq<nat>, i: nat): nat
    requires i <= |shares|
  {
    CutMono(shares, i, |shares|);
    Cut(shares, i)
  }

  /** Part `i` collected from the blocks of all ranks. */
  function RestoredPart<T>(v: seq<T>, tp: nat, shares: seq<nat>, i: nat): seq<T>
    requires i < |shares|
  {
    var b := BlockRows(shares);
    Concat(seq(tp, r requires 0 <= r < tp => Window(Window(v, Times(r, b), b), CutAt(shares, i), shares[i])))
  }

  function Restored<T>(v: seq<T>, tp: nat, shares: seq<nat>): seq<T> {
    Concat(seq(|shares|, i requires 0 <= i < |shares| => RestoredPart(v, tp, shares, i)))
  }

  lemma {:induction false} WindowsConcat<T>(s: seq<T>, c: nat, n: nat, windows: seq<seq<T>>)
    requires |windows| == n && Times(n, c) <= |s|
    requires forall r :: 0 <= r < n ==> windows[r] == Window(s, Times(r, c), c)
    ensures Concat(windows) == s[..Times(n, c)]
  {
    if n > 0 {
      TimesStep(n - 1, n, c);
      WindowsConcat(s, c, n - 1, windows[..n - 1]);
    }
  }

  lemma RestoresPart<T>(w: seq<T>, tp: nat, sizes: seq<nat>, shares: seq<nat>, i: nat)
    requires Fused(w, tp, sizes, shares) && |sizes| > 0 && Whole(tp, sizes) && i < |sizes|
    ensures RestoredPart(Reordered(w, tp, sizes, shares), tp, shares, i) == Part(w, sizes, i)
  {
    var v, b := Reordered(w, tp, sizes, shares), BlockRows(shares);
    var windows := seq(tp, r requires 0 <= r < tp => Window(Window(v, Times(r, b), b), CutAt(shares, i), shares[i]));
    forall r | 0 <= r < tp
      ensures windows[r] == Piece(w, tp, sizes, shares, i, r)
    {
      ShardsAreSlices(w, tp, sizes, shares, r);
      BlockLength(w, tp, sizes, shares, r);
      WindowOfConcat(Pieces(w, tp, sizes, shares, r), shares, i);
    }
    PartLength(w, sizes, i);
    WindowsConcat(Part(w, sizes, i), shares[i], tp, windows);
  }

  /** The reordering is invertible. */
  lemma RestoreUndoesReorder<T>(w: seq<T>, tp: nat, sizes: seq<nat>, shares: seq<nat>)
    requires Fused(w, tp, sizes, shares) && |sizes| > 0 && Whole(tp, sizes)
    ensures Restored(Reordered(w, tp, sizes, shares), tp, shares) == w
  {
    var v := Reordered(w, tp, sizes, shares);
    var parts := seq(|shares|, i requires 0 <= i < |shares| => RestoredPart(v, tp, shares, i));
    forall i | 0 <= i < |sizes|
      ensures parts[i] == Part(w, sizes, i)
    {
      RestoresPart(w, tp, sizes, shares, i);
    }
    assert parts == SplitSizes(w, sizes);
    ConcatOfSplit(w, sizes);
  }

  // ---------------------------------------------------------------- rows are permuted

  function Joined<T>(a: seq<seq<T>>, b: seq<seq<T>>): seq<seq<T>>
    requires |a| == |b|
  {
    seq(|a|, i requires 0 <= i < |a| => a[i] + b[i])
  }

  lemma {:induction false} JoinedRows<T>(a: seq<seq<T>>, b: seq<seq<T>>)
    requires |a| == |b|
    ensures multiset(Concat(Joined(a, b))) == multiset(Concat(a)) + multiset(Concat(b))
  {
    if |a| > 0 {
      var n := |a| - 1;
      JoinedRows(a[..n], b[..n]);
      assert Joined(a, b)[..n] == Joined(a[..n], b[..n]);
    }
  }

  /** The first `n` slices of every part. */
  function Starts<T>(w: seq<T>, tp: nat, sizes: seq<nat>, shares: seq<nat>, n: nat): seq<seq<T>>
    requires Fused(w, tp, sizes, shares)
  {
    seq(|sizes|, i requires 0 <= i < |sizes| => Window(Part(w, sizes, i), 0, Times(n, shares[i])))
  }

  lemma StartsGrow<T>(w: seq<T>, tp: nat, sizes: seq<nat>, shares: seq<nat>, n: nat)
    requires Fused(w, tp, sizes, shares) && n < tp
    ensures Starts(w, tp, sizes, shares, n + 1)
         == Joined(Starts(w, tp, sizes, shares, n), Pieces(w, tp, sizes, shares, n))
  {
    forall i | 0 <= i < |sizes|
      ensures Starts(w, tp, sizes, shares, n + 1)[i]
           == Starts(w, tp, sizes, shares, n)[i] + Pieces(w, tp, sizes, shares, n)[i]
    {
      PieceLength(w, tp, sizes, shares, i, n);
      WindowGrows(Part(w, sizes, i), Times(n, shares[i]), shares[i]);
    }
  }

  lemma WindowGrows<T>(s: seq<T>, lo: nat, size: nat)
    requires lo + size <= |s|
    ensures Window(s, 0, lo + size) == Window(s, 0, lo) + Window(s, lo, size)
  {
  }

  /** The blocks of the first `n` ranks hold the first `n` slices of every part. */
  lemma {:induction false} RowsHoldStarts<T>(w: seq<T>, tp: nat, sizes: seq<nat>, shares: seq<nat>, n: nat)
    requires Fused(w, tp, sizes, shares) && n <= tp
    ensures multiset(Concat(Rows(w, tp, sizes, shares, n))) == multiset(Concat(Starts(w, tp, sizes, shares, n)))
  {
    if n == 0 {
      EmptyStarts(Starts(w, tp, sizes, shares, 0));
    } else {
      RowsHoldStarts(w, tp, sizes, shares, n - 1);
      assert Rows(w, tp, sizes, shares, n)[..n - 1] == Rows(w, tp, sizes, shares, n - 1);
      StartsGrow(w, tp, sizes, shares, n - 1);
      JoinedRows(Starts(w, tp, sizes, shares, n - 1), Pieces(w, tp, sizes, shares, n - 1));
    }
  }

  lemma {:induction false} EmptyStarts<T>(parts: seq<seq<T>>)
    requires forall i :: 0 <= i < |parts| ==> parts[i] == []
    ensures Concat(parts) == []
  {
    if |parts| > 0 {
      EmptyStarts(parts[..|parts| - 1]);
    }
  }

  /** The reordering permutes the rows: none is lost, none is repeated. */
  lemma RowsArePermuted<T>(w: seq<T>, tp: nat, sizes: seq<nat>, shares: seq<nat>)
    requires Fused(w, tp, sizes, shares) && |sizes| > 0 && Whole(tp, sizes)
    ensures multiset(Reordered(w, tp, sizes, shares)) == multiset(w)
  {
    ReorderedIsRows(w, tp, sizes, shares);
    RowsHoldStarts(w, tp, sizes, shares, tp);
    AllStarts(w, tp, sizes, shares);
    ConcatOfSplit(w, sizes);
  }

  lemma AllStarts<T>(w: seq<T>, tp: nat, sizes: seq<nat>, shares: seq<nat>)
    requires Fused(w, tp, sizes, shares)
    ensures Starts(w, tp, sizes, shares, tp) == SplitSizes(w, sizes)
  {
    forall i | 0 <= i < |sizes|
      ensures Starts(w, tp, sizes, shares, tp)[i] == Part(w, sizes, i)
    {
      PartLength(w, sizes, i);
    }
  }

  // ---------------------------------------------------------------- the two fused modules

  lemma SumOfTwo(a: int, b: int)
    ensures Sum([a, b]) == a + b
  {
    assert [a, b][..1] == [a] && [a][..0] == [];
    assert Sum([a]) == a;
  }

  lemma SumOfThree(a: int, b: int, c: int)
    ensures Sum([a, b, c]) == a + b + c
  {
    SumOfTwo(a, b);
    assert [a, b, c][..2] == [a, b];
  }

  /** Rank `r`'s block of `out` holds the rank's slice of every part of `w`, and `out` permutes `w`. */
  ghost predicate Resharded<T>(w: seq<T>, out: seq<T>, tp: nat, sizes: seq<nat>, shares: seq<nat>) {
    && Fused(w, tp, sizes, shares) && |out| == |w| && multiset(out) == multiset(w)
    && |w| == Times(tp, BlockRows(shares))
    && forall r :: 0 <= r < tp ==>
         Window(out, Times(r, BlockRows(shares)), BlockRows(shares)) == RankRows(w, tp, sizes, shares, r)
  }

  lemma ReorderedReshards<T>(w: seq<T>, tp: nat, sizes: seq<nat>, shares: seq<nat>)
    requires Fused(w, tp, sizes, shares) && |sizes| > 0 && Whole(tp, sizes)
    ensures Resharded(w, Reordered(w, tp, sizes, shares), tp, sizes, shares)
  {
    ShardsAreSlices(w, tp, sizes, shares, 0);
    RowsArePermuted(w, tp, sizes, shares);
    forall r | 0 <= r < tp
      ensures Window(Reordered(w, tp, sizes, shares), Times(r, BlockRows(shares)), BlockRows(shares))
           == RankRows(w, tp, sizes, shares, r)
    {
      ShardsAreSlices(w, tp, sizes, shares, r);
    }
  }

  lemma QkvFacts(tp: nat, q: nat, kv: nat)
    requires 0 < tp
    ensures Divisible(QkvSizes(tp, q, kv), tp) && Shares(QkvSizes(tp, q, kv), tp) == [q, kv, kv]
    ensures Sum(QkvSizes(tp, q, kv)) == Times(q, tp) + 2 * Times(kv, tp)
    ensures 0 < q && 0 < kv ==> Whole(tp, QkvSizes(tp, q, kv))
    ensures 1 < tp && !(0 < q && 0 < kv) ==> !Whole(tp, QkvSizes(tp, q, kv))
  {
    var sizes := QkvSizes(tp, q, kv);
    DivMod(q, tp, 0);
    DivMod(kv, tp, 0);
    SumOfThree(Times(q, tp), Times(kv, tp), Times(kv, tp));
    if 0 < q && 0 < kv {
      MulMono(1, q, tp);
      MulMono(1, kv, tp);
    } else {
      assert sizes[if q == 0 then 0 else 1] == 0;
    }
  }

  /**
   Query/key/value weights: accepted exactly when the rows match the head counts. Then each rank's block holds its
   query, key and value heads in order if there is a query and a key/value head; otherwise rows are lost.
   */
  lemma PreparedQkv<T>(w: seq<T>, tp: nat, headSize: nat, heads: nat, kvHeads: nat)
    requires 1 < tp
    ensures var q, kv := Times(headSize, heads), Times(headSize, kvHeads);
            var out := Prepare("attn_qkv", w, tp, headSize, heads, kvHeads);
            && (out.Ok? <==> |w| == Times(q, tp) + 2 * Times(kv, tp))
            && (out.Ok? && 0 < q && 0 < kv ==> Resharded(w, out.value, tp, QkvSizes(tp, q, kv), [q, kv, kv]))
            && (out.Ok? ==> (|out.value| == |w| <==> (0 < q && 0 < kv) || w == []))
  {
    var q, kv := Times(headSize, heads), Times(headSize, kvHeads);
    QkvFacts(tp, q, kv);
    if |w| == Sum(QkvSizes(tp, q, kv)) {
      DivisibleIsFused(w, tp, QkvSizes(tp, q, kv));
      KeepsLengthExactly(w, tp, QkvSizes(tp, q, kv), [q, kv, kv]);
      if 0 < q && 0 < kv {
        ReorderedReshards(w, tp, QkvSizes(tp, q, kv), [q, kv, kv]);
      }
    }
  }

  /** Gate/up weights: accepted exactly when both halves divide by `tp`, and then always resharded. */
  lemma PreparedGateUp<T>(w: seq<T>, tp: nat, headSize: nat, heads: nat, kvHeads: nat)
    requires 1 < tp
    ensures var half := |w| / 2;
            var out := Prepare("mlp_gate_up", w, tp, headSize, heads, kvHeads);
            && (out.Ok? <==> |w| % 2 == 0 && half % tp == 0)
            && (out.Ok? && w != [] ==> Resharded(w, out.value, tp, HalfSizes(half), [half / tp, half / tp]))
            && (w == [] ==> out == Ok([]))
  {
    var half := |w| / 2;
    var sizes := HalfSizes(half);
    SumOfTwo(half, half);
    if |w| % 2 == 0 {
      if half % tp == 0 {
        DivisibleIsFused(w, tp, sizes);
        assert Shares(sizes, tp) == [half / tp, half / tp];
        if w != [] {
          ReorderedReshards(w, tp, sizes, Shares(sizes, tp));
        } else {
          KeepsLengthExactly(w, tp, sizes, Shares(sizes, tp));
        }
      } else {
        assert sizes[0] % tp != 0;
      }
    }
  }
}
