/** One dimension of a tensor as a sequence of slices: `narrow`, `split` and `cat`. */
module Tensors {

  function Sum(s: seq<int>): int {
    if |s| == 0 then 0 else Sum(s[..|s| - 1]) + s[|s| - 1]
  }

  /** `torch.cat` */
  function Concat<T>(parts: seq<seq<T>>): seq<T> {
    if |parts| == 0 then [] else Concat(parts[..|parts| - 1]) + parts[|parts| - 1]
  }

  lemma ConcatStep<T>(parts: seq<seq<T>>, k: nat)
    requires k < |parts|
    ensures Concat(parts[..k + 1]) == Concat(parts[..k]) + parts[k]
  {
    assert parts[..k + 1][..k] == parts[..k];
  }

  /** Where part `i` starts: `sum(sizes[:i])`. */
  function Cut(sizes: seq<int>, i: nat): int
    requires i <= |sizes|
  {
    Sum(sizes[..i])
  }

  lemma CutStep(sizes: seq<int>, i: nat)
    requires i < |sizes|
    ensures Cut(sizes, i + 1) == Cut(sizes, i) + sizes[i]
  {
    assert sizes[..i + 1][..i] == sizes[..i];
  }

  predicate NonNegative(sizes: seq<int>) {
    forall i :: 0 <= i < |sizes| ==> 0 <= sizes[i]
  }

  lemma {:induction false} CutMono(sizes: seq<int>, i: nat, j: nat)
    requires NonNegative(sizes) && i <= j <= |sizes|
    ensures 0 <= Cut(sizes, i) <= Cut(sizes, j)
    decreases j
  {
    if i < j {
      CutMono(sizes, i, j - 1);
      CutStep(sizes, j - 1);
    } else if 0 < i {
      CutMono(sizes, 0, i - 1);
      CutStep(sizes, i - 1);
    }
  }

  ghost predicate Splits<T>(s: seq<T>, sizes: seq<int>) {
    NonNegative(sizes) && Cut(sizes, |sizes|) == |s|
  }

  /** `narrow` to the part of length `sizes[i]` at its place. */
  function Part<T>(s: seq<T>, sizes: seq<int>, i: nat): seq<T>
    requires Splits(s, sizes) && i < |sizes|
  {
    CutMono(sizes, i, i + 1);
    CutMono(sizes, i + 1, |sizes|);
    s[Cut(sizes, i)..Cut(sizes, i + 1)]
  }

  /** `torch.split` by a list of sizes. */
  function SplitSizes<T>(s: seq<T>, sizes: seq<int>): seq<seq<T>>
    requires Splits(s, sizes)
  {
    seq(|sizes|, i requires 0 <= i < |sizes| => Part(s, sizes, i))
  }

  /** Gluing the parts of a split together gives the tensor back. */
  lemma ConcatOfSplit<T>(s: seq<T>, sizes: seq<int>)
    requires Splits(s, sizes)
    ensures Concat(SplitSizes(s, sizes)) == s
  {
    PrefixOfSplit(s, sizes, |sizes|);
    assert SplitSizes(s, sizes)[..|sizes|] == SplitSizes(s, sizes);
  }

  lemma {:induction false} PrefixOfSplit<T>(s: seq<T>, sizes: seq<int>, k: nat)
    requires Splits(s, sizes) && k <= |sizes|
    ensures 0 <= Cut(sizes, k) <= |s| && Concat(SplitSizes(s, sizes)[..k]) == s[..Cut(sizes, k)]
  {
    CutMono(sizes, k, |sizes|);
    if k > 0 {
      PrefixOfSplit(s, sizes, k - 1);
      ConcatStep(SplitSizes(s, sizes), k - 1);
      CutMono(sizes, k - 1, k);
    }
  }

  /** A position lies in at most one part. */
  lemma PartIsUnique(sizes: seq<int>, x: int, i: nat, j: nat)
    requires NonNegative(sizes) && i < |sizes| && j < |sizes|
    requires Cut(sizes, i) <= x < Cut(sizes, i + 1) && Cut(sizes, j) <= x < Cut(sizes, j + 1)
    ensures i == j
  {
    if i < j {
      CutMono(sizes, i + 1, j);
    } else if j < i {
      CutMono(sizes, j + 1, i);
    }
  }
}
