/** 32-bit words as the bitmask stores them: signed, arithmetic shift right, bitwise or. */
module Words {

  /** `w >> k`: every halving rounds down, as an arithmetic shift of a signed word does. */
  function Shr(w: int, k: nat): int
    decreases k
  {
    if k == 0 then w else Shr(w / 2, k - 1)
  }

  /** `1 << k` */
  function PowerOfTwo(k: nat): int
  {
    if k == 0 then 1 else 2 * PowerOfTwo(k - 1)
  }

  /** `(w >> k) & 1` */
  function Bit(w: int, k: nat): int {
    Shr(w, k) % 2
  }

  function OrBit(a: int, b: int): int {
    if a % 2 == 1 || b % 2 == 1 then 1 else 0
  }

  /** The low `n` bits of `a | b`, read as an unsigned number. */
  function OrLow(a: int, b: int, n: nat): int
    decreases n
  {
    if n == 0 then 0 else OrBit(a, b) + 2 * OrLow(a / 2, b / 2, n - 1)
  }

  /** A 32-bit pattern read as a signed word: the value wraps above 2^31 - 1. */
  function Signed(u: int): int {
    if u >= 0x8000_0000 then u - 0x1_0000_0000 else u
  }

  /** `a | b` on int32 words */
  function Or32(a: int, b: int): int {
    Signed(OrLow(a, b, 32))
  }

  predicate IsInt32(w: int) {
    -0x8000_0000 <= w < 0x8000_0000
  }

  lemma {:induction false} PowerOfSum(a: nat, b: nat)
    ensures PowerOfTwo(a + b) == PowerOfTwo(a) * PowerOfTwo(b)
  {
    if a > 0 { PowerOfSum(a - 1, b); }
  }

  lemma WordSize()
    ensures PowerOfTwo(32) == 0x1_0000_0000
  {
    assert PowerOfTwo(4) == 16;
    PowerOfSum(4, 4);
    PowerOfSum(8, 8);
    PowerOfSum(16, 16);
  }

  lemma {:induction false} ShrZero(k: nat)
    ensures Shr(0, k) == 0
  {
    if k > 0 { ShrZero(k - 1); }
  }

  lemma {:induction false} OrLowBound(a: int, b: int, n: nat)
    ensures 0 <= OrLow(a, b, n) < PowerOfTwo(n)
    decreases n
  {
    if n > 0 { OrLowBound(a / 2, b / 2, n - 1); }
  }

  lemma {:induction false} BitOfOrLow(a: int, b: int, n: nat, j: nat)
    requires j < n
    ensures Bit(OrLow(a, b, n), j) == OrBit(Bit(a, j), Bit(b, j))
    decreases j
  {
    var rest := OrLow(a / 2, b / 2, n - 1);
    assert OrLow(a, b, n) / 2 == rest;
    if j > 0 { BitOfOrLow(a / 2, b / 2, n - 1, j - 1); }
  }

  lemma {:induction false} BitOfPowerOfTwo(k: nat, j: nat)
    ensures Bit(PowerOfTwo(k), j) == if j == k then 1 else 0
  {
    if k == 0 {
      if j > 0 { ShrZero(j - 1); }
    } else if j > 0 {
      assert PowerOfTwo(k) / 2 == PowerOfTwo(k - 1);
      BitOfPowerOfTwo(k - 1, j - 1);
    }
  }

  lemma {:induction false} ShrOfDifference(u: int, n: nat, j: nat)
    requires j <= n
    ensures Shr(u - PowerOfTwo(n), j) == Shr(u, j) - PowerOfTwo(n - j)
    decreases j
  {
    if j > 0 {
      assert (u - PowerOfTwo(n)) / 2 == u / 2 - PowerOfTwo(n - 1);
      ShrOfDifference(u / 2, n - 1, j - 1);
    }
  }

  lemma {:induction false} BitOfSigned(u: int, n: nat, j: nat)
    requires PowerOfTwo(n) == 0x1_0000_0000
    requires j < n
    ensures Bit(Signed(u), j) == Bit(u, j)
  {
    ShrOfDifference(u, n, j);
    assert PowerOfTwo(n - j) == 2 * PowerOfTwo(n - j - 1);
  }

  lemma {:induction false} SetBitOfWord(w: int, n: nat, k: nat, j: nat)
    requires PowerOfTwo(n) == 0x1_0000_0000
    requires k < n && j < n
    ensures IsInt32(Signed(OrLow(w, PowerOfTwo(k), n)))
    ensures Bit(Signed(OrLow(w, PowerOfTwo(k), n)), j) == if j == k then 1 else Bit(w, j)
  {
    OrLowBound(w, PowerOfTwo(k), n);
    BitOfOrLow(w, PowerOfTwo(k), n, j);
    BitOfPowerOfTwo(k, j);
    BitOfSigned(OrLow(w, PowerOfTwo(k), n), n, j);
  }

  /** Setting a bit by `w |= 1 << k` sets that bit, keeps the others and keeps the word in range. */
  lemma {:induction false} SetBit(w: int, k: nat, j: nat)
    requires k < 32 && j < 32
    ensures IsInt32(Or32(w, PowerOfTwo(k)))
    ensures Bit(Or32(w, PowerOfTwo(k)), j) == if j == k then 1 else Bit(w, j)
  {
    WordSize();
    SetBitOfWord(w, 32, k, j);
  }
}

/**
 Which shard owns which expert: one partition of the experts, kept in three encodings
 (a bitmask per shard, a boolean mask per shard, a table of local expert ids per shard).
 */
module ExpertAssignment {
  import opened Arith
  import opened Results
  import opened Ranges
  import opened Words

  /** One item of the `expt_dict` dictionary, which keeps its insertion order. */
  datatype ShardEntry = ShardEntry(shard: int, experts: seq<int>)

  datatype Assignment = Assignment(
    bitmask: seq<seq<int>>,
    boolmask: seq<seq<bool>>,
    localIds: seq<seq<int>>,
    expertsPerShard: seq<nat>)

  datatype AssignError =
    | NoExperts(shard: int)          // ValueError
    | ShardOutOfRange(shard: int)    // ValueError
    | UnknownExpert(expert: int)     // KeyError of the counter, raised before the range test is reached
    | NotAPartition                  // ValueError

  // ---------------------------------------------------------------- what a dictionary says

  /** Keys of a dictionary are distinct. */
  ghost predicate DistinctShards(dict: seq<ShardEntry>) {
    forall i, j :: 0 <= i < j < |dict| ==> dict[i].shard != dict[j].shard
  }

  ghost predicate Owns(dict: seq<ShardEntry>, shard: int, expert: int) {
    exists i :: 0 <= i < |dict| && dict[i].shard == shard && expert in dict[i].experts
  }

  /** Everything the dictionary lists, with multiplicity. */
  ghost function Listed(dict: seq<ShardEntry>): multiset<int> {
    if dict == [] then multiset{}
    else Listed(dict[..|dict| - 1]) + multiset(dict[|dict| - 1].experts)
  }

  ghost predicate EntryOk(nShards: nat, nExperts: nat, entry: ShardEntry) {
    && entry.experts != []
    && 0 <= entry.shard < nShards
    && forall k :: 0 <= k < |entry.experts| ==> 0 <= entry.experts[k] < nExperts
  }

  /** Every shard key is in range, no listed shard is empty, and each expert is listed exactly once. */
  ghost predicate Accepted(nShards: nat, nExperts: nat, dict: seq<ShardEntry>) {
    && (forall i :: 0 <= i < |dict| ==> EntryOk(nShards, nExperts, dict[i]))
    && forall e :: 0 <= e < nExperts ==> Listed(dict)[e] == 1
  }

  ghost predicate EntryRaises(nShards: nat, nExperts: nat, entry: ShardEntry, error: AssignError) {
    if entry.experts == [] then error == NoExperts(entry.shard)
    else if !(0 <= entry.shard < nShards) then error == ShardOutOfRange(entry.shard)
    else
      exists k :: 0 <= k < |entry.experts| && error == UnknownExpert(entry.experts[k])
                  && !(0 <= entry.experts[k] < nExperts)
                  && forall m :: 0 <= m < k ==> 0 <= entry.experts[m] < nExperts
  }

  /** The first offending entry decides the error; only a dictionary of good entries can fail as a whole. */
  ghost predicate Raises(nShards: nat, nExperts: nat, dict: seq<ShardEntry>, error: AssignError) {
    || (exists i :: 0 <= i < |dict| && EntryRaises(nShards, nExperts, dict[i], error)
         && forall k :: 0 <= k < i ==> EntryOk(nShards, nExperts, dict[k]))
    || (error == NotAPartition && (forall i :: 0 <= i < |dict| ==> EntryOk(nShards, nExperts, dict[i]))
         && exists e :: 0 <= e < nExperts && Listed(dict)[e] != 1)
  }

  /** The rank of an expert among the experts of its shard. */
  ghost function LocalRank(experts: seq<int>, expert: int): nat {
    |set x | x in experts && x < expert|
  }

  // ---------------------------------------------------------------- what the encodings say

  function MaskBit(bitmask: seq<seq<int>>, shard: nat, expert: nat): int
    requires shard < |bitmask| && expert / 32 < |bitmask[shard]|
  {
    Bit(bitmask[shard][expert / 32], expert % 32)
  }

  ghost predicate Shape<T>(table: seq<seq<T>>, rows: nat, columns: nat) {
    |table| == rows && forall s :: 0 <= s < rows ==> |table[s]| == columns
  }

  function WordCount(nExperts: nat): nat {
    (nExperts + 31) / 32
  }

  /** Both masks mark exactly the pairs in `owned`. */
  ghost predicate Marks(nShards: nat, nExperts: nat, bitmask: seq<seq<int>>, boolmask: seq<seq<bool>>,
                        owned: set<(int, int)>)
  {
    && Shape(bitmask, nShards, WordCount(nExperts))
    && Shape(boolmask, nShards, nExperts)
    && (forall s, w :: 0 <= s < nShards && 0 <= w < WordCount(nExperts) ==> IsInt32(bitmask[s][w]))
    && (forall s, e {:trigger boolmask[s][e]} :: 0 <= s < nShards && 0 <= e < nExperts ==>
          (boolmask[s][e] <==> (s, e) in owned))
    && (forall s, e {:trigger MaskBit(bitmask, s, e)} :: 0 <= s < nShards && 0 <= e < nExperts ==>
          MaskBit(bitmask, s, e) == if (s, e) in owned then 1 else 0)
  }

  ghost function EntryPairs(shard: int, experts: seq<int>): set<(int, int)> {
    set k | 0 <= k < |experts| :: (shard, experts[k])
  }

  ghost function Pairs(dict: seq<ShardEntry>): set<(int, int)> {
    if dict == [] then {}
    else Pairs(dict[..|dict| - 1]) + EntryPairs(dict[|dict| - 1].shard, dict[|dict| - 1].experts)
  }

  lemma {:induction false} PairsAreOwners(dict: seq<ShardEntry>, shard: int, expert: int)
    ensures (shard, expert) in Pairs(dict) <==> Owns(dict, shard, expert)
  {
    if dict != [] {
      var n := |dict| - 1;
      PairsAreOwners(dict[..n], shard, expert);
      assert forall i :: 0 <= i < n ==> dict[..n][i] == dict[i];
      if dict[n].shard == shard && expert in dict[n].experts {
        var k :| 0 <= k < |dict[n].experts| && dict[n].experts[k] == expert;
        assert (shard, dict[n].experts[k]) in EntryPairs(shard, dict[n].experts);
      }
    }
  }

  /** The three encodings describe one and the same ownership. */
  ghost predicate Encodes(a: Assignment, nShards: nat, nExperts: nat, dict: seq<ShardEntry>) {
    && Marks(nShards, nExperts, a.bitmask, a.boolmask, Pairs(dict))
    && LocalIdsOf(nShards, nExperts, dict, |dict|, a.localIds)
    && |a.expertsPerShard| == |dict|
    && forall i :: 0 <= i < |dict| ==> a.expertsPerShard[i] == |dict[i].experts|
  }

  /** The rows of the first `n` entries hold ranks within the shard, -1 elsewhere; other rows hold only -1. */
  ghost predicate LocalIdsOf(nShards: nat, nExperts: nat, dict: seq<ShardEntry>, n: nat, localIds: seq<seq<int>>)
    requires n <= |dict|
  {
    && Shape(localIds, nShards, nExperts)
    && (forall i, e :: 0 <= i < n && 0 <= dict[i].shard < nShards && 0 <= e < nExperts ==>
          localIds[dict[i].shard][e] == if e in dict[i].experts then LocalRank(dict[i].experts, e) else -1)
    && (forall s, e :: 0 <= s < nShards && 0 <= e < nExperts && Unlisted(dict[..n], s) ==> localIds[s][e] == -1)
  }

  ghost predicate Unlisted(dict: seq<ShardEntry>, shard: int) {
    forall i :: 0 <= i < |dict| ==> dict[i].shard != shard
  }

  // ---------------------------------------------------------------- make_expt_assignment

  lemma WordIndex(nExperts: nat, e: nat)
    requires e < nExperts
    ensures e / 32 < WordCount(nExperts)
  {
  }

  /** `expt_bitmask[shard, e >> 5] |= 1 << (e & 31)` and `expt_boolmask[shard, e] = True` */
  method MarkExpert(nShards: nat, nExperts: nat, bitmask: seq<seq<int>>, boolmask: seq<seq<bool>>,
                    ghost owned: set<(int, int)>, shard: nat, e: nat)
    returns (bitmask': seq<seq<int>>, boolmask': seq<seq<bool>>)
    requires shard < nShards && e < nExperts
    requires Marks(nShards, nExperts, bitmask, boolmask, owned)
    ensures Marks(nShards, nExperts, bitmask', boolmask', owned + {(shard as int, e as int)})
  {
    WordIndex(nExperts, e);
    var word := Or32(bitmask[shard][e / 32], PowerOfTwo(e % 32));
    bitmask' := bitmask[shard := bitmask[shard][e / 32 := word]];
    boolmask' := boolmask[shard := boolmask[shard][e := true]];
    SetBit(bitmask[shard][e / 32], e % 32, 0);
    forall s, x | 0 <= s < nShards && 0 <= x < nExperts
      ensures MaskBit(bitmask', s, x) == if (s, x) == (shard, e) then 1 else MaskBit(bitmask, s, x)
    {
      WordIndex(nExperts, x);
      SetBit(bitmask[shard][e / 32], e % 32, x % 32);
    }
  }

  ghost predicate Counts(nExperts: nat, counts: map<int, nat>, listed: multiset<int>) {
    && (forall e :: e in counts <==> 0 <= e < nExperts)
    && (forall e :: e in counts ==> counts[e] == listed[e])
  }

  /** The loop over the experts of one shard: counts them, then marks them. */
  method MarkEntry(nShards: nat, nExperts: nat, bitmask: seq<seq<int>>, boolmask: seq<seq<bool>>,
                   counts: map<int, nat>, ghost owned: set<(int, int)>, ghost listed: multiset<int>,
                   shard: nat, experts: seq<int>)
    returns (error: Option<AssignError>, bitmask': seq<seq<int>>, boolmask': seq<seq<bool>>, counts': map<int, nat>)
    requires shard < nShards
    requires Marks(nShards, nExperts, bitmask, boolmask, owned)
    requires Counts(nExperts, counts, listed)
    ensures error.None? <==> forall k :: 0 <= k < |experts| ==> 0 <= experts[k] < nExperts
    ensures error.None? ==> Marks(nShards, nExperts, bitmask', boolmask', owned + EntryPairs(shard, experts))
    ensures error.None? ==> Counts(nExperts, counts', listed + multiset(experts))
    ensures error.Some? ==>
              exists k :: 0 <= k < |experts| && error.value == UnknownExpert(experts[k])
                          && !(0 <= experts[k] < nExperts)
                          && forall m :: 0 <= m < k ==> 0 <= experts[m] < nExperts
  {
    bitmask', boolmask', counts' := bitmask, boolmask, counts;
    ghost var marked, seen := owned, listed;
    var j := 0;
    while j < |experts|
      invariant 0 <= j <= |experts|
      invariant forall k :: 0 <= k < j ==> 0 <= experts[k] < nExperts
      invariant marked == owned + EntryPairs(shard, experts[..j])
      invariant seen == listed + multiset(experts[..j])
      invariant Marks(nShards, nExperts, bitmask', boolmask', marked)
      invariant Counts(nExperts, counts', seen)
    {
      var e := experts[j];
      if e !in counts' {
        return Some(UnknownExpert(e)), bitmask', boolmask', counts';
      }
      counts' := counts'[e := counts'[e] + 1];
      bitmask', boolmask' := MarkExpert(nShards, nExperts, bitmask', boolmask', marked, shard, e);
      marked, seen := marked + {(shard as int, e)}, seen + multiset{e};
      assert experts[..j + 1] == experts[..j] + [e];
      EntryPairsStep(shard, experts, j);
      j := j + 1;
    }
    assert experts[..j] == experts;
    error := None;
  }

  lemma EntryPairsStep(shard: int, experts: seq<int>, j: nat)
    requires j < |experts|
    ensures EntryPairs(shard, experts[..j + 1]) == EntryPairs(shard, experts[..j]) + {(shard, experts[j])}
  {
  }

  lemma PairsStep(dict: seq<ShardEntry>, i: nat)
    requires i < |dict|
    ensures Pairs(dict[..i + 1]) == Pairs(dict[..i]) + EntryPairs(dict[i].shard, dict[i].experts)
  {
    assert dict[..i + 1][..i] == dict[..i];
  }

  lemma ListedStep(dict: seq<ShardEntry>, i: nat)
    requires i < |dict|
    ensures Listed(dict[..i + 1]) == Listed(dict[..i]) + multiset(dict[i].experts)
  {
    assert dict[..i + 1][..i] == dict[..i];
  }

  /** `sorted(experts)` */
  function Sorted(xs: seq<int>): (r: seq<int>)
    ensures multiset(r) == multiset(xs)
    ensures Ordered(r)
  {
    if xs == [] then []
    else
      assert xs == xs[..|xs| - 1] + [xs[|xs| - 1]];
      Inserted(Sorted(xs[..|xs| - 1]), xs[|xs| - 1])
  }

  ghost predicate Ordered(s: seq<int>) {
    forall i, j :: 0 <= i < j < |s| ==> s[i] <= s[j]
  }

  function Inserted(xs: seq<int>, x: int): (r: seq<int>)
    requires Ordered(xs)
    ensures multiset(r) == multiset(xs) + multiset{x}
    ensures Ordered(r)
  {
    if xs == [] then [x]
    else if x <= xs[0] then [x] + xs
    else
      var rest := Inserted(xs[1..], x);
      assert multiset(rest) == multiset(xs[1..]) + multiset{x};
      assert xs == [xs[0]] + xs[1..];
      AllAtLeast(xs, x, rest);
      [xs[0]] + rest
  }

  lemma AllAtLeast(xs: seq<int>, x: int, rest: seq<int>)
    requires Ordered(xs) && xs != [] && xs[0] < x
    requires multiset(rest) == multiset(xs[1..]) + multiset{x}
    ensures forall i :: 0 <= i < |rest| ==> xs[0] <= rest[i]
  {
    forall i | 0 <= i < |rest|
      ensures xs[0] <= rest[i]
    {
      assert rest[i] in multiset(rest);
      if rest[i] != x {
        assert rest[i] in xs[1..];
      }
    }
  }

  ghost predicate Increasing(s: seq<int>) {
    forall i, j :: 0 <= i < j < |s| ==> s[i] < s[j]
  }

  lemma RepeatCounts(s: seq<int>, i: nat, j: nat)
    requires i < j < |s| && s[i] == s[j]
    ensures multiset(s)[s[i]] >= 2
  {
    assert s == s[..j] + [s[j]] + s[j + 1..];
    assert s[i] in s[..j];
  }

  lemma {:induction false} SortedStrictly(experts: seq<int>)
    requires forall e :: multiset(experts)[e] <= 1
    ensures Increasing(Sorted(experts))
    ensures forall x :: x in Sorted(experts) <==> x in experts
  {
    var order := Sorted(experts);
    forall i, j | 0 <= i < j < |order|
      ensures order[i] < order[j]
    {
      if order[i] == order[j] { RepeatCounts(order, i, j); }
    }
    forall x
      ensures x in order <==> x in experts
    {
      assert x in multiset(order) <==> x in multiset(experts);
    }
  }

  lemma {:induction false} SetOfIncreasing(s: seq<int>)
    requires Increasing(s)
    ensures |set x | x in s| == |s|
  {
    if s != [] {
      var n := |s| - 1;
      SetOfIncreasing(s[..n]);
      assert s[n] !in s[..n];
      assert (set x | x in s) == (set x | x in s[..n]) + {s[n]};
    }
  }

  lemma SmallerThan(order: seq<int>, k: nat, x: int)
    requires Increasing(order) && k < |order|
    ensures x in order[..k] <==> x in order && x < order[k]
  {
  }

  /** Position in an increasing list of the experts is the number of smaller experts of the shard. */
  lemma RankIsPosition(experts: seq<int>, order: seq<int>, k: nat)
    requires Increasing(order) && k < |order|
    requires forall x :: x in order <==> x in experts
    ensures LocalRank(experts, order[k]) == k
  {
    SetOfIncreasing(order[..k]);
    forall x
      ensures x in experts && x < order[k] <==> x in order[..k]
    {
      SmallerThan(order, k, x);
    }
    assert (set x | x in experts && x < order[k]) == (set x | x in order[..k]);
  }

  /** `for local_id, global_id in enumerate(order): row[global_id] = local_id` */
  method NumberExperts(row: seq<int>, order: seq<int>) returns (row': seq<int>)
    requires Increasing(order)
    requires forall k :: 0 <= k < |order| ==> 0 <= order[k] < |row|
    ensures |row'| == |row|
    ensures forall k :: 0 <= k < |order| ==> row'[order[k]] == k
    ensures forall e :: 0 <= e < |row| && e !in order ==> row'[e] == row[e]
  {
    row' := row;
    var k := 0;
    while k < |order|
      invariant 0 <= k <= |order|
      invariant |row'| == |row|
      invariant forall i :: 0 <= i < k ==> row'[order[i]] == i
      invariant forall e :: 0 <= e < |row| && e !in order ==> row'[e] == row[e]
    {
      row' := row'[order[k] := k];
      k := k + 1;
    }
  }

  lemma {:induction false} EntryWithinListed(dict: seq<ShardEntry>, i: nat, e: int)
    requires i < |dict|
    ensures multiset(dict[i].experts)[e] <= Listed(dict)[e]
  {
    if i < |dict| - 1 { EntryWithinListed(dict[..|dict| - 1], i, e); }
  }

  /** No expert is repeated inside an entry of an accepted dictionary. */
  lemma NoRepeats(nShards: nat, nExperts: nat, dict: seq<ShardEntry>, i: nat)
    requires Accepted(nShards, nExperts, dict) && i < |dict|
    ensures forall e :: multiset(dict[i].experts)[e] <= 1
  {
    forall e
      ensures multiset(dict[i].experts)[e] <= 1
    {
      if e in dict[i].experts {
        assert EntryOk(nShards, nExperts, dict[i]);
        EntryWithinListed(dict, i, e);
      }
    }
  }

  ghost predicate RowOf(nExperts: nat, experts: seq<int>, row: seq<int>) {
    && |row| == nExperts
    && forall e :: 0 <= e < nExperts ==> row[e] == if e in experts then LocalRank(experts, e) else -1
  }

  /** Numbering the sorted experts in a row of -1 gives every expert its rank. */
  method MakeRow(nExperts: nat, experts: seq<int>, row: seq<int>) returns (row': seq<int>)
    requires forall e :: multiset(experts)[e] <= 1
    requires forall k :: 0 <= k < |experts| ==> 0 <= experts[k] < nExperts
    requires |row| == nExperts && forall e :: 0 <= e < nExperts ==> row[e] == -1
    ensures RowOf(nExperts, experts, row')
  {
    SortedStrictly(experts);
    var order := Sorted(experts);
    forall k | 0 <= k < |order|
      ensures 0 <= order[k] < nExperts && LocalRank(experts, order[k]) == k
    {
      assert order[k] in experts;
      RankIsPosition(experts, order, k);
    }
    row' := NumberExperts(row, order);
    forall e | 0 <= e < nExperts && e in experts
      ensures row'[e] == LocalRank(experts, e)
    {
      assert e in order;
      var k :| 0 <= k < |order| && order[k] == e;
    }
  }

  lemma LocalIdsStep(nShards: nat, nExperts: nat, dict: seq<ShardEntry>, i: nat, localIds: seq<seq<int>>, row: seq<int>)
    requires DistinctShards(dict) && i < |dict| && 0 <= dict[i].shard < nShards
    requires LocalIdsOf(nShards, nExperts, dict, i, localIds)
    requires RowOf(nExperts, dict[i].experts, row)
    ensures LocalIdsOf(nShards, nExperts, dict, i + 1, localIds[dict[i].shard := row])
  {
  }

  lemma FreshRow(nShards: nat, nExperts: nat, dict: seq<ShardEntry>, i: nat, localIds: seq<seq<int>>)
    requires DistinctShards(dict) && i < |dict| && 0 <= dict[i].shard < nShards
    requires LocalIdsOf(nShards, nExperts, dict, i, localIds)
    ensures |localIds[dict[i].shard]| == nExperts
    ensures forall e :: 0 <= e < nExperts ==> localIds[dict[i].shard][e] == -1
  {
  }

  method MakeLocalIds(nShards: nat, nExperts: nat, dict: seq<ShardEntry>) returns (localIds: seq<seq<int>>)
    requires DistinctShards(dict) && Accepted(nShards, nExperts, dict)
    ensures LocalIdsOf(nShards, nExperts, dict, |dict|, localIds)
  {
    localIds := seq(nShards, _ => seq(nExperts, _ => -1));
    var i := 0;
    while i < |dict|
      invariant 0 <= i <= |dict|
      invariant LocalIdsOf(nShards, nExperts, dict, i, localIds)
    {
      var shard := dict[i].shard;
      assert EntryOk(nShards, nExperts, dict[i]);
      NoRepeats(nShards, nExperts, dict, i);
      FreshRow(nShards, nExperts, dict, i, localIds);
      var row := MakeRow(nExperts, dict[i].experts, localIds[shard]);
      LocalIdsStep(nShards, nExperts, dict, i, localIds, row);
      localIds := localIds[shard := row];
      i := i + 1;
    }
  }

  /** One round of the loop over the dictionary: validate the entry, then count and mark its experts. */
  method MarkChecked(nShards: nat, nExperts: nat, bitmask: seq<seq<int>>, boolmask: seq<seq<bool>>,
                     counts: map<int, nat>, ghost owned: set<(int, int)>, ghost listed: multiset<int>,
                     entry: ShardEntry)
    returns (error: Option<AssignError>, bitmask': seq<seq<int>>, boolmask': seq<seq<bool>>, counts': map<int, nat>)
    requires Marks(nShards, nExperts, bitmask, boolmask, owned)
    requires Counts(nExperts, counts, listed)
    ensures error.None? <==> EntryOk(nShards, nExperts, entry)
    ensures error.None? ==>
              Marks(nShards, nExperts, bitmask', boolmask', owned + EntryPairs(entry.shard, entry.experts))
    ensures error.None? ==> Counts(nExperts, counts', listed + multiset(entry.experts))
    ensures error.Some? ==> EntryRaises(nShards, nExperts, entry, error.value)
  {
    if |entry.experts| == 0 {
      return Some(NoExperts(entry.shard)), bitmask, boolmask, counts;
    }
    if entry.shard < 0 || entry.shard >= nShards {
      return Some(ShardOutOfRange(entry.shard)), bitmask, boolmask, counts;
    }
    error, bitmask', boolmask', counts' :=
      MarkEntry(nShards, nExperts, bitmask, boolmask, counts, owned, listed, entry.shard, entry.experts);
  }

  ghost predicate EntriesOk(nShards: nat, nExperts: nat, dict: seq<ShardEntry>, n: nat)
    requires n <= |dict|
  {
    forall k :: 0 <= k < n ==> EntryOk(nShards, nExperts, dict[k])
  }

  /** The masks and counts say exactly what the first `n` entries list. */
  ghost predicate Marked(nShards: nat, nExperts: nat, dict: seq<ShardEntry>, n: nat, bitmask: seq<seq<int>>,
                         boolmask: seq<seq<bool>>, counts: map<int, nat>) {
    && n <= |dict| && EntriesOk(nShards, nExperts, dict, n)
    && Marks(nShards, nExperts, bitmask, boolmask, Pairs(dict[..n]))
    && Counts(nExperts, counts, Listed(dict[..n]))
  }

  method MarkNext(nShards: nat, nExperts: nat, dict: seq<ShardEntry>, n: nat, bitmask: seq<seq<int>>,
                  boolmask: seq<seq<bool>>, counts: map<int, nat>)
    returns (error: Option<AssignError>, bitmask': seq<seq<int>>, boolmask': seq<seq<bool>>, counts': map<int, nat>)
    requires n < |dict| && Marked(nShards, nExperts, dict, n, bitmask, boolmask, counts)
    ensures error.None? ==> Marked(nShards, nExperts, dict, n + 1, bitmask', boolmask', counts')
    ensures error.Some? ==> EntryRaises(nShards, nExperts, dict[n], error.value)
  {
    error, bitmask', boolmask', counts' :=
      MarkChecked(nShards, nExperts, bitmask, boolmask, counts, Pairs(dict[..n]), Listed(dict[..n]), dict[n]);
    PairsStep(dict, n);
    ListedStep(dict, n);
  }

  method NoMarks(nShards: nat, nExperts: nat)
    returns (bitmask: seq<seq<int>>, boolmask: seq<seq<bool>>, counts: map<int, nat>)
    ensures Marks(nShards, nExperts, bitmask, boolmask, {})
    ensures Counts(nExperts, counts, multiset{})
  {
    bitmask := seq(nShards, _ => seq(WordCount(nExperts), _ => 0));
    boolmask := seq(nShards, _ => seq(nExperts, _ => false));
    counts := map e | e in Range(0, nExperts) :: 0;
    InRange(0, nExperts);
    NothingMarked(nShards, nExperts, bitmask, boolmask);
  }

  /** The loop over the dictionary, which stops at entry `n`: at the end, or at the first entry that raises. */
  method MarkAll(nShards: nat, nExperts: nat, dict: seq<ShardEntry>)
    returns (error: Option<AssignError>, n: nat, bitmask: seq<seq<int>>, boolmask: seq<seq<bool>>,
             counts: map<int, nat>)
    ensures n <= |dict| && EntriesOk(nShards, nExperts, dict, n)
    ensures error.None? ==> n == |dict| && Marks(nShards, nExperts, bitmask, boolmask, Pairs(dict))
    ensures error.None? ==> Counts(nExperts, counts, Listed(dict))
    ensures error.Some? ==> n < |dict| && EntryRaises(nShards, nExperts, dict[n], error.value)
  {
    bitmask, boolmask, counts := NoMarks(nShards, nExperts);
    error, n := None, 0;
    while n < |dict|
      invariant error.None? && Marked(nShards, nExperts, dict, n, bitmask, boolmask, counts)
    {
      error, bitmask, boolmask, counts := MarkNext(nShards, nExperts, dict, n, bitmask, boolmask, counts);
      if error.Some? {
        return;
      }
      n := n + 1;
    }
    assert dict[..n] == dict;
  }

  lemma RaisingIsNotAccepted(nShards: nat, nExperts: nat, dict: seq<ShardEntry>, i: nat, error: AssignError)
    requires i < |dict| && EntryRaises(nShards, nExperts, dict[i], error)
    ensures !EntryOk(nShards, nExperts, dict[i])
    ensures !Accepted(nShards, nExperts, dict)
  {
  }

  /** Builds the three encodings of one ownership, or raises. */
  method MakeExptAssignment(nShards: nat, nExperts: nat, dict: seq<ShardEntry>)
    returns (r: Result<Assignment, AssignError>)
    requires DistinctShards(dict)
    ensures r.Ok? <==> Accepted(nShards, nExperts, dict)
    ensures r.Ok? ==> Encodes(r.value, nShards, nExperts, dict)
    ensures r.Err? ==> Raises(nShards, nExperts, dict, r.error)
  {
    var error, n, bitmask, boolmask, counts := MarkAll(nShards, nExperts, dict);
    if error.Some? {
      RaisingIsNotAccepted(nShards, nExperts, dict, n, error.value);
      return Err(error.value);
    }
    if exists e | e in counts :: counts[e] != 1 {
      ghost var e :| e in counts && counts[e] != 1;
      assert 0 <= e < nExperts && Listed(dict)[e] != 1;
      return Err(NotAPartition);
    }
    assert forall e :: 0 <= e < nExperts ==> e in counts;
    var localIds := MakeLocalIds(nShards, nExperts, dict);
    return Ok(Assignment(bitmask, boolmask, localIds, seq(|dict|, k requires 0 <= k < |dict| => |dict[k].experts|)));
  }

  lemma NothingMarked(nShards: nat, nExperts: nat, bitmask: seq<seq<int>>, boolmask: seq<seq<bool>>)
    requires bitmask == seq(nShards, _ => seq(WordCount(nExperts), _ => 0))
    requires boolmask == seq(nShards, _ => seq(nExperts, _ => false))
    ensures Marks(nShards, nExperts, bitmask, boolmask, {})
  {
    forall s, e | 0 <= s < nShards && 0 <= e < nExperts
      ensures MaskBit(bitmask, s, e) == 0
    {
      WordIndex(nExperts, e);
      ShrZero(e % 32);
    }
  }

  // ---------------------------------------------------------------- the owner, and how the kernels find it

  lemma {:induction false} ListedSomewhere(dict: seq<ShardEntry>, e: int)
    requires e in Listed(dict)
    ensures exists i :: 0 <= i < |dict| && e in dict[i].experts
  {
    var n := |dict| - 1;
    if e in multiset(dict[n].experts) {
      assert e in dict[n].experts;
    } else {
      ListedSomewhere(dict[..n], e);
      var i :| 0 <= i < n && e in dict[..n][i].experts;
      assert e in dict[i].experts;
    }
  }

  lemma {:induction false} ListedTwice(dict: seq<ShardEntry>, i: nat, j: nat, e: int)
    requires i < j < |dict| && e in dict[i].experts && e in dict[j].experts
    ensures Listed(dict)[e] >= 2
  {
    var n := |dict| - 1;
    if j < n {
      ListedTwice(dict[..n], i, j, e);
    } else {
      EntryWithinListed(dict[..n], i, e);
    }
  }

  ghost function OwnerOf(dict: seq<ShardEntry>, e: int): int
    requires exists i :: 0 <= i < |dict| && e in dict[i].experts
  {
    var i :| 0 <= i < |dict| && e in dict[i].experts;
    dict[i].shard
  }

  /** An accepted dictionary is a partition: every expert has an owner in range, and only one. */
  lemma OwnerIsUnique(nShards: nat, nExperts: nat, dict: seq<ShardEntry>, e: int)
    requires Accepted(nShards, nExperts, dict) && 0 <= e < nExperts
    ensures exists i :: 0 <= i < |dict| && e in dict[i].experts
    ensures 0 <= OwnerOf(dict, e) < nShards
    ensures forall s :: Owns(dict, s, e) <==> s == OwnerOf(dict, e)
  {
    assert Listed(dict)[e] == 1;
    ListedSomewhere(dict, e);
    var o :| 0 <= o < |dict| && e in dict[o].experts && OwnerOf(dict, e) == dict[o].shard;
    assert EntryOk(nShards, nExperts, dict[o]);
    forall i | 0 <= i < |dict| && e in dict[i].experts
      ensures i == o
    {
      if i < o { ListedTwice(dict, i, o, e); }
      if o < i { ListedTwice(dict, o, i, e); }
    }
  }

  /** `tl.sum(offs_r * ((mask >> e % 32) & 1))` over the first `n` ranks */
  function RankWeightedBits(bitmask: seq<seq<int>>, e: nat, n: nat): int
    requires n <= |bitmask| && forall s :: 0 <= s < n ==> e / 32 < |bitmask[s]|
  {
    if n == 0 then 0 else RankWeightedBits(bitmask, e, n - 1) + (n - 1) * MaskBit(bitmask, n - 1, e)
  }

  lemma {:induction false} WeightedBitsOfOneOwner(bitmask: seq<seq<int>>, e: nat, owner: nat, n: nat)
    requires n <= |bitmask| && forall s :: 0 <= s < n ==> e / 32 < |bitmask[s]|
    requires forall s :: 0 <= s < n ==> MaskBit(bitmask, s, e) == if s == owner then 1 else 0
    ensures RankWeightedBits(bitmask, e, n) == if owner < n then owner else 0
  {
    if n > 0 { WeightedBitsOfOneOwner(bitmask, e, owner, n - 1); }
  }

  /** The kernel's rank-weighted bit sum is the owning shard. */
  lemma {:induction false} KernelFindsOwner(a: Assignment, nShards: nat, nExperts: nat, dict: seq<ShardEntry>, e: nat)
    requires Accepted(nShards, nExperts, dict) && Encodes(a, nShards, nExperts, dict) && e < nExperts
    ensures exists i :: 0 <= i < |dict| && e in dict[i].experts
    ensures e / 32 < WordCount(nExperts)
    ensures RankWeightedBits(a.bitmask, e, nShards) == OwnerOf(dict, e)
    ensures forall s :: 0 <= s < nShards ==> (MaskBit(a.bitmask, s, e) == 1 <==> s == OwnerOf(dict, e))
  {
    WordIndex(nExperts, e);
    OwnerIsUnique(nShards, nExperts, dict, e);
    forall s | 0 <= s < nShards
      ensures MaskBit(a.bitmask, s, e) == if s == OwnerOf(dict, e) then 1 else 0
    {
      PairsAreOwners(dict, s, e);
    }
    WeightedBitsOfOneOwner(a.bitmask, e, OwnerOf(dict, e), nShards);
  }

  /** The ids in a row are exactly `0 .. count-1`, handed out in increasing expert order to the marked experts. */
  ghost predicate Dense(row: seq<int>, marked: seq<bool>, count: nat)
    requires |row| == |marked|
  {
    && (forall e :: 0 <= e < |row| ==> row[e] < count && (row[e] >= 0 <==> marked[e]))
    && (forall id :: 0 <= id < count ==> id in row)
    && (forall e, f :: 0 <= e < f < |row| && marked[e] && marked[f] ==> row[e] < row[f])
  }

  lemma RowAt(nExperts: nat, experts: seq<int>, row: seq<int>, order: seq<int>, k: nat)
    requires forall i :: 0 <= i < |experts| ==> 0 <= experts[i] < nExperts
    requires RowOf(nExperts, experts, row)
    requires Increasing(order) && k < |order|
    requires forall x :: x in order <==> x in experts
    ensures 0 <= order[k] < nExperts && row[order[k]] == k
  {
    var e := order[k];
    assert e in order;
    assert e in experts;
    RankIsPosition(experts, order, k);
  }

  lemma DenseRow(nExperts: nat, experts: seq<int>, row: seq<int>, marked: seq<bool>)
    requires forall e :: multiset(experts)[e] <= 1
    requires forall k :: 0 <= k < |experts| ==> 0 <= experts[k] < nExperts
    requires RowOf(nExperts, experts, row)
    requires |marked| == nExperts && forall e :: 0 <= e < nExperts ==> (marked[e] <==> e in experts)
    ensures Dense(row, marked, |experts|)
  {
    SortedStrictly(experts);
    var order := Sorted(experts);
    assert |order| == |experts| by { assert |multiset(order)| == |multiset(experts)|; }
    forall k | 0 <= k < |order|
      ensures 0 <= order[k] < nExperts && row[order[k]] == k && k in row
    {
      RowAt(nExperts, experts, row, order, k);
    }
    forall e | 0 <= e < nExperts && marked[e]
      ensures exists k :: 0 <= k < |order| && order[k] == e
    {
      assert e in order;
    }
  }

  /** The table of local ids agrees with the masks, and numbers the experts of each listed shard densely. */
  lemma LocalIdsAreDense(a: Assignment, nShards: nat, nExperts: nat, dict: seq<ShardEntry>, i: nat)
    requires DistinctShards(dict) && Accepted(nShards, nExperts, dict) && Encodes(a, nShards, nExperts, dict)
    requires i < |dict|
    ensures 0 <= dict[i].shard < nShards
    ensures Dense(a.localIds[dict[i].shard], a.boolmask[dict[i].shard], |dict[i].experts|)
  {
    assert EntryOk(nShards, nExperts, dict[i]);
    NoRepeats(nShards, nExperts, dict, i);
    var shard := dict[i].shard;
    forall e | 0 <= e < nExperts
      ensures a.boolmask[shard][e] <==> e in dict[i].experts
    {
      PairsAreOwners(dict, shard, e);
    }
    DenseRow(nExperts, dict[i].experts, a.localIds[shard], a.boolmask[shard]);
  }

  // ---------------------------------------------------------------- the two dictionary builders

  ghost predicate Cuts(cuts: seq<nat>, n: nat, end: nat) {
    && |cuts| == n + 1
    && cuts[0] == 0
    && cuts[n] <= end
    && forall i, j :: 0 <= i <= j <= n ==> cuts[i] <= cuts[j]
  }

  function Slice(perm: seq<int>, cuts: seq<nat>, n: nat, i: nat): seq<int>
    requires Cuts(cuts, n, |perm|) && i < n
  {
    perm[cuts[i]..cuts[i + 1]]
  }

  /** Shard `i` holds `perm[cuts[i] .. cuts[i+1]]`, for each of the `n` shards. */
  ghost predicate IsCut(dict: seq<ShardEntry>, perm: seq<int>, cuts: seq<nat>, n: nat)
    requires Cuts(cuts, n, |perm|)
  {
    && |dict| == n
    && forall i :: 0 <= i < n ==> dict[i] == ShardEntry(i, Slice(perm, cuts, n, i))
  }

  lemma {:induction false} CutsList(dict: seq<ShardEntry>, perm: seq<int>, cuts: seq<nat>, n: nat)
    requires Cuts(cuts, n, |perm|) && IsCut(dict, perm, cuts, n)
    ensures Listed(dict) == multiset(perm[..cuts[n]])
  {
    if n > 0 {
      CutsList(dict[..n - 1], perm, cuts[..n], n - 1);
      assert perm[..cuts[n]] == perm[..cuts[n - 1]] + perm[cuts[n - 1]..cuts[n]];
    }
  }

  lemma ElementOfPermutation(perm: seq<int>, n: nat, i: nat)
    requires multiset(perm) == multiset(Range(0, n)) && i < |perm|
    ensures 0 <= perm[i] < n
  {
    assert perm[i] in multiset(perm);
    assert perm[i] in Range(0, n);
  }

  lemma RangeListsOnce(n: nat, e: int)
    ensures multiset(Range(0, n))[e] == if 0 <= e < n then 1 else 0
  {
    var r := Range(0, n);
    InRange(0, n);
    if 0 <= e < n {
      assert r == r[..e] + [e] + r[e + 1..];
      assert e !in r[..e] && e !in r[e + 1..];
      assert multiset(r) == multiset(r[..e]) + multiset{e} + multiset(r[e + 1..]);
    }
  }

  ghost predicate NoneEmpty(dict: seq<ShardEntry>) {
    forall i :: 0 <= i < |dict| ==> dict[i].experts != []
  }

  lemma CutIsInRange(dict: seq<ShardEntry>, perm: seq<int>, cuts: seq<nat>, nShards: nat, nExperts: nat, i: nat)
    requires multiset(perm) == multiset(Range(0, nExperts))
    requires Cuts(cuts, nShards, |perm|) && IsCut(dict, perm, cuts, nShards)
    requires i < nShards && dict[i].experts != []
    ensures EntryOk(nShards, nExperts, dict[i])
  {
    forall k | 0 <= k < |dict[i].experts|
      ensures 0 <= dict[i].experts[k] < nExperts
    {
      ElementOfPermutation(perm, nExperts, cuts[i] + k);
    }
  }

  lemma {:induction false} CutListsOnce(dict: seq<ShardEntry>, perm: seq<int>, cuts: seq<nat>, nShards: nat,
                                        nExperts: nat)
    requires multiset(perm) == multiset(Range(0, nExperts)) && |perm| == nExperts
    requires Cuts(cuts, nShards, nExperts) && IsCut(dict, perm, cuts, nShards)
    ensures (forall e :: 0 <= e < nExperts ==> Listed(dict)[e] == 1) <==> cuts[nShards] == nExperts
  {
    CutsList(dict, perm, cuts, nShards);
    PrefixListsOnce(perm, nExperts, cuts[nShards]);
  }

  lemma PrefixListsOnce(perm: seq<int>, n: nat, end: nat)
    requires multiset(perm) == multiset(Range(0, n)) && |perm| == n && end <= n
    ensures (forall e :: 0 <= e < n ==> multiset(perm[..end])[e] == 1) <==> end == n
  {
    if end == n {
      assert perm[..end] == perm;
      forall e | 0 <= e < n ensures multiset(perm)[e] == 1 { RangeListsOnce(n, e); }
    } else {
      var last := perm[end];
      ElementOfPermutation(perm, n, end);
      RangeListsOnce(n, last);
      assert perm == perm[..end] + [last] + perm[end + 1..];
      assert multiset(perm[..end])[last] == 0;
    }
  }

  /** A cut of a permutation is accepted exactly when no shard is empty and nothing is left over. */
  lemma CutAccepted(dict: seq<ShardEntry>, perm: seq<int>, cuts: seq<nat>, nShards: nat, nExperts: nat)
    requires multiset(perm) == multiset(Range(0, nExperts)) && |perm| == nExperts
    requires Cuts(cuts, nShards, nExperts) && IsCut(dict, perm, cuts, nShards)
    ensures DistinctShards(dict)
    ensures Accepted(nShards, nExperts, dict) <==> cuts[nShards] == nExperts && NoneEmpty(dict)
  {
    CutListsOnce(dict, perm, cuts, nShards, nExperts);
    if cuts[nShards] == nExperts && NoneEmpty(dict) {
      forall i | 0 <= i < nShards ensures EntryOk(nShards, nExperts, dict[i]) {
        CutIsInRange(dict, perm, cuts, nShards, nExperts, i);
      }
      assert Accepted(nShards, nExperts, dict);
    }
    if Accepted(nShards, nExperts, dict) {
      forall i | 0 <= i < nShards ensures dict[i].experts != [] { assert EntryOk(nShards, nExperts, dict[i]); }
    }
  }

  /** Shard `i` owns experts `per * i .. per * (i + 1)`. */
  ghost predicate IsUniform(dict: seq<ShardEntry>, nShards: nat, per: nat) {
    |dict| == nShards && forall i :: 0 <= i < nShards ==> dict[i] == ShardEntry(i, Range(per * i, per * (i + 1)))
  }

  method MakeExptDictUniform(nShards: nat, nExperts: nat) returns (dict: seq<ShardEntry>)
    ensures IsUniform(dict, nShards, if nShards == 0 then 0 else nExperts / nShards)
  {
    dict := [];
    var i := 0;
    while i < nShards
      invariant 0 <= i <= nShards
      invariant IsUniform(dict, i, if nShards == 0 then 0 else nExperts / nShards)
    {
      var start := (nExperts / nShards) * i;
      var end := (nExperts / nShards) * (i + 1);
      dict := dict + [ShardEntry(i, Range(start, end))];
      i := i + 1;
    }
  }

  /** The uniform dictionary cuts the identity order at multiples of `per`. */
  lemma UniformIsCut(dict: seq<ShardEntry>, nShards: nat, per: nat, nExperts: nat) returns (cuts: seq<nat>)
    requires IsUniform(dict, nShards, per) && per * nShards <= nExperts
    ensures Cuts(cuts, nShards, nExperts) && cuts[nShards] == per * nShards
    ensures IsCut(dict, Range(0, nExperts), cuts, nShards)
  {
    cuts := seq(nShards + 1, i requires 0 <= i <= nShards => (MulNonNeg(per, i); per * i));
    forall i, j | 0 <= i <= j <= nShards
      ensures cuts[i] <= cuts[j]
    {
      MulMono(i, j, per);
    }
    assert Cuts(cuts, nShards, nExperts);
    forall i | 0 <= i < nShards
      ensures dict[i] == ShardEntry(i, Slice(Range(0, nExperts), cuts, nShards, i))
    {
      RangeSlice(cuts[i], cuts[i + 1], nExperts);
    }
  }

  lemma RangeSlice(lo: nat, hi: nat, n: nat)
    requires lo <= hi <= n
    ensures Range(0, n)[lo..hi] == Range(lo, hi)
  {
  }

  /**
   The uniform dictionary is accepted exactly when the shard count divides a positive expert count
   (or there is nothing to own and nobody to own it).
   */
  lemma UniformAccepted(nShards: nat, nExperts: nat, dict: seq<ShardEntry>)
    requires IsUniform(dict, nShards, if nShards == 0 then 0 else nExperts / nShards)
    ensures DistinctShards(dict)
    ensures Accepted(nShards, nExperts, dict) <==>
            if nShards == 0 then nExperts == 0 else 0 < nExperts && nExperts % nShards == 0
  {
    var per := if nShards == 0 then 0 else nExperts / nShards;
    Covers(nExperts, nShards, per);
    var cuts := UniformIsCut(dict, nShards, per, nExperts);
    CutAccepted(dict, Range(0, nExperts), cuts, nShards, nExperts);
    UniformNoneEmpty(dict, nShards, per);
  }

  lemma Covers(n: nat, d: nat, per: nat)
    requires per == if d == 0 then 0 else n / d
    ensures per * d <= n
    ensures (per * d == n && (d == 0 || per > 0)) <==> if d == 0 then n == 0 else 0 < n && n % d == 0
  {
  }

  lemma UniformNoneEmpty(dict: seq<ShardEntry>, nShards: nat, per: nat)
    requires IsUniform(dict, nShards, per)
    ensures NoneEmpty(dict) <==> nShards == 0 || per > 0
  {
    forall i | 0 <= i < nShards
      ensures |dict[i].experts| == per
    {
      assert per * (i + 1) == per * i + per;
    }
    if nShards > 0 { assert |dict[0].experts| == per; }
    if per > 0 {
      forall i | 0 <= i < nShards ensures dict[i].experts != [] { assert |dict[i].experts| == per; }
    }
  }

  /** `sorted(rng.sample(range(1, nExperts), nShards - 1))` */
  ghost predicate DistinctPoints(points: seq<nat>, nShards: nat, nExperts: nat) {
    && |points| == nShards - 1
    && 0 < nExperts
    && (forall i :: 0 <= i < |points| ==> 1 <= points[i] < nExperts)
    && (forall i, j :: 0 <= i < j < |points| ==> points[i] < points[j])
  }

  lemma PointsAreCuts(points: seq<nat>, nShards: nat, nExperts: nat)
    requires 0 < nShards && DistinctPoints(points, nShards, nExperts)
    ensures var cuts := [0] + points + [nExperts];
            Cuts(cuts, nShards, nExperts) && forall i, j :: 0 <= i < j <= nShards ==> cuts[i] < cuts[j]
  {
  }

  /** Each shard receives a slice of the shuffled experts between two neighbouring cut points. */
  method MakeExptDictRandom(nShards: nat, nExperts: nat, perm: seq<int>, points: seq<nat>)
    returns (dict: seq<ShardEntry>)
    requires 0 < nShards && |perm| == nExperts
    requires DistinctPoints(points, nShards, nExperts)
    ensures Cuts([0] + points + [nExperts], nShards, nExperts)
    ensures IsCut(dict, perm, [0] + points + [nExperts], nShards)
  {
    var cuts := [0] + points + [nExperts];
    PointsAreCuts(points, nShards, nExperts);
    dict := [];
    var i := 0;
    while i < nShards
      invariant 0 <= i <= nShards && |dict| == i
      invariant forall k :: 0 <= k < i ==> dict[k] == ShardEntry(k, Slice(perm, cuts, nShards, k))
    {
      var a, b := cuts[i], cuts[i + 1];
      dict := dict + [ShardEntry(i, perm[a..b])];
      i := i + 1;
    }
  }

  /** Every cut of every permutation at distinct inner points is accepted. */
  lemma RandomAccepted(nShards: nat, nExperts: nat, perm: seq<int>, points: seq<nat>, dict: seq<ShardEntry>)
    requires 0 < nShards
    requires multiset(perm) == multiset(Range(0, nExperts)) && |perm| == nExperts
    requires DistinctPoints(points, nShards, nExperts) && Cuts([0] + points + [nExperts], nShards, nExperts)
    requires IsCut(dict, perm, [0] + points + [nExperts], nShards)
    ensures DistinctShards(dict)
    ensures Accepted(nShards, nExperts, dict)
  {
    var cuts := [0] + points + [nExperts];
    PointsAreCuts(points, nShards, nExperts);
    CutAccepted(dict, perm, cuts, nShards, nExperts);
    forall i | 0 <= i < nShards ensures dict[i].experts != [] { assert cuts[i] < cuts[i + 1]; }
  }
}
