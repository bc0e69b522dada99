/**
 Ranks laid out on a grid of `P x T x C`: rank = p * (T * C) + t * C + c. The rank groups of a mapping are
 the lines of such a grid in one of its three directions.
 */
module Grid {
  import opened Arith
  import opened Ranges

  function At(T: nat, C: nat, p: int, t: int, c: int): int {
    p * (T * C) + (t * C + c)
  }

  function PDigit(T: nat, C: nat, r: int): int
    requires 0 < T * C
  {
    r / (T * C)
  }

  function TDigit(T: nat, C: nat, r: int): int
    requires 0 < T * C && 0 < C
  {
    (r % (T * C)) / C
  }

  function CDigit(C: nat, r: int): int
    requires 0 < C
  {
    r % C
  }

  /** The digits of a rank, and the rank of the digits: a bijection between ranks and grid points. */
  lemma AtDigits(P: nat, T: nat, C: nat, p: int, t: int, c: int)
    requires 0 <= p < P && 0 <= t < T && 0 <= c < C
    ensures 0 < T * C && 0 <= At(T, C, p, t, c) < P * (T * C)
    ensures PDigit(T, C, At(T, C, p, t, c)) == p
    ensures TDigit(T, C, At(T, C, p, t, c)) == t
    ensures CDigit(C, At(T, C, p, t, c)) == c
  {
    BlockBound(t, T, C, c);
    BlockBound(p, P, T * C, t * C + c);
    DivMod(p, T * C, t * C + c);
    DivMod(t, C, c);
    LastDigit(T, C, p, t, c);
  }

  lemma LastDigit(T: nat, C: nat, p: int, t: int, c: int)
    requires 0 <= c < C
    ensures CDigit(C, At(T, C, p, t, c)) == c
  {
    MulAssoc(p, T, C);
    assert At(T, C, p, t, c) == (p * T + t) * C + c;
    DivMod(p * T + t, C, c);
  }

  lemma DigitsOf(P: nat, T: nat, C: nat, r: int)
    requires 0 < T && 0 < C && 0 < T * C
    ensures 0 <= TDigit(T, C, r) < T && 0 <= CDigit(C, r) < C
    ensures 0 <= PDigit(T, C, r) < P <==> 0 <= r < P * (T * C)
    ensures At(T, C, PDigit(T, C, r), TDigit(T, C, r), CDigit(C, r)) == r
  {
    var p, x := r / (T * C), r % (T * C);
    BlockSplit(x, T, C);
    var t, c := x / C, x % C;
    MulAssoc(p, T, C);
    assert r == (p * T + t) * C + c;
    DivMod(p * T + t, C, c);
    QuotientBelow(r, 0, T * C);
    QuotientBelow(r, P, T * C);
  }

  // ---------------------------------------------------------------- tables of groups

  /** The lists appended by a loop over `i < rows` around a loop over `j < columns`. */
  function Table(rows: nat, columns: nat, g: (nat, nat) -> seq<int>): (r: seq<seq<int>>)
    ensures |r| == rows * columns
  {
    if rows == 0 then []
    else
      assert rows * columns == (rows - 1) * columns + columns;
      Table(rows - 1, columns, g) + seq(columns, j requires 0 <= j < columns => g(rows - 1, j))
  }

  lemma {:induction false} TableAt(rows: nat, columns: nat, g: (nat, nat) -> seq<int>, i: nat, j: nat)
    requires i < rows && j < columns
    ensures 0 <= i * columns + j < |Table(rows, columns, g)|
    ensures Table(rows, columns, g)[i * columns + j] == g(i, j)
  {
    BlockBound(i, rows, columns, j);
    if i < rows - 1 {
      TableAt(rows - 1, columns, g, i, j);
    } else {
      assert |Table(rows - 1, columns, g)| == (rows - 1) * columns;
    }
  }

  method BuildTable(rows: nat, columns: nat, g: (nat, nat) -> seq<int>) returns (groups: seq<seq<int>>)
    ensures groups == Table(rows, columns, g)
  {
    groups := [];
    var i := 0;
    while i < rows
      invariant 0 <= i <= rows
      invariant groups == Table(i, columns, g)
    {
      var j := 0;
      while j < columns
        invariant 0 <= j <= columns
        invariant groups == Table(i, columns, g) + seq(j, k requires 0 <= k < j => g(i, k))
      {
        groups := groups + [g(i, j)];
        j := j + 1;
      }
      i := i + 1;
    }
  }

  /**
   The groups partition the ranks below `world`: every rank sits in the group its index names, at the
   position its coordinate names, and nowhere else.
   */
  ghost predicate Partitions(groups: seq<seq<int>>, world: int, index: int -> int, coordinate: int -> int) {
    && (forall r :: 0 <= r < world ==> SitsAt(groups, index(r), coordinate(r), r))
    && (forall g, k :: 0 <= g < |groups| && 0 <= k < |groups[g]| ==>
          0 <= groups[g][k] < world && index(groups[g][k]) == g && coordinate(groups[g][k]) == k)
  }

  ghost predicate SitsAt(groups: seq<seq<int>>, g: int, k: int, r: int) {
    0 <= g < |groups| && 0 <= k < |groups[g]| && groups[g][k] == r
  }

  function Flat(i: int, n: int, j: int): int {
    i * n + j
  }

  /** Group `p * C + c` is the line of ranks (p, *, c). */
  ghost predicate LinesAlongT(groups: seq<seq<int>>, P: nat, T: nat, C: nat) {
    && |groups| == P * C
    && forall p, c :: 0 <= p < P && 0 <= c < C ==> LineAlongT(groups, T, C, p, c)
  }

  ghost predicate LineAlongT(groups: seq<seq<int>>, T: nat, C: nat, p: int, c: int) {
    && 0 <= Flat(p, C, c) < |groups| && |groups[Flat(p, C, c)]| == T
    && forall t :: 0 <= t < T ==> groups[Flat(p, C, c)][t] == At(T, C, p, t, c)
  }

  lemma LinesAlongTPartition(groups: seq<seq<int>>, P: nat, T: nat, C: nat)
    requires 0 < T && 0 < C && 0 < T * C && LinesAlongT(groups, P, T, C)
    ensures Partitions(groups, P * (T * C), r => Flat(PDigit(T, C, r), C, CDigit(C, r)), r => TDigit(T, C, r))
  {
    forall r | 0 <= r < P * (T * C)
      ensures SitsAt(groups, Flat(PDigit(T, C, r), C, CDigit(C, r)), TDigit(T, C, r), r)
    {
      DigitsOf(P, T, C, r);
      assert LineAlongT(groups, T, C, PDigit(T, C, r), CDigit(C, r));
    }
    forall g, k | 0 <= g < |groups| && 0 <= k < |groups[g]|
      ensures var r := groups[g][k];
              0 <= r < P * (T * C) && Flat(PDigit(T, C, r), C, CDigit(C, r)) == g && TDigit(T, C, r) == k
    {
      BlockSplit(g, P, C);
      assert Flat(g / C, C, g % C) == g;
      assert LineAlongT(groups, T, C, g / C, g % C);
      AtDigits(P, T, C, g / C, k, g % C);
    }
  }

  /** Group `p * T + t` is the line of ranks (p, t, *). */
  ghost predicate LinesAlongC(groups: seq<seq<int>>, P: nat, T: nat, C: nat) {
    && |groups| == P * T
    && forall p, t :: 0 <= p < P && 0 <= t < T ==> LineAlongC(groups, T, C, p, t)
  }

  ghost predicate LineAlongC(groups: seq<seq<int>>, T: nat, C: nat, p: int, t: int) {
    && 0 <= Flat(p, T, t) < |groups| && |groups[Flat(p, T, t)]| == C
    && forall c :: 0 <= c < C ==> groups[Flat(p, T, t)][c] == At(T, C, p, t, c)
  }

  lemma LinesAlongCPartition(groups: seq<seq<int>>, P: nat, T: nat, C: nat)
    requires 0 < T && 0 < C && 0 < T * C && LinesAlongC(groups, P, T, C)
    ensures Partitions(groups, P * (T * C), r => Flat(PDigit(T, C, r), T, TDigit(T, C, r)), r => CDigit(C, r))
  {
    forall r | 0 <= r < P * (T * C)
      ensures SitsAt(groups, Flat(PDigit(T, C, r), T, TDigit(T, C, r)), CDigit(C, r), r)
    {
      DigitsOf(P, T, C, r);
      assert LineAlongC(groups, T, C, PDigit(T, C, r), TDigit(T, C, r));
    }
    forall g, k | 0 <= g < |groups| && 0 <= k < |groups[g]|
      ensures var r := groups[g][k];
              0 <= r < P * (T * C) && Flat(PDigit(T, C, r), T, TDigit(T, C, r)) == g && CDigit(C, r) == k
    {
      BlockSplit(g, P, T);
      assert Flat(g / T, T, g % T) == g;
      assert LineAlongC(groups, T, C, g / T, g % T);
      AtDigits(P, T, C, g / T, g % T, k);
    }
  }

  /** Group `t * C + c` is the line of ranks (*, t, c). */
  ghost predicate LinesAlongP(groups: seq<seq<int>>, P: nat, T: nat, C: nat) {
    && |groups| == T * C
    && forall t, c :: 0 <= t < T && 0 <= c < C ==> LineAlongP(groups, P, T, C, t, c)
  }

  ghost predicate LineAlongP(groups: seq<seq<int>>, P: nat, T: nat, C: nat, t: int, c: int) {
    && 0 <= Flat(t, C, c) < |groups| && |groups[Flat(t, C, c)]| == P
    && forall p :: 0 <= p < P ==> groups[Flat(t, C, c)][p] == At(T, C, p, t, c)
  }

  lemma LinesAlongPPartition(groups: seq<seq<int>>, P: nat, T: nat, C: nat)
    requires 0 < T && 0 < C && 0 < T * C && LinesAlongP(groups, P, T, C)
    ensures Partitions(groups, P * (T * C), r => Flat(TDigit(T, C, r), C, CDigit(C, r)), r => PDigit(T, C, r))
  {
    forall r | 0 <= r < P * (T * C)
      ensures SitsAt(groups, Flat(TDigit(T, C, r), C, CDigit(C, r)), PDigit(T, C, r), r)
    {
      DigitsOf(P, T, C, r);
      assert LineAlongP(groups, P, T, C, TDigit(T, C, r), CDigit(C, r));
    }
    forall g, k | 0 <= g < |groups| && 0 <= k < |groups[g]|
      ensures var r := groups[g][k];
              0 <= r < P * (T * C) && Flat(TDigit(T, C, r), C, CDigit(C, r)) == g && PDigit(T, C, r) == k
    {
      BlockSplit(g, T, C);
      assert Flat(g / C, C, g % C) == g;
      assert LineAlongP(groups, P, T, C, g / C, g % C);
      AtDigits(P, T, C, k, g / C, g % C);
    }
  }

  // ---------------------------------------------------------------- the groups as the loops build them

  /** A stepped range from `p * T * C + c`, with either of the two upper bounds in use, is a line along T. */
  ghost predicate Stepped(line: seq<int>, T: nat, C: nat, p: int, c: int)
    requires 0 < C
  {
    || line == RangeStep(p * (T * C) + c, (p + 1) * (T * C) + c, C)
    || line == RangeStep(p * (T * C) + c, (p + 1) * (T * C), C)
  }

  lemma SteppedLine(line: seq<int>, T: nat, C: nat, p: int, c: int)
    requires 0 <= c < C && Stepped(line, T, C, p, c)
    ensures |line| == T && forall t :: 0 <= t < T ==> line[t] == At(T, C, p, t, c)
  {
    assert (p + 1) * (T * C) == p * (T * C) + T * C;
    RangeStepCount(p * (T * C) + c, (p + 1) * (T * C) + c, C, T, 0);
    RangeStepCount(p * (T * C) + c, (p + 1) * (T * C), C, T, c);
    forall t | 0 <= t < T
      ensures line[t] == At(T, C, p, t, c)
    {
      assert line[t] == p * (T * C) + c + t * C;
    }
  }

  lemma {:induction false} SteppedLines(groups: seq<seq<int>>, P: nat, T: nat, C: nat, g: (nat, nat) -> seq<int>)
    requires 0 < C && groups == Table(P, C, g)
    requires forall i: nat, j: nat :: i < P && j < C ==> Stepped(g(i, j), T, C, i, j)
    ensures LinesAlongT(groups, P, T, C)
  {
    forall p: int, c: int | 0 <= p < P && 0 <= c < C
      ensures LineAlongT(groups, T, C, p, c)
    {
      TableAt(P, C, g, p, c);
      SteppedLine(g(p, c), T, C, p, c);
    }
  }

  /** The `x`-th range of length `C` from `start` on. */
  function Consecutive(start: int, x: int, C: nat): seq<int> {
    Range(start + x * C, start + (x + 1) * C)
  }

  /** Lines along C from consecutive ranges of length C. */
  lemma {:induction false} ConsecutiveLines(groups: seq<seq<int>>, P: nat, T: nat, C: nat, g: (nat, nat) -> seq<int>)
    requires groups == Table(P, T, g)
    requires forall i: nat, j: nat :: i < P && j < T ==> g(i, j) == Consecutive(i * (T * C), j, C)
    ensures LinesAlongC(groups, P, T, C)
  {
    forall p: int, t: int | 0 <= p < P && 0 <= t < T
      ensures LineAlongC(groups, T, C, p, t)
    {
      TableAt(P, T, g, p, t);
      assert (t + 1) * C == t * C + C;
      forall c | 0 <= c < C
        ensures groups[Flat(p, T, t)][c] == At(T, C, p, t, c)
      {
        assert g(p, t)[c] == p * (T * C) + t * C + c;
      }
    }
  }

  /** Lines along P from ranges that step over a whole plane. */
  lemma PlaneLines(groups: seq<seq<int>>, P: nat, T: nat, C: nat)
    requires 0 < T * C && |groups| == T * C
    requires forall i :: 0 <= i < T * C ==> groups[i] == RangeStep(i, P * (T * C), T * C)
    ensures LinesAlongP(groups, P, T, C)
  {
    forall t, c | 0 <= t < T && 0 <= c < C
      ensures LineAlongP(groups, P, T, C, t, c)
    {
      BlockBound(t, T, C, c);
      var i := Flat(t, C, c);
      RangeStepCount(i, P * (T * C), T * C, P, i);
      forall p | 0 <= p < P
        ensures groups[i][p] == At(T, C, p, t, c)
      {
        assert groups[i][p] == i + p * (T * C);
      }
    }
  }

  // ---------------------------------------------------------------- moves around the rings of the grid

  function Up(x: int, n: int): int {
    if x == n - 1 then 0 else x + 1
  }

  function Down(x: int, n: int): int {
    if x == 0 then n - 1 else x - 1
  }

  /** Adding one plane, modulo the grid, moves one step along P. */
  lemma PlaneUp(P: nat, T: nat, C: nat, p: int, t: int, c: int)
    requires 0 <= p < P && 0 <= t < T && 0 <= c < C
    ensures var r := At(T, C, p, t, c) + T * C;
            At(T, C, Up(p, P), t, c) == if r >= P * (T * C) then r - P * (T * C) else r
  {
    var w := T * C;
    BlockBound(t, T, C, c);
    assert (p + 1) * w == p * w + w;
    if p < P - 1 {
      MulMono(p + 2, P, w);
      assert (p + 2) * w == p * w + 2 * w;
    } else {
      assert P * w == p * w + w;
    }
  }

  lemma PlaneDown(P: nat, T: nat, C: nat, p: int, t: int, c: int)
    requires 0 <= p < P && 0 <= t < T && 0 <= c < C
    ensures var r := At(T, C, p, t, c) - T * C;
            At(T, C, Down(p, P), t, c) == if r < 0 then r + P * (T * C) else r
  {
    var w := T * C;
    BlockBound(t, T, C, c);
    assert (p - 1) * w == p * w - w;
    if p > 0 {
      MulMono(1, p, w);
    } else {
      assert (P - 1) * w == P * w - w;
    }
  }

  lemma UpDown(x: int, n: int)
    requires 0 <= x < n
    ensures 0 <= Up(x, n) < n && 0 <= Down(x, n) < n && Down(Up(x, n), n) == x && Up(Down(x, n), n) == x
  {
  }

  /** Going up `k` times is adding `k` modulo the size of the ring. */
  lemma UpModulo(x: nat, k: nat, n: nat)
    requires 0 < n
    ensures (x + k + 1) % n == Up((x + k) % n, n)
  {
    var y := x + k;
    var q, r := y / n, y % n;
    assert y == q * n + r;
    if r == n - 1 {
      assert y + 1 == (q + 1) * n;
      DivMod(q + 1, n, 0);
    } else {
      DivMod(q, n, r + 1);
    }
  }

  lemma FullTurn(x: nat, n: nat)
    requires x < n
    ensures (x + n) % n == x && (x + 0) % n == x
  {
    DivMod(1, n, x);
    DivMod(0, n, x);
  }
}
