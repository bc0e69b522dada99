/**
 Every run of the exchange ends, and ends well: the barriers never block, each step makes exactly one unit of
 progress, and a run can only stop when every rank has finished the last round.
 */
module ExchangeProgress {
  import opened Arith
  import opened Exchange

  /** All ranks have finished the last round. */
  ghost predicate Done(ts: seq<Routing>, s: Cluster)
    requires 0 < |ts|
  {
    forall q :: 0 <= q < |s.at| ==> s.at[q] == At(|ts| - 1, Finished)
  }

  /** A rank that no other rank is behind. */
  lemma {:induction false} Slowest(at: seq<At>) returns (q: nat)
    requires 0 < |at|
    ensures q < |at| && forall k :: 0 <= k < |at| ==> at[k].Reached(at[q].round, at[q].stage.Level())
  {
    q := 0;
    if |at| > 1 {
      var last := |at| - 1;
      q := Slowest(at[..last]);
      if !at[last].Reached(at[q].round, at[q].stage.Level()) {
        q := last;
      }
    }
  }

  lemma SlowestCanStep(ts: seq<Routing>, f: RowFunction, s0: Cluster, s: Cluster, q: nat) returns (step: Step)
    requires ValidRounds(ts) && Inv(ts, f, s0, s) && q < |s.at| && s.at[q] != At(|ts| - 1, Finished)
    requires forall k :: 0 <= k < |s.at| ==> s.at[k].Reached(s.at[q].round, s.at[q].stage.Level())
    ensures Enabled(ts, s, step)
  {
    var a := s.at[q];
    step := Advance(q);
    if a.stage.Dispatching? {
      if p: nat :| p < ts[a.round].nLocal && Mark(a.round, q, p) !in s.sent {
        step := DispatchProgram(q, p);
      }
    } else if a.stage.Combining? {
      if m: nat :| m < ts[a.round].Slots() && Mark(a.round, q, m) !in s.returned {
        step := CombineProgram(q, m);
        HasRoom(ts, s0, a.round, q, m);
      }
    }
  }

  lemma SlowestDecides(ts: seq<Routing>, s: Cluster, q: nat)
    requires 0 < |ts| && BarriersOk(ts, s) && q < |s.at| && s.at[q] == At(|ts| - 1, Finished)
    requires forall k :: 0 <= k < |s.at| ==> s.at[k].Reached(|ts| - 1, 5)
    ensures Done(ts, s)
  {
  }

  /** The barriers cannot block: as long as some rank has not finished the last round, some step is enabled. */
  lemma NoDeadlock(ts: seq<Routing>, f: RowFunction, trace: seq<Cluster>, steps: seq<Step>, n: nat)
    requires ValidRounds(ts) && Run(ts, f, trace, steps) && n <= |steps|
    ensures Done(ts, trace[n]) || exists step :: Enabled(ts, trace[n], step)
  {
    RunKeepsInv(ts, f, trace, steps, n);
    var s := trace[n];
    if |s.at| > 0 {
      var q := Slowest(s.at);
      if s.at[q] == At(|ts| - 1, Finished) {
        SlowestDecides(ts, s, q);
      } else {
        var step := SlowestCanStep(ts, f, trace[0], s, q);
      }
    }
  }

  // ---------------------------------------------------------------- counting steps

  function Clock(a: At): nat {
    6 * a.round + a.stage.Level()
  }

  /** The clocks of the first `n` ranks together. */
  function Ticks(at: seq<At>, n: nat): nat
    requires n <= |at|
  {
    if n == 0 then 0 else Ticks(at, n - 1) + Clock(at[n - 1])
  }

  lemma {:induction false} TickedOnce(at: seq<At>, q: nat, n: nat)
    requires q < |at| && n <= |at|
    ensures Ticks(at[q := at[q].Succ()], n) == Ticks(at, n) + if q < n then 1 else 0
  {
    if n > 0 {
      TickedOnce(at, q, n - 1);
    }
  }

  lemma {:induction false} NoTicks(at: seq<At>, n: nat)
    requires n <= |at| && forall q :: 0 <= q < |at| ==> at[q] == At(0, Dispatching)
    ensures Ticks(at, n) == 0
  {
    if n > 0 {
      NoTicks(at, n - 1);
    }
  }

  lemma {:induction false} TicksAreBounded(at: seq<At>, n: nat, cap: nat)
    requires n <= |at| && forall q :: 0 <= q < |at| ==> Clock(at[q]) <= cap
    ensures Ticks(at, n) <= n * cap
    ensures Ticks(at, n) == n * cap <==> forall q :: 0 <= q < n ==> Clock(at[q]) == cap
  {
    if n > 0 {
      TicksAreBounded(at, n - 1, cap);
      assert n * cap == (n - 1) * cap + cap;
    }
  }

  /** A rank's clock stops at the end of the last round. */
  lemma {:induction false} ClocksStop(at: seq<At>, rounds: nat)
    requires 0 < rounds && forall q :: 0 <= q < |at| ==> at[q].round < rounds
    ensures Ticks(at, |at|) <= |at| * (6 * rounds - 1)
    ensures Ticks(at, |at|) == |at| * (6 * rounds - 1) <==>
              forall q :: 0 <= q < |at| ==> at[q] == At(rounds - 1, Finished)
  {
    forall q | 0 <= q < |at|
      ensures Clock(at[q]) <= 6 * rounds - 1
      ensures Clock(at[q]) == 6 * rounds - 1 <==> at[q] == At(rounds - 1, Finished)
    {
    }
    TicksAreBounded(at, |at|, 6 * rounds - 1);
  }

  ghost function Progress(s: Cluster): nat {
    |s.sent| + |s.returned| + Ticks(s.at, |s.at|)
  }

  /** Each step makes one unit of progress. */
  lemma StepProgresses(ts: seq<Routing>, f: RowFunction, s: Cluster, step: Step)
    requires ValidRounds(ts) && Enabled(ts, s, step)
    ensures Progress(Next(ts, f, s, step)) == Progress(s) + 1
  {
    if step.Advance? {
      TickedOnce(s.at, step.rank, |s.at|);
    }
  }

  lemma {:induction false} ProgressCountsSteps(ts: seq<Routing>, f: RowFunction, trace: seq<Cluster>, steps: seq<Step>,
                                               n: nat)
    requires ValidRounds(ts) && Run(ts, f, trace, steps) && n <= |steps|
    ensures Progress(trace[n]) == n
  {
    if n == 0 {
      NoTicks(trace[0].at, |trace[0].at|);
    } else {
      ProgressCountsSteps(ts, f, trace, steps, n - 1);
      assert Moves(ts, f, trace[n - 1], steps[n - 1], trace[n]);
      StepProgresses(ts, f, trace[n - 1], steps[n - 1]);
    }
  }

  // ---------------------------------------------------------------- counting programs

  ghost function RankMarks(r: nat, q: nat, width: nat): set<Mark> {
    set i: nat | i < width :: Mark(r, q, i)
  }

  ghost function RoundMarks(r: nat, ranks: nat, width: nat): set<Mark> {
    set q: nat, i: nat | q < ranks && i < width :: Mark(r, q, i)
  }

  lemma {:induction false} RankMarksCount(r: nat, q: nat, width: nat)
    ensures |RankMarks(r, q, width)| == width
  {
    if width > 0 {
      RankMarksCount(r, q, width - 1);
      assert RankMarks(r, q, width) == RankMarks(r, q, width - 1) + {Mark(r, q, width - 1)};
    }
  }

  lemma {:induction false} RoundMarksCount(r: nat, ranks: nat, width: nat)
    ensures |RoundMarks(r, ranks, width)| == ranks * width
  {
    if ranks == 0 {
      assert RoundMarks(r, ranks, width) == {};
    } else {
      RoundMarksCount(r, ranks - 1, width);
      RankMarksCount(r, ranks - 1, width);
      RoundMarksStep(r, ranks - 1, width);
      assert ranks * width == (ranks - 1) * width + width;
    }
  }

  lemma RoundMarksStep(r: nat, q: nat, width: nat)
    ensures RoundMarks(r, q + 1, width) == RoundMarks(r, q, width) + RankMarks(r, q, width)
    ensures |RoundMarks(r, q + 1, width)| == |RoundMarks(r, q, width)| + |RankMarks(r, q, width)|
  {
    var all, rest, last := RoundMarks(r, q + 1, width), RoundMarks(r, q, width), RankMarks(r, q, width);
    forall k
      ensures k in all <==> k in rest || k in last
    {
    }
    assert rest !! last;
    assert all == rest + last;
  }

  /** The programs of all rounds, `widths[r]` on each rank in round `r`. */
  ghost function AllMarks(ranks: nat, widths: seq<nat>): set<Mark> {
    if |widths| == 0 then {}
    else AllMarks(ranks, widths[..|widths| - 1]) + RoundMarks(|widths| - 1, ranks, widths[|widths| - 1])
  }

  ghost function Volume(ranks: nat, widths: seq<nat>): nat {
    if |widths| == 0 then 0
    else
      MulNonNeg(ranks, widths[|widths| - 1]);
      Volume(ranks, widths[..|widths| - 1]) + ranks * widths[|widths| - 1]
  }

  lemma {:induction false} AllMarksContain(ranks: nat, widths: seq<nat>, k: Mark)
    ensures k in AllMarks(ranks, widths) <==> k.round < |widths| && k.rank < ranks && k.index < widths[k.round]
  {
    if |widths| > 0 {
      AllMarksContain(ranks, widths[..|widths| - 1], k);
    }
  }

  lemma {:induction false} AllMarksCount(ranks: nat, widths: seq<nat>)
    ensures |AllMarks(ranks, widths)| == Volume(ranks, widths)
  {
    if |widths| > 0 {
      var last := |widths| - 1;
      AllMarksCount(ranks, widths[..last]);
      RoundMarksCount(last, ranks, widths[last]);
      forall k | k in AllMarks(ranks, widths[..last])
        ensures k !in RoundMarks(last, ranks, widths[last])
      {
        AllMarksContain(ranks, widths[..last], k);
      }
    }
  }

  /** A set of such programs is at most all of them, and all of them only if none is missing. */
  lemma {:induction false} MarksAreBounded(marks: set<Mark>, ranks: nat, widths: seq<nat>)
    requires forall k :: k in marks ==> k.round < |widths| && k.rank < ranks && k.index < widths[k.round]
    ensures |marks| <= Volume(ranks, widths)
    ensures |marks| == Volume(ranks, widths) <==>
              forall r: nat :: r < |widths| ==> AllMarked(marks, r, ranks, widths[r])
  {
    AllMarksCount(ranks, widths);
    MarksAreInside(marks, ranks, widths);
    SubsetSize(marks, AllMarks(ranks, widths));
    AllAreMarked(marks, ranks, widths);
  }

  lemma {:induction false} MarksAreInside(marks: set<Mark>, ranks: nat, widths: seq<nat>)
    requires forall k :: k in marks ==> k.round < |widths| && k.rank < ranks && k.index < widths[k.round]
    ensures marks <= AllMarks(ranks, widths)
  {
    forall k | k in marks
      ensures k in AllMarks(ranks, widths)
    {
      AllMarksContain(ranks, widths, k);
    }
  }

  lemma {:induction false} AllAreMarked(marks: set<Mark>, ranks: nat, widths: seq<nat>)
    ensures AllMarks(ranks, widths) <= marks <==>
              forall r: nat :: r < |widths| ==> AllMarked(marks, r, ranks, widths[r])
  {
    forall k
      ensures k in AllMarks(ranks, widths) <==> k.round < |widths| && k.rank < ranks && k.index < widths[k.round]
    {
      AllMarksContain(ranks, widths, k);
    }
    if forall r: nat :: r < |widths| ==> AllMarked(marks, r, ranks, widths[r]) {
      forall k | k in AllMarks(ranks, widths)
        ensures k in marks
      {
        assert Mark(k.round, k.rank, k.index) in marks;
      }
    }
  }

  lemma {:induction false} SubsetSize<T>(a: set<T>, b: set<T>)
    requires a <= b
    ensures |a| <= |b| && (|a| == |b| <==> a == b)
  {
    if a != {} {
      var x :| x in a;
      SubsetSize(a - {x}, b - {x});
      assert a == a - {x} + {x} && b == b - {x} + {x};
    }
  }

  // ---------------------------------------------------------------- every run ends

  ghost function LocalCounts(ts: seq<Routing>): seq<nat> {
    seq(|ts|, r requires 0 <= r < |ts| => ts[r].nLocal)
  }

  ghost function SlotCounts(ts: seq<Routing>): seq<nat> {
    seq(|ts|, r requires 0 <= r < |ts| => ts[r].Slots())
  }

  /** The length of every complete run: its programs, five moves of each rank per round, and one between rounds. */
  ghost function Total(ts: seq<Routing>): int
    requires 0 < |ts|
  {
    var ranks := ts[0].nRanks;
    Volume(ranks, LocalCounts(ts)) + Volume(ranks, SlotCounts(ts)) + ranks * (6 * |ts| - 1)
  }

  lemma ProgressIsBounded(ts: seq<Routing>, s: Cluster)
    requires 0 < |ts| && BarriersOk(ts, s) && SentOk(ts, s) && ReturnedOk(ts, s)
    ensures Progress(s) <= Total(ts) && (Progress(s) == Total(ts) <==> Done(ts, s))
  {
    ClocksStop(s.at, |ts|);
    SentIsBounded(ts, s);
    ReturnedIsBounded(ts, s);
  }

  lemma SentIsBounded(ts: seq<Routing>, s: Cluster)
    requires 0 < |ts| && |s.at| == ts[0].nRanks && SentOk(ts, s)
    ensures |s.sent| <= Volume(ts[0].nRanks, LocalCounts(ts))
    ensures Done(ts, s) ==> |s.sent| == Volume(ts[0].nRanks, LocalCounts(ts))
  {
    forall k | k in s.sent
      ensures k.round < |ts| && k.rank < ts[0].nRanks && k.index < LocalCounts(ts)[k.round]
    {
      assert Belongs(s, k, 0);
    }
    MarksAreBounded(s.sent, ts[0].nRanks, LocalCounts(ts));
    if Done(ts, s) {
      DoneReached(ts, s);
    }
  }

  lemma ReturnedIsBounded(ts: seq<Routing>, s: Cluster)
    requires 0 < |ts| && |s.at| == ts[0].nRanks && ReturnedOk(ts, s)
    ensures |s.returned| <= Volume(ts[0].nRanks, SlotCounts(ts))
    ensures Done(ts, s) ==> |s.returned| == Volume(ts[0].nRanks, SlotCounts(ts))
  {
    forall k | k in s.returned
      ensures k.round < |ts| && k.rank < ts[0].nRanks && k.index < SlotCounts(ts)[k.round]
    {
      assert Belongs(s, k, 3);
    }
    MarksAreBounded(s.returned, ts[0].nRanks, SlotCounts(ts));
    if Done(ts, s) {
      DoneReached(ts, s);
    }
  }

  lemma DoneReached(ts: seq<Routing>, s: Cluster)
    requires 0 < |ts| && Done(ts, s)
    ensures forall q: nat, r: nat :: q < |s.at| && r < |ts| ==> s.at[q].Reached(r, 1) && s.at[q].Reached(r, 4)
  {
  }

  /** No run is longer than a complete one, and exactly the runs of that length have finished. */
  lemma RunsAreBounded(ts: seq<Routing>, f: RowFunction, trace: seq<Cluster>, steps: seq<Step>)
    requires ValidRounds(ts) && Run(ts, f, trace, steps)
    ensures |steps| <= Total(ts) && (|steps| == Total(ts) <==> Done(ts, trace[|steps|]))
  {
    ProgressCountsSteps(ts, f, trace, steps, |steps|);
    RunKeepsInv(ts, f, trace, steps, |steps|);
    ProgressIsBounded(ts, trace[|steps|]);
  }

  /** A run that cannot go on has finished: from any point, any schedule reaches the end. */
  lemma StuckRunsAreDone(ts: seq<Routing>, f: RowFunction, trace: seq<Cluster>, steps: seq<Step>)
    requires ValidRounds(ts) && Run(ts, f, trace, steps)
    ensures (forall step :: !Enabled(ts, trace[|steps|], step)) <==> Done(ts, trace[|steps|])
  {
    var s := trace[|steps|];
    RunsAreBounded(ts, f, trace, steps);
    NoDeadlock(ts, f, trace, steps, |steps|);
    if step :| Enabled(ts, s, step) {
      var trace', steps' := trace + [Next(ts, f, s, step)], steps + [step];
      forall n | 0 <= n < |steps'|
        ensures Moves(ts, f, trace'[n], steps'[n], trace'[n + 1])
      {
        if n < |steps| {
          assert Moves(ts, f, trace[n], steps[n], trace[n + 1]);
        }
      }
      RunsAreBounded(ts, f, trace', steps');
    }
  }
}
