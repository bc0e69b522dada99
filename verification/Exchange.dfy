/**
 The exchange protocol between the ranks, for arbitrary routings of slots. In every round each rank scatters its token
 rows into the buffers of the ranks that own the routed experts; after a barrier each owner processes its rows,
 scatters the results back, and a second barrier ends the round. Rounds follow each other over the same two regions.
 Programs of one kernel run in any order, and ranks run at their own pace: a run is any interleaving that respects the
 barriers.
 */
module Exchange {
  import opened Results

  type Row = seq<real>

  /** A place in symmetric memory: a rank and a row of that rank's buffer. */
  type Place = (nat, nat)

  /** One round. A slot is one (token, selected expert) pair; the slots of padding tokens have no token. */
  datatype Routing = Routing(
    nRanks: nat,
    nLocal: nat,                  // tokens per rank
    owner: seq<nat>,              // rank that owns the expert of a slot
    gate: seq<nat>,               // row of a slot in the owner's buffer
    topk: seq<nat>,               // slot of a row
    token: seq<Option<Place>>,    // rank and local token of a slot
    home: seq<Place>,             // rank and row where the result of a slot belongs
    homes: map<Place, nat>,       // the slot whose result belongs in a place
    src: seq<seq<Row>>)           // the token rows of each rank
  {
    function Slots(): nat { |owner| }
  }

  /** What the dispatch kernel relies on. */
  ghost predicate Dispatchable(t: Routing) {
    && |t.gate| == |t.topk| == |t.token| == t.Slots()
    && (forall i :: 0 <= i < t.Slots() ==> t.owner[i] < t.nRanks)
    && (forall i :: 0 <= i < t.Slots() ==> t.gate[i] < t.Slots() && t.topk[t.gate[i]] == i)
    && (forall m :: 0 <= m < t.Slots() ==> t.topk[m] < t.Slots() && t.gate[t.topk[m]] == m)
    && (forall i :: 0 <= i < t.Slots() && t.token[i].Some? ==>
          t.token[i].value.0 < t.nRanks && t.token[i].value.1 < t.nLocal)
    && |t.src| == t.nRanks && forall q :: 0 <= q < t.nRanks ==> |t.src[q]| == t.nLocal
  }

  /** And the combine kernel: every result has a place of its own. */
  ghost predicate Valid(t: Routing) {
    && Dispatchable(t) && |t.home| == t.Slots()
    && (forall i :: 0 <= i < t.Slots() ==> t.home[i] in t.homes && t.homes[t.home[i]] == i)
    && (forall h {:trigger t.homes[h]} ::
          h in t.homes ==> h.0 < t.nRanks && t.homes[h] < t.Slots() && t.home[t.homes[h]] == h)
  }

  /** Row of the owner's buffer that receives the token of a slot. */
  function Destination(t: Routing, i: nat): Place
    requires i < t.Slots() == |t.gate|
  {
    (t.owner[i], t.gate[i])
  }

  /** The token row that a slot routes. */
  function SourceRow(t: Routing, i: nat): Row
    requires Dispatchable(t) && i < t.Slots() && t.token[i].Some?
  {
    t.src[t.token[i].value.0][t.token[i].value.1]
  }

  // ---------------------------------------------------------------- what one program writes

  /** Program `p` of the dispatch kernel on rank `q` stores its row into this place. */
  predicate Sends(t: Routing, q: nat, p: nat, place: Place)
    requires Dispatchable(t)
  {
    place.1 < t.Slots() && var i := t.topk[place.1]; place == Destination(t, i) && t.token[i] == Some((q, p))
  }

  ghost function ExpertPlaces(t: Routing): set<Place> {
    set r: nat, m: nat | r < t.nRanks && m < t.Slots() :: (r, m)
  }

  ghost function DispatchWrites(t: Routing, q: nat, p: nat): map<Place, Row>
    requires Dispatchable(t) && q < t.nRanks && p < t.nLocal
  {
    map place | place in ExpertPlaces(t) && Sends(t, q, p, place) :: t.src[q][p]
  }

  /** Program `m` of the combine kernel on rank `r`: nothing, unless `r` owns the expert of that row's slot. */
  ghost function CombineWrites(t: Routing, r: nat, m: nat, result: Row): map<Place, Row>
    requires Valid(t) && r < t.nRanks && m < t.Slots()
  {
    var i := t.topk[m];
    if t.owner[i] == r then map[t.home[i] := result] else map[]
  }

  /** Two different dispatch programs, on any ranks, write disjoint places. */
  lemma DispatchProgramsAreDisjoint(t: Routing, q: nat, p: nat, q': nat, p': nat)
    requires Dispatchable(t) && q < t.nRanks && p < t.nLocal && q' < t.nRanks && p' < t.nLocal
    requires (q, p) != (q', p')
    ensures DispatchWrites(t, q, p).Keys !! DispatchWrites(t, q', p').Keys
  {
  }

  /** Every row of every rank is written by exactly one combine program, and that program runs on the owner. */
  lemma CombineWriterIsUnique(t: Routing, place: Place, r: nat, m: nat, result: Row)
    requires Valid(t) && place in t.homes && r < t.nRanks && m < t.Slots()
    ensures place in CombineWrites(t, r, m, result) <==> (r, m) == Destination(t, t.homes[place])
  {
  }

  // ---------------------------------------------------------------- the state machine

  datatype Stage = Dispatching | AtFirstBarrier | Computing | Combining | AtSecondBarrier | Finished
  {
    function Level(): nat {
      match this
      case Dispatching => 0
      case AtFirstBarrier => 1
      case Computing => 2
      case Combining => 3
      case AtSecondBarrier => 4
      case Finished => 5
    }
  }

  /** How far a rank has come. */
  datatype At = At(round: nat, stage: Stage)
  {
    predicate Reached(r: nat, level: nat) {
      round > r || (round == r && stage.Level() >= level)
    }

    function Succ(): At {
      match stage
      case Dispatching => At(round, AtFirstBarrier)
      case AtFirstBarrier => At(round, Computing)
      case Computing => At(round, Combining)
      case Combining => At(round, AtSecondBarrier)
      case AtSecondBarrier => At(round, Finished)
      case Finished => At(round + 1, Dispatching)
    }

    /** The round whose rows the rank's expert buffer is being filled with. */
    function Due(): nat {
      if stage.Level() <= 2 then round else round + 1
    }
  }

  /** A program of one round: rank and token, or rank and row. */
  datatype Mark = Mark(round: nat, rank: nat, index: nat)

  datatype Cluster = Cluster(
    at: seq<At>,                       // of each rank
    sent: set<Mark>,                   // dispatch programs that have run
    experts: map<Place, Row>,          // the "dp_to_ep" region: row m of rank r
    output: map<Place, Row>,           // what the experts of rank r last made of row m
    returned: set<Mark>,               // combine programs that have run
    tokens: map<Place, Row>)           // the "ep_to_dp" region: row c of rank q

  /** `Advance`: arrive at a barrier, pass it, compute, or start the next round, whichever comes next for the rank. */
  datatype Step =
    | DispatchProgram(rank: nat, token: nat)
    | CombineProgram(rank: nat, row: nat)
    | Advance(rank: nat)

  /** Any function that an owner applies to each row of its buffer, in each round. */
  type RowFunction = (nat, nat, nat, Row) -> Row

  /** Rounds among the same ranks. */
  ghost predicate ValidRounds(ts: seq<Routing>) {
    0 < |ts| && forall r :: 0 <= r < |ts| ==> Valid(ts[r]) && ts[r].nRanks == ts[0].nRanks
  }

  /** Nothing has run; both regions are large enough for every round and hold arbitrary rows. */
  ghost predicate Initial(ts: seq<Routing>, s: Cluster)
    requires ValidRounds(ts)
  {
    && |s.at| == ts[0].nRanks && (forall q :: 0 <= q < |s.at| ==> s.at[q] == At(0, Dispatching))
    && s.sent == {} && s.returned == {}
    && Roomy(ts, s)
  }

  ghost predicate Roomy(ts: seq<Routing>, s: Cluster)
    requires ValidRounds(ts)
  {
    forall r :: 0 <= r < |ts| ==> ExpertPlaces(ts[r]) <= s.experts.Keys && ts[r].homes.Keys <= s.tokens.Keys
  }

  ghost predicate AllReached(s: Cluster, r: nat, level: nat) {
    forall q :: 0 <= q < |s.at| ==> s.at[q].Reached(r, level)
  }

  ghost predicate CanAdvance(ts: seq<Routing>, s: Cluster, q: nat)
    requires q < |s.at| && s.at[q].round < |ts|
  {
    var r := s.at[q].round;
    match s.at[q].stage
    case Dispatching => forall p: nat :: p < ts[r].nLocal ==> Mark(r, q, p) in s.sent
    case AtFirstBarrier => AllReached(s, r, 1)
    case Computing => true
    case Combining => forall m: nat :: m < ts[r].Slots() ==> Mark(r, q, m) in s.returned
    case AtSecondBarrier => AllReached(s, r, 4)
    case Finished => r + 1 < |ts|
  }

  ghost predicate Enabled(ts: seq<Routing>, s: Cluster, step: Step) {
    && step.rank < |s.at| && s.at[step.rank].round < |ts|
    && var a := s.at[step.rank];
      match step
      case DispatchProgram(q, p) =>
        a.stage.Dispatching? && q < ts[a.round].nRanks && p < ts[a.round].nLocal && Mark(a.round, q, p) !in s.sent
      case CombineProgram(o, m) =>
        && a.stage.Combining? && o < ts[a.round].nRanks && m < ts[a.round].Slots() && Mark(a.round, o, m) !in s.returned
        && (o, m) in s.output
      case Advance(q) => CanAdvance(ts, s, q)
  }

  ghost function Outputs(f: RowFunction, r: nat, o: nat, experts: map<Place, Row>): map<Place, Row> {
    map place | place in experts && place.0 == o :: f(r, o, place.1, experts[place])
  }

  ghost function Next(ts: seq<Routing>, f: RowFunction, s: Cluster, step: Step): Cluster
    requires ValidRounds(ts) && Enabled(ts, s, step)
  {
    var a := s.at[step.rank];
    match step
    case DispatchProgram(q, p) =>
      s.(sent := s.sent + {Mark(a.round, q, p)}, experts := s.experts + DispatchWrites(ts[a.round], q, p))
    case CombineProgram(o, m) =>
      s.(returned := s.returned + {Mark(a.round, o, m)},
         tokens := s.tokens + CombineWrites(ts[a.round], o, m, s.output[(o, m)]))
    case Advance(q) =>
      s.(at := s.at[q := a.Succ()],
         output := if a.stage.Computing? then s.output + Outputs(f, a.round, q, s.experts) else s.output)
  }

  /** A run: every step is enabled when it is taken and leads to the next state of the trace. */
  ghost predicate Run(ts: seq<Routing>, f: RowFunction, trace: seq<Cluster>, steps: seq<Step>)
    requires ValidRounds(ts)
  {
    && |trace| == |steps| + 1
    && Initial(ts, trace[0])
    && forall n :: 0 <= n < |steps| ==> Moves(ts, f, trace[n], steps[n], trace[n + 1])
  }

  ghost predicate Moves(ts: seq<Routing>, f: RowFunction, s: Cluster, step: Step, s': Cluster)
    requires ValidRounds(ts)
  {
    Enabled(ts, s, step) && s' == Next(ts, f, s, step)
  }

  // ---------------------------------------------------------------- what the buffers hold after each round

  /** The slot whose token a round routes into this place. */
  ghost function RoutedTo(t: Routing, place: Place): (i: Option<nat>)
    requires Dispatchable(t)
    ensures i.Some? ==> i.value < t.Slots() && t.token[i.value].Some? && Destination(t, i.value) == place
  {
    if place.1 < t.Slots() && Destination(t, t.topk[place.1]) == place && t.token[t.topk[place.1]].Some?
    then Some(t.topk[place.1]) else None
  }

  /** A row of an expert buffer after the first `n` dispatches: the last token routed to it, or what it held before. */
  ghost function Contents(ts: seq<Routing>, before: map<Place, Row>, n: nat, place: Place): Row
    requires ValidRounds(ts) && n <= |ts| && place in before
  {
    if n == 0 then before[place]
    else
      var i := RoutedTo(ts[n - 1], place);
      if i.Some? then SourceRow(ts[n - 1], i.value) else Contents(ts, before, n - 1, place)
  }

  /** What the owner makes of the row of slot `i` in round `r`. */
  ghost function Expected(ts: seq<Routing>, f: RowFunction, before: map<Place, Row>, r: nat, i: nat): Row
    requires ValidRounds(ts) && r < |ts| && i < ts[r].Slots() && Destination(ts[r], i) in before
  {
    f(r, ts[r].owner[i], ts[r].gate[i], Contents(ts, before, r + 1, Destination(ts[r], i)))
  }

  lemma HasRoom(ts: seq<Routing>, s: Cluster, r: nat, o: nat, m: nat)
    requires ValidRounds(ts) && Roomy(ts, s) && r < |ts| && o < ts[r].nRanks && m < ts[r].Slots()
    ensures (o, m) in s.experts
  {
    assert (o, m) in ExpertPlaces(ts[r]);
  }

  /** A row of a rank's result buffer after the first `n` rounds. */
  ghost function Outcome(ts: seq<Routing>, f: RowFunction, s0: Cluster, n: nat, h: Place): Row
    requires ValidRounds(ts) && Roomy(ts, s0) && n <= |ts| && h in s0.tokens
  {
    if n == 0 then s0.tokens[h]
    else if h in ts[n - 1].homes then
      HasRoom(ts, s0, n - 1, ts[n - 1].owner[ts[n - 1].homes[h]], ts[n - 1].gate[ts[n - 1].homes[h]]);
      Expected(ts, f, s0.experts, n - 1, ts[n - 1].homes[h])
    else Outcome(ts, f, s0, n - 1, h)
  }

  // ---------------------------------------------------------------- the invariant

  /** A row of an expert buffer while dispatch `n` is under way. */
  ghost function Filled(ts: seq<Routing>, before: map<Place, Row>, sent: set<Mark>, n: nat, place: Place): Row
    requires ValidRounds(ts) && n <= |ts| && place in before
  {
    if n < |ts| && RoutedTo(ts[n], place).Some? && MarkOf(ts[n], n, RoutedTo(ts[n], place).value) in sent
    then SourceRow(ts[n], RoutedTo(ts[n], place).value)
    else Contents(ts, before, n, place)
  }

  ghost function MarkOf(t: Routing, r: nat, i: nat): Mark
    requires Dispatchable(t) && i < t.Slots() && t.token[i].Some?
  {
    Mark(r, t.token[i].value.0, t.token[i].value.1)
  }

  /** A row of a result buffer while combine `n` is under way. */
  ghost function Gathered(ts: seq<Routing>, f: RowFunction, s0: Cluster, returned: set<Mark>, n: nat, h: Place): Row
    requires ValidRounds(ts) && Roomy(ts, s0) && n < |ts| && h in s0.tokens
  {
    if h in ts[n].homes && Mark(n, ts[n].owner[ts[n].homes[h]], ts[n].gate[ts[n].homes[h]]) in returned
    then Outcome(ts, f, s0, n + 1, h) else Outcome(ts, f, s0, n, h)
  }

  ghost predicate ExpertsOk(ts: seq<Routing>, s0: Cluster, s: Cluster)
    requires ValidRounds(ts)
  {
    && s.experts.Keys == s0.experts.Keys
    && forall place: Place {:trigger s.experts[place]} ::
         place in s.experts && place.0 < |s.at| && s.at[place.0].Due() <= |ts| ==>
           s.experts[place] == Filled(ts, s0.experts, s.sent, s.at[place.0].Due(), place)
  }

  ghost predicate OutputOk(ts: seq<Routing>, f: RowFunction, s0: Cluster, s: Cluster)
    requires ValidRounds(ts)
  {
    forall place: Place {:trigger s.output[place]} {:trigger place in s.output} ::
      (place in s0.experts && place.0 < |s.at| && s.at[place.0].round < |ts| && s.at[place.0].stage.Level() >= 3) ==>
        place in s.output && s.output[place] == Made(ts, f, s0, s.at[place.0].round, place)
  }

  /** What rank `place.0` makes of its row `place.1` in round `r`. */
  ghost function Made(ts: seq<Routing>, f: RowFunction, s0: Cluster, r: nat, place: Place): Row
    requires ValidRounds(ts) && r < |ts| && place in s0.experts
  {
    f(r, place.0, place.1, Contents(ts, s0.experts, r + 1, place))
  }

  ghost predicate TokensOk(ts: seq<Routing>, f: RowFunction, s0: Cluster, s: Cluster)
    requires ValidRounds(ts) && Roomy(ts, s0)
  {
    && s.tokens.Keys == s0.tokens.Keys
    && forall h: Place {:trigger s.tokens[h]} ::
         h in s.tokens && h.0 < |s.at| && s.at[h.0].round < |ts| ==>
           s.tokens[h] == Gathered(ts, f, s0, s.returned, s.at[h.0].round, h)
  }

  /** Dispatch programs run in the round their rank is in, and a rank stops dispatching only when all have run. */
  ghost predicate SentOk(ts: seq<Routing>, s: Cluster) {
    && (forall q: nat, r: nat, p: nat {:trigger Mark(r, q, p)} ::
          q < |s.at| && r < |ts| && p < ts[r].nLocal && s.at[q].Reached(r, 1) ==> Mark(r, q, p) in s.sent)
    && (forall k :: k in s.sent ==> Belongs(s, k, 0) && k.round < |ts| && k.index < ts[k.round].nLocal)
  }

  /** And so do combine programs. */
  ghost predicate ReturnedOk(ts: seq<Routing>, s: Cluster) {
    && (forall q: nat, r: nat, m: nat {:trigger Mark(r, q, m)} ::
          q < |s.at| && r < |ts| && m < ts[r].Slots() && s.at[q].Reached(r, 4) ==> Mark(r, q, m) in s.returned)
    && (forall k :: k in s.returned ==> Belongs(s, k, 3) && k.round < |ts| && k.index < ts[k.round].Slots())
  }

  predicate Belongs(s: Cluster, k: Mark, level: nat) {
    k.rank < |s.at| && s.at[k.rank].Reached(k.round, level)
  }

  /** A barrier: if one rank has come past it in round `r`, every rank has arrived at it. */
  ghost predicate Barrier(s: Cluster, level: nat) {
    forall q: nat, r: nat {:trigger s.at[q].Reached(r, level + 1)} ::
      q < |s.at| && s.at[q].Reached(r, level + 1) ==> AllReached(s, r, level)
  }

  ghost predicate BarriersOk(ts: seq<Routing>, s: Cluster)
    requires 0 < |ts|
  {
    && |s.at| == ts[0].nRanks && (forall q :: 0 <= q < |s.at| ==> s.at[q].round < |ts|)
    && Barrier(s, 1) && Barrier(s, 4)
  }

  ghost predicate Inv(ts: seq<Routing>, f: RowFunction, s0: Cluster, s: Cluster)
    requires ValidRounds(ts)
  {
    && Roomy(ts, s0)
    && BarriersOk(ts, s)
    && SentOk(ts, s) && ReturnedOk(ts, s)
    && ExpertsOk(ts, s0, s)
    && OutputOk(ts, f, s0, s)
    && TokensOk(ts, f, s0, s)
  }

  lemma InitialInv(ts: seq<Routing>, f: RowFunction, s: Cluster)
    requires ValidRounds(ts) && Initial(ts, s)
    ensures Inv(ts, f, s, s)
  {
    forall q: nat, r: nat | q < |s.at|
      ensures !s.at[q].Reached(r, 2) && !s.at[q].Reached(r, 5)
    {
    }
  }

  // ---------------------------------------------------------------- ranks are never more than a phase apart

  /** All programs of a round have run on all ranks. */
  ghost predicate AllMarked(marks: set<Mark>, r: nat, ranks: nat, width: nat) {
    forall q: nat, i: nat :: q < ranks && i < width ==> Mark(r, q, i) in marks
  }

  /** No program of a round has run. */
  ghost predicate NoneMarked(marks: set<Mark>, r: nat) {
    forall k :: k in marks ==> k.round != r
  }

  lemma Passed(s: Cluster, level: nat, q: nat, o: nat, r: nat)
    requires Barrier(s, level) && q < |s.at| && o < |s.at| && s.at[q].Reached(r, level + 1)
    ensures s.at[o].Reached(r, level)
  {
    assert AllReached(s, r, level);
  }

  lemma NotPassed(s: Cluster, level: nat, q: nat, o: nat, r: nat)
    requires Barrier(s, level) && q < |s.at| && o < |s.at| && !s.at[o].Reached(r, level)
    ensures !s.at[q].Reached(r, level + 1)
  {
    if s.at[q].Reached(r, level + 1) {
      Passed(s, level, q, o, r);
    }
  }

  /** While a rank dispatches in round `r`, every buffer is being filled for that round. */
  lemma WhenDispatching(ts: seq<Routing>, s: Cluster, q: nat, r: nat)
    requires 0 < |ts| && BarriersOk(ts, s) && q < |s.at| && s.at[q] == At(r, Dispatching)
    ensures forall o :: 0 <= o < |s.at| ==> s.at[o].Due() == r
    ensures ReturnedOk(ts, s) ==> NoneMarked(s.returned, r)
  {
    forall o | 0 <= o < |s.at|
      ensures s.at[o].Due() == r && !s.at[o].Reached(r, 2)
    {
      if r > 0 {
        Passed(s, 4, q, o, r - 1);
      }
      NotPassed(s, 1, o, q, r);
    }
    if ReturnedOk(ts, s) {
      forall k | k in s.returned
        ensures k.round != r
      {
        assert Belongs(s, k, 3);
      }
    }
  }

  /** A rank computes when all rows of the round have been sent, and none of the next. */
  lemma WhenComputing(ts: seq<Routing>, s: Cluster, q: nat, r: nat)
    requires 0 < |ts| && BarriersOk(ts, s) && SentOk(ts, s) && q < |s.at| && s.at[q] == At(r, Computing)
    ensures AllMarked(s.sent, r, |s.at|, ts[r].nLocal) && NoneMarked(s.sent, r + 1)
  {
    assert s.at[q].Reached(r, 2);
    assert AllReached(s, r, 1);
    forall k | k in s.sent
      ensures k.round != r + 1
    {
      assert Belongs(s, k, 0);
      NotPassed(s, 4, k.rank, q, r);
    }
  }

  /** While a rank combines in round `r`, every rank is in that round. */
  lemma WhenCombining(ts: seq<Routing>, s: Cluster, o: nat, r: nat)
    requires 0 < |ts| && BarriersOk(ts, s) && o < |s.at| && s.at[o] == At(r, Combining)
    ensures forall q :: 0 <= q < |s.at| ==> s.at[q].round == r
  {
    forall q | 0 <= q < |s.at|
      ensures s.at[q].round == r
    {
      Passed(s, 1, o, q, r);
      NotPassed(s, 4, q, o, r);
    }
  }

  /** A rank ends a round when all results of the round have been returned, and none of the next. */
  lemma WhenFinished(ts: seq<Routing>, s: Cluster, q: nat, r: nat)
    requires 0 < |ts| && BarriersOk(ts, s) && ReturnedOk(ts, s) && q < |s.at| && s.at[q] == At(r, Finished)
    ensures AllMarked(s.returned, r, |s.at|, ts[r].Slots()) && NoneMarked(s.returned, r + 1)
  {
    assert s.at[q].Reached(r, 5);
    assert AllReached(s, r, 4);
    forall k | k in s.returned
      ensures k.round != r + 1
    {
      assert Belongs(s, k, 3);
      NotPassed(s, 1, k.rank, q, r + 1);
    }
  }

  /** Once every dispatch program of round `r` has run, a row holds what it is to hold for that round. */
  lemma {:induction false} FilledIsComplete(ts: seq<Routing>, before: map<Place, Row>, sent: set<Mark>, r: nat,
                                            place: Place)
    requires ValidRounds(ts) && r < |ts| && AllMarked(sent, r, ts[0].nRanks, ts[r].nLocal) && place in before
    ensures Filled(ts, before, sent, r, place) == Contents(ts, before, r + 1, place)
  {
  }

  lemma {:induction false} NotYetFilled(ts: seq<Routing>, before: map<Place, Row>, sent: set<Mark>, r: nat,
                                        place: Place)
    requires ValidRounds(ts) && r <= |ts| && NoneMarked(sent, r) && place in before
    ensures Filled(ts, before, sent, r, place) == Contents(ts, before, r, place)
  {
  }

  /** Once every combine program of round `r` has run, a row holds the outcome of that round. */
  lemma {:induction false} GatheredIsComplete(ts: seq<Routing>, f: RowFunction, s0: Cluster, returned: set<Mark>,
                                              r: nat, h: Place)
    requires ValidRounds(ts) && Roomy(ts, s0) && r < |ts| && AllMarked(returned, r, ts[0].nRanks, ts[r].Slots())
    requires h in s0.tokens
    ensures Gathered(ts, f, s0, returned, r, h) == Outcome(ts, f, s0, r + 1, h)
  {
  }

  lemma {:induction false} NotYetGathered(ts: seq<Routing>, f: RowFunction, s0: Cluster, returned: set<Mark>, r: nat,
                                          h: Place)
    requires ValidRounds(ts) && Roomy(ts, s0) && r < |ts| && NoneMarked(returned, r) && h in s0.tokens
    ensures Gathered(ts, f, s0, returned, r, h) == Outcome(ts, f, s0, r, h)
  {
  }

  // ---------------------------------------------------------------- every step keeps the invariant

  lemma DispatchFills(ts: seq<Routing>, before: map<Place, Row>, sent: set<Mark>, r: nat, q: nat, p: nat, place: Place)
    requires ValidRounds(ts) && r < |ts| && q < ts[r].nRanks && p < ts[r].nLocal && place in before
    requires ExpertPlaces(ts[r]) <= before.Keys
    ensures Filled(ts, before, sent + {Mark(r, q, p)}, r, place) ==
              if place in DispatchWrites(ts[r], q, p) then DispatchWrites(ts[r], q, p)[place]
              else Filled(ts, before, sent, r, place)
  {
    var i := RoutedTo(ts[r], place);
    if i.Some? {
      assert place in ExpertPlaces(ts[r]);
    }
  }

  lemma DispatchKeepsExperts(ts: seq<Routing>, s0: Cluster, s: Cluster, s': Cluster, r: nat, q: nat, p: nat)
    requires ValidRounds(ts) && Roomy(ts, s0) && ExpertsOk(ts, s0, s)
    requires r < |ts| && q < ts[r].nRanks && p < ts[r].nLocal
    requires forall o :: 0 <= o < |s.at| ==> s.at[o].Due() == r
    requires s'.at == s.at && s'.sent == s.sent + {Mark(r, q, p)}
    requires s'.experts == s.experts + DispatchWrites(ts[r], q, p)
    ensures ExpertsOk(ts, s0, s')
  {
    assert s'.experts.Keys == s.experts.Keys + DispatchWrites(ts[r], q, p).Keys;
    forall place: Place | place in s'.experts && place.0 < |s'.at| && s'.at[place.0].Due() <= |ts|
      ensures s'.experts[place] == Filled(ts, s0.experts, s'.sent, s'.at[place.0].Due(), place)
    {
      DispatchFills(ts, s0.experts, s.sent, r, q, p, place);
      assert place in s.experts;
    }
  }

  lemma DispatchKeepsSent(ts: seq<Routing>, f: RowFunction, s: Cluster, step: Step)
    requires ValidRounds(ts) && SentOk(ts, s) && step.DispatchProgram? && Enabled(ts, s, step)
    ensures SentOk(ts, Next(ts, f, s, step))
  {
  }

  lemma DispatchKeepsInv(ts: seq<Routing>, f: RowFunction, s0: Cluster, s: Cluster, step: Step)
    requires ValidRounds(ts) && Inv(ts, f, s0, s) && step.DispatchProgram? && Enabled(ts, s, step)
    ensures Inv(ts, f, s0, Next(ts, f, s, step))
  {
    var s', r := Next(ts, f, s, step), s.at[step.rank].round;
    WhenDispatching(ts, s, step.rank, r);
    DispatchKeepsExperts(ts, s0, s, s', r, step.rank, step.token);
    DispatchKeepsSent(ts, f, s, step);
    SameBarriers(ts, s, s');
    SameMarks(ts, s, s');
    SameOutput(ts, f, s0, s, s');
    SameTokens(ts, f, s0, s, s');
  }

  /** Steps that move no rank keep what is said about the ranks alone. */
  lemma SameBarriers(ts: seq<Routing>, s: Cluster, s': Cluster)
    requires 0 < |ts| && BarriersOk(ts, s) && s'.at == s.at
    ensures BarriersOk(ts, s')
  {
    forall r: nat, level: nat | AllReached(s, r, level)
      ensures AllReached(s', r, level)
    {
    }
  }

  lemma SameMarks(ts: seq<Routing>, s: Cluster, s': Cluster)
    requires s'.at == s.at
    ensures SentOk(ts, s) && s'.sent == s.sent ==> SentOk(ts, s')
    ensures ReturnedOk(ts, s) && s'.returned == s.returned ==> ReturnedOk(ts, s')
  {
    forall k: Mark, level: nat
      ensures Belongs(s, k, level) == Belongs(s', k, level)
    {
    }
  }

  lemma SameExperts(ts: seq<Routing>, s0: Cluster, s: Cluster, s': Cluster)
    requires ValidRounds(ts) && ExpertsOk(ts, s0, s) && s'.sent == s.sent && s'.experts == s.experts
    requires |s'.at| == |s.at| && forall q :: 0 <= q < |s.at| ==> s'.at[q].Due() == s.at[q].Due()
    ensures ExpertsOk(ts, s0, s')
  {
  }

  lemma SameOutput(ts: seq<Routing>, f: RowFunction, s0: Cluster, s: Cluster, s': Cluster)
    requires ValidRounds(ts) && OutputOk(ts, f, s0, s) && s'.output == s.output && |s'.at| == |s.at|
    requires forall q :: 0 <= q < |s.at| && s'.at[q].stage.Level() >= 3 ==>
               s.at[q].stage.Level() >= 3 && s'.at[q].round == s.at[q].round
    ensures OutputOk(ts, f, s0, s')
  {
  }

  lemma SameTokens(ts: seq<Routing>, f: RowFunction, s0: Cluster, s: Cluster, s': Cluster)
    requires ValidRounds(ts) && Roomy(ts, s0) && TokensOk(ts, f, s0, s)
    requires s'.returned == s.returned && s'.tokens == s.tokens
    requires |s'.at| == |s.at| && forall q :: 0 <= q < |s.at| ==> s'.at[q].round == s.at[q].round
    ensures TokensOk(ts, f, s0, s')
  {
  }

  lemma CombineGathers(ts: seq<Routing>, f: RowFunction, s0: Cluster, returned: set<Mark>, r: nat, o: nat, m: nat,
                       result: Row, h: Place)
    requires ValidRounds(ts) && Roomy(ts, s0) && r < |ts| && o < ts[r].nRanks && m < ts[r].Slots() && h in s0.tokens
    requires (o, m) in s0.experts && result == Made(ts, f, s0, r, (o, m))
    ensures Gathered(ts, f, s0, returned + {Mark(r, o, m)}, r, h) ==
              if h in CombineWrites(ts[r], o, m, result) then CombineWrites(ts[r], o, m, result)[h]
              else Gathered(ts, f, s0, returned, r, h)
  {
    if h in ts[r].homes {
      CombineWriterIsUnique(ts[r], h, o, m, result);
    }
  }

  lemma CombineKeepsTokens(ts: seq<Routing>, f: RowFunction, s0: Cluster, s: Cluster, s': Cluster,
                           r: nat, o: nat, m: nat, result: Row)
    requires ValidRounds(ts) && Roomy(ts, s0) && TokensOk(ts, f, s0, s)
    requires r < |ts| && o < ts[r].nRanks && m < ts[r].Slots()
    requires forall q :: 0 <= q < |s.at| ==> s.at[q].round == r
    requires (o, m) in s0.experts && result == Made(ts, f, s0, r, (o, m))
    requires s'.at == s.at && s'.returned == s.returned + {Mark(r, o, m)}
    requires s'.tokens == s.tokens + CombineWrites(ts[r], o, m, result)
    ensures TokensOk(ts, f, s0, s')
  {
    CombineStaysInside(ts[r], s.tokens, o, m, result);
    forall h: Place | h in s'.tokens && h.0 < |s'.at| && s'.at[h.0].round < |ts|
      ensures s'.tokens[h] == Gathered(ts, f, s0, s'.returned, s'.at[h.0].round, h)
    {
      CombineGathers(ts, f, s0, s.returned, r, o, m, result, h);
      assert s.tokens[h] == Gathered(ts, f, s0, s.returned, r, h);
    }
  }

  lemma CombineStaysInside(t: Routing, tokens: map<Place, Row>, o: nat, m: nat, result: Row)
    requires Valid(t) && t.homes.Keys <= tokens.Keys && o < t.nRanks && m < t.Slots()
    ensures (tokens + CombineWrites(t, o, m, result)).Keys == tokens.Keys
  {
    assert t.home[t.topk[m]] in t.homes.Keys;
  }

  lemma CombineKeepsReturned(ts: seq<Routing>, f: RowFunction, s: Cluster, step: Step)
    requires ValidRounds(ts) && ReturnedOk(ts, s) && step.CombineProgram? && Enabled(ts, s, step)
    ensures ReturnedOk(ts, Next(ts, f, s, step))
  {
  }

  lemma CombineKeepsProgress(ts: seq<Routing>, f: RowFunction, s: Cluster, step: Step)
    requires ValidRounds(ts) && BarriersOk(ts, s) && SentOk(ts, s) && ReturnedOk(ts, s)
    requires step.CombineProgram? && Enabled(ts, s, step)
    ensures var s' := Next(ts, f, s, step);
            BarriersOk(ts, s') && SentOk(ts, s') && ReturnedOk(ts, s')
  {
    var s' := Next(ts, f, s, step);
    CombineKeepsReturned(ts, f, s, step);
    SameBarriers(ts, s, s');
    SameMarks(ts, s, s');
  }

  lemma CombineKeepsInputs(ts: seq<Routing>, f: RowFunction, s0: Cluster, s: Cluster, step: Step)
    requires ValidRounds(ts) && ExpertsOk(ts, s0, s) && OutputOk(ts, f, s0, s)
    requires step.CombineProgram? && Enabled(ts, s, step)
    ensures var s' := Next(ts, f, s, step);
            ExpertsOk(ts, s0, s') && OutputOk(ts, f, s0, s')
  {
    var s' := Next(ts, f, s, step);
    SameExperts(ts, s0, s, s');
    SameOutput(ts, f, s0, s, s');
  }

  lemma CombineReturnsResult(ts: seq<Routing>, f: RowFunction, s0: Cluster, s: Cluster, step: Step)
    requires ValidRounds(ts) && Roomy(ts, s0) && BarriersOk(ts, s) && OutputOk(ts, f, s0, s) && TokensOk(ts, f, s0, s)
    requires step.CombineProgram? && Enabled(ts, s, step)
    ensures TokensOk(ts, f, s0, Next(ts, f, s, step))
  {
    var s', r := Next(ts, f, s, step), s.at[step.rank].round;
    WhenCombining(ts, s, step.rank, r);
    HasRoom(ts, s0, r, step.rank, step.row);
    OutputIsMade(ts, f, s0, s, r, (step.rank, step.row));
    CombineKeepsTokens(ts, f, s0, s, s', r, step.rank, step.row, s.output[(step.rank, step.row)]);
  }

  lemma OutputIsMade(ts: seq<Routing>, f: RowFunction, s0: Cluster, s: Cluster, r: nat, place: Place)
    requires ValidRounds(ts) && OutputOk(ts, f, s0, s) && r < |ts|
    requires place in s0.experts && place.0 < |s.at| && s.at[place.0] == At(r, Combining)
    ensures place in s.output && s.output[place] == Made(ts, f, s0, r, place)
  {
  }

  lemma CombineKeepsInv(ts: seq<Routing>, f: RowFunction, s0: Cluster, s: Cluster, step: Step)
    requires ValidRounds(ts) && Inv(ts, f, s0, s) && step.CombineProgram? && Enabled(ts, s, step)
    ensures Inv(ts, f, s0, Next(ts, f, s, step))
  {
    CombineKeepsProgress(ts, f, s, step);
    CombineKeepsInputs(ts, f, s0, s, step);
    CombineReturnsResult(ts, f, s0, s, step);
  }

  lemma AdvanceReaches(a: At, r: nat, level: nat)
    requires level <= 5
    ensures a.Succ().Reached(r, level) <==>
              a.Reached(r, level) || (a.Succ().round == r && a.Succ().stage.Level() == level)
  {
  }

  lemma AdvanceKeepsReached(s: Cluster, q: nat, r: nat, level: nat)
    requires q < |s.at| && AllReached(s, r, level)
    ensures AllReached(s.(at := s.at[q := s.at[q].Succ()]), r, level)
  {
  }

  lemma AdvanceKeepsBarrier(s: Cluster, q: nat, level: nat)
    requires q < |s.at| && Barrier(s, level) && level in {1, 4}
    requires s.at[q].stage.Level() == level ==> AllReached(s, s.at[q].round, level)
    ensures Barrier(s.(at := s.at[q := s.at[q].Succ()]), level)
  {
    var s' := s.(at := s.at[q := s.at[q].Succ()]);
    forall k: nat, r: nat | k < |s'.at| && s'.at[k].Reached(r, level + 1)
      ensures AllReached(s', r, level)
    {
      AdvanceReaches(s.at[k], r, level + 1);
      assert AllReached(s, r, level);
      AdvanceKeepsReached(s, q, r, level);
    }
  }

  lemma AdvanceKeepsBarriers(ts: seq<Routing>, f: RowFunction, s: Cluster, step: Step)
    requires ValidRounds(ts) && BarriersOk(ts, s) && step.Advance? && Enabled(ts, s, step)
    ensures BarriersOk(ts, Next(ts, f, s, step))
  {
    AdvanceKeepsBarrier(s, step.rank, 1);
    AdvanceKeepsBarrier(s, step.rank, 4);
    var moved := s.(at := s.at[step.rank := s.at[step.rank].Succ()]);
    assert BarriersOk(ts, moved);
    SameBarriers(ts, moved, Next(ts, f, s, step));
  }

  lemma AdvanceKeepsSent(ts: seq<Routing>, f: RowFunction, s: Cluster, step: Step)
    requires ValidRounds(ts) && SentOk(ts, s) && step.Advance? && Enabled(ts, s, step)
    ensures SentOk(ts, Next(ts, f, s, step))
  {
    var s', a := Next(ts, f, s, step), s.at[step.rank];
    forall q: nat, r: nat, p: nat | q < |s.at| && r < |ts| && p < ts[r].nLocal && s'.at[q].Reached(r, 1)
      ensures Mark(r, q, p) in s.sent
    {
      AdvanceReaches(a, r, 1);
    }
    forall k | k in s.sent
      ensures Belongs(s', k, 0)
    {
      assert Belongs(s, k, 0);
    }
  }

  lemma AdvanceKeepsReturned(ts: seq<Routing>, f: RowFunction, s: Cluster, step: Step)
    requires ValidRounds(ts) && ReturnedOk(ts, s) && step.Advance? && Enabled(ts, s, step)
    ensures ReturnedOk(ts, Next(ts, f, s, step))
  {
    var s', a := Next(ts, f, s, step), s.at[step.rank];
    forall q: nat, r: nat, m: nat | q < |s.at| && r < |ts| && m < ts[r].Slots() && s'.at[q].Reached(r, 4)
      ensures Mark(r, q, m) in s.returned
    {
      AdvanceReaches(a, r, 4);
    }
    forall k | k in s.returned
      ensures Belongs(s', k, 3)
    {
      assert Belongs(s, k, 3);
      AdvanceReaches(a, k.round, 3);
    }
  }

  /** When a rank computes, its buffer is complete for this round and untouched by the next. */
  lemma {:induction false} ComputeSeesAll(ts: seq<Routing>, s0: Cluster, s: Cluster, r: nat, place: Place)
    requires ValidRounds(ts) && r < |ts| && ExpertsOk(ts, s0, s)
    requires AllMarked(s.sent, r, ts[0].nRanks, ts[r].nLocal) && NoneMarked(s.sent, r + 1)
    requires place in s.experts && place.0 < |s.at| && s.at[place.0] == At(r, Computing)
    ensures s.experts[place] == Contents(ts, s0.experts, r + 1, place) == Filled(ts, s0.experts, s.sent, r + 1, place)
  {
    FilledIsComplete(ts, s0.experts, s.sent, r, place);
    NotYetFilled(ts, s0.experts, s.sent, r + 1, place);
  }

  lemma ComputeKeepsExperts(ts: seq<Routing>, s0: Cluster, s: Cluster, s': Cluster, q: nat, r: nat)
    requires ValidRounds(ts) && r < |ts| && ExpertsOk(ts, s0, s) && q < |s.at| && s.at[q] == At(r, Computing)
    requires AllMarked(s.sent, r, ts[0].nRanks, ts[r].nLocal) && NoneMarked(s.sent, r + 1)
    requires s'.at == s.at[q := At(r, Combining)] && s'.experts == s.experts && s'.sent == s.sent
    ensures ExpertsOk(ts, s0, s')
  {
    forall place: Place | place in s'.experts && place.0 < |s'.at| && s'.at[place.0].Due() <= |ts|
      ensures s'.experts[place] == Filled(ts, s0.experts, s'.sent, s'.at[place.0].Due(), place)
    {
      if place.0 == q {
        ComputeSeesAll(ts, s0, s, r, place);
      }
    }
  }

  lemma ComputeMakesOutput(ts: seq<Routing>, f: RowFunction, s0: Cluster, s: Cluster, s': Cluster, q: nat, r: nat)
    requires ValidRounds(ts) && r < |ts| && ExpertsOk(ts, s0, s) && OutputOk(ts, f, s0, s)
    requires q < |s.at| && s.at[q] == At(r, Computing) && s'.at == s.at[q := At(r, Combining)]
    requires AllMarked(s.sent, r, ts[0].nRanks, ts[r].nLocal) && NoneMarked(s.sent, r + 1)
    requires s'.output == s.output + Outputs(f, r, q, s.experts)
    ensures OutputOk(ts, f, s0, s')
  {
    forall place: Place | place in s0.experts && place.0 < |s'.at| && s'.at[place.0].round < |ts|
                          && s'.at[place.0].stage.Level() >= 3
      ensures place in s'.output && s'.output[place] == Made(ts, f, s0, s'.at[place.0].round, place)
    {
      if place.0 == q {
        ComputeSeesAll(ts, s0, s, r, place);
      } else {
        assert place in s.output && s.output[place] == Made(ts, f, s0, s.at[place.0].round, place);
      }
    }
  }

  /** A rank that ends a round has all its results. */
  lemma {:induction false} RoundIsClosed(ts: seq<Routing>, f: RowFunction, s0: Cluster, s: Cluster, r: nat, h: Place)
    requires ValidRounds(ts) && Roomy(ts, s0) && r < |ts| && TokensOk(ts, f, s0, s)
    requires AllMarked(s.returned, r, ts[0].nRanks, ts[r].Slots())
    requires h in s.tokens && h.0 < |s.at| && s.at[h.0] == At(r, Finished)
    ensures s.tokens[h] == Outcome(ts, f, s0, r + 1, h)
  {
    GatheredIsComplete(ts, f, s0, s.returned, r, h);
  }

  /** And they are what it starts the next round with. */
  lemma RoundFollows(ts: seq<Routing>, f: RowFunction, s0: Cluster, s: Cluster, r: nat, h: Place)
    requires ValidRounds(ts) && Roomy(ts, s0) && r + 1 < |ts| && TokensOk(ts, f, s0, s)
    requires AllMarked(s.returned, r, ts[0].nRanks, ts[r].Slots()) && NoneMarked(s.returned, r + 1)
    requires h in s.tokens && h.0 < |s.at| && s.at[h.0] == At(r, Finished)
    ensures s.tokens[h] == Gathered(ts, f, s0, s.returned, r + 1, h)
  {
    RoundIsClosed(ts, f, s0, s, r, h);
    NotYetGathered(ts, f, s0, s.returned, r + 1, h);
  }

  lemma NextRoundKeepsRow(ts: seq<Routing>, f: RowFunction, s0: Cluster, s: Cluster, q: nat, r: nat, n: nat, h: Place)
    requires ValidRounds(ts) && Roomy(ts, s0) && r + 1 < |ts| && TokensOk(ts, f, s0, s)
    requires q < |s.at| && s.at[q] == At(r, Finished)
    requires AllMarked(s.returned, r, ts[0].nRanks, ts[r].Slots()) && NoneMarked(s.returned, r + 1)
    requires h in s.tokens && h.0 < |s.at| && n < |ts| && n == if h.0 == q then r + 1 else s.at[h.0].round
    ensures s.tokens[h] == Gathered(ts, f, s0, s.returned, n, h)
  {
    if h.0 == q {
      RoundFollows(ts, f, s0, s, r, h);
    }
  }

  lemma NextRoundKeepsTokens(ts: seq<Routing>, f: RowFunction, s0: Cluster, s: Cluster, s': Cluster, q: nat, r: nat)
    requires ValidRounds(ts) && Roomy(ts, s0) && r + 1 < |ts| && TokensOk(ts, f, s0, s)
    requires q < |s.at| && s.at[q] == At(r, Finished) && s'.at == s.at[q := At(r + 1, Dispatching)]
    requires AllMarked(s.returned, r, ts[0].nRanks, ts[r].Slots()) && NoneMarked(s.returned, r + 1)
    requires s'.tokens == s.tokens && s'.returned == s.returned
    ensures TokensOk(ts, f, s0, s')
  {
    forall h: Place | h in s'.tokens && h.0 < |s'.at| && s'.at[h.0].round < |ts|
      ensures s'.tokens[h] == Gathered(ts, f, s0, s'.returned, s'.at[h.0].round, h)
    {
      NextRoundKeepsRow(ts, f, s0, s, q, r, s'.at[h.0].round, h);
    }
  }

  /** Only computing changes what is due in a buffer or was made of it, and only the next round what was returned. */
  lemma AdvanceKeepsBuffers(ts: seq<Routing>, f: RowFunction, s0: Cluster, s: Cluster, step: Step)
    requires ValidRounds(ts) && Inv(ts, f, s0, s) && step.Advance? && Enabled(ts, s, step)
    ensures var s' := Next(ts, f, s, step);
            ExpertsOk(ts, s0, s') && OutputOk(ts, f, s0, s') && TokensOk(ts, f, s0, s')
  {
    var s', q := Next(ts, f, s, step), step.rank;
    var r := s.at[q].round;
    if s.at[q].stage.Computing? {
      WhenComputing(ts, s, q, r);
      ComputeKeepsExperts(ts, s0, s, s', q, r);
      ComputeMakesOutput(ts, f, s0, s, s', q, r);
    } else {
      SameExperts(ts, s0, s, s');
      SameOutput(ts, f, s0, s, s');
    }
    if s.at[q].stage.Finished? {
      WhenFinished(ts, s, q, r);
      NextRoundKeepsTokens(ts, f, s0, s, s', q, r);
    } else {
      SameTokens(ts, f, s0, s, s');
    }
  }

  lemma AdvanceKeepsInv(ts: seq<Routing>, f: RowFunction, s0: Cluster, s: Cluster, step: Step)
    requires ValidRounds(ts) && Inv(ts, f, s0, s) && step.Advance? && Enabled(ts, s, step)
    ensures Inv(ts, f, s0, Next(ts, f, s, step))
  {
    AdvanceKeepsBarriers(ts, f, s, step);
    AdvanceKeepsSent(ts, f, s, step);
    AdvanceKeepsReturned(ts, f, s, step);
    AdvanceKeepsBuffers(ts, f, s0, s, step);
  }

  /** Every step of every rank keeps the invariant. */
  lemma StepKeepsInv(ts: seq<Routing>, f: RowFunction, s0: Cluster, s: Cluster, step: Step)
    requires ValidRounds(ts) && Inv(ts, f, s0, s) && Enabled(ts, s, step)
    ensures Inv(ts, f, s0, Next(ts, f, s, step))
  {
    match step
    case DispatchProgram(_, _) => DispatchKeepsInv(ts, f, s0, s, step);
    case CombineProgram(_, _) => CombineKeepsInv(ts, f, s0, s, step);
    case Advance(_) => AdvanceKeepsInv(ts, f, s0, s, step);
  }

  /** Every state of every run satisfies the invariant. */
  lemma {:induction false} RunKeepsInv(ts: seq<Routing>, f: RowFunction, trace: seq<Cluster>, steps: seq<Step>, n: nat)
    requires ValidRounds(ts) && Run(ts, f, trace, steps) && n <= |steps|
    ensures Inv(ts, f, trace[0], trace[n])
  {
    if n == 0 {
      InitialInv(ts, f, trace[0]);
    } else {
      RunKeepsInv(ts, f, trace, steps, n - 1);
      assert Moves(ts, f, trace[n - 1], steps[n - 1], trace[n]);
      StepKeepsInv(ts, f, trace[0], trace[n - 1], steps[n - 1]);
    }
  }

  // ---------------------------------------------------------------- main results

  /** A rank has finished round `r` and has not arrived at the first barrier of the next one. */
  predicate HasResultsOf(a: At, r: nat) {
    a == At(r, Finished) || a == At(r + 1, Dispatching)
  }

  lemma {:induction false} FinishedHasOutcome(ts: seq<Routing>, f: RowFunction, s0: Cluster, s: Cluster, r: nat,
                                              h: Place)
    requires ValidRounds(ts) && Inv(ts, f, s0, s) && h in s0.tokens && h.0 < |s.at| && s.at[h.0] == At(r, Finished)
    ensures h in s.tokens && s.tokens[h] == Outcome(ts, f, s0, r + 1, h)
  {
    WhenFinished(ts, s, h.0, r);
    RoundIsClosed(ts, f, s0, s, r, h);
  }

  lemma {:induction false} DispatchingHasOutcome(ts: seq<Routing>, f: RowFunction, s0: Cluster, s: Cluster, n: nat,
                                                 h: Place)
    requires ValidRounds(ts) && Inv(ts, f, s0, s) && h in s0.tokens && h.0 < |s.at| && s.at[h.0] == At(n, Dispatching)
    ensures h in s.tokens && s.tokens[h] == Outcome(ts, f, s0, n, h)
  {
    WhenDispatching(ts, s, h.0, n);
    NotYetGathered(ts, f, s0, s.returned, n, h);
  }

  lemma {:induction false} RoundIsGathered(ts: seq<Routing>, f: RowFunction, s0: Cluster, s: Cluster, r: nat, h: Place)
    requires ValidRounds(ts) && Inv(ts, f, s0, s) && r < |ts| && h in s0.tokens
    requires h.0 < |s.at| && HasResultsOf(s.at[h.0], r)
    ensures h in s.tokens && s.tokens[h] == Outcome(ts, f, s0, r + 1, h)
  {
    if s.at[h.0] == At(r, Finished) {
      FinishedHasOutcome(ts, f, s0, s, r, h);
    } else {
      DispatchingHasOutcome(ts, f, s0, s, r + 1, h);
    }
  }

  /**
   Round trip. In every run, from the end of round `r` until it arrives at the first barrier of the next one, a rank
   finds in each of its rows the result that the owner of that row's slot computed from the slot's own token, whatever
   the schedule was, whatever the buffers held before, and however far ahead other ranks are.
   */
  lemma RoundTrip(ts: seq<Routing>, f: RowFunction, trace: seq<Cluster>, steps: seq<Step>, n: nat, r: nat, h: Place)
    requires ValidRounds(ts) && Run(ts, f, trace, steps) && n <= |steps| && r < |ts| && h in ts[r].homes
    requires h.0 < |trace[n].at| && HasResultsOf(trace[n].at[h.0], r)
    ensures h in trace[n].tokens
    ensures var t := ts[r];
            var i := t.homes[h];
            t.token[i].Some? ==> trace[n].tokens[h] == f(r, t.owner[i], t.gate[i], SourceRow(t, i))
  {
    RunKeepsInv(ts, f, trace, steps, n);
    var i := ts[r].homes[h];
    assert h in trace[0].tokens;
    HasRoom(ts, trace[0], r, ts[r].owner[i], ts[r].gate[i]);
    RoundIsGathered(ts, f, trace[0], trace[n], r, h);
  }

  /** Schedule independence: once all ranks are at the first barrier of a round, the rows to compute on are fixed. */
  lemma {:induction false} DispatchIsDeterministic(ts: seq<Routing>, f: RowFunction, trace: seq<Cluster>,
                                                   steps: seq<Step>, n: nat, r: nat, place: Place)
    requires ValidRounds(ts) && Run(ts, f, trace, steps) && n <= |steps| && r < |ts|
    requires AllReached(trace[n], r, 1) && place in trace[0].experts
    requires place.0 < |trace[n].at| && trace[n].at[place.0].Due() == r
    ensures place in trace[n].experts && trace[n].experts[place] == Contents(ts, trace[0].experts, r + 1, place)
  {
    RunKeepsInv(ts, f, trace, steps, n);
    assert AllMarked(trace[n].sent, r, ts[0].nRanks, ts[r].nLocal);
    FilledIsComplete(ts, trace[0].experts, trace[n].sent, r, place);
  }

  /** Schedule independence of whole rounds: two runs from the same buffers return the same rows, round by round. */
  lemma ExchangeIsDeterministic(ts: seq<Routing>, f: RowFunction, trace: seq<Cluster>, steps: seq<Step>, n: nat,
                                trace': seq<Cluster>, steps': seq<Step>, n': nat, r: nat, h: Place)
    requires ValidRounds(ts) && Run(ts, f, trace, steps) && n <= |steps| && Run(ts, f, trace', steps') && n' <= |steps'|
    requires trace[0] == trace'[0] && r < |ts| && h in trace[0].tokens
    requires h.0 < |trace[n].at| && HasResultsOf(trace[n].at[h.0], r)
    requires h.0 < |trace'[n'].at| && HasResultsOf(trace'[n'].at[h.0], r)
    ensures h in trace[n].tokens && h in trace'[n'].tokens && trace[n].tokens[h] == trace'[n'].tokens[h]
  {
    RunKeepsInv(ts, f, trace, steps, n);
    RunKeepsInv(ts, f, trace', steps', n');
    RoundIsGathered(ts, f, trace[0], trace[n], r, h);
    RoundIsGathered(ts, f, trace'[0], trace'[n'], r, h);
  }
}
