/** The pool of large-file objects: content-addressed files that many builds add to at the same time. */
module LfsPool {
  import opened Results

  type Oid = string
  type Bytes = seq<bv8>

  /** The content hash; nothing is assumed about it unless stated. */
  type Hash = Bytes -> Oid

  const MAX_SIZE: int := 64 * 1024 * 1024 * 1024

  ghost predicate Honest(hash: Hash, pool: map<Oid, Bytes>) {
    forall oid :: oid in pool ==> hash(pool[oid]) == oid
  }

  ghost predicate Injective(hash: Hash) {
    forall a, b :: hash(a) == hash(b) ==> a == b
  }

  // ---------------------------------------------------------------- interleaved ingests

  /** Where one ingest stands, and what its update has counted so far. */
  datatype Stage =
    | Ready
    | Missing(oid: Oid)
    | Staged(oid: Oid, content: Bytes)
    | Verified(oid: Oid, content: Bytes)
    | Stopped                         // an exception ended the update

  datatype Ingester = Ingester(stage: Stage, walked: nat, ingested: nat, skipped: nat, failed: nat)

  datatype State = State(pool: map<Oid, Bytes>, ingesters: seq<Ingester>)

  /**
   One file-system operation of ingester `w`. The copy yields arbitrary bytes, because the source may be anything and
   may change while it is read; the stage file belongs to the ingester alone.
   */
  datatype Step =
    | Look(w: nat, oid: Oid)          // the next object of the walk, and whether it is in the pool
    | Refuse(w: nat)                  // not a regular file, too large, or an operation failed
    | Raise(w: nat)                   // no directory or no stage file can be made
    | Copy(w: nat, content: Bytes)
    | Rehash(w: nat)
    | Rename(w: nat)

  ghost predicate Enabled(s: State, step: Step) {
    && step.w < |s.ingesters|
    && var stage := s.ingesters[step.w].stage;
      match step
      case Look(_, _) => stage.Ready?
      case Refuse(_) => !stage.Ready? && !stage.Stopped?
      case Raise(_) => stage.Missing?
      case Copy(_, _) => stage.Missing?
      case Rehash(_) => stage.Staged?
      case Rename(_) => stage.Verified?
  }

  ghost function Advance(hash: Hash, pool: map<Oid, Bytes>, me: Ingester, step: Step): Ingester
    requires Enabled(State(pool, seq(step.w + 1, _ => me)), step)
  {
    match step
    case Look(_, oid) =>
      if oid in pool then me.(walked := me.walked + 1, skipped := me.skipped + 1)
      else me.(walked := me.walked + 1, stage := Missing(oid))
    case Refuse(_) => me.(stage := Ready, failed := me.failed + 1)
    case Raise(_) => me.(stage := Stopped)
    case Copy(_, content) => me.(stage := Staged(me.stage.oid, content))
    case Rehash(_) =>
      if hash(me.stage.content) == me.stage.oid then me.(stage := Verified(me.stage.oid, me.stage.content))
      else me.(stage := Ready, failed := me.failed + 1)
    case Rename(_) => me.(stage := Ready, ingested := me.ingested + 1)
  }

  ghost function Next(hash: Hash, s: State, step: Step): State
    requires Enabled(s, step)
  {
    var me := s.ingesters[step.w];
    State(if step.Rename? then s.pool[me.stage.oid := me.stage.content] else s.pool,
          s.ingesters[step.w := Advance(hash, s.pool, me, step)])
  }

  ghost predicate IngesterOk(hash: Hash, me: Ingester) {
    && (me.stage.Verified? ==> hash(me.stage.content) == me.stage.oid)
    && me.ingested + me.skipped + me.failed + (if me.stage.Ready? then 0 else 1) == me.walked
  }

  ghost predicate Inv(hash: Hash, s: State) {
    Honest(hash, s.pool) && forall w :: 0 <= w < |s.ingesters| ==> IngesterOk(hash, s.ingesters[w])
  }

  lemma StepKeepsInv(hash: Hash, s: State, step: Step)
    requires Inv(hash, s) && Enabled(s, step)
    ensures Inv(hash, Next(hash, s, step))
    ensures s.pool.Keys <= Next(hash, s, step).pool.Keys
  {
  }

  ghost predicate CanRun(hash: Hash, s: State, steps: seq<Step>)
    decreases |steps|
  {
    steps == [] || (Enabled(s, steps[0]) && CanRun(hash, Next(hash, s, steps[0]), steps[1..]))
  }

  ghost function RunFrom(hash: Hash, s: State, steps: seq<Step>): State
    requires CanRun(hash, s, steps)
    decreases |steps|
  {
    if steps == [] then s else RunFrom(hash, Next(hash, s, steps[0]), steps[1..])
  }

  /** In every reachable state every visible object hashes to its own name, and no object is ever lost. */
  lemma {:induction false} RunKeepsInv(hash: Hash, s: State, steps: seq<Step>)
    requires Inv(hash, s) && CanRun(hash, s, steps)
    ensures Inv(hash, RunFrom(hash, s, steps)) && s.pool.Keys <= RunFrom(hash, s, steps).pool.Keys
    decreases |steps|
  {
    if steps != [] {
      StepKeepsInv(hash, s, steps[0]);
      RunKeepsInv(hash, Next(hash, s, steps[0]), steps[1..]);
    }
  }

  /** Without hash collisions, what a reader has seen under a name stays under that name. */
  lemma {:induction false} ContentIsStable(hash: Hash, s: State, steps: seq<Step>, oid: Oid)
    requires Injective(hash) && Inv(hash, s) && CanRun(hash, s, steps) && oid in s.pool
    ensures oid in RunFrom(hash, s, steps).pool && RunFrom(hash, s, steps).pool[oid] == s.pool[oid]
  {
    RunKeepsInv(hash, s, steps);
    assert hash(RunFrom(hash, s, steps).pool[oid]) == hash(s.pool[oid]);
  }

  /** An ingester between two objects has counted every object it walked exactly once; a stopped one misses the last. */
  lemma {:induction false} CountsAddUp(hash: Hash, s: State, steps: seq<Step>, w: nat)
    requires Inv(hash, s) && CanRun(hash, s, steps) && w < |RunFrom(hash, s, steps).ingesters|
    ensures var me := RunFrom(hash, s, steps).ingesters[w];
            && (me.stage.Ready? ==> me.ingested + me.skipped + me.failed == me.walked)
            && (me.stage.Stopped? ==> me.ingested + me.skipped + me.failed == me.walked - 1)
  {
    RunKeepsInv(hash, s, steps);
    assert IngesterOk(hash, RunFrom(hash, s, steps).ingesters[w]);
  }

  // ---------------------------------------------------------------- one update, others at work meanwhile

  /** What the file system answers for one object of the walk. */
  datatype Source = Source(
    oid: Oid,
    dirMade: bool,                  // whether the directory in the pool exists or can be made
    size: Option<int>,              // `stat`; missing if it fails or the file is not regular
    tempMade: bool,                 // whether the stage file can be made
    copied: Option<Bytes>,          // what arrived in the stage file; missing if the copy failed
    readable: bool,                 // whether the stage file can be read back
    renamed: bool)                  // whether the rename succeeds

  predicate Admissible(src: Source) {
    src.size.Some? && src.size.value <= MAX_SIZE
  }

  /** The two operations whose failure is not caught. */
  predicate Raises(src: Source) {
    !src.dirMade || (Admissible(src) && !src.tempMade)
  }

  /** Staged content is placed exactly when every check and operation on the way succeeds. */
  predicate Acceptable(hash: Hash, src: Source) {
    && src.dirMade && Admissible(src) && src.tempMade
    && src.copied.Some? && src.readable && hash(src.copied.value) == src.oid
    && src.renamed
  }

  datatype StageError = NoDirectory | NoStageFile

  datatype Outcome = Ingested | Skipped | Failed

  ghost function Tally(outcomes: seq<Outcome>, o: Outcome): nat {
    if outcomes == [] then 0
    else Tally(outcomes[..|outcomes| - 1], o) + if outcomes[|outcomes| - 1] == o then 1 else 0
  }

  class Pool {
    const hash: Hash
    var objects: map<Oid, Bytes>

    ghost predicate Valid()
      reads this
    {
      Honest(hash, objects)
    }

    constructor (hash: Hash)
      ensures this.hash == hash && objects == map[] && Valid()
    {
      this.hash := hash;
      objects := map[];
    }

    /** Other updates rename any number of objects into the pool; they follow the same protocol. */
    method OtherWriters()
      requires Valid()
      modifies this
      ensures Valid() && old(objects).Keys <= objects.Keys
    {
      var placed: map<Oid, Bytes> := *;
      if forall oid :: oid in placed ==> hash(placed[oid]) == oid {
        objects := objects + placed;
      }
    }

    /** `_ingest_lfs_object`; an error is an exception that leaves the function. */
    method IngestLfsObject(src: Source) returns (placed: Result<bool, StageError>)
      requires Valid()
      modifies this
      ensures Valid() && old(objects).Keys <= objects.Keys
      ensures placed.Err? <==> Raises(src)
      ensures placed == Ok(true) <==> Acceptable(hash, src)
      ensures placed == Ok(true) ==> src.oid in objects
    {
      if !src.dirMade {
        return Err(NoDirectory);
      }
      OtherWriters();
      if src.size.None? {
        return Ok(false);
      }
      if src.size.value > MAX_SIZE {
        return Ok(false);
      }
      if !src.tempMade {
        return Err(NoStageFile);
      }
      if src.copied.None? {
        return Ok(false);
      }
      var staged := src.copied.value;
      OtherWriters();
      var actual := if src.readable then Some(hash(staged)) else None;
      if actual != Some(src.oid) {
        return Ok(false);
      }
      if !src.renamed {
        return Ok(false);
      }
      OtherWriters();
      objects := objects[src.oid := staged];
      OtherWriters();
      return Ok(true);
    }

    /**
     `_update_lfs_pool`. Every object of the walk has one outcome and the counters tally the outcomes; whatever was
     ingested or skipped is visible in the end, and only what fails a check or an operation counts as failed. An
     exception stops the walk at the object that raised it, uncounted.
     */
    method UpdateLfsPool(walk: seq<Source>)
      returns (ingested: nat, skipped: nat, failed: nat, error: Option<StageError>, ghost outcomes: seq<Outcome>)
      requires Valid()
      modifies this
      ensures Valid() && old(objects).Keys <= objects.Keys
      ensures error.None? ==> |outcomes| == |walk|
      ensures error.Some? ==> |outcomes| < |walk| && Raises(walk[|outcomes|])
      ensures ingested + skipped + failed == |outcomes|
      ensures ingested == Tally(outcomes, Ingested) && skipped == Tally(outcomes, Skipped)
      ensures failed == Tally(outcomes, Failed)
      ensures forall i :: 0 <= i < |outcomes| ==> Outcomes(walk[i], outcomes[i], objects.Keys)
    {
      ingested, skipped, failed, error, outcomes := 0, 0, 0, None, [];
      var i := 0;
      while i < |walk|
        invariant i <= |walk| && |outcomes| == i && Valid() && old(objects).Keys <= objects.Keys
        invariant ingested + skipped + failed == i
        invariant ingested == Tally(outcomes, Ingested) && skipped == Tally(outcomes, Skipped)
        invariant failed == Tally(outcomes, Failed)
        invariant forall k :: 0 <= k < i ==> Outcomes(walk[k], outcomes[k], objects.Keys)
      {
        ghost var before := outcomes;
        if walk[i].oid in objects {
          skipped := skipped + 1;
          outcomes := outcomes + [Skipped];
        } else {
          var placed := IngestLfsObject(walk[i]);
          if placed.Err? {
            error := Some(placed.error);
            return;
          }
          if placed.value {
            ingested := ingested + 1;
            outcomes := outcomes + [Ingested];
          } else {
            failed := failed + 1;
            outcomes := outcomes + [Failed];
          }
        }
        assert outcomes[..i] == before;
        i := i + 1;
      }
    }

    ghost predicate Outcomes(src: Source, outcome: Outcome, visible: set<Oid>) {
      match outcome
      case Ingested => Acceptable(hash, src) && src.oid in visible
      case Skipped => src.oid in visible
      case Failed => !Acceptable(hash, src) && !Raises(src)
    }
  }
}
