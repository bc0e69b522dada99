/** Commits and their ancestors in an object store. */
module CommitGraph {

  type Sha = string

  /** The parents that a commit names; fixed by the commit's content. */
  type Parents = Sha -> set<Sha>

  /** A walk from a commit to its parents, their parents, and so on. */
  ghost predicate IsWalk(parents: Parents, walk: seq<Sha>) {
    walk != [] && forall k :: 0 <= k < |walk| - 1 ==> Link(parents, walk, k)
  }

  ghost predicate Link(parents: Parents, walk: seq<Sha>, k: nat)
    requires k + 1 < |walk|
  {
    walk[k + 1] in parents(walk[k])
  }

  ghost predicate Ancestor(parents: Parents, sha: Sha, a: Sha) {
    exists walk :: IsWalk(parents, walk) && walk[0] == sha && walk[|walk| - 1] == a
  }

  /** The commit and all its ancestors are present. */
  ghost predicate Connected(parents: Parents, objects: set<Sha>, sha: Sha) {
    forall a :: Ancestor(parents, sha, a) ==> a in objects
  }

  lemma OwnAncestor(parents: Parents, sha: Sha)
    ensures Ancestor(parents, sha, sha)
  {
    var walk := [sha];
    assert IsWalk(parents, walk) && walk[0] == sha && walk[|walk| - 1] == sha;
  }

  lemma ParentIsAncestor(parents: Parents, sha: Sha, a: Sha, p: Sha)
    requires Ancestor(parents, sha, a) && p in parents(a)
    ensures Ancestor(parents, sha, p)
  {
    var walk :| IsWalk(parents, walk) && walk[0] == sha && walk[|walk| - 1] == a;
    var longer := walk + [p];
    forall k | 0 <= k < |longer| - 1
      ensures Link(parents, longer, k)
    {
      if k < |walk| - 1 {
        assert Link(parents, walk, k);
      }
    }
    assert IsWalk(parents, longer) && longer[0] == sha && longer[|longer| - 1] == p;
  }

  ghost predicate ClosedUnder(parents: Parents, seen: set<Sha>) {
    forall c :: c in seen ==> parents(c) <= seen
  }

  lemma {:induction false} WalksStayIn(parents: Parents, seen: set<Sha>, walk: seq<Sha>, k: nat)
    requires ClosedUnder(parents, seen) && IsWalk(parents, walk) && walk[0] in seen && k < |walk|
    ensures walk[k] in seen
  {
    if k > 0 {
      WalksStayIn(parents, seen, walk, k - 1);
      assert Link(parents, walk, k - 1);
    }
  }

  lemma ClosedIsConnected(parents: Parents, objects: set<Sha>, seen: set<Sha>, sha: Sha)
    requires ClosedUnder(parents, seen) && sha in seen && seen <= objects
    ensures Connected(parents, objects, sha)
  {
    forall a | Ancestor(parents, sha, a)
      ensures a in objects
    {
      var walk :| IsWalk(parents, walk) && walk[0] == sha && walk[|walk| - 1] == a;
      WalksStayIn(parents, seen, walk, |walk| - 1);
    }
  }

  /** Objects are only ever added, so connectivity is never lost. */
  lemma ConnectedGrows(parents: Parents, objects: set<Sha>, more: set<Sha>, sha: Sha)
    requires Connected(parents, objects, sha) && objects <= more
    ensures Connected(parents, more, sha)
  {
  }

  /** `rev-list --quiet`: read every commit reached; fail on the first one that is missing. */
  method RevList(parents: Parents, objects: set<Sha>, sha: Sha) returns (ok: bool)
    ensures ok <==> Connected(parents, objects, sha)
  {
    var todo, seen: set<Sha> := {sha}, {};
    OwnAncestor(parents, sha);
    while todo != {}
      invariant seen <= objects && sha in seen + todo
      invariant forall c :: c in seen ==> parents(c) <= seen + todo
      invariant forall c :: c in seen + todo ==> Ancestor(parents, sha, c)
      decreases objects - seen, todo
    {
      var c :| c in todo;
      if c !in objects {
        return false;
      }
      forall p | p in parents(c)
        ensures Ancestor(parents, sha, p)
      {
        ParentIsAncestor(parents, sha, c, p);
      }
      seen := seen + {c};
      todo := (todo + parents(c)) - seen;
    }
    ClosedIsConnected(parents, objects, seen, sha);
    return true;
  }
}

/** The full pool of the fetch cache: objects, `have/<sha>` anchors and the advertised refs of one bare repository. */
module FetchCache {
  import opened CommitGraph

  type Ref = string

  datatype Bare = Bare(objects: set<Sha>, anchors: set<Sha>, adverts: map<Ref, Sha>)

  ghost predicate AnchorsConnected(parents: Parents, objects: set<Sha>, anchors: set<Sha>) {
    forall sha :: sha in anchors ==> Connected(parents, objects, sha)
  }

  lemma AnchorsStayConnected(parents: Parents, objects: set<Sha>, more: set<Sha>, anchors: set<Sha>)
    requires AnchorsConnected(parents, objects, anchors) && objects <= more
    ensures AnchorsConnected(parents, more, anchors)
  {
  }

  // ---------------------------------------------------------------- one writer alone

  /**
   A bare repository that one writer updates. Any git command may fail: `rev-list` for another reason than a missing
   object unless the repository is `readable`, `update-ref` for another reason than its own conditions unless it is
   `writable`.
   */
  class Repository {
    const parents: Parents
    const readable: bool
    const writable: bool
    var objects: set<Sha>
    var anchors: set<Sha>
    var adverts: map<Ref, Sha>

    constructor (parents: Parents, readable: bool, writable: bool)
      ensures this.parents == parents && this.readable == readable && this.writable == writable
      ensures objects == {} && anchors == {} && adverts == map[]
    {
      this.parents, this.readable, this.writable := parents, readable, writable;
      objects, anchors, adverts := {}, {}, map[];
    }

    ghost predicate Valid()
      reads this
    {
      AnchorsConnected(parents, objects, anchors)
    }

    /** `_is_connected`: any failure of `rev-list` reads as disconnected. */
    method IsConnected(sha: Sha) returns (ok: bool)
      ensures ok ==> Connected(parents, objects, sha)
      ensures readable ==> (ok <==> Connected(parents, objects, sha))
    {
      ok := RevList(parents, objects, sha);
      var runs: bool := *;
      ok := ok && (readable || runs);
    }

    /** `update-ref -d ref sha`: deletes the ref only if it still has that value. */
    method DeleteRef(ref: Ref, sha: Sha)
      modifies this`adverts
      ensures adverts == old(adverts)
           || (ref in old(adverts) && old(adverts)[ref] == sha && adverts == old(adverts) - {ref})
      ensures writable && ref in old(adverts) && old(adverts)[ref] == sha ==> ref !in adverts
    {
      var runs: bool := *;
      if (writable || runs) && ref in adverts && adverts[ref] == sha {
        adverts := adverts - {ref};
      }
    }

    /** `update-ref have/sha sha ""`: creates the anchor unless it exists or names a missing object. */
    method CreateAnchor(sha: Sha)
      modifies this`anchors
      ensures anchors == old(anchors) || (sha in objects && anchors == old(anchors) + {sha})
      ensures writable && sha in objects ==> sha in anchors
    {
      var runs: bool := *;
      if (writable || runs) && sha in objects && sha !in anchors {
        anchors := anchors + {sha};
      }
    }

    /** What pruning may do to a ref: a skipped tip stays; a tip goes only after its check, and must if disconnected. */
    ghost predicate Pruned(sha: Sha, verified: set<Sha>, kept: bool)
      reads this
    {
      && (sha in verified ==> kept)
      && (readable && Connected(parents, objects, sha) ==> kept)
      && (writable && sha !in verified && !Connected(parents, objects, sha) ==> !kept)
    }

    /** `_prune_disconnected_fetch_refs` */
    method PruneDisconnectedFetchRefs(verified: set<Sha>, listed: bool)
      modifies this`adverts
      ensures !listed ==> adverts == old(adverts)
      ensures listed ==> forall r :: r in old(adverts) ==> Pruned(old(adverts)[r], verified, r in adverts)
      ensures forall r :: r in adverts ==> r in old(adverts) && adverts[r] == old(adverts)[r]
    {
      if !listed {
        return;
      }
      ghost var before := adverts;
      var left := adverts;
      while left.Keys != {}
        invariant left.Keys <= before.Keys && adverts.Keys <= before.Keys
        invariant forall r :: r in left ==> left[r] == before[r] && r in adverts
        invariant forall r :: r in adverts ==> adverts[r] == before[r]
        invariant forall r :: r in before && r !in left ==> Pruned(before[r], verified, r in adverts)
        decreases left.Keys
      {
        var ref :| ref in left.Keys;
        var sha := left[ref];
        left := left - {ref};
        if sha !in verified {
          var ok := IsConnected(sha);
          if !ok {
            DeleteRef(ref, sha);
          }
        }
      }
    }

    /** `_replicate_src_refs_checked`: anchors only tips with full ancestry, and all of them if no command fails. */
    method ReplicateSrcRefsChecked(shas: set<Sha>, verified: set<Sha>)
      modifies this`anchors
      ensures old(anchors) <= anchors
      ensures forall sha :: sha in anchors - old(anchors) ==>
                sha in shas && sha !in verified && Connected(parents, objects, sha)
      ensures readable && writable ==>
                forall sha :: sha in shas && sha !in verified && Connected(parents, objects, sha) ==> sha in anchors
    {
      ghost var before := anchors;
      var left := shas;
      while left != {}
        invariant left <= shas && before <= anchors
        invariant forall sha :: sha in anchors - before ==>
                    sha in shas && sha !in verified && Connected(parents, objects, sha)
        invariant readable && writable ==>
                    forall sha :: sha in shas - left && sha !in verified && Connected(parents, objects, sha) ==>
                      sha in anchors
        decreases left
      {
        var sha :| sha in left;
        left := left - {sha};
        if sha !in verified {
          var ok := IsConnected(sha);
          if ok {
            OwnAncestor(parents, sha);
            CreateAnchor(sha);
          }
        }
      }
    }

    /**
     The update of the full pool after a fetch brought in `fetched` objects and force-updated `refs`. The skip set is
     the anchors that exist (`enumerated`) or nothing; the outcome does not depend on it. Whatever fails, no anchor is
     lost and only tips with full ancestry are anchored. If nothing fails, all of them are, and exactly the connected
     tips stay advertised.
     */
    method Update(fetched: set<Sha>, refs: map<Ref, Sha>, srcShas: set<Sha>, enumerated: bool, listed: bool)
      requires Valid()
      modifies this
      ensures Valid() && objects == old(objects) + fetched
      ensures old(anchors) <= anchors
      ensures forall sha :: sha in anchors ==>
                sha in old(anchors) || (sha in srcShas && Connected(parents, objects, sha))
      ensures readable && writable ==>
                forall sha :: sha in srcShas && Connected(parents, objects, sha) ==> sha in anchors
      ensures forall r :: r in adverts ==> r in old(adverts) + refs && adverts[r] == (old(adverts) + refs)[r]
      ensures listed && readable && writable ==> forall r :: r in adverts <==>
                r in old(adverts) + refs && Connected(parents, objects, (old(adverts) + refs)[r])
      ensures readable ==> forall r :: r in old(adverts) + refs ==>
                Connected(parents, objects, (old(adverts) + refs)[r]) ==> r in adverts
    {
      objects := objects + fetched;
      AnchorsStayConnected(parents, old(objects), objects, anchors);
      adverts := adverts + refs;
      var verified := if enumerated then anchors else {};
      PruneDisconnectedFetchRefs(verified, listed);
      ReplicateSrcRefsChecked(srcShas, verified);
    }
  }

  // ---------------------------------------------------------------- interleaved writers

  /** Where a writer stands in its update. `left` is what it has listed and not looked at yet. */
  datatype Writer =
    | Fetching
    | Fetched
    | Listing(verified: set<Sha>)
    | Pruning(verified: set<Sha>, refs: map<Ref, Sha>)
    | Deleting(verified: set<Sha>, refs: map<Ref, Sha>, ref: Ref, sha: Sha)
    | Replicating(verified: set<Sha>, shas: set<Sha>)
    | Anchoring(verified: set<Sha>, shas: set<Sha>, sha: Sha)

  datatype State = State(bare: Bare, writers: seq<Writer>)

  /** One git command, or the decision that follows one. `ok` is whether git succeeded. */
  datatype Step =
    | FetchObjects(w: nat, objects: set<Sha>)
    | FetchRef(w: nat, ref: Ref, sha: Sha)
    | FetchDone(w: nat)
    | ReadAnchors(w: nat, ok: bool)
    | ListRefs(w: nat, ok: bool, srcShas: set<Sha>)
    | PruneCheck(w: nat, ref: Ref, sha: Sha, ok: bool)
    | PruneDelete(w: nat, ok: bool)
    | PruneDone(w: nat, srcShas: set<Sha>)
    | AnchorCheck(w: nat, sha: Sha, ok: bool)
    | AnchorWrite(w: nat, ok: bool)
    | Finish(w: nat)
    | Crash(w: nat)

  ghost predicate Enabled(s: State, step: Step) {
    && step.w < |s.writers|
    && var me := s.writers[step.w];
      match step
      case FetchObjects(_, _) => me.Fetching?
      case FetchRef(_, _, _) => me.Fetching?
      case FetchDone(_) => me.Fetching?
      case ReadAnchors(_, _) => me.Fetched?
      case ListRefs(_, _, _) => me.Listing?
      case PruneCheck(_, ref, sha, _) => me.Pruning? && ref in me.refs && me.refs[ref] == sha
      case PruneDelete(_, _) => me.Deleting?
      case PruneDone(_, _) => me.Pruning? && me.refs == map[]
      case AnchorCheck(_, sha, _) => me.Replicating? && sha in me.shas
      case AnchorWrite(_, _) => me.Anchoring?
      case Finish(_) => me.Replicating? && me.shas == {}
      case Crash(_) => true
  }

  /** The writer after its step. */
  ghost function NextWriter(parents: Parents, bare: Bare, me: Writer, step: Step): Writer
    requires Enabled(State(bare, seq(step.w + 1, _ => me)), step)
  {
    match step
    case FetchObjects(_, _) => me
    case FetchRef(_, _, _) => me
    case FetchDone(_) => Fetched
    case ReadAnchors(_, ok) => Listing(if ok then bare.anchors else {})
    case ListRefs(_, ok, srcShas) =>
      if ok then Pruning(me.verified, bare.adverts) else Replicating(me.verified, srcShas)
    case PruneCheck(_, ref, sha, ok) =>
      var rest := me.refs - {ref};
      if sha in me.verified || (ok && Connected(parents, bare.objects, sha))
      then Pruning(me.verified, rest)
      else Deleting(me.verified, rest, ref, sha)
    case PruneDelete(_, _) => Pruning(me.verified, me.refs)
    case PruneDone(_, srcShas) => Replicating(me.verified, srcShas)
    case AnchorCheck(_, sha, ok) =>
      var rest := me.shas - {sha};
      if sha in me.verified || !(ok && Connected(parents, bare.objects, sha))
      then Replicating(me.verified, rest)
      else Anchoring(me.verified, rest, sha)
    case AnchorWrite(_, _) => Replicating(me.verified, me.shas)
    case Finish(_) => Fetching
    case Crash(_) => Fetching
  }

  /** The bare repository after a step. */
  ghost function NextBare(bare: Bare, me: Writer, step: Step): Bare
    requires step.PruneDelete? ==> me.Deleting?
    requires step.AnchorWrite? ==> me.Anchoring?
  {
    match step
    case FetchObjects(_, objects) => bare.(objects := bare.objects + objects)
    case FetchRef(_, ref, sha) => bare.(adverts := bare.adverts[ref := sha])
    case PruneDelete(_, ok) =>
      if ok && me.ref in bare.adverts && bare.adverts[me.ref] == me.sha
      then bare.(adverts := bare.adverts - {me.ref}) else bare
    case AnchorWrite(_, ok) =>
      if ok && me.sha in bare.objects then bare.(anchors := bare.anchors + {me.sha}) else bare
    case _ => bare
  }

  ghost function Next(parents: Parents, s: State, step: Step): State
    requires Enabled(s, step)
  {
    var me := s.writers[step.w];
    State(NextBare(s.bare, me, step), s.writers[step.w := NextWriter(parents, s.bare, me, step)])
  }

  // ---------------------------------------------------------------- what every step keeps

  ghost predicate WriterOk(parents: Parents, bare: Bare, me: Writer) {
    && (!me.Fetching? && !me.Fetched? ==> me.verified <= bare.anchors)
    && (me.Anchoring? ==> Connected(parents, bare.objects, me.sha))
  }

  /** Every anchor has its whole ancestry; every skip set holds anchors only; a decided anchor is still connected. */
  ghost predicate Inv(parents: Parents, s: State) {
    && AnchorsConnected(parents, s.bare.objects, s.bare.anchors)
    && forall w :: 0 <= w < |s.writers| ==> WriterOk(parents, s.bare, s.writers[w])
  }

  lemma NothingIsLost(parents: Parents, s: State, step: Step)
    requires Enabled(s, step)
    ensures s.bare.objects <= Next(parents, s, step).bare.objects
    ensures s.bare.anchors <= Next(parents, s, step).bare.anchors
  {
  }

  lemma StepKeepsInv(parents: Parents, s: State, step: Step)
    requires Inv(parents, s) && Enabled(s, step)
    ensures Inv(parents, Next(parents, s, step))
  {
  }

  // ---------------------------------------------------------------- runs

  ghost predicate CanRun(parents: Parents, s: State, steps: seq<Step>)
    decreases |steps|
  {
    steps == [] || (Enabled(s, steps[0]) && CanRun(parents, Next(parents, s, steps[0]), steps[1..]))
  }

  ghost function RunFrom(parents: Parents, s: State, steps: seq<Step>): State
    requires CanRun(parents, s, steps)
    decreases |steps|
  {
    if steps == [] then s else RunFrom(parents, Next(parents, s, steps[0]), steps[1..])
  }

  ghost predicate Initial(s: State) {
    s.bare == Bare({}, {}, map[]) && forall w :: 0 <= w < |s.writers| ==> s.writers[w].Fetching?
  }

  /**
   In every state that any number of interleaved writers can reach, every anchor has all its ancestors present; and
   from there on no anchor and no object is ever removed.
   */
  lemma {:induction false} RunKeepsInv(parents: Parents, s: State, steps: seq<Step>)
    requires Inv(parents, s) && CanRun(parents, s, steps)
    ensures Inv(parents, RunFrom(parents, s, steps))
    ensures s.bare.anchors <= RunFrom(parents, s, steps).bare.anchors
    ensures s.bare.objects <= RunFrom(parents, s, steps).bare.objects
    decreases |steps|
  {
    if steps != [] {
      StepKeepsInv(parents, s, steps[0]);
      NothingIsLost(parents, s, steps[0]);
      RunKeepsInv(parents, Next(parents, s, steps[0]), steps[1..]);
    }
  }

  lemma {:induction false} AnchorsAreConnected(parents: Parents, s: State, steps: seq<Step>, sha: Sha)
    requires Initial(s) && CanRun(parents, s, steps) && sha in RunFrom(parents, s, steps).bare.anchors
    ensures Connected(parents, RunFrom(parents, s, steps).bare.objects, sha)
  {
    RunKeepsInv(parents, s, steps);
  }

  /** Whatever a writer is about to skip, at any point of any run, would pass the check. */
  lemma {:induction false} SkippedIsConnected(parents: Parents, s: State, steps: seq<Step>, w: nat, sha: Sha)
    requires Initial(s) && CanRun(parents, s, steps) && w < |RunFrom(parents, s, steps).writers|
    requires var me := RunFrom(parents, s, steps).writers[w]; !me.Fetching? && !me.Fetched? && sha in me.verified
    ensures Connected(parents, RunFrom(parents, s, steps).bare.objects, sha)
  {
    RunKeepsInv(parents, s, steps);
    assert WriterOk(parents, RunFrom(parents, s, steps).bare, RunFrom(parents, s, steps).writers[w]);
  }

  /** No writer has decided to delete refs with this tip. */
  ghost predicate NotDoomed(s: State, sha: Sha) {
    forall w :: 0 <= w < |s.writers| && s.writers[w].Deleting? ==> s.writers[w].sha != sha
  }

  ghost predicate Advertised(s: State, ref: Ref, sha: Sha) {
    ref in s.bare.adverts && s.bare.adverts[ref] == sha
  }

  /**
   Pruning by any number of writers spares connected tips: a ref that points to one stays until a fetch moves it,
   even if the writers listed it before with another value, as long as `rev-list` does not fail on that tip.
   */
  lemma {:induction false} ConnectedTipIsKept(parents: Parents, s: State, steps: seq<Step>, ref: Ref, sha: Sha)
    requires CanRun(parents, s, steps) && Connected(parents, s.bare.objects, sha) && NotDoomed(s, sha)
    requires Advertised(s, ref, sha)
    requires forall k :: 0 <= k < |steps| && steps[k].FetchRef? ==> steps[k].ref != ref
    requires forall k :: 0 <= k < |steps| && steps[k].PruneCheck? && steps[k].sha == sha ==> steps[k].ok
    ensures Advertised(RunFrom(parents, s, steps), ref, sha) && NotDoomed(RunFrom(parents, s, steps), sha)
    decreases |steps|
  {
    if steps != [] {
      var next := Next(parents, s, steps[0]);
      NothingIsLost(parents, s, steps[0]);
      ConnectedGrows(parents, s.bare.objects, next.bare.objects, sha);
      ConnectedTipIsKept(parents, next, steps[1..], ref, sha);
    }
  }

  /** And only then: one failed check of a tip that is not skipped removes its ref, connected or not. */
  lemma {:induction false} FailedCheckPrunes(parents: Parents, s: State, w: nat, ref: Ref, sha: Sha)
    requires w < |s.writers| && s.writers[w].Pruning? && ref in s.writers[w].refs && s.writers[w].refs[ref] == sha
    requires sha !in s.writers[w].verified && Advertised(s, ref, sha)
    ensures var steps := [PruneCheck(w, ref, sha, false), PruneDelete(w, true)];
            CanRun(parents, s, steps) && ref !in RunFrom(parents, s, steps).bare.adverts
  {
    var check, delete := PruneCheck(w, ref, sha, false), PruneDelete(w, true);
    assert [check, delete][1..] == [delete];
    OneStep(parents, Next(parents, s, check), delete);
  }

  /** The next step of writer `w` is a delete that succeeds. */
  ghost predicate Deletes(steps: seq<Step>, w: nat) {
    exists k :: 0 <= k < |steps| && steps[k] == PruneDelete(w, true) && forall j :: 0 <= j < k ==> steps[j].w != w
  }

  /** Somewhere in the run a writer's check of this tip fails, it does not skip the tip, and its next step deletes. */
  ghost predicate Condemns(parents: Parents, s: State, steps: seq<Step>, ref: Ref, sha: Sha)
    requires CanRun(parents, s, steps)
    decreases |steps|
  {
    steps != [] && (CondemnsFirst(s, steps, ref, sha)
                    || Condemns(parents, Next(parents, s, steps[0]), steps[1..], ref, sha))
  }

  ghost predicate CondemnsFirst(s: State, steps: seq<Step>, ref: Ref, sha: Sha)
    requires steps != [] && Enabled(s, steps[0])
  {
    var w := steps[0].w;
    steps[0] == PruneCheck(w, ref, sha, false) && sha !in s.writers[w].verified && Deletes(steps[1..], w)
  }

  /** A writer that has already decided to delete this ref deletes it. */
  ghost predicate Pending(s: State, steps: seq<Step>, ref: Ref, sha: Sha) {
    exists w :: 0 <= w < |s.writers| && Condemned(s.writers[w], ref, sha) && Deletes(steps, w)
  }

  predicate Condemned(me: Writer, ref: Ref, sha: Sha) {
    me.Deleting? && me.ref == ref && me.sha == sha
  }

  ghost predicate NoFetchOf(steps: seq<Step>, ref: Ref) {
    forall k :: 0 <= k < |steps| && steps[k].FetchRef? ==> steps[k].ref != ref
  }

  lemma {:induction false} GoneStaysGone(parents: Parents, s: State, steps: seq<Step>, ref: Ref)
    requires CanRun(parents, s, steps) && NoFetchOf(steps, ref) && ref !in s.bare.adverts
    ensures ref !in RunFrom(parents, s, steps).bare.adverts
    decreases |steps|
  {
    if steps != [] {
      GoneStaysGone(parents, Next(parents, s, steps[0]), steps[1..], ref);
    }
  }

  lemma DeletesLater(steps: seq<Step>, w: nat)
    requires steps != [] && steps[0].w != w
    ensures Deletes(steps, w) <==> Deletes(steps[1..], w)
  {
    if Deletes(steps, w) {
      var k :| 0 <= k < |steps| && steps[k] == PruneDelete(w, true) && forall j :: 0 <= j < k ==> steps[j].w != w;
      assert steps[1..][k - 1] == PruneDelete(w, true);
      assert forall j :: 0 <= j < k - 1 ==> steps[1..][j] == steps[j + 1];
    }
    if Deletes(steps[1..], w) {
      var rest := steps[1..];
      var k :| 0 <= k < |rest| && rest[k] == PruneDelete(w, true) && forall j :: 0 <= j < k ==> rest[j].w != w;
      assert steps[k + 1] == PruneDelete(w, true);
      assert forall j :: 0 < j < k + 1 ==> steps[j] == rest[j - 1];
    }
  }

  /** Only a failing check condemns a connected tip, and only the writer's own next step decides. */
  lemma CondemnedBy(parents: Parents, s: State, step: Step, ref: Ref, sha: Sha, w: nat)
    requires Enabled(s, step) && Connected(parents, s.bare.objects, sha) && w < |s.writers|
    ensures Condemned(Next(parents, s, step).writers[w], ref, sha) <==>
              if step.w == w then step == PruneCheck(w, ref, sha, false) && sha !in s.writers[w].verified
              else Condemned(s.writers[w], ref, sha)
  {
  }

  /** What is pending after a step was pending before it, or the step condemns the tip. */
  lemma PendingStep(parents: Parents, s: State, steps: seq<Step>, ref: Ref, sha: Sha)
    requires steps != [] && Enabled(s, steps[0]) && Connected(parents, s.bare.objects, sha)
    requires !(steps[0] == PruneDelete(steps[0].w, true) && Condemned(s.writers[steps[0].w], ref, sha))
    ensures Pending(Next(parents, s, steps[0]), steps[1..], ref, sha) <==>
              Pending(s, steps, ref, sha) || CondemnsFirst(s, steps, ref, sha)
  {
    var next, rest := Next(parents, s, steps[0]), steps[1..];
    forall w: nat | w < |s.writers|
      ensures (Condemned(next.writers[w], ref, sha) && Deletes(rest, w)) <==>
                ((Condemned(s.writers[w], ref, sha) && Deletes(steps, w))
                 || (w == steps[0].w && CondemnsFirst(s, steps, ref, sha)))
    {
      CondemnedBy(parents, s, steps[0], ref, sha, w);
      if steps[0].w != w {
        DeletesLater(steps, w);
      } else {
        DeletesNow(steps, w);
      }
    }
  }

  lemma DeletesNow(steps: seq<Step>, w: nat)
    requires steps != [] && steps[0].w == w
    ensures Deletes(steps, w) <==> steps[0] == PruneDelete(w, true)
  {
  }

  lemma StaysAdvertised(parents: Parents, s: State, step: Step, ref: Ref, sha: Sha)
    requires Enabled(s, step) && Advertised(s, ref, sha) && (step.FetchRef? ==> step.ref != ref)
    ensures var deleted := step == PruneDelete(step.w, true) && Condemned(s.writers[step.w], ref, sha);
            var next := Next(parents, s, step);
            if deleted then ref !in next.bare.adverts else Advertised(next, ref, sha)
  {
  }

  lemma {:induction false} GoneExactly(parents: Parents, s: State, steps: seq<Step>, ref: Ref, sha: Sha)
    requires CanRun(parents, s, steps) && NoFetchOf(steps, ref)
    requires Connected(parents, s.bare.objects, sha) && Advertised(s, ref, sha)
    ensures ref !in RunFrom(parents, s, steps).bare.adverts <==>
              Pending(s, steps, ref, sha) || Condemns(parents, s, steps, ref, sha)
    decreases |steps|
  {
    if steps != [] {
      var step, next, rest := steps[0], Next(parents, s, steps[0]), steps[1..];
      StaysAdvertised(parents, s, step, ref, sha);
      assert NoFetchOf(rest, ref);
      if step == PruneDelete(step.w, true) && Condemned(s.writers[step.w], ref, sha) {
        DeletesNow(steps, step.w);
        GoneStaysGone(parents, next, rest, ref);
      } else {
        NothingIsLost(parents, s, step);
        ConnectedGrows(parents, s.bare.objects, next.bare.objects, sha);
        GoneExactly(parents, next, rest, ref, sha);
        PendingStep(parents, s, steps, ref, sha);
      }
    }
  }

  /**
   The two halves together. While no fetch moves the ref, a ref with a connected tip that nobody has condemned is
   removed by a run exactly if some writer's check of it fails, the writer does not skip it, and its next step deletes.
   */
  lemma {:induction false} ConnectedTipIsGoneExactly(parents: Parents, s: State, steps: seq<Step>, ref: Ref, sha: Sha)
    requires CanRun(parents, s, steps) && NoFetchOf(steps, ref)
    requires Connected(parents, s.bare.objects, sha) && Advertised(s, ref, sha) && NotDoomed(s, sha)
    ensures ref !in RunFrom(parents, s, steps).bare.adverts <==> Condemns(parents, s, steps, ref, sha)
  {
    GoneExactly(parents, s, steps, ref, sha);
  }

  // ---------------------------------------------------------------- memoised and unmemoised writers

  /** The same writer with nothing to skip. */
  ghost function Plain(me: Writer): Writer {
    match me
    case Listing(_) => Listing({})
    case Pruning(_, refs) => Pruning({}, refs)
    case Deleting(_, refs, ref, sha) => Deleting({}, refs, ref, sha)
    case Replicating(_, shas) => Replicating({}, shas)
    case Anchoring(_, shas, sha) => Anchoring({}, shas, sha)
    case _ => me
  }

  ghost function PlainState(s: State): State {
    State(s.bare, seq(|s.writers|, w requires 0 <= w < |s.writers| => Plain(s.writers[w])))
  }

  /** What a writer without a skip set does instead: it checks the tip and repeats an anchor that exists already. */
  ghost function PlainSteps(s: State, step: Step): seq<Step>
    requires Enabled(s, step)
  {
    match step
    case ReadAnchors(w, _) => [ReadAnchors(w, false)]
    case PruneCheck(w, ref, sha, _) =>
      if sha in s.writers[w].verified then [PruneCheck(w, ref, sha, true)] else [step]
    case AnchorCheck(w, sha, _) =>
      if sha in s.writers[w].verified then [AnchorCheck(w, sha, true), AnchorWrite(w, true)] else [step]
    case _ => [step]
  }

  lemma PlainUpdate(s: State, w: nat, me: Writer)
    requires w < |s.writers|
    ensures PlainState(s.(writers := s.writers[w := me])).writers == PlainState(s).writers[w := Plain(me)]
  {
  }

  /** A check that would be skipped. */
  ghost predicate Skips(s: State, step: Step)
    requires Enabled(s, step)
  {
    (step.PruneCheck? || step.AnchorCheck?) && step.sha in s.writers[step.w].verified
  }

  lemma PlainKeepsWriter(parents: Parents, s: State, step: Step)
    requires Inv(parents, s) && Enabled(s, step) && !step.ReadAnchors? && !Skips(s, step)
    ensures Enabled(PlainState(s), step)
    ensures Next(parents, PlainState(s), step) == PlainState(Next(parents, s, step))
  {
    var me := s.writers[step.w];
    assert PlainState(s).writers[step.w] == Plain(me);
    assert WriterOk(parents, s.bare, me);
    PlainUpdate(s, step.w, NextWriter(parents, s.bare, me, step));
  }

  lemma PlainReads(parents: Parents, s: State, step: Step)
    requires Enabled(s, step) && step.ReadAnchors?
    ensures var plain := ReadAnchors(step.w, false);
            Enabled(PlainState(s), plain) && Next(parents, PlainState(s), plain) == PlainState(Next(parents, s, step))
  {
  }

  lemma PlainPrunesSkipped(parents: Parents, s: State, step: Step)
    requires Inv(parents, s) && Enabled(s, step) && step.PruneCheck? && Skips(s, step)
    ensures var plain := PruneCheck(step.w, step.ref, step.sha, true);
            Enabled(PlainState(s), plain) && Next(parents, PlainState(s), plain) == PlainState(Next(parents, s, step))
  {
    var me := s.writers[step.w];
    assert PlainState(s).writers[step.w] == Plain(me);
    assert WriterOk(parents, s.bare, me);
    PlainUpdate(s, step.w, NextWriter(parents, s.bare, me, step));
  }

  lemma PlainChecksSkipped(parents: Parents, s: State, step: Step)
    requires Inv(parents, s) && Enabled(s, step) && step.AnchorCheck? && Skips(s, step)
    ensures var check, write := AnchorCheck(step.w, step.sha, true), AnchorWrite(step.w, true);
            && Enabled(PlainState(s), check)
            && Enabled(Next(parents, PlainState(s), check), write)
            && Next(parents, Next(parents, PlainState(s), check), write) == PlainState(Next(parents, s, step))
  {
    var me := s.writers[step.w];
    assert WriterOk(parents, s.bare, me);
    OwnAncestor(parents, step.sha);
    assert s.bare.anchors + {step.sha} == s.bare.anchors;
  }

  /** One step with a skip set is one or two steps without, and the bare repository ends up the same. */
  lemma StepWithoutSkipping(parents: Parents, s: State, step: Step)
    requires Inv(parents, s) && Enabled(s, step)
    ensures CanRun(parents, PlainState(s), PlainSteps(s, step))
    ensures RunFrom(parents, PlainState(s), PlainSteps(s, step)) == PlainState(Next(parents, s, step))
  {
    var p, steps := PlainState(s), PlainSteps(s, step);
    if step.ReadAnchors? {
      PlainReads(parents, s, step);
      OneStep(parents, p, steps[0]);
    } else if step.AnchorCheck? && Skips(s, step) {
      PlainChecksSkipped(parents, s, step);
      OneStep(parents, Next(parents, p, steps[0]), steps[1]);
      assert steps[1..] == [steps[1]];
    } else if step.PruneCheck? && Skips(s, step) {
      PlainPrunesSkipped(parents, s, step);
      OneStep(parents, p, steps[0]);
    } else {
      PlainKeepsWriter(parents, s, step);
      OneStep(parents, p, step);
    }
  }

  lemma {:induction false} OneStep(parents: Parents, s: State, step: Step)
    requires Enabled(s, step)
    ensures CanRun(parents, s, [step]) && RunFrom(parents, s, [step]) == Next(parents, s, step)
  {
  }

  lemma {:induction false} RunsCompose(parents: Parents, s: State, a: seq<Step>, b: seq<Step>)
    requires CanRun(parents, s, a) && CanRun(parents, RunFrom(parents, s, a), b)
    ensures CanRun(parents, s, a + b) && RunFrom(parents, s, a + b) == RunFrom(parents, RunFrom(parents, s, a), b)
    decreases |a|
  {
    if a == [] {
      assert a + b == b;
    } else {
      RunsCompose(parents, Next(parents, s, a[0]), a[1..], b);
      assert (a + b)[1..] == a[1..] + b;
    }
  }

  ghost function PlainRun(parents: Parents, s: State, steps: seq<Step>): seq<Step>
    requires CanRun(parents, s, steps)
    decreases |steps|
  {
    if steps == [] then []
    else PlainSteps(s, steps[0]) + PlainRun(parents, Next(parents, s, steps[0]), steps[1..])
  }

  ghost predicate NeverSkips(steps: seq<Step>) {
    forall k :: 0 <= k < |steps| && steps[k].ReadAnchors? ==> !steps[k].ok
  }

  /**
   Skipping memoised tips is safe: for every interleaved run there is a run in which no writer ever skips a check, and
   it ends with the same objects, anchors and advertised refs.
   */
  lemma {:induction false} MemoChangesNothing(parents: Parents, s: State, steps: seq<Step>)
    requires Inv(parents, s) && CanRun(parents, s, steps)
    ensures CanRun(parents, PlainState(s), PlainRun(parents, s, steps))
    ensures RunFrom(parents, PlainState(s), PlainRun(parents, s, steps)) == PlainState(RunFrom(parents, s, steps))
    ensures RunFrom(parents, PlainState(s), PlainRun(parents, s, steps)).bare == RunFrom(parents, s, steps).bare
    ensures NeverSkips(PlainRun(parents, s, steps))
    decreases |steps|
  {
    if steps != [] {
      var next := Next(parents, s, steps[0]);
      StepWithoutSkipping(parents, s, steps[0]);
      StepKeepsInv(parents, s, steps[0]);
      MemoChangesNothing(parents, next, steps[1..]);
      RunsCompose(parents, PlainState(s), PlainSteps(s, steps[0]), PlainRun(parents, next, steps[1..]));
    }
  }

  // ---------------------------------------------------------------- and back: memoised runs lose nothing

  /** A writer with a skip set follows one without, or has skipped a tip the other is about to anchor again. */
  ghost predicate Follows(me: Writer, plain: Writer) {
    || Plain(me) == plain
    || (me.Replicating? && plain.Anchoring? && plain == Anchoring({}, me.shas, plain.sha) && plain.sha in me.verified)
  }

  ghost predicate AllFollow(s: State, p: State) {
    && s.bare == p.bare && |s.writers| == |p.writers|
    && forall w :: 0 <= w < |s.writers| ==> Follows(s.writers[w], p.writers[w])
  }

  /** What a memoising writer does instead: it reads the anchors, and does not repeat one it has skipped. */
  ghost function MemoSteps(s: State, step: Step): seq<Step>
    requires step.w < |s.writers|
  {
    match step
    case ReadAnchors(w, _) => [ReadAnchors(w, true)]
    case AnchorWrite(w, _) => if s.writers[w].Anchoring? then [step] else []
    case _ => [step]
  }

  /** A check of an anchored tip, in the course of pruning, that fails for a reason of its own. */
  predicate FailsOnAnchored(s: State, step: Step) {
    step.PruneCheck? && !step.ok && step.sha in s.bare.anchors
  }

  ghost predicate AnchoredChecksWork(parents: Parents, s: State, steps: seq<Step>)
    requires CanRun(parents, s, steps)
    decreases |steps|
  {
    steps == [] || (!FailsOnAnchored(s, steps[0])
                    && AnchoredChecksWork(parents, Next(parents, s, steps[0]), steps[1..]))
  }

  ghost predicate Memoises(steps: seq<Step>) {
    forall k :: 0 <= k < |steps| && steps[k].ReadAnchors? ==> steps[k].ok
  }

  lemma FollowerCanStep(s: State, p: State, step: Step)
    requires AllFollow(s, p) && Enabled(p, step)
    ensures forall k :: 0 <= k < |MemoSteps(s, step)| ==> Enabled(s, MemoSteps(s, step)[k])
  {
    assert Follows(s.writers[step.w], p.writers[step.w]);
  }

  /** The writer that takes the step. */
  lemma FollowerSteps(parents: Parents, s: State, p: State, step: Step)
    requires Inv(parents, s) && AllFollow(s, p) && Enabled(p, step)
    requires !(step.ReadAnchors? && step.ok) && !FailsOnAnchored(p, step)
    requires MemoSteps(s, step) != [] && Enabled(s, MemoSteps(s, step)[0])
    ensures var s', p' := Next(parents, s, MemoSteps(s, step)[0]), Next(parents, p, step);
            s'.bare == p'.bare && Follows(s'.writers[step.w], p'.writers[step.w])
  {
    assert Follows(s.writers[step.w], p.writers[step.w]);
    assert WriterOk(parents, s.bare, s.writers[step.w]);
  }

  /** A write that is not repeated changes nothing. */
  lemma FollowerWaits(parents: Parents, s: State, p: State, step: Step)
    requires Inv(parents, s) && AllFollow(s, p) && Enabled(p, step) && MemoSteps(s, step) == []
    ensures AllFollow(s, Next(parents, p, step))
  {
    var w := step.w;
    assert Follows(s.writers[w], p.writers[w]);
    assert WriterOk(parents, s.bare, s.writers[w]);
    assert p.bare.anchors + {p.writers[w].sha} == p.bare.anchors;
  }

  lemma {:induction false} StepWithMemo(parents: Parents, s: State, p: State, step: Step)
    requires Inv(parents, s) && AllFollow(s, p) && Enabled(p, step)
    requires !(step.ReadAnchors? && step.ok) && !FailsOnAnchored(p, step)
    ensures CanRun(parents, s, MemoSteps(s, step))
    ensures AllFollow(RunFrom(parents, s, MemoSteps(s, step)), Next(parents, p, step))
  {
    var memo := MemoSteps(s, step);
    if memo == [] {
      FollowerWaits(parents, s, p, step);
    } else {
      FollowerCanStep(s, p, step);
      FollowerSteps(parents, s, p, step);
      OneStep(parents, s, memo[0]);
      assert memo == [memo[0]] && memo[0].w == step.w;
      var s', p' := Next(parents, s, memo[0]), Next(parents, p, step);
      forall w | 0 <= w < |s'.writers|
        ensures Follows(s'.writers[w], p'.writers[w])
      {
        if w != step.w {
          assert Follows(s.writers[w], p.writers[w]);
        }
      }
    }
  }

  lemma {:induction false} FollowedRun(parents: Parents, s: State, p: State, steps: seq<Step>) returns (memo: seq<Step>)
    requires Inv(parents, s) && AllFollow(s, p) && CanRun(parents, p, steps)
    requires NeverSkips(steps) && AnchoredChecksWork(parents, p, steps)
    ensures CanRun(parents, s, memo) && AllFollow(RunFrom(parents, s, memo), RunFrom(parents, p, steps))
    ensures Memoises(memo)
    decreases |steps|
  {
    if steps == [] {
      memo := [];
    } else {
      var first := MemoSteps(s, steps[0]);
      StepWithMemo(parents, s, p, steps[0]);
      RunKeepsInv(parents, s, first);
      assert NeverSkips(steps[1..]);
      var rest := FollowedRun(parents, RunFrom(parents, s, first), Next(parents, p, steps[0]), steps[1..]);
      RunsCompose(parents, s, first, rest);
      memo := first + rest;
    }
  }

  /**
   Conversely, skipping loses nothing: for every run in which no writer ever skips a check, and no check of an anchored
   tip fails while pruning, there is a run in which every writer reads its skip set, and it ends with the same objects,
   anchors and advertised refs.
   */
  lemma MemoLosesNothing(parents: Parents, s: State, steps: seq<Step>) returns (memo: seq<Step>)
    requires Inv(parents, s) && PlainState(s) == s && CanRun(parents, s, steps)
    requires NeverSkips(steps) && AnchoredChecksWork(parents, s, steps)
    ensures CanRun(parents, s, memo) && Memoises(memo)
    ensures RunFrom(parents, s, memo).bare == RunFrom(parents, s, steps).bare
  {
    forall w | 0 <= w < |s.writers|
      ensures Follows(s.writers[w], s.writers[w])
    {
      assert PlainState(s).writers[w] == s.writers[w];
    }
    memo := FollowedRun(parents, s, s, steps);
  }
}
