/** Refreshing resources from the sources they were imported from
    (internal/resourcehub/refresh.go): a staged swap of several directories, all or none. */
module ResourceRefresh {
  import opened Wrappers
  import opened Saga
  import opened FreeNames
  import opened TreeDigest
  import opened ResourceSync
  import opened ResourceRegistry
  import ResourceTargets

  datatype Verb = UpdateIt | LeaveIt | Blocked
  datatype Step = Step(id: Id, verb: Verb, source: Path, before: Digest, after: Digest)
  datatype Review = Review(registryDigest: Digest, expiresAt: Time, steps: seq<Step>)
  datatype SavedReview = SavedReview(review: Review, digest: Digest)

  /** A copy of a changed source, waiting to be swapped in. */
  datatype Staged = Staged(stage: Place, entry: Registered)

  function StagesOf(staged: seq<Staged>): set<Place> {
    set s <- staged :: s.stage
  }

  function DirsOf(staged: seq<Staged>): set<Place> {
    set s <- staged :: Dir(s.entry.id)
  }

  function IdsOf(steps: seq<Step>): set<Id> {
    set step <- steps :: step.id
  }

  ghost predicate DistinctSteps(steps: seq<Step>) {
    forall i, j | 0 <= i < j < |steps| :: steps[i].id != steps[j].id
  }

  /** The resources that a review would update, and their directories. */
  ghost function UpdateIds(steps: seq<Step>): set<Id> {
    set step <- steps | step.verb.UpdateIt? :: step.id
  }

  ghost function UpdateDirs(steps: seq<Step>): set<Place> {
    set id <- UpdateIds(steps) :: Dir(id)
  }

  /** Every stage holds its package and is nobody's directory; no resource is staged twice. */
  ghost predicate Waiting(staged: seq<Staged>, files: map<Place, Package>) {
    && (forall s <- staged :: s.stage in files && files[s.stage].meta == s.entry && Dir(s.entry.id) in files)
    && (forall i, j | 0 <= i < j < |staged| ::
          staged[i].stage != staged[j].stage && staged[i].entry.id != staged[j].entry.id)
    && forall s <- staged :: s.stage.StageDir?
  }

  /** The directory swapped out for `s` is still there, under a name that was free. */
  ghost predicate BacksUp(u: Undo<Place, Package>, s: Staged, start: map<Place, Package>, files: map<Place, Package>) {
    && u.MoveBack? && u.path == Dir(s.entry.id) && u.backup.Some? && u.backup.value.BackupDir?
    && u.backup.value in files && u.backup.value !in start && u.path in start && files[u.backup.value] == start[u.path]
  }

  /** The run after `done` swaps: what it has changed and how to take it back. */
  datatype Swapping = Swapping(staged: seq<Staged>, done: nat, start: map<Place, Package>, files: map<Place, Package>,
                               undos: seq<Undo<Place, Package>>)
  {
    ghost predicate Undoable() {
      SameExcept(UndoAll(files, undos), start, StagesOf(staged)) && Avoids(undos, StagesOf(staged))
    }

    ghost predicate BackupsAreNew()
      requires done <= |staged|
    {
      |undos| == done && forall i | 0 <= i < done :: BacksUp(undos[i], staged[i], start, files)
    }

    ghost predicate Confined()
      requires done <= |staged|
    {
      forall p | p !in DirsOf(staged[..done]) + StagesOf(staged[..done]) && !(p.BackupDir? && p !in start) ::
        Kept(files, start, p)
    }

    ghost predicate SwappedIn(s: Staged) {
      Dir(s.entry.id) in files && s.stage in start && files[Dir(s.entry.id)] == start[s.stage]
    }

    ghost predicate Swapped()
      requires done <= |staged|
    {
      forall i | 0 <= i < done :: SwappedIn(staged[i])
    }

    ghost predicate Good()
      requires done <= |staged|
    {
      Undoable() && BackupsAreNew() && Confined() && Swapped()
    }
  }

  /** One swap: the directory is at a new backup name and the stage is in its place. */
  ghost predicate SwapFrame(s: Staged, before: map<Place, Package>, after: map<Place, Package>,
                            u: Undo<Place, Package>)
  {
    && u.MoveBack? && u.path == Dir(s.entry.id) && u.backup.Some?
    && u.backup.value.BackupDir? && u.backup.value !in before
    && s.stage in before && Dir(s.entry.id) in before
    && after == before[u.backup.value := before[Dir(s.entry.id)]][Dir(s.entry.id) := before[s.stage]] - {s.stage}
  }

  lemma StagesAvoided(g: Swapping, u: Undo<Place, Package>)
    requires g.done < |g.staged| && Waiting(g.staged, g.start)
    requires u.MoveBack? && u.path == Dir(g.staged[g.done].entry.id) && u.backup.Some? && u.backup.value.BackupDir?
    ensures Avoids([u], StagesOf(g.staged))
  {
    assert u.path in DirsOf(g.staged);
  }

  lemma SwapExtendsUndoable(g: Swapping, after: map<Place, Package>, u: Undo<Place, Package>)
    requires g.done < |g.staged| && Waiting(g.staged, g.start) && g.Undoable()
    requires SwapFrame(g.staged[g.done], g.files, after, u)
    ensures g.(files := after, undos := g.undos + [u]).Undoable()
  {
    var scratch := StagesOf(g.staged);
    StagesAvoided(g, u);
    assert g.staged[g.done].stage in scratch;
    assert SameExcept(UndoOne(after, u), g.files, scratch);
    SagaStep(g.start, g.files, after, g.undos, u, scratch);
  }

  /** One swap that worked extends a good run. */
  lemma SwapExtends(g: Swapping, after: map<Place, Package>, u: Undo<Place, Package>)
    requires g.done < |g.staged| && Waiting(g.staged, g.start) && g.Good()
    requires SwapFrame(g.staged[g.done], g.files, after, u)
    ensures g.(done := g.done + 1, files := after, undos := g.undos + [u]).Good()
  {
    SwapExtendsUndoable(g, after, u);
    SwapExtendsBackups(g, after, u);
    assert u.backup.value !in g.start by { NewBackupIsNew(g, after, u); }
    SwapStaysConfined(g, g.(done := g.done + 1, files := after, undos := g.undos + [u]), u);
    SwapExtendsSwapped(g, after, u);
  }

  lemma SwapExtendsSwapped(g: Swapping, after: map<Place, Package>, u: Undo<Place, Package>)
    requires g.done < |g.staged| && Waiting(g.staged, g.start) && g.Swapped() && g.Confined()
    requires SwapFrame(g.staged[g.done], g.files, after, u)
    ensures g.(done := g.done + 1, files := after, undos := g.undos + [u]).Swapped()
  {
    assert g.staged[g.done].stage in StagesOf(g.staged) && Dir(g.staged[g.done].entry.id) in DirsOf(g.staged);
    NextIsWaiting(g);
    forall i | 0 <= i < g.done
      ensures Kept(after, g.files, Dir(g.staged[i].entry.id))
    {
      EarlierIsKept(g, after, u, i);
    }
  }

  lemma EarlierIsKept(g: Swapping, after: map<Place, Package>, u: Undo<Place, Package>, i: nat)
    requires i < g.done < |g.staged| && Waiting(g.staged, g.start)
    requires SwapFrame(g.staged[g.done], g.files, after, u)
    ensures Kept(after, g.files, Dir(g.staged[i].entry.id))
  {
    assert Dir(g.staged[i].entry.id) in DirsOf(g.staged) && g.staged[g.done].stage in StagesOf(g.staged);
  }

  lemma SwapExtendsBackups(g: Swapping, after: map<Place, Package>, u: Undo<Place, Package>)
    requires g.done < |g.staged| && Waiting(g.staged, g.start) && g.Confined() && g.BackupsAreNew()
    requires SwapFrame(g.staged[g.done], g.files, after, u)
    ensures g.(done := g.done + 1, files := after, undos := g.undos + [u]).BackupsAreNew()
  {
    NewBackupIsNew(g, after, u);
    NextIsWaiting(g);
    assert BacksUp(u, g.staged[g.done], g.start, after);
    forall i | 0 <= i < g.done ensures BacksUp(g.undos[i], g.staged[i], g.start, after) {
      assert BacksUp(g.undos[i], g.staged[i], g.start, g.files);
      assert g.staged[g.done] in g.staged && Kept(after, g.files, g.undos[i].backup.value);
    }
  }

  lemma NewBackupIsNew(g: Swapping, after: map<Place, Package>, u: Undo<Place, Package>)
    requires g.done < |g.staged| && Waiting(g.staged, g.start) && g.Confined()
    requires SwapFrame(g.staged[g.done], g.files, after, u)
    ensures u.backup.value !in g.start
  {
    BackupsAreUntouched(g, u.backup.value);
    assert u.backup.value in g.start ==> Kept(g.files, g.start, u.backup.value);
  }

  lemma BackupsAreUntouched(g: Swapping, p: Place)
    requires g.done <= |g.staged| && Waiting(g.staged, g.start) && p.BackupDir?
    ensures p !in DirsOf(g.staged[..g.done]) + StagesOf(g.staged[..g.done])
  {
    assert forall s <- g.staged[..g.done] :: Dir(s.entry.id) != p && s.stage != p;
  }

  lemma SwapStaysConfined(g: Swapping, g': Swapping, u: Undo<Place, Package>)
    requires g.done < |g.staged| && g.Confined()
    requires g' == g.(done := g.done + 1, files := g'.files, undos := g.undos + [u])
    requires SwapFrame(g.staged[g.done], g.files, g'.files, u)
    requires u.backup.value !in g.start
    ensures g'.Confined()
  {
    var s := g.staged[g.done];
    assert g.staged[..g.done + 1] == g.staged[..g.done] + [s];
    assert DirsOf(g.staged[..g.done + 1]) == DirsOf(g.staged[..g.done]) + {Dir(s.entry.id)};
    assert StagesOf(g.staged[..g.done + 1]) == StagesOf(g.staged[..g.done]) + {s.stage};
    forall p | p !in DirsOf(g.staged[..g.done + 1]) + StagesOf(g.staged[..g.done + 1]) &&
               !(p.BackupDir? && p !in g.start)
      ensures Kept(g'.files, g.start, p)
    {
      assert Kept(g.files, g.start, p);
    }
  }

  /** The next stage is still waiting. */
  lemma NextIsWaiting(g: Swapping)
    requires g.done < |g.staged| && Waiting(g.staged, g.start) && g.Confined()
    ensures Kept(g.files, g.start, g.staged[g.done].stage) && Kept(g.files, g.start, Dir(g.staged[g.done].entry.id))
  {
    var s := g.staged[g.done];
    assert s.stage in StagesOf(g.staged) && Dir(s.entry.id) in DirsOf(g.staged);
    forall t <- g.staged[..g.done]
      ensures t.stage != s.stage && Dir(t.entry.id) != Dir(s.entry.id) && t.stage != Dir(s.entry.id)
      ensures Dir(t.entry.id) != s.stage
    {
      var i :| 0 <= i < g.done && g.staged[i] == t;
      assert t.stage in StagesOf(g.staged) && Dir(t.entry.id) in DirsOf(g.staged);
    }
  }

  lemma NextCanBeSwapped(g: Swapping)
    requires g.done < |g.staged| && Waiting(g.staged, g.start) && g.Good()
    ensures var s := g.staged[g.done];
      s.stage in g.files && s.stage.StageDir? && g.files[s.stage].meta == s.entry
  {
    var s := g.staged[g.done];
    NextIsWaiting(g);
    assert s in g.staged && s.stage in StagesOf(g.staged) && Dir(s.entry.id) in DirsOf(g.staged);
  }

  lemma NothingSwapped(staged: seq<Staged>, files: map<Place, Package>)
    ensures Swapping(staged, 0, files, files, []).Good()
  {
  }

  // ------------------------------------------------------------ the new registry

  function Updated(registry: map<Id, Registered>, staged: seq<Staged>): map<Id, Registered>
    decreases |staged|
  {
    if staged == [] then registry
    else
      var last := staged[|staged| - 1].entry;
      Updated(registry, staged[..|staged| - 1])[last.id := last]
  }

  lemma {:induction false} UpdatedLooksUp(registry: map<Id, Registered>, staged: seq<Staged>, id: Id)
    ensures id in Updated(registry, staged) <==> id in registry || exists s <- staged :: s.entry.id == id
    ensures (forall s <- staged :: s.entry.id != id) ==> Kept(Updated(registry, staged), registry, id)
    ensures forall s <- staged | s.entry.id == id && (forall t <- staged :: t.entry.id == id ==> t == s) ::
      Updated(registry, staged)[id] == s.entry
    decreases |staged|
  {
    if staged != [] {
      var n := |staged| - 1;
      assert staged == staged[..n] + [staged[n]];
      UpdatedLooksUp(registry, staged[..n], id);
    }
  }

  /** What waits in the stages has the digests of the entries that wait with it. */
  ghost predicate IntactStages(staged: seq<Staged>, files: map<Place, Package>, digestOf: Digester) {
    forall s <- staged :: s.stage in files && digestOf("content", files[s.stage].content) == Some(s.entry.digest)
  }

  ghost function StagedIds(staged: seq<Staged>): set<Id> {
    set s <- staged :: s.entry.id
  }

  /** After all the swaps the new registry describes the new directories, and all those that
      it described before. */
  lemma HeldAfterRefresh(registry: map<Id, Registered>, g: Swapping, digestOf: Digester)
    requires Waiting(g.staged, g.start) && IntactStages(g.staged, g.start, digestOf)
    requires g.done == |g.staged| && g.Confined() && g.Swapped()
    ensures
      Held(registry, g.start, digestOf) + StagedIds(g.staged) <= Held(Updated(registry, g.staged), g.files, digestOf)
  {
    assert g.staged[..g.done] == g.staged;
    forall id <- Held(registry, g.start, digestOf) + StagedIds(g.staged)
      ensures Holds(Updated(registry, g.staged), g.files, digestOf, id)
    {
      UpdatedLooksUp(registry, g.staged, id);
      if s :| s in g.staged && s.entry.id == id {
        OnlyOneStaged(g.staged, g.start, s);
        var i :| 0 <= i < |g.staged| && g.staged[i] == s;
        assert g.SwappedIn(g.staged[i]);
      } else {
        OthersAreKept(g, id, registry);
      }
    }
  }

  lemma OnlyOneStaged(staged: seq<Staged>, files: map<Place, Package>, s: Staged)
    requires Waiting(staged, files) && s in staged
    ensures forall t <- staged :: t.entry.id == s.entry.id ==> t == s
  {
  }

  lemma OthersAreKept(g: Swapping, id: Id, registry: map<Id, Registered>)
    requires Waiting(g.staged, g.start) && g.done <= |g.staged| && g.Confined()
    requires forall s <- g.staged :: s.entry.id != id && s.stage != Dir(id)
    ensures Kept(g.files, g.start, Dir(id))
  {
    assert forall s <- g.staged[..g.done] :: Dir(s.entry.id) != Dir(id);
  }

  // --------------------------------------------------------------- the refresher

  datatype RefreshOutcome = Refused | Aborted(restored: bool) | Refreshed(backups: seq<Place>)

  /** What a step makes of a registry entry. */
  function After(step: Step, entry: Registered, now: Time): Registered {
    if step.verb.UpdateIt? then entry.(digest := step.after, updatedAt := now) else entry
  }

  /** The stages made so far are those of the updates among the steps looked at so far. */
  ghost predicate StagedFor(staged: seq<Staged>, steps: seq<Step>, registry: map<Id, Registered>, now: Time) {
    && (forall step <- steps | step.verb.UpdateIt? :: Answered(step, staged, registry, now))
    && forall s <- staged :: CalledFor(s, steps)
  }

  ghost predicate Answered(step: Step, staged: seq<Staged>, registry: map<Id, Registered>, now: Time) {
    step.id in registry && exists s <- staged :: s.entry == After(step, registry[step.id], now) && s.entry.id == step.id
  }

  ghost predicate CalledFor(s: Staged, steps: seq<Step>) {
    exists step <- steps :: step.verb.UpdateIt? && step.id == s.entry.id
  }

  lemma StillAnswered(step: Step, staged: seq<Staged>, more: seq<Staged>, registry: map<Id, Registered>, now: Time)
    requires Answered(step, staged, registry, now)
    ensures Answered(step, staged + more, registry, now)
  {
    var s :| s in staged && s.entry == After(step, registry[step.id], now) && s.entry.id == step.id;
    assert s in staged + more;
  }

  lemma StillCalledFor(s: Staged, steps: seq<Step>, more: seq<Step>)
    requires CalledFor(s, steps)
    ensures CalledFor(s, steps + more)
  {
    var step :| step in steps && step.verb.UpdateIt? && step.id == s.entry.id;
    assert step in steps + more;
  }

  class Refresher {
    const manager: Manager
    const root: FileTree<Place, Package>
    const seal: Review -> Digest
    const sealRegistry: map<Id, Registered> -> Digest
    var reviews: map<PlanId, SavedReview>

    constructor (manager: Manager, seal: Review -> Digest, sealRegistry: map<Id, Registered> -> Digest)
      ensures this.manager == manager && root == manager.root && reviews == map[]
    {
      this.manager, root, this.seal, this.sealRegistry, reviews := manager, manager.root, seal, sealRegistry, map[];
    }

    method Attempt() returns (ok: bool)
    {
      ok := *;
    }

    function SourceDigest(source: Path): Option<Digest>
      reads manager
    {
      if source in manager.sources then manager.digestOf(Base(source), manager.sources[source]) else None
    }

    /** The decision of the planner for one entry. */
    function Assess(entry: Registered): Step
      reads manager
    {
      var digest := if entry.source == "" then None else SourceDigest(entry.source);
      var verb := if digest.None? then Blocked else if digest.value == entry.digest then LeaveIt else UpdateIt;
      Step(entry.id, verb, entry.source, entry.digest, digest.UnwrapOr(""))
    }

    /** A refresh planned right after an import leaves the resource alone, so long as the
        source has not been touched. */
    lemma FreshImportIsLeftAlone(entry: Registered, hash: string -> Digest)
      requires Faithful(manager.digestOf, manager.importOf, hash)
      requires entry.source != "" && entry.source in manager.sources
      requires manager.ImportedAs(Base(entry.source), manager.sources[entry.source], entry.digest)
      ensures Assess(entry).verb == LeaveIt
    {
      ImportedDigestIsTheSources(manager.digestOf, manager.importOf, hash, Base(entry.source),
                                 manager.sources[entry.source]);
    }

    function Enabled(): set<Id>
      reads manager
    {
      set id | id in manager.registry && manager.registry[id].enabled
    }

    /** A plan holds one assessment for each selected resource. */
    method PlanRefresh(requested: set<Id>, planId: PlanId, expiresAt: Time) returns (plan: Option<Review>)
      requires forall id <- manager.registry :: manager.registry[id].id == id
      modifies this`reviews
      ensures plan.None? ==> reviews == old(reviews)
      ensures plan.Some? ==>
        && reviews == old(reviews)[planId := SavedReview(plan.value, seal(plan.value))]
        && plan.value.registryDigest == sealRegistry(manager.registry)
        && DistinctSteps(plan.value.steps)
        && (forall step <- plan.value.steps :: step.id in manager.registry && step == Assess(manager.registry[step.id]))
        && IdsOf(plan.value.steps) == (if requested == {} then Enabled() else requested)
    {
      var ids := if requested == {} then Enabled() else requested;
      var steps: seq<Step> := [];
      var rest := ids;
      while rest != {}
        invariant rest <= ids && DistinctSteps(steps)
        invariant forall step <- steps :: step.id in manager.registry && step == Assess(manager.registry[step.id])
        invariant IdsOf(steps) == ids - rest
        decreases rest
      {
        var id :| id in rest;
        rest := rest - {id};
        if id !in manager.registry { return None; }
        var step := Assess(manager.registry[id]);
        assert IdsOf(steps + [step]) == IdsOf(steps) + {step.id};
        assert forall s <- steps :: s.id in IdsOf(steps);
        steps := steps + [step];
      }
      var review := Review(sealRegistry(manager.registry), expiresAt, steps);
      var stored := Attempt();
      if !stored { return None; }
      reviews := reviews[planId := SavedReview(review, seal(review))];
      plan := Some(review);
    }

    predicate Reviewed(planId: PlanId, digest: Digest, confirmed: bool, now: Time)
      reads this, manager
    {
      && confirmed && planId in reviews && digest == reviews[planId].digest
      && var review := reviews[planId].review;
        seal(review) == digest && now < review.expiresAt && sealRegistry(manager.registry) == review.registryDigest
    }

    /** The entry, the canonical tree and the source are still the reviewed ones. */
    predicate StillAsReviewed(step: Step)
      reads manager, root
    {
      && step.id in manager.registry
      && manager.registry[step.id].digest == step.before && manager.registry[step.id].source == step.source
      && !step.verb.Blocked?
      && Dir(step.id) in root.files
      && manager.digestOf("content", root.files[Dir(step.id)].content) == Some(step.before)
      && (step.verb.UpdateIt? ==> SourceDigest(step.source) == Some(step.after))
    }

    method Revalidate(steps: seq<Step>) returns (ok: bool)
      ensures ok <==> forall step <- steps :: StillAsReviewed(step)
    {
      for i := 0 to |steps|
        invariant forall step <- steps[..i] :: StillAsReviewed(step)
      {
        assert steps[i] in steps;
        if !StillAsReviewed(steps[i]) { return false; }
        assert steps[..i + 1] == steps[..i] + [steps[i]];
      }
      assert steps[..|steps|] == steps;
      return true;
    }

    /** One swap; when the second rename fails the first is taken back at once. */
    method SwapOne(s: Staged) returns (ok: bool, clean: bool, u: Undo<Place, Package>)
      requires s.stage in root.files && s.stage.StageDir?
      requires manager.root == root
      modifies root
      ensures ok ==> SwapFrame(s, old(root.files), root.files, u)
      ensures !ok && clean ==> root.files == old(root.files)
      ensures forall p <- old(root.files) | p != Dir(s.entry.id) && p != s.stage ::
        p in root.files && root.files[p] == old(root.files)[p]
    {
      var backup := manager.FreeBackup();
      u := MoveBack(Dir(s.entry.id), Some(backup));
      clean := true;
      ok := manager.MoveDir(Dir(s.entry.id), backup);
      if !ok { return; }
      ok := manager.MoveDir(s.stage, Dir(s.entry.id));
      if !ok { clean := manager.MoveDir(backup, Dir(s.entry.id)); }
    }

    /** What no swap is about is as it was, and no compensation names it. */
    ghost predicate Unharmed(spared: set<Place>, start: map<Place, Package>, undos: seq<Undo<Place, Package>>)
      reads root
    {
      Avoids(undos, spared) && forall p <- spared :: p in start && p in root.files && root.files[p] == start[p]
    }

    ghost predicate Tracks(g: Swapping, staged: seq<Staged>, undos: seq<Undo<Place, Package>>)
      reads root
    {
      && g.staged == staged && g.undos == undos && g.files == root.files && g.done <= |staged|
      && Waiting(staged, g.start)
      && forall u <- undos :: u.MoveBack?
    }

    method SwapNext(staged: seq<Staged>, i: nat, undos: seq<Undo<Place, Package>>, ghost g: Swapping,
                    ghost spared: set<Place>)
        returns (ok: bool, clean: bool, undos': seq<Undo<Place, Package>>, ghost g': Swapping)
      requires manager.root == root && i < |staged|
      requires Tracks(g, staged, undos) && g.done == i && g.Good()
      requires Unharmed(spared, g.start, undos) && spared !! DirsOf(staged) + StagesOf(staged)
      modifies root
      ensures Tracks(g', staged, undos') && g'.start == g.start
      ensures ok ==> clean && g'.done == i + 1 && g'.Good()
      ensures clean ==> g'.Undoable()
      ensures Unharmed(spared, g.start, undos')
    {
      NextCanBeSwapped(g);
      assert Dir(staged[i].entry.id) in DirsOf(staged) && staged[i].stage in StagesOf(staged);
      var u;
      ok, clean, u := SwapOne(staged[i]);
      undos' := if ok then undos + [u] else undos;
      g' := g.(done := if ok then i + 1 else i, files := root.files, undos := undos');
      if ok {
        clean := true;
        SwapExtends(g, root.files, u);
      } else {
        assert clean ==> g' == g;
      }
    }

    method SwapAll(staged: seq<Staged>, ghost spared: set<Place>)
        returns (ok: bool, clean: bool, undos: seq<Undo<Place, Package>>, ghost g: Swapping)
      requires Waiting(staged, root.files) && manager.root == root
      requires spared <= root.files.Keys && spared !! DirsOf(staged) + StagesOf(staged)
      modifies root
      ensures Tracks(g, staged, undos) && g.start == old(root.files)
      ensures ok ==> clean && g.done == |staged| && g.Good()
      ensures clean ==> g.Undoable()
      ensures Unharmed(spared, old(root.files), undos)
    {
      ok, clean, undos := true, true, [];
      g := Swapping(staged, 0, root.files, root.files, []);
      NothingSwapped(staged, root.files);
      for i := 0 to |staged|
        invariant Tracks(g, staged, undos) && g.start == old(root.files)
        invariant g.done == i && g.Good() && ok && clean && Unharmed(spared, g.start, undos)
      {
        ok, clean, undos, g := SwapNext(staged, i, undos, g, spared);
        if !ok { return; }
      }
    }

    // ------------------------------------------------------------------ staging

    /** Copies a changed source into a fresh stage; a copy that differs from the reviewed
        source is dropped again. */
    method StageOne(step: Step, now: Time) returns (s: Option<Staged>)
      requires manager.root == root && StillAsReviewed(step) && step.verb.UpdateIt?
      modifies root
      ensures Undisturbed(old(root.files), root.files)
      ensures s.Some? ==>
        && s.value.stage !in old(root.files) && s.value.stage.StageDir? && s.value.stage in root.files
        && s.value.entry == After(step, manager.registry[step.id], now)
        && root.files[s.value.stage].meta == s.value.entry
        && manager.digestOf("content", root.files[s.value.stage].content) == Some(s.value.entry.digest)
    {
      var source := step.source;
      if manager.sources[source].Symlink? { return None; }
      var entry := manager.registry[step.id];
      var staged := manager.MakeStage(Base(source), manager.sources[source],
                                      d => entry.(digest := d, updatedAt := now));
      if staged.None? { return None; }
      var (stage, updated) := staged.value;
      if updated.digest != step.after {
        var dropped := root.Remove(stage);
        return None;
      }
      s := Some(Staged(stage, updated));
    }

    method StageAll(steps: seq<Step>, now: Time) returns (ok: bool, staged: seq<Staged>)
      requires manager.root == root && DistinctSteps(steps)
      requires forall step <- steps :: StillAsReviewed(step) && manager.registry[step.id].id == step.id
      modifies root
      ensures Undisturbed(old(root.files), root.files)
      ensures Waiting(staged, root.files) && IntactStages(staged, root.files, manager.digestOf)
      ensures StagesOf(staged) !! old(root.files).Keys && StagedIds(staged) <= UpdateIds(steps)
      ensures ok ==> StagedFor(staged, steps, manager.registry, now)
    {
      ok, staged := true, [];
      for i := 0 to |steps|
        invariant Undisturbed(old(root.files), root.files) && ok
        invariant Waiting(staged, root.files) && IntactStages(staged, root.files, manager.digestOf)
        invariant StagesOf(staged) !! old(root.files).Keys && StagedIds(staged) <= UpdateIds(steps)
        invariant StagedFor(staged, steps[..i], manager.registry, now)
        invariant forall step <- steps :: old(StillAsReviewed(step))
      {
        assert steps[..i + 1] == steps[..i] + [steps[i]] && steps[i] in steps;
        assert old(StillAsReviewed(steps[i]));
        assert StillAsReviewed(steps[i]);
        if !steps[i].verb.UpdateIt? {
          SkippedStage(staged, steps[..i], steps[i], manager.registry, now);
          continue;
        }
        ghost var before := root.files;
        var s := StageOne(steps[i], now);
        if s.None? {
          assert Waiting(staged, root.files);
          return false, staged;
        }
        NewIdIsNotStaged(staged, steps, i, manager.registry, now);
        AnotherAnswer(staged, steps[..i], steps[i], manager.registry, now, s.value);
        AnotherWaiting(staged, before, root.files, s.value);
        assert StagedIds(staged + [s.value]) == StagedIds(staged) + {steps[i].id};
        staged := staged + [s.value];
      }
      assert steps[..|steps|] == steps;
    }

    // ------------------------------------------------------------------ applying

    /** Stages that were not swapped in are removed; nobody looks whether that works. */
    method CleanUp(staged: seq<Staged>)
      modifies root
      ensures SameExcept(root.files, old(root.files), StagesOf(staged)) && NothingNew(old(root.files), root.files)
    {
      for i := 0 to |staged|
        invariant SameExcept(root.files, old(root.files), StagesOf(staged)) && NothingNew(old(root.files), root.files)
      {
        assert staged[i] in staged;
        var dropped := root.Remove(staged[i].stage);
      }
    }

    /** Stages, swaps and saves; whatever fails, all swaps are taken back. */
    method CarryOut(steps: seq<Step>, now: Time) returns (r: RefreshOutcome)
      requires manager.root == root && DistinctSteps(steps)
      requires forall step <- steps :: StillAsReviewed(step) && manager.registry[step.id].id == step.id
      modifies root, manager`registry
      ensures !r.Refused?
      ensures !r.Refreshed? ==> manager.registry == old(manager.registry)
      ensures r == Aborted(true) ==> Undisturbed(old(root.files), root.files)
      ensures r == Aborted(false) ==> Undisturbed(old(root.files) - UpdateDirs(steps), root.files)
      ensures r.Refreshed? ==> RefreshedTo(old(manager.registry), manager.registry, steps, now)
      ensures r.Refreshed? ==> SwappedOut(old(root.files), root.files, steps)
      ensures r.Refreshed? ==> old(manager.HeldNow()) + UpdateIds(steps) <= manager.HeldNow()
    {
      var ok, staged := StageAll(steps, now);
      ghost var spared := old(root.files).Keys - UpdateDirs(steps);
      if !ok {
        CleanUp(staged);
        return Aborted(true);
      }
      StagedAreSpared(staged, steps, old(root.files));
      var clean, undos;
      ghost var g;
      ok, clean, undos, g := SwapAll(staged, spared);
      if ok { ok := Attempt(); }
      if ok {
        RefreshedRegistry(staged, g.start, manager.registry, steps, now);
        AllSwappedOut(g, old(root.files), manager.registry, steps, now);
        HeldThen(g, old(root.files), manager.registry, manager.digestOf, steps, now);
        manager.registry := Updated(manager.registry, staged);
        return Refreshed(BackupList(undos));
      }
      r := Retreat(staged, g, undos, clean, spared, old(root.files));
    }

    /** Takes the swaps back and drops the stages that are left. */
    method Retreat(staged: seq<Staged>, ghost g: Swapping, undos: seq<Undo<Place, Package>>, clean: bool,
                   ghost spared: set<Place>, ghost before: map<Place, Package>)
        returns (r: RefreshOutcome)
      requires Tracks(g, staged, undos) && Unharmed(spared, g.start, undos) && spared !! StagesOf(staged)
      requires clean ==> g.Undoable()
      requires Undisturbed(before, g.start) && StagesOf(staged) !! before.Keys
      modifies root
      ensures r.Aborted? && (r.restored ==> Undisturbed(before, root.files))
      ensures forall p <- spared :: p in root.files && p in g.start && root.files[p] == g.start[p]
    {
      var restored := root.RollBack(undos, spared);
      CleanUp(staged);
      if clean && restored { TakenBack(g, before, root.files); }
      r := Aborted(clean && restored);
    }

    /** A refusal touches nothing.  Otherwise either every resource reviewed for an update is
        swapped and saved, or, where the compensations work, nothing is.  Whatever was on the
        disk, what the registry described it goes on describing, apart from the resources
        whose compensation failed; and it describes all that was refreshed. */
    method ApplyRefresh(planId: PlanId, digest: Digest, confirmed: bool, now: Time) returns (r: RefreshOutcome)
      requires manager.root == root
      requires planId in reviews ==> DistinctSteps(reviews[planId].review.steps)
      requires forall id <- manager.registry :: manager.registry[id].id == id
      modifies root, manager`registry, this`reviews
      ensures r.Refused? ==> root.files == old(root.files)
      ensures !r.Refreshed? ==> manager.registry == old(manager.registry) && reviews == old(reviews)
      ensures r.Refreshed? ==> reviews in {old(reviews), old(reviews) - {planId}}
      ensures r == Aborted(true) ==> Undisturbed(old(root.files), root.files)
      ensures !r.Refused? ==>
        && old(Reviewed(planId, digest, confirmed, now))
        && forall step <- old(reviews[planId].review.steps) :: old(StillAsReviewed(step))
      ensures r == Aborted(false) ==>
        Undisturbed(old(root.files) - UpdateDirs(old(reviews[planId].review.steps)), root.files)
      ensures r.Refreshed? ==>
        && RefreshedTo(old(manager.registry), manager.registry, old(reviews[planId].review.steps), now)
        && SwappedOut(old(root.files), root.files, old(reviews[planId].review.steps))
      ensures r.Refused? || r == Aborted(true) ==> old(manager.HeldNow()) <= manager.HeldNow()
      ensures r == Aborted(false) ==>
        old(manager.HeldNow()) - UpdateIds(old(reviews[planId].review.steps)) <= manager.HeldNow()
      ensures r.Refreshed? ==>
        old(manager.HeldNow()) + UpdateIds(old(reviews[planId].review.steps)) <= manager.HeldNow()
    {
      if !Reviewed(planId, digest, confirmed, now) { return Refused; }
      var steps := reviews[planId].review.steps;
      var locked := Attempt();
      if !locked { return Refused; }
      var ready := Revalidate(steps);
      if !ready { return Refused; }
      r := CarryOut(steps, now);
      if r.Refreshed? {
        var removed := Attempt();
        if removed { reviews := reviews - {planId}; }
      } else {
        OthersStayHeld(old(manager.registry), old(root.files), manager.registry, root.files, manager.digestOf,
                       if r.restored then {} else UpdateIds(steps));
      }
    }

    // --------------------------------------------------------------- whole runs

    ghost predicate Ready()
      reads this, manager
    {
      && manager.root == root
      && (forall id <- manager.registry :: manager.registry[id].id == id)
      && forall planId <- reviews :: DistinctSteps(reviews[planId].review.steps)
    }

    /** The registered resources of which the recorded digest need not be that of the content. */
    ghost function Undescribed(): set<Id>
      reads manager, manager.root
    {
      manager.registry.Keys - manager.HeldNow()
    }

    /** Somebody changes or removes one of the manager's directories. */
    method Edit(place: Place, package: Option<Package>, ghost edited: set<Id>)
      requires manager.root == root && (place.Dir? ==> place.id in edited)
      modifies root
      ensures old(manager.HeldNow()) - edited <= manager.HeldNow()
    {
      root.files := if package.Some? then root.files[place := package.value] else root.files - {place};
      OthersStayHeld(manager.registry, old(root.files), manager.registry, root.files, manager.digestOf, edited);
    }

    /** The resources that a call is about. */
    ghost function Concerned(call: Call): set<Id>
      reads this, manager, manager.root
    {
      match call
      case EditPlace(place, _) => EditedBy(call)
      case ImportCall(_, id, _, _, _) => {id}
      case RemoveCall(id) => {id}
      case RestoreCall(name, _, _) =>
        if BackupDir(name) in manager.root.files then {manager.root.files[BackupDir(name)].meta.id} else {}
      case ApplyCall(planId, _, _, _) => Reviewing(reviews, planId)
      case _ => {}
    }

    /** One call of a run.  `clean` tells that no compensation failed; `blamed` are the
        resources that an outside hand or a failed compensation may have left undescribed. */
    method Serve(call: Call) returns (clean: bool, ghost blamed: set<Id>)
      requires Ready()
      modifies this`reviews, manager, root
      ensures Ready() && Undescribed() <= old(Undescribed()) + blamed
      ensures blamed <= old(Concerned(call)) && (clean ==> blamed == EditedBy(call))
    {
      clean, blamed := true, {};
      match call
      case EditSource(path, content) =>
        manager.sources := if content.Some? then manager.sources[path := content.value] else manager.sources - {path};
      case EditPlace(place, package) =>
        blamed := EditedBy(call);
        Edit(place, package, blamed);
      case PlanCall(requested, planId, expiresAt) =>
        var plan := PlanRefresh(requested, planId, expiresAt);
      case ApplyCall(planId, digest, confirmed, now) =>
        clean, blamed := ServeApply(planId, digest, confirmed, now);
      case _ =>
        clean, blamed := ServeOne(call);
    }

    /** The calls that are about one resource. */
    method ServeOne(call: Call) returns (clean: bool, ghost blamed: set<Id>)
      requires Ready() && (call.ImportCall? || call.RemoveCall? || call.RestoreCall?)
      modifies manager, root
      ensures Ready() && Undescribed() <= old(Undescribed()) + blamed
      ensures blamed <= old(Concerned(call)) && (clean ==> blamed == {})
    {
      clean, blamed := true, {};
      match call
      case ImportCall(source, id, kind, replace, now) =>
        var r := manager.Import(source, id, kind, replace, now);
        if r == Undone(false) { clean, blamed := false, {id}; }
      case RemoveCall(id) =>
        var ok, restored := manager.RemoveResource(id);
        if !ok && !restored { clean, blamed := false, {id}; }
      case RestoreCall(name, confirmed, now) =>
        var r := manager.RestoreBackup(name, confirmed, now);
        if r == Undone(false) { clean, blamed := false, {old(root.files[BackupDir(name)]).meta.id}; }
    }

    method ServeApply(planId: PlanId, digest: Digest, confirmed: bool, now: Time)
        returns (clean: bool, ghost blamed: set<Id>)
      requires Ready()
      modifies this`reviews, manager`registry, root
      ensures Ready() && Undescribed() <= old(Undescribed()) + blamed
      ensures blamed <= old(Reviewing(reviews, planId)) && (clean ==> blamed == {})
    {
      clean, blamed := true, {};
      var r := ApplyRefresh(planId, digest, confirmed, now);
      if r == Aborted(false) { clean, blamed := false, UpdateIds(old(reviews[planId].review.steps)); }
    }

    lemma BlamesOnlyConcerned(call: Call)
      ensures MayBlame(call, reviews, Concerned(call))
    {
    }

    /** The same with a bound that does not look at the disk. */
    method Answer(call: Call) returns (clean: bool, ghost blamed: set<Id>)
      requires Ready()
      modifies this`reviews, manager, root
      ensures Ready() && Undescribed() <= old(Undescribed()) + blamed
      ensures MayBlame(call, old(reviews), blamed) && (clean ==> blamed == EditedBy(call))
    {
      ghost var concerned, before := Concerned(call), reviews;
      BlamesOnlyConcerned(call);
      clean, blamed := Serve(call);
      FewerMayBeBlamed(call, before, concerned, blamed);
    }

    /** In every state that imports, removals, restores, refreshes and edits of the sources and
        of the manager's own directories reach, the recorded digest of a resource is that of
        its canonical content, unless its directory was edited or a compensation for it failed. */
    method Run(calls: seq<Call>) returns (ghost log: Log)
      requires Ready()
      modifies this`reviews, manager, root
      ensures Ready() && log.Tells(calls, old(reviews), old(Undescribed()))
      ensures log.stored[|calls|] == reviews && log.undescribed[|calls|] == Undescribed()
    {
      log := Log([], [reviews], [], [Undescribed()]);
      for i := 0 to |calls|
        invariant Ready() && log.Tells(calls[..i], old(reviews), old(Undescribed()))
        invariant log.stored[i] == reviews && log.undescribed[i] == Undescribed()
      {
        var clean; ghost var blamed;
        clean, blamed := Answer(calls[i]);
        LogGrows(log, calls, i, old(reviews), old(Undescribed()), clean, reviews, blamed, Undescribed());
        log := log.Then(clean, reviews, blamed, Undescribed());
      }
      assert calls[..|calls|] == calls;
    }
  }

  /** Of a run: which calls were clean, whom each could be blamed for, and the stored reviews
      and undescribed resources before the first call and after each. */
  datatype Log = Log(cleans: seq<bool>, stored: seq<Reviews>, blamed: seq<set<Id>>, undescribed: seq<set<Id>>)
  {
    ghost function Then(clean: bool, reviews: Reviews, ids: set<Id>, now: set<Id>): Log {
      Log(cleans + [clean], stored + [reviews], blamed + [ids], undescribed + [now])
    }

    ghost predicate Tells(calls: seq<Call>, reviews: Reviews, first: set<Id>) {
      && |cleans| == |blamed| == |calls| && |undescribed| == |stored| == |calls| + 1
      && stored[0] == reviews && undescribed[0] == first
      && (forall i | 0 <= i < |calls| :: Blames(calls[i], i))
      && forall i | 0 <= i <= |calls| :: undescribed[i] <= first + Union(blamed[..i])
    }

    ghost predicate Blames(call: Call, i: nat)
      requires i < |cleans| && i < |stored| && i < |blamed|
    {
      MayBlame(call, stored[i], blamed[i]) && (cleans[i] ==> blamed[i] == EditedBy(call))
    }
  }

  lemma FewerMayBeBlamed(call: Call, reviews: Reviews, ids: set<Id>, fewer: set<Id>)
    requires MayBlame(call, reviews, ids) && fewer <= ids
    ensures MayBlame(call, reviews, fewer)
  {
    AtMost(fewer, ids);
  }

  lemma AtMost(fewer: set<Id>, ids: set<Id>)
    requires fewer <= ids
    ensures |fewer| <= |ids|
  {
    assert ids == fewer + (ids - fewer);
  }

  lemma LogGrows(log: Log, calls: seq<Call>, i: nat, start: Reviews, first: set<Id>,
                 clean: bool, reviews: Reviews, ids: set<Id>, now: set<Id>)
    requires i < |calls| && log.Tells(calls[..i], start, first)
    requires MayBlame(calls[i], log.stored[i], ids) && (clean ==> ids == EditedBy(calls[i]))
    requires now <= log.undescribed[i] + ids
    ensures log.Then(clean, reviews, ids, now).Tells(calls[..i + 1], start, first)
  {
    var next := log.Then(clean, reviews, ids, now);
    assert next.Blames(calls[i], i);
    forall j | 0 <= j < i ensures next.Blames(calls[j], j) {
      assert calls[..i][j] == calls[j] && log.Blames(calls[..i][j], j);
    }
    forall j | 0 <= j <= i + 1 ensures next.undescribed[j] <= first + Union(next.blamed[..j]) {
      if j <= i {
        assert next.blamed[..j] == log.blamed[..j];
      } else {
        assert next.blamed[..j] == next.blamed && next.blamed[..i] == log.blamed[..i];
      }
    }
  }

  datatype Call =
    | EditSource(path: Path, content: Option<Content>)
    | EditPlace(place: Place, package: Option<Package>)
    | ImportCall(source: Path, id: Id, kind: ResourceTargets.Kind, replace: bool, now: Time)
    | RemoveCall(id: Id)
    | RestoreCall(name: string, confirmed: bool, now: Time)
    | PlanCall(requested: set<Id>, planId: PlanId, expiresAt: Time)
    | ApplyCall(planId: PlanId, digest: Digest, confirmed: bool, now: Time)

  /** The resource whose directory was edited from outside. */
  function EditedBy(call: Call): set<Id> {
    if call.EditPlace? && call.place.Dir? then {call.place.id} else {}
  }

  type Reviews = map<PlanId, SavedReview>

  ghost function Reviewing(reviews: Reviews, planId: PlanId): set<Id> {
    if planId in reviews then UpdateIds(reviews[planId].review.steps) else {}
  }

  /** What a call may be blamed for: of an import or a removal the resource it names, of a
      restore one, of a refresh those that the review stored at the time would update. */
  ghost predicate MayBlame(call: Call, reviews: Reviews, ids: set<Id>) {
    match call
    case ImportCall(_, id, _, _, _) => ids <= {id}
    case RemoveCall(id) => ids <= {id}
    case RestoreCall(_, _, _) => |ids| <= 1
    case ApplyCall(planId, _, _, _) => ids <= Reviewing(reviews, planId)
    case _ => ids <= EditedBy(call)
  }

  ghost function Union(sets: seq<set<Id>>): set<Id> {
    if sets == [] then {} else Union(sets[..|sets| - 1]) + sets[|sets| - 1]
  }

  /** The entries of updated resources changed as reviewed, and no other. */
  ghost predicate RefreshedTo(before: map<Id, Registered>, after: map<Id, Registered>, steps: seq<Step>, now: Time) {
    && after.Keys == before.Keys
    && (forall step <- steps :: step.id in before && after[step.id] == After(step, before[step.id], now))
    && forall id <- before :: id !in IdsOf(steps) ==> after[id] == before[id]
  }

  /** Updated directories are among the backups, every other path is as it was. */
  ghost predicate SwappedOut(before: map<Place, Package>, after: map<Place, Package>, steps: seq<Step>) {
    && (forall step <- steps | step.verb.UpdateIt? :: Dir(step.id) in before && InBackup(after, before, step.id))
    && forall p <- before :: (forall step <- steps | step.verb.UpdateIt? :: Dir(step.id) != p) ==>
      p in after && after[p] == before[p]
  }

  ghost predicate InBackup(after: map<Place, Package>, before: map<Place, Package>, id: Id) {
    Dir(id) in before && exists backup <- after ::
      backup.BackupDir? && backup !in before && after[backup] == before[Dir(id)]
  }

  lemma RefreshedRegistry(staged: seq<Staged>, files: map<Place, Package>, registry: map<Id, Registered>,
                          steps: seq<Step>, now: Time)
    requires Waiting(staged, files) && DistinctSteps(steps) && StagedFor(staged, steps, registry, now)
    requires forall step <- steps :: step.id in registry
    ensures RefreshedTo(registry, Updated(registry, staged), steps, now)
  {
    forall s <- staged ensures s.entry.id in registry && s.entry.id in IdsOf(steps) {
      assert CalledFor(s, steps);
      var step :| step in steps && step.verb.UpdateIt? && step.id == s.entry.id;
    }
    forall id ensures id in Updated(registry, staged) <==> id in registry { UpdatedLooksUp(registry, staged, id); }
    forall step <- steps ensures Updated(registry, staged)[step.id] == After(step, registry[step.id], now) {
      RefreshedEntry(staged, files, registry, steps, now, step);
    }
    forall id <- registry | id !in IdsOf(steps) ensures Updated(registry, staged)[id] == registry[id] {
      UpdatedLooksUp(registry, staged, id);
      assert Kept(Updated(registry, staged), registry, id);
    }
  }

  lemma RefreshedEntry(staged: seq<Staged>, files: map<Place, Package>, registry: map<Id, Registered>,
                       steps: seq<Step>, now: Time, step: Step)
    requires Waiting(staged, files) && DistinctSteps(steps) && StagedFor(staged, steps, registry, now)
    requires step in steps && step.id in registry
    ensures step.id in Updated(registry, staged)
    ensures Updated(registry, staged)[step.id] == After(step, registry[step.id], now)
  {
    if step.verb.UpdateIt? {
      assert Answered(step, staged, registry, now);
      var s :| s in staged && s.entry == After(step, registry[step.id], now) && s.entry.id == step.id;
      OnlyOneStaged(staged, files, s);
      UpdatedLooksUp(registry, staged, step.id);
    } else {
      NoStageFor(staged, steps, step, registry, now);
      UpdatedLooksUp(registry, staged, step.id);
      assert Kept(Updated(registry, staged), registry, step.id);
    }
  }

  lemma NoStageFor(staged: seq<Staged>, steps: seq<Step>, step: Step, registry: map<Id, Registered>, now: Time)
    requires DistinctSteps(steps) && StagedFor(staged, steps, registry, now)
    requires step in steps && !step.verb.UpdateIt?
    ensures forall s <- staged :: s.entry.id != step.id
  {
    assert forall other <- steps :: other.id == step.id ==> other == step;
    assert forall s <- staged :: CalledFor(s, steps);
  }

  lemma AllSwappedOut(g: Swapping, before: map<Place, Package>, registry: map<Id, Registered>, steps: seq<Step>,
                      now: Time)
    requires Waiting(g.staged, g.start) && g.done == |g.staged| && g.Confined() && g.BackupsAreNew()
    requires StagedFor(g.staged, steps, registry, now)
    requires Undisturbed(before, g.start) && StagesOf(g.staged) !! before.Keys
    requires forall step <- steps :: Dir(step.id) in before
    ensures SwappedOut(before, g.files, steps)
  {
    forall step <- steps | step.verb.UpdateIt? ensures InBackup(g.files, before, step.id) {
      StepIsBackedUp(g, before, registry, steps, now, step);
    }
    forall p <- before | forall step <- steps | step.verb.UpdateIt? :: Dir(step.id) != p
      ensures p in g.files && g.files[p] == before[p]
    {
      forall s <- g.staged ensures Dir(s.entry.id) != p { assert CalledFor(s, steps); }
      UntouchedPlace(g, before, p);
    }
  }

  lemma StepIsBackedUp(g: Swapping, before: map<Place, Package>, registry: map<Id, Registered>, steps: seq<Step>,
                       now: Time, step: Step)
    requires Waiting(g.staged, g.start) && g.done == |g.staged| && g.BackupsAreNew()
    requires Answered(step, g.staged, registry, now)
    requires Undisturbed(before, g.start) && Dir(step.id) in before
    ensures InBackup(g.files, before, step.id)
  {
    var s :| s in g.staged && s.entry == After(step, registry[step.id], now) && s.entry.id == step.id;
    var i :| 0 <= i < |g.staged| && g.staged[i] == s;
    assert BacksUp(g.undos[i], s, g.start, g.files);
  }

  lemma UntouchedPlace(g: Swapping, before: map<Place, Package>, p: Place)
    requires g.done == |g.staged| && g.Confined()
    requires Undisturbed(before, g.start) && StagesOf(g.staged) !! before.Keys
    requires p in before && forall s <- g.staged :: Dir(s.entry.id) != p
    ensures p in g.files && g.files[p] == before[p]
  {
    assert g.staged[..g.done] == g.staged;
    assert Kept(g.files, g.start, p);
  }

  lemma HeldThen(g: Swapping, before: map<Place, Package>, registry: map<Id, Registered>, digestOf: Digester,
                 steps: seq<Step>, now: Time)
    requires Waiting(g.staged, g.start) && IntactStages(g.staged, g.start, digestOf)
    requires g.done == |g.staged| && g.Good() && StagedFor(g.staged, steps, registry, now)
    requires Undisturbed(before, g.start)
    ensures Held(registry, before, digestOf) + UpdateIds(steps) <= Held(Updated(registry, g.staged), g.files, digestOf)
  {
    OthersStayHeld(registry, before, registry, g.start, digestOf, {});
    HeldAfterRefresh(registry, g, digestOf);
    forall step <- steps | step.verb.UpdateIt? ensures step.id in StagedIds(g.staged) {
      assert Answered(step, g.staged, registry, now);
    }
  }

  lemma StagedAreSpared(staged: seq<Staged>, steps: seq<Step>, before: map<Place, Package>)
    requires StagesOf(staged) !! before.Keys && StagedIds(staged) <= UpdateIds(steps)
    ensures before.Keys - UpdateDirs(steps) !! DirsOf(staged) + StagesOf(staged)
  {
    forall s <- staged ensures Dir(s.entry.id) in UpdateDirs(steps) { assert s.entry.id in StagedIds(staged); }
  }

  /** Taking every swap back leaves what was there before the stages were made. */
  lemma TakenBack(g: Swapping, before: map<Place, Package>, after: map<Place, Package>)
    requires g.done <= |g.staged| && g.Undoable()
    requires Undisturbed(before, g.start) && StagesOf(g.staged) !! before.Keys
    requires SameExcept(after, UndoAll(g.files, g.undos), StagesOf(g.staged))
    ensures Undisturbed(before, after)
  {
  }

  lemma SkippedStage(staged: seq<Staged>, done: seq<Step>, step: Step, registry: map<Id, Registered>, now: Time)
    requires StagedFor(staged, done, registry, now) && !step.verb.UpdateIt?
    ensures StagedFor(staged, done + [step], registry, now)
  {
    forall s <- staged ensures CalledFor(s, done + [step]) { StillCalledFor(s, done, [step]); }
  }

  lemma AnotherAnswer(staged: seq<Staged>, done: seq<Step>, step: Step, registry: map<Id, Registered>, now: Time,
                      s: Staged)
    requires StagedFor(staged, done, registry, now) && step.verb.UpdateIt?
    requires step.id in registry && registry[step.id].id == step.id && s.entry == After(step, registry[step.id], now)
    ensures StagedFor(staged + [s], done + [step], registry, now)
  {
    assert s in staged + [s] && step in done + [step];
    forall other <- done + [step] | other.verb.UpdateIt? ensures Answered(other, staged + [s], registry, now) {
      if other in done { StillAnswered(other, staged, [s], registry, now); }
    }
    forall t <- staged + [s] ensures CalledFor(t, done + [step]) {
      if t in staged { StillCalledFor(t, done, [step]); }
    }
  }

  lemma AnotherWaiting(staged: seq<Staged>, before: map<Place, Package>, after: map<Place, Package>, s: Staged)
    requires Waiting(staged, before) && Undisturbed(before, after)
    requires s.stage !in before && s.stage.StageDir? && s.stage in after && after[s.stage].meta == s.entry
    requires Dir(s.entry.id) in before && Dir(s.entry.id) !in StagesOf(staged) && forall t <- staged ::
      t.entry.id != s.entry.id
    ensures Waiting(staged + [s], after)
  {
    assert StagesOf(staged + [s]) == StagesOf(staged) + {s.stage};
    assert DirsOf(staged + [s]) == DirsOf(staged) + {Dir(s.entry.id)};
  }

  lemma NewIdIsNotStaged(staged: seq<Staged>, steps: seq<Step>, i: nat, registry: map<Id, Registered>, now: Time)
    requires i < |steps| && DistinctSteps(steps) && StagedFor(staged, steps[..i], registry, now)
    ensures forall t <- staged :: t.entry.id != steps[i].id
  {
    forall t <- staged ensures t.entry.id != steps[i].id {
      assert CalledFor(t, steps[..i]);
      var step :| step in steps[..i] && step.verb.UpdateIt? && step.id == t.entry.id;
    }
  }
}
