/** Applying a reviewed sync plan (internal/resourcehub/sync.go:135-310): what may be
    overwritten, and what a failure leaves behind. */
module SyncApply {
  import opened Wrappers
  import opened Saga
  import opened FreeNames
  import opened TreeDigest
  import opened ResourceSync
  import opened SyncSteps

  datatype Outcome = Refused | Aborted(restored: bool) | Applied(backups: seq<Path>)

  /** What an apply may put at the destination of a resource: in link mode a link to the
      canonical tree, in either mode a copy of it. */
  ghost function Suits(mode: Mode, sourcePath: Id -> Path, copyOf: Content -> Option<Tree>, canonical: map<Id, Content>)
    : (Id, Content) -> bool
  {
    (id: Id, content: Content) =>
      || (mode.LinkMode? && content == Symlink(sourcePath(id)))
      || (id in canonical && copyOf(canonical[id]) == Some(content))
  }

  class Hub {
    const tree: FileTree<Path, Content>
    const digestOf: (Path, Content) -> Option<Digest>
    const copyOf: Content -> Option<Tree>
    const sourcePath: Id -> Path
    const sealPlan: Plan -> Digest
    const sealRegistry: Registry -> Digest
    var registry: Registry
    var canonical: map<Id, Content>
    var managed: map<Id, map<Path, Managed>>
    var plans: map<PlanId, SavedPlan>
    /** Every (destination, digest) that an apply has recorded. */
    ghost var recorded: set<(Path, Digest)>

    constructor (tree: FileTree<Path, Content>, digestOf: (Path, Content) -> Option<Digest>,
                 copyOf: Content -> Option<Tree>, sourcePath: Id -> Path,
                 sealPlan: Plan -> Digest, sealRegistry: Registry -> Digest)
      ensures Valid() && this.tree == tree && recorded == {} && plans == map[] && managed == map[]
      ensures this.digestOf == digestOf && this.copyOf == copyOf && this.sourcePath == sourcePath
      ensures this.sealPlan == sealPlan && this.sealRegistry == sealRegistry
    {
      this.tree, this.digestOf, this.copyOf := tree, digestOf, copyOf;
      this.sourcePath, this.sealPlan, this.sealRegistry := sourcePath, sealPlan, sealRegistry;
      registry, canonical, managed, plans, recorded := Registry(map[], map[]), map[], map[], map[], {};
    }

    /** Puts the hub in a given state. */
    method Arrange(registry': Registry, canonical': map<Id, Content>, managed': map<Id, map<Path, Managed>>,
                   plans': map<PlanId, SavedPlan>, ghost recorded': set<(Path, Digest)>)
      requires (forall t <- managed' :: EntriesRecorded(managed'[t], recorded'))
      requires (forall id <- plans' :: PlanRecorded(plans'[id].plan, recorded'))
      modifies this
      ensures Valid() && registry == registry' && canonical == canonical' && managed == managed' && plans == plans'
      ensures recorded == recorded'
    {
      registry, canonical, managed, plans, recorded := registry', canonical', managed', plans', recorded';
    }

    ghost predicate Valid()
      reads this
    {
      && (forall t <- managed :: EntriesRecorded(managed[t], recorded))
      && (forall id <- plans :: PlanRecorded(plans[id].plan, recorded))
    }

    method Attempt() returns (ok: bool)
    {
      ok := *;
    }

    function EntriesOf(targetId: Id): map<Path, Managed>
      reads this
    {
      if targetId in managed then managed[targetId] else map[]
    }

    function LookIn(files: map<Path, Content>, path: Path): Found {
      if path !in files then Absent
      else
        var d := digestOf(path, files[path]);
        if d.Some? then Present(d.value) else Unreadable
    }

    function Look(path: Path): Found
      reads tree
    {
      LookIn(tree.files, path)
    }

    ghost predicate RecordedIn(files: map<Path, Content>, path: Path, recorded: set<(Path, Digest)>) {
      LookIn(files, path).Present? && (path, LookIn(files, path).digest) in recorded
    }

    /** What an apply has to leave alone: all that is neither recorded nor at risk. */
    ghost function Guarded(start: map<Path, Content>, operations: seq<Operation>, mode: Mode,
                           recorded: set<(Path, Digest)>)
      : set<Path>
    {
      set p <- start | !RecordedIn(start, p, recorded) && p !in AtRisk(operations, mode, start)
    }

    function ViewOf(targetId: Id): View
      requires targetId in registry.targets
      reads this, tree
    {
      var target := registry.targets[targetId];
      View(tree.files, EntriesOf(targetId), registry, target, Placement(target), digestOf, sourcePath)
    }

    /** What happens between calls: any file is edited, any import or registration is made. */
    method OutsideEdit(path: Path, content: Option<Content>, registry': Registry, canonical': map<Id, Content>)
      requires Valid()
      modifies this`registry, this`canonical, tree
      ensures Valid()
      ensures tree.files == if content.Some? then old(tree.files)[path := content.value] else old(tree.files) - {path}
      ensures registry == registry' && canonical == canonical'
    {
      tree.files := if content.Some? then tree.files[path := content.value] else tree.files - {path};
      registry, canonical := registry', canonical';
    }

    /** Nothing but the plan store changes, and only a sound plan is stored. */
    method PlanSync(targetId: Id, requested: set<Id>, blocked: Id -> bool, allowRisk: bool, prune: bool,
                    planId: PlanId, expiresAt: Time)
        returns (plan: Option<Plan>)
      requires Valid()
      modifies this`plans
      ensures Valid()
      ensures plan.None? ==> plans == old(plans)
      ensures plan.Some? ==>
        && Loads(registry) && targetId in registry.targets && registry.targets[targetId].enabled
        && plan.value.targetId == targetId && plan.value.registryDigest == sealRegistry(registry)
        && plan.value.expiresAt == expiresAt
        && plans == old(plans)[planId := SavedPlan(plan.value, sealPlan(plan.value))]
        && Sound(ViewOf(targetId), Selection(ViewOf(targetId), requested), prune, plan.value.operations)
    {
      plan := None;
      if !Loads(registry) || targetId !in registry.targets || !registry.targets[targetId].enabled { return; }
      var view := ViewOf(targetId);
      LayoutScatters(view);
      var ids := Selection(view, requested);
      var operations := PlanSelected(view, ids, blocked, allowRisk);
      if operations.None? { return; }
      if prune {
        operations := AddPruned(view, ids, operations.value);
        if operations.None? { return; }
      }
      var stored := Attempt();
      if !stored { return; }
      plan := Some(Plan(targetId, sealRegistry(registry), expiresAt, operations.value));
      assert PlanRecorded(plan.value, recorded) by {
        forall op <- operations.value | op.action.Update? ensures (op.destination, op.current) in recorded {
          PlansActOnlyOnRecordedContent(view, ids, prune, operations.value, op);
        }
      }
      plans := plans[planId := SavedPlan(plan.value, sealPlan(plan.value))];
    }

    // ---------------------------------------------------------------- apply

    predicate Reviewed(planId: PlanId, digest: Digest, confirmed: bool, now: Time)
      reads this
    {
      && confirmed && planId in plans && digest == plans[planId].digest
      && var plan := plans[planId].plan;
        && sealPlan(plan) == digest && now < plan.expiresAt
        && Loads(registry) && sealRegistry(registry) == plan.registryDigest
        && plan.targetId in registry.targets && registry.targets[plan.targetId].enabled
    }

    /** The resource is still in the registry and its canonical tree is the reviewed one. */
    predicate Current(op: Operation)
      reads this
    {
      && op.resourceId in registry.resources && op.resourceId in canonical
      && digestOf(sourcePath(op.resourceId), canonical[op.resourceId]) == Some(op.desired)
      && op.desired == registry.resources[op.resourceId].digest
    }

    predicate ReadyIn(files: map<Path, Content>, op: Operation, entries: map<Path, Managed>)
      reads this
    {
      match op.action
      case Noop => true
      case Conflict => false
      case Remove =>
        op.destination in entries && LookIn(files, op.destination) in {Absent, Present(entries[op.destination].digest)}
      case Create => Current(op) && op.destination !in files
      case Update => Current(op) && LookIn(files, op.destination) == Present(op.current)
    }

    predicate Ready(op: Operation, entries: map<Path, Managed>)
      reads this, tree
    {
      ReadyIn(tree.files, op, entries)
    }

    method Revalidate(operations: seq<Operation>, entries: map<Path, Managed>) returns (ok: bool)
      ensures ok <==> forall op <- operations :: Ready(op, entries)
    {
      for i := 0 to |operations|
        invariant forall op <- operations[..i] :: Ready(op, entries)
      {
        assert operations[i] in operations;
        if !Ready(operations[i], entries) { return false; }
        assert operations[..i + 1] == operations[..i] + [operations[i]];
      }
      assert operations[..|operations|] == operations;
      return true;
    }

    /** Clears the staging name, links there, and moves the link over the destination. */
    method LinkResource(id: Id, destination: Path) returns (ok: bool)
      modifies tree
      ensures ok ==> tree.files == Linked(old(tree.files), sourcePath(id), destination)
      ensures forall p | p != destination && p != StageOf(destination) :: Kept(tree.files, old(tree.files), p)
      ensures StageStep(StageOf(destination), Symlink(sourcePath(id)), old(tree.files), tree.files)
    {
      var stage := StageOf(destination);
      if stage in tree.files && Removable(tree.files[stage]) {
        var cleared := tree.Remove(stage);
      }
      if stage in tree.files { return false; }
      ok := tree.Write(stage, Symlink(sourcePath(id)));
      if !ok { return; }
      ok := tree.Rename(stage, destination);
    }

    method CopyResource(id: Id, destination: Path) returns (ok: bool)
      requires id in canonical
      modifies tree
      ensures ok ==>
        copyOf(canonical[id]).Some? && tree.files == old(tree.files)[destination := copyOf(canonical[id]).value]
      ensures !ok ==> tree.files == old(tree.files)
    {
      var content := copyOf(canonical[id]);
      if content.None? { return false; }
      ok := tree.Write(destination, content.value);
    }

    /** A link that cannot be made falls back to a copy; `made` tells that it was made. */
    method Install(id: Id, destination: Path, mode: Mode) returns (ok: bool, ghost made: bool)
      requires id in canonical
      modifies tree
      ensures ok ==>
        destination in tree.files && Suits(mode, sourcePath, copyOf, canonical)(id, tree.files[destination])
      ensures made ==> mode.LinkMode? && StageOf(destination) !in tree.files
      ensures ok && mode.LinkMode? && tree.files[destination].Symlink? ==> made
      ensures Touches(destination, Symlink(sourcePath(id)), mode, old(tree.files), tree.files)
    {
      ok := false;
      if mode.LinkMode? { ok := LinkResource(id, destination); }
      made := ok;
      ghost var linked := tree.files;
      StageIsNoBackup(destination);
      if !ok { ok := CopyResource(id, destination); }
      assert forall p | p != destination :: Kept(tree.files, linked, p);
      forall p | p != destination && !(mode.LinkMode? && p == StageOf(destination))
        ensures Kept(tree.files, old(tree.files), p)
      {
        assert Kept(tree.files, linked, p) && Kept(linked, old(tree.files), p);
      }
    }

    /** Moves what is there out of the way. */
    method SetAside(op: Operation, base: Path) returns (u: Option<Undo<Path, Content>>)
      requires op.action.Update? || op.action.Remove?
      requires op.destination + ROLLBACK <= base
      modifies tree
      ensures u.None? ==> tree.files == old(tree.files)
      ensures u.Some? ==> Moved(op, old(tree.files), tree.files, u.value)
    {
      var backup := FreeName(tree.files.Keys, base);
      assert IsBackupOf(backup, op.destination);
      assert backup != op.destination by { StageIsNoBackup(op.destination); }
      var ok := tree.Rename(op.destination, backup);
      if !ok { return None; }
      u := Some(MoveBack(op.destination, Some(backup)));
    }

    /** Puts the resource at a destination that is free and records what is found there. */
    method PutInPlace(op: Operation, mode: Mode) returns (entry: Option<Managed>, ghost made: bool)
      requires Current(op)
      modifies tree
      ensures Touches(op.destination, Symlink(sourcePath(op.resourceId)), mode, old(tree.files), tree.files)
      ensures made ==> mode.LinkMode? && StageOf(op.destination) !in tree.files
      ensures entry.Some? ==>
        && Look(op.destination) == Present(entry.value.digest) && entry.value.resourceId == op.resourceId
        && Suits(mode, sourcePath, copyOf, canonical)(op.resourceId, tree.files[op.destination])
        && (mode.CopyMode? ==> entry.value.digest == op.desired)
        && (mode.LinkMode? && tree.files[op.destination].Symlink? ==> made)
    {
      entry := None;
      var ok;
      ok, made := Install(op.resourceId, op.destination, mode);
      if !ok { return; }
      var found := Look(op.destination);
      if !found.Present? || (mode.CopyMode? && found.digest != registry.resources[op.resourceId].digest) { return; }
      entry := Some(Managed(op.resourceId, found.digest));
    }

    method Perform(op: Operation, entries: map<Path, Managed>, mode: Mode, base: Path, ghost loose: set<Path>)
        returns (ok: bool, u: Option<Undo<Path, Content>>, entries': map<Path, Managed>, ghost made: bool)
      requires op.action.Create? || op.action.Update? || op.action.Remove?
      requires !op.action.Remove? ==> Current(op)
      requires op.destination + ROLLBACK <= base
      modifies tree
      ensures u.None? ==> !ok && !made && tree.files == old(tree.files)
      ensures u.Some? ==> u.value.MoveBack? && u.value.path == op.destination
      ensures u.Some? && u.value.backup.Some? ==> u.value.backup.value !in old(tree.files)
      ensures Leaves(op, mode, old(tree.files), tree.files)
      ensures u.Some? && Fits(op, mode, loose, old(tree.files)) ==>
        StepFrame(op, mode, loose, Symlink(sourcePath(op.resourceId)), old(tree.files), tree.files, u.value, made)
      ensures ok ==> forall p | p != op.destination :: Kept(entries', entries, p)
      ensures ok && op.action.Remove? ==> op.destination !in tree.files && op.destination !in entries'
      ensures ok && !op.action.Remove? ==>
        && op.destination in entries' && Look(op.destination) == Present(entries'[op.destination].digest)
        && Suits(mode, sourcePath, copyOf, canonical)(op.resourceId, tree.files[op.destination])
        && entries'[op.destination].resourceId == op.resourceId
        && (mode.CopyMode? ==> entries'[op.destination].digest == op.desired)
        && (mode.LinkMode? && tree.files[op.destination].Symlink? ==> made)
    {
      ok, u, entries', made := false, None, entries, false;
      var allowed := Attempt();
      if !allowed { return; }
      if op.action.Create? {
        u := Some(MoveBack(op.destination, None));
      } else {
        u := SetAside(op, base);
        if u.None? { return; }
      }
      ghost var middle, link := tree.files, Symlink(sourcePath(op.resourceId));
      if op.action.Remove? {
        ok, entries' := true, entries - {op.destination};
      } else {
        var entry;
        entry, made := PutInPlace(op, mode);
        if entry.Some? { ok, entries' := true, entries[op.destination := entry.value]; }
      }
      CarriedLeaves(op, mode, link, old(tree.files), middle, tree.files, u.value, made);
      if Fits(op, mode, loose, old(tree.files)) {
        CarriedFrame(op, mode, loose, link, old(tree.files), middle, tree.files, u.value, made);
      }
    }

    // ------------------------------------------------------------ all operations

    ghost predicate Tracks(g: Progress, plan: Plan, mode: Mode, entries: map<Path, Managed>)
      reads this
    {
      && g.all == plan.operations && g.mode == mode && g.entries == entries && g.digestOf == digestOf
      && g.suits == Suits(mode, sourcePath, copyOf, canonical) && g.sourcePath == sourcePath
      && g.Lined() && forall op <- plan.operations :: ReadyIn(g.start, op, entries)
    }

    /** Where a run of operations stands after `done` of them. */
    ghost predicate UnderWay(g: Progress, plan: Plan, mode: Mode, entries: map<Path, Managed>,
                             start: map<Path, Content>,
                             undos: seq<Undo<Path, Content>>, entries': map<Path, Managed>, done: nat)
      reads this, tree
    {
      && Tracks(g, plan, mode, entries) && g.files == tree.files
      && g.start == start && g.undos == undos && g.entries' == entries' && g.Good() && g.done == done
    }

    /** And where it stands when an operation failed. */
    ghost predicate Stopped(g: Progress, plan: Plan, mode: Mode, start: map<Path, Content>,
                            undos: seq<Undo<Path, Content>>)
      reads this, tree
    {
      && g.all == plan.operations && g.mode == mode && g.sourcePath == sourcePath && g.files == tree.files
      && g.start == start && g.undos == undos && g.tried <= |g.all| && g.Retractable()
    }

    /** What was checked before the first mutation still holds when an operation's turn comes,
        or linking has come by. */
    lemma PendingFits(g: Progress, plan: Plan, mode: Mode, entries: map<Path, Managed>, i: nat)
      requires i < |plan.operations| && plan.operations[i].action in {Create, Update, Remove}
      requires Tracks(g, plan, mode, entries) && g.Good() && g.done == i
      ensures Fits(plan.operations[i], mode, Loose(plan.operations, mode, g.start), g.files)
      ensures plan.operations[i].action.Create? ==> plan.operations[i].destination !in g.start
    {
      var op := plan.operations[i];
      assert op in plan.operations && op.destination in Destinations(plan.operations);
      NextPlaces(g);
      LooseGrows(g.all, g.mode, g.start, i, |g.all|);
      assert g.all[..|g.all|] == g.all;
      if Links(op, mode) { assert StageOf(op.destination) in Scratch(plan.operations, mode); }
    }

    /** What is guarded is as it was, and no compensation names it. */
    ghost predicate Unharmed(guarded: set<Path>, start: map<Path, Content>, files: map<Path, Content>,
                             undos: seq<Undo<Path, Content>>)
    {
      guarded <= start.Keys && Avoids(undos, guarded) && forall p <- guarded :: Kept(files, start, p)
    }

    ghost predicate Spares(op: Operation, mode: Mode, files: map<Path, Content>, guarded: set<Path>) {
      && op.destination !in guarded
      && (mode.LinkMode? && Installs(op) && StageOf(op.destination) in guarded ==>
            StageOf(op.destination) in files && !Removable(files[StageOf(op.destination)]))
    }

    /** No operation of a plan that was found ready sets out for anything guarded. */
    lemma ReadySparesGuarded(start: map<Path, Content>, files: map<Path, Content>, plan: Plan, mode: Mode,
                             entries: map<Path, Managed>, undos: seq<Undo<Path, Content>>, op: Operation)
      requires op in plan.operations && op.action in {Create, Update, Remove} && ReadyIn(start, op, entries)
      requires EntriesRecorded(entries, recorded) && PlanRecorded(plan, recorded)
      requires Unharmed(Guarded(start, plan.operations, mode, recorded), start, files, undos)
      ensures Spares(op, mode, files, Guarded(start, plan.operations, mode, recorded))
    {
      if mode.LinkMode? && Installs(op) { assert StageOf(op.destination) in Scratch(plan.operations, mode); }
    }

    lemma StaysUnharmed(guarded: set<Path>, start: map<Path, Content>, op: Operation, mode: Mode,
                        before: map<Path, Content>, after: map<Path, Content>,
                        undos: seq<Undo<Path, Content>>, u: Option<Undo<Path, Content>>)
      requires Unharmed(guarded, start, before, undos) && Spares(op, mode, before, guarded)
      requires Leaves(op, mode, before, after)
      requires u.Some? ==> u.value.MoveBack? && u.value.path == op.destination
      requires u.Some? && u.value.backup.Some? ==> u.value.backup.value !in before
      ensures Unharmed(guarded, start, after, if u.Some? then undos + [u.value] else undos)
    {
      forall p <- guarded ensures Kept(after, start, p) {
        assert Kept(before, start, p);
      }
    }

    lemma Begins(plan: Plan, mode: Mode, entries: map<Path, Managed>, g: Progress)
      requires forall op <- plan.operations :: ReadyIn(tree.files, op, entries)
      requires g == Progress(mode, plan.operations, 0, 0, {}, tree.files, tree.files, entries, entries, [], sourcePath,
                             digestOf, Suits(mode, sourcePath, copyOf, canonical))
      requires g.Lined()
      ensures UnderWay(g, plan, mode, entries, tree.files, [], entries, 0)
    {
      NothingDone(g);
    }

    lemma Skips(g: Progress, plan: Plan, mode: Mode, entries: map<Path, Managed>, start: map<Path, Content>,
                undos: seq<Undo<Path, Content>>, entries': map<Path, Managed>, i: nat)
      requires i < |plan.operations| && plan.operations[i].action.Noop?
      requires UnderWay(g, plan, mode, entries, start, undos, entries', i)
      ensures UnderWay(g.(done := i + 1, tried := i + 1), plan, mode, entries, start, undos, entries', i + 1)
    {
      SkipExtends(g);
    }

    method PerformNext(plan: Plan, planId: PlanId, entries: map<Path, Managed>, mode: Mode, i: nat,
                       undos: seq<Undo<Path, Content>>, entries': map<Path, Managed>,
                       ghost g: Progress, ghost guarded: set<Path>, ghost start: map<Path, Content>)
        returns (ok: bool, undos': seq<Undo<Path, Content>>, next: map<Path, Managed>, ghost g': Progress)
      requires i < |plan.operations| && plan.operations[i].action in {Create, Update, Remove}
      requires !plan.operations[i].action.Remove? ==> Current(plan.operations[i])
      requires RollbacksFree(plan.operations, mode) ==> UnderWay(g, plan, mode, entries, start, undos, entries', i)
      requires Unharmed(guarded, start, tree.files, undos) && Spares(plan.operations[i], mode, tree.files, guarded)
      modifies tree
      ensures RollbacksFree(plan.operations, mode) ==>
        if ok then UnderWay(g', plan, mode, entries, start, undos', next, i + 1)
        else Stopped(g', plan, mode, start, undos')
      ensures Unharmed(guarded, start, tree.files, undos')
    {
      var op := plan.operations[i];
      ghost var free, loose := RollbacksFree(plan.operations, mode), Loose(plan.operations, mode, start);
      if free { PendingFits(g, plan, mode, entries, i); }
      var u; ghost var made;
      ok, u, next, made := Perform(op, entries', mode, op.destination + ROLLBACK + planId + "-" + Decimal(i), loose);
      undos' := if u.Some? then undos + [u.value] else undos;
      StaysUnharmed(guarded, start, op, mode, old(tree.files), tree.files, undos, u);
      g' := if free && u.Some? then Advanced(g, tree.files, u.value, made, ok, next) else g;
      if free && u.Some? { Advances(g, tree.files, u.value, made, ok, next); }
    }

    ghost function Advanced(g: Progress, files': map<Path, Content>, u: Undo<Path, Content>, made: bool, ok: bool,
                            next: map<Path, Managed>): Progress
      requires g.done < |g.all|
    {
      var step := g.After(files', u, made);
      if ok then step.(done := g.done + 1, entries' := next) else step
    }

    lemma Advances(g: Progress, files': map<Path, Content>, u: Undo<Path, Content>, made: bool, ok: bool,
                   next: map<Path, Managed>)
      requires g.done < |g.all| && g.Good() && g.Lined() && g.Stepped(g.After(files', u, made), u, made)
      requires ok ==> forall p | p != g.all[g.done].destination :: Kept(next, g.entries', p)
      requires ok ==> Advanced(g, files', u, made, ok, next).Achieved(g.all[g.done])
      ensures var g' := Advanced(g, files', u, made, ok, next);
        if ok then g'.Good() else g'.tried <= |g'.all| && g'.Retractable()
    {
      var step := g.After(files', u, made);
      if ok { StepExtends(g, step, files', u, made, next); } else { Retracts(g, step, files', u, made); }
    }

    /** Runs the operations in order and stops at the first that fails. */
    method PerformAll(plan: Plan, planId: PlanId, entries: map<Path, Managed>, mode: Mode)
        returns (ok: bool, undos: seq<Undo<Path, Content>>, entries': map<Path, Managed>, ghost g: Progress)
      requires forall op <- plan.operations :: Ready(op, entries)
      requires EntriesRecorded(entries, recorded) && PlanRecorded(plan, recorded)
      modifies tree
      ensures RollbacksFree(plan.operations, mode) ==>
        if ok then UnderWay(g, plan, mode, entries, old(tree.files), undos, entries', |plan.operations|)
        else Stopped(g, plan, mode, old(tree.files), undos)
      ensures Unharmed(Guarded(old(tree.files), plan.operations, mode, recorded), old(tree.files), tree.files, undos)
    {
      ghost var start, guarded := tree.files, Guarded(tree.files, plan.operations, mode, recorded);
      ghost var free := RollbacksFree(plan.operations, mode);
      ok, undos, entries' := true, [], entries;
      g := Progress(mode, plan.operations, 0, 0, {}, start, start, entries, entries, [], sourcePath, digestOf,
                    Suits(mode, sourcePath, copyOf, canonical));
      if free { Begins(plan, mode, entries, g); }
      for i := 0 to |plan.operations|
        invariant forall op <- plan.operations :: ReadyIn(start, op, entries)
        invariant free ==> UnderWay(g, plan, mode, entries, start, undos, entries', i)
        invariant Unharmed(guarded, start, tree.files, undos)
      {
        var op := plan.operations[i];
        assert op in plan.operations;
        if op.action.Noop? {
          if free { Skips(g, plan, mode, entries, start, undos, entries', i); }
          g := g.(done := i + 1, tried := i + 1);
          continue;
        }
        ReadySparesGuarded(start, tree.files, plan, mode, entries, undos, op);
        ok, undos, entries', g := PerformNext(plan, planId, entries, mode, i, undos, entries', g, guarded, start);
        if !ok { return; }
      }
    }

    predicate Stored(planId: PlanId)
      reads this
    {
      planId in plans && plans[planId].plan.targetId in registry.targets
    }

    /** Everything that is looked at before the first mutation. */
    ghost predicate CanApply(planId: PlanId)
      requires Stored(planId)
      reads this, tree
    {
      var plan := plans[planId].plan;
      forall op <- plan.operations :: Ready(op, EntriesOf(plan.targetId))
    }

    /** Whatever is not as it was had been recorded, or lay at a staging name. */
    ghost predicate OnlyRecordedGone(start: map<Path, Content>, files: map<Path, Content>, risk: set<Path>,
                                     recorded: set<(Path, Digest)>)
    {
      forall p <- start | !Kept(files, start, p) :: RecordedIn(start, p, recorded) || p in risk
    }

    /** How an apply of a plan whose names are no rollback names may end.  A rollback that
        worked restores all but what was at risk where linking was tried; a success did what
        was reviewed, but for what was at risk. */
    ghost predicate CarriedOut(plan: Plan, mode: Mode, r: Outcome, trace: Trace,
                               start: map<Path, Content>, files: map<Path, Content>,
                               entries: map<Path, Managed>, entries': map<Path, Managed>)
      reads this
    {
      var operations := plan.operations;
      RollbacksFree(operations, mode) ==>
        match r
        case Refused => files == start
        case Aborted(restored) => restored ==>
          && Honest(operations, mode, trace, start, files)
          && Settled(operations, mode, sourcePath, AtRisk(operations, mode, start) * trace.tried, start, files, {})
        case Applied(backups) =>
          && Honest(operations, mode, trace, start, files) && trace.tried == Scratch(operations, mode)
          && Fulfilled(operations, mode, sourcePath, digestOf, Suits(mode, sourcePath, copyOf, canonical), trace.made,
                       start, files, entries, entries', backups)
    }

    /** A refusal touches nothing.  However an apply of any plan ends, what it overwrote or
        removed had been recorded for that destination or lay at a staging name. */
    method ApplySync(planId: PlanId, digest: Digest, confirmed: bool, now: Time)
        returns (r: Outcome, ghost trace: Trace)
      requires Valid()
      modifies this`managed, this`plans, this`recorded, tree
      ensures Valid() && old(recorded) <= recorded
      ensures r.Refused? ==> tree.files == old(tree.files)
      ensures !r.Applied? ==> managed == old(managed) && plans == old(plans) && recorded == old(recorded)
      ensures !r.Refused? ==> old(Reviewed(planId, digest, confirmed, now)) && old(CanApply(planId))
      ensures !r.Refused? ==>
        var plan := old(plans[planId].plan);
        var mode := registry.targets[plan.targetId].mode;
        && OnlyRecordedGone(old(tree.files), tree.files, AtRisk(plan.operations, mode, old(tree.files)), old(recorded))
        && CarriedOut(plan, mode, r, trace, old(tree.files), tree.files, old(EntriesOf(plan.targetId)),
                      EntriesOf(plan.targetId))
      ensures r.Applied? ==>
        && plans in {old(plans), old(plans) - {planId}}
        && recorded == old(recorded) + Pairs(EntriesOf(old(plans[planId].plan.targetId)))
        && managed == old(managed)[old(plans[planId].plan.targetId) := EntriesOf(old(plans[planId].plan.targetId))]
    {
      r, trace := Refused, Trace({}, {});
      if !Reviewed(planId, digest, confirmed, now) { return; }
      var plan := plans[planId].plan;
      var locked := Attempt();
      if !locked { return; }
      var ready := Revalidate(plan.operations, EntriesOf(plan.targetId));
      if !ready { return; }
      var entries';
      r, entries', trace := CarryOut(plan, planId, EntriesOf(plan.targetId), registry.targets[plan.targetId].mode);
      if r.Applied? { Record(planId, plan.targetId, entries'); }
    }

    method Record(planId: PlanId, targetId: Id, entries: map<Path, Managed>)
      requires Valid()
      modifies this`managed, this`plans, this`recorded
      ensures Valid() && recorded == old(recorded) + Pairs(entries)
      ensures managed == old(managed)[targetId := entries] && plans in {old(plans), old(plans) - {planId}}
    {
      managed := managed[targetId := entries];
      recorded := recorded + Pairs(entries);
      var consumed := Attempt();
      if consumed { plans := plans - {planId}; }
    }

    /** The paths with the digest of what was there. */
    ghost function Described(start: map<Path, Content>, paths: set<Path>): set<(Path, Digest)> {
      set p <- paths :: (p, if LookIn(start, p).Present? then LookIn(start, p).digest else "")
    }

    /** What was there and is there no more. */
    ghost function Gone(start: map<Path, Content>, files: map<Path, Content>): set<(Path, Digest)> {
      Described(start, set p <- start | !Kept(files, start, p))
    }

    lemma GoneWasKnown(start: map<Path, Content>, files: map<Path, Content>, risk: set<Path>,
                       recorded: set<(Path, Digest)>)
      requires OnlyRecordedGone(start, files, risk, recorded)
      ensures Gone(start, files) <= recorded + Described(start, risk)
    {
    }

    /** One call of a run: what an apply destroyed, what had lain at risk, and what was recorded. */
    method Serve(call: Call) returns (ghost step: Step)
      requires Valid()
      modifies this, tree
      ensures Valid() && recorded == old(recorded) + step.recorded
      ensures step.gone <= old(recorded) + step.atRisk
    {
      step := Step({}, {}, {});
      match call
      case EditCall(path, content, registry', canonical') =>
        OutsideEdit(path, content, registry', canonical');
      case PlanCall(targetId, requested, blocked, allowRisk, prune, planId, expiresAt) =>
        var plan := PlanSync(targetId, requested, blocked, allowRisk, prune, planId, expiresAt);
      case ApplyCall(planId, digest, confirmed, now) =>
        ghost var start, before := tree.files, recorded;
        ghost var plan := if planId in plans then plans[planId].plan else Plan("", "", 0, []);
        var r; ghost var trace;
        r, trace := ApplySync(planId, digest, confirmed, now);
        if !r.Refused? {
          ghost var risk := AtRisk(plan.operations, registry.targets[plan.targetId].mode, start);
          GoneWasKnown(start, tree.files, risk, before);
          step := Step(Gone(start, tree.files), Described(start, risk),
                       if r.Applied? then Pairs(EntriesOf(plan.targetId)) else {});
        }
    }

    /** Over every run of outside edits, imports, plans and applies, whatever an apply
        destroys had, for that same destination, been recorded by an earlier one, or it lay
        at a name that the apply was going to stage a link under. */
    method Run(calls: seq<Call>) returns (ghost steps: seq<Step>)
      requires Valid() && recorded == {}
      modifies this, tree
      ensures Valid() && |steps| == |calls|
      ensures forall i | 0 <= i < |calls| :: steps[i].gone <= RecordedBy(steps[..i]) + steps[i].atRisk
    {
      steps := [];
      for i := 0 to |calls|
        invariant Valid() && |steps| == i && recorded == RecordedBy(steps)
        invariant forall j | 0 <= j < i :: steps[j].gone <= RecordedBy(steps[..j]) + steps[j].atRisk
      {
        ghost var step := Serve(calls[i]);
        assert (steps + [step])[..i] == steps;
        assert forall j | 0 <= j < i :: (steps + [step])[..j] == steps[..j];
        steps := steps + [step];
      }
    }

    lemma GuardedStays(start: map<Path, Content>, files: map<Path, Content>, operations: seq<Operation>, mode: Mode)
      requires forall p <- Guarded(start, operations, mode, recorded) :: Kept(files, start, p)
      ensures OnlyRecordedGone(start, files, AtRisk(operations, mode, start), recorded)
    {
      assert forall p <- start | !RecordedIn(start, p, recorded) && p !in AtRisk(operations, mode, start) ::
          p in Guarded(start, operations, mode, recorded);
    }

    /** Undoes what was done; names not meant to change keep even when undoing fails. */
    method Retreat(ghost g: Progress, undos: seq<Undo<Path, Content>>, ghost free: bool, ghost guarded: set<Path>)
        returns (r: Outcome)
      requires g.undos == undos && g.files == tree.files && Avoids(undos, guarded)
      requires free ==> g.tried <= |g.all| && g.Retractable()
      modifies tree
      ensures r.Aborted? && forall p <- guarded :: Kept(tree.files, old(tree.files), p)
      ensures free && r.restored ==>
        && Settled(g.all, g.mode, g.sourcePath, AtRisk(g.all, g.mode, g.start) * Scratch(g.all[..g.tried], g.mode),
                   g.start, tree.files, {})
        && Honest(g.all, g.mode, Trace(Scratch(g.all[..g.tried], g.mode), g.made), g.start, tree.files)
    {
      var restored := tree.RollBack(undos, guarded);
      if restored && free {
        RolledBackIsSettled(g, tree.files);
        TraceIsHonest(g, tree.files);
      }
      r := Aborted(restored);
    }

    /** The mutations, the save of the managed state, and the rollback when either fails. */
    method CarryOut(plan: Plan, planId: PlanId, entries: map<Path, Managed>, mode: Mode)
        returns (r: Outcome, entries': map<Path, Managed>, ghost trace: Trace)
      requires forall op <- plan.operations :: Ready(op, entries)
      requires EntriesRecorded(entries, recorded) && PlanRecorded(plan, recorded)
      modifies tree
      ensures !r.Refused? && CarriedOut(plan, mode, r, trace, old(tree.files), tree.files, entries, entries')
      ensures OnlyRecordedGone(old(tree.files), tree.files, AtRisk(plan.operations, mode, old(tree.files)), recorded)
    {
      ghost var start, guarded := tree.files, Guarded(tree.files, plan.operations, mode, recorded);
      ghost var free := RollbacksFree(plan.operations, mode);
      var ok, undos;
      ghost var g;
      ok, undos, entries', g := PerformAll(plan, planId, entries, mode);
      ghost var middle := tree.files;
      trace := if free then Trace(Scratch(g.all[..g.tried], mode), g.made) else Trace({}, {});
      var saved := Attempt();
      if ok && saved {
        r := Applied(BackupList(undos));
        if free { Finishes(g, plan, mode, trace); }
      } else {
        g := if free then g else g.(undos := undos, files := tree.files);
        r := Retreat(g, undos, free, guarded);
        assert forall p <- guarded :: Kept(tree.files, middle, p) && Kept(middle, start, p);
      }
      GuardedStays(start, tree.files, plan.operations, mode);
    }

    lemma Finishes(g: Progress, plan: Plan, mode: Mode, trace: Trace)
      requires g.all == plan.operations && g.mode == mode && g.Good() && g.done == |g.all|
      requires trace == Trace(Scratch(g.all[..g.tried], mode), g.made)
      ensures Honest(plan.operations, mode, trace, g.start, g.files) && trace.tried == Scratch(plan.operations, mode)
      ensures Fulfilled(plan.operations, mode, g.sourcePath, g.digestOf, g.suits, trace.made, g.start, g.files,
                        g.entries, g.entries', BackupList(g.undos))
    {
      assert g.all[..g.tried] == g.all;
      GoodMeansFulfilled(g);
      TraceIsHonest(g, g.files);
    }
  }

  /** The requested resources, or every one that suits the target. */
  function Selection(view: View, requested: set<Id>): set<Id> {
    if requested == {} then view.Chosen(view.registry.resources.Keys) else requested
  }

  datatype Call =
    | EditCall(path: Path, content: Option<Content>, registry: Registry, canonical: map<Id, Content>)
    | PlanCall(targetId: Id, requested: set<Id>, blocked: Id -> bool, allowRisk: bool, prune: bool, planId: PlanId,
               expiresAt: Time)
    | ApplyCall(planId: PlanId, digest: Digest, confirmed: bool, now: Time)

  datatype Step = Step(gone: set<(Path, Digest)>, atRisk: set<(Path, Digest)>, recorded: set<(Path, Digest)>)

  ghost function RecordedBy(steps: seq<Step>): set<(Path, Digest)> {
    if steps == [] then {} else RecordedBy(steps[..|steps| - 1]) + steps[|steps| - 1].recorded
  }

  function Pairs(entries: map<Path, Managed>): set<(Path, Digest)> {
    set p | p in entries :: (p, entries[p].digest)
  }

  ghost predicate EntriesRecorded(entries: map<Path, Managed>, recorded: set<(Path, Digest)>) {
    forall p <- entries :: (p, entries[p].digest) in recorded
  }

  ghost predicate PlanRecorded(plan: Plan, recorded: set<(Path, Digest)>) {
    && DistinctDestinations(plan.operations) && InOrder(plan.operations)
    && forall op <- plan.operations :: op.action.Update? ==> (op.destination, op.current) in recorded
  }

  // ---------------------------------------------------------------- copies that pass

  /** Digests and copies as the file system gives them, under any hash. */
  ghost predicate Real(hub: Hub, base: Path -> string, hash: string -> Digest) {
    && (forall p: Path, c: Content :: hub.digestOf(p, c) == Of(base(p), c, hash))
    && (forall c: Content :: hub.copyOf(c) == Copy(c))
  }

  /** The copy of a canonical directory that is as it was reviewed is found to be so at the
      destination: the check after copying fails only for what was changed in between. */
  lemma IntactCopyPasses(hub: Hub, base: Path -> string, hash: string -> Digest, op: Operation)
    requires Real(hub, base, hash) && hub.Current(op) && hub.canonical[op.resourceId].Directory?
    ensures var copy := hub.copyOf(hub.canonical[op.resourceId]);
      copy.Some? && hub.LookIn(hub.tree.files[op.destination := copy.value], op.destination) == Present(op.desired)
  {
    var content := hub.canonical[op.resourceId];
    CopyKeepsDigest(base(op.destination), content, hash);
    assert hub.digestOf(hub.sourcePath(op.resourceId), content) == Of(base(op.destination), content, hash);
  }

  // ------------------------------------------------ what linking does to a staging name

  /** Of an apply that came through or was rolled back: where every link that was tried was
      made, it destroyed recorded content only exactly when all that lay where a link was made
      had been recorded. */
  lemma OnlyRecordedGoneIff(hub: Hub, plan: Plan, mode: Mode, r: Outcome, trace: Trace,
                            start: map<Path, Content>, files: map<Path, Content>,
                            entries: map<Path, Managed>, entries': map<Path, Managed>,
                            recorded: set<(Path, Digest)>)
    requires RollbacksFree(plan.operations, mode) && (r.Applied? || r == Aborted(true)) && trace.made == trace.tried
    requires hub.CarriedOut(plan, mode, r, trace, start, files, entries, entries')
    requires hub.OnlyRecordedGone(start, files, AtRisk(plan.operations, mode, start), recorded)
    ensures hub.OnlyRecordedGone(start, files, {}, recorded) <==>
      forall p <- AtRisk(plan.operations, mode, start) * trace.made :: hub.RecordedIn(start, p, recorded)
  {
    var risk := AtRisk(plan.operations, mode, start);
    forall p <- risk * trace.made ensures !Kept(files, start, p) { }
    forall p <- start | !Kept(files, start, p) && !hub.RecordedIn(start, p, recorded) ensures p in risk * trace.made {
    }
  }
}
