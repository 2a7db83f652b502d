/** Planning and applying a refresh of the context files of a project
    (internal/contextengine/refresh.go:25-200). */
module ContextRefresh {
  import opened Wrappers
  import opened Saga
  import opened ContextMerge

  type Digest = string
  type PlanId = string
  type Time = int

  datatype Target = Target(path: Path, cursor: bool, generated: string)
  datatype Action = Create | Update | Noop
  /** The digest before is None for a file that is absent. */
  datatype Operation = Operation(path: Path, action: Action, before: Option<Digest>, after: Digest, content: string)
  datatype Plan = Plan(fingerprint: Digest, expiresAt: Time, operations: seq<Operation>)
  datatype SavedPlan = SavedPlan(plan: Plan, digest: Digest)

  datatype Outcome = Refused | Aborted(restored: bool) | Applied

  predicate DistinctPaths(operations: seq<Operation>) {
    forall i, j | 0 <= i < j < |operations| :: operations[i].path != operations[j].path
  }

  function Paths(operations: seq<Operation>): set<Path> {
    set op <- operations :: op.path
  }

  function TextAt(files: map<Path, string>, path: Path): string {
    if path in files then files[path] else ""
  }

  function DigestAt(files: map<Path, string>, path: Path, digest: string -> Digest): Option<Digest> {
    if path in files then Some(digest(files[path])) else None
  }

  function Assess(files: map<Path, string>, target: Target, digest: string -> Digest): Operation {
    var content := MergeManaged(TextAt(files, target.path), target.generated, target.cursor);
    var before := DigestAt(files, target.path, digest);
    var action := if before == Some(digest(content)) then Noop else if before.None? then Create else Update;
    Operation(target.path, action, before, digest(content), content)
  }

  /** Refreshing again with the same block asks for the same text exactly under the
      condition of the merge, and then there is nothing to do. */
  lemma SecondRefresh(files: map<Path, string>, again: map<Path, string>, target: Target, block: string,
                      digest: string -> Digest)
    requires target.generated == block + "\n" && IsBlock(block, START, END)
    requires target.path in again && again[target.path] == Assess(files, target, digest).content
    ensures Assess(again, target, digest).content == Assess(files, target, digest).content <==>
      Absorbs(TextAt(files, target.path), START, END)
    ensures Absorbs(TextAt(files, target.path), START, END) ==> Assess(again, target, digest).action == Noop
  {
    MergeManagedAbsorbsIff(TextAt(files, target.path), block, block, target.cursor);
  }

  /** Files after the first `done` operations. */
  function AppliedTo(files: map<Path, string>, operations: seq<Operation>): map<Path, string>
    decreases |operations|
  {
    if operations == [] then files
    else
      var op, rest := operations[|operations| - 1], AppliedTo(files, operations[..|operations| - 1]);
      if op.action.Noop? then rest else rest[op.path := op.content]
  }

  lemma {:induction false} OthersAreKept(files: map<Path, string>, operations: seq<Operation>, p: Path)
    requires p !in Paths(operations)
    ensures Kept(AppliedTo(files, operations), files, p)
    decreases |operations|
  {
    if operations != [] {
      var n := |operations| - 1;
      assert operations[n] in operations && forall op <- operations[..n] :: op in operations;
      OthersAreKept(files, operations[..n], p);
    }
  }

  /** Each operation's file holds its content, each skipped one what it held. */
  lemma {:induction false} EachIsApplied(files: map<Path, string>, operations: seq<Operation>, i: nat)
    requires DistinctPaths(operations) && i < |operations|
    ensures var op, after := operations[i], AppliedTo(files, operations);
      if op.action.Noop? then Kept(after, files, op.path) else op.path in after && after[op.path] == op.content
    decreases |operations|
  {
    var n := |operations| - 1;
    if i < n {
      EachIsApplied(files, operations[..n], i);
    } else {
      OthersAreKept(files, operations[..n], operations[i].path);
    }
  }

  /** The operations made for some targets: one for each path, for the first target that has it. */
  ghost predicate MadeFor(operations: seq<Operation>, targets: seq<Target>, assess: Target -> Operation) {
    && DistinctPaths(operations)
    && Paths(operations) == TargetPaths(targets)
    && forall op <- operations :: FromOne(op, targets, assess)
  }

  function TargetPaths(targets: seq<Target>): set<Path> {
    set target <- targets :: target.path
  }

  lemma PathsGrow(operations: seq<Operation>, op: Operation)
    ensures Paths(operations + [op]) == Paths(operations) + {op.path}
    ensures DistinctPaths(operations) && op.path !in Paths(operations) ==> DistinctPaths(operations + [op])
  {
    assert forall x <- operations :: x.path in Paths(operations);
  }

  lemma TargetPathsGrow(targets: seq<Target>, target: Target)
    ensures TargetPaths(targets + [target]) == TargetPaths(targets) + {target.path}
  {
  }

  ghost predicate FromOne(op: Operation, targets: seq<Target>, assess: Target -> Operation) {
    exists target <- targets :: op == assess(target)
  }

  lemma FromOneOfMore(op: Operation, targets: seq<Target>, target: Target, assess: Target -> Operation)
    ensures FromOne(op, targets, assess) ==> FromOne(op, targets + [target], assess)
    ensures FromOne(assess(target), targets + [target], assess)
  {
    assert target in targets + [target] && forall t <- targets :: t in targets + [target];
  }

  lemma MadeForOneMore(operations: seq<Operation>, targets: seq<Target>, target: Target, assess: Target -> Operation)
    requires MadeFor(operations, targets, assess) && assess(target).path == target.path
    ensures MadeFor(if target.path in Paths(operations) then operations else operations + [assess(target)],
                    targets + [target], assess)
  {
    var more := if target.path in Paths(operations) then operations else operations + [assess(target)];
    TargetPathsGrow(targets, target);
    PathsGrow(operations, assess(target));
    forall op <- more ensures FromOne(op, targets + [target], assess) { FromOneOfMore(op, targets, target, assess); }
  }

  class Manager {
    const tree: FileTree<Path, string>
    const digest: string -> Digest
    const seal: Plan -> Digest
    var plans: map<PlanId, SavedPlan>
    var backups: map<Path, string>

    constructor (tree: FileTree<Path, string>, digest: string -> Digest, seal: Plan -> Digest)
      ensures Valid() && this.tree == tree && plans == map[]
    {
      this.tree, this.digest, this.seal, plans, backups := tree, digest, seal, map[], map[];
    }

    ghost predicate Valid()
      reads this
    {
      forall id <- plans :: DistinctPaths(plans[id].plan.operations)
    }

    method Attempt() returns (ok: bool)
    {
      ok := *;
    }

    /** One operation for each path, as the merge of the file and the generated block. */
    method PlanRefresh(targets: seq<Target>, fingerprint: Digest, planId: PlanId, expiresAt: Time)
        returns (plan: Option<Plan>)
      requires Valid()
      modifies this`plans
      ensures Valid()
      ensures plan.None? ==> plans == old(plans)
      ensures plan.Some? ==>
        && plans == old(plans)[planId := SavedPlan(plan.value, seal(plan.value))]
        && plan.value.fingerprint == fingerprint && plan.value.expiresAt == expiresAt
        && MadeFor(plan.value.operations, targets, target => Assess(old(tree.files), target, digest))
    {
      var operations: seq<Operation> := [];
      var files := tree.files;
      var assess := target => Assess(files, target, digest);
      for i := 0 to |targets|
        invariant plans == old(plans) && MadeFor(operations, targets[..i], assess)
      {
        assert targets[..i + 1] == targets[..i] + [targets[i]];
        MadeForOneMore(operations, targets[..i], targets[i], assess);
        if targets[i].path in Paths(operations) { continue; }
        var read := Attempt();
        if !read { return None; }
        operations := operations + [assess(targets[i])];
      }
      assert targets[..|targets|] == targets;
      var stored := Attempt();
      if !stored { return None; }
      plan := Some(Plan(fingerprint, expiresAt, operations));
      plans := plans[planId := SavedPlan(plan.value, seal(plan.value))];
    }

    predicate Reviewed(planId: PlanId, digest: Digest, confirmed: bool, now: Time, fingerprint: Digest)
      reads this
    {
      && confirmed && planId in plans && plans[planId].digest == digest && seal(plans[planId].plan) == digest
      && now < plans[planId].plan.expiresAt && plans[planId].plan.fingerprint == fingerprint
    }

    predicate Unchanged(op: Operation)
      reads this, tree
    {
      op.action.Noop? || DigestAt(tree.files, op.path, digest) == op.before
    }

    method Revalidate(operations: seq<Operation>) returns (ok: bool)
      ensures ok ==> forall op <- operations :: Unchanged(op)
    {
      for i := 0 to |operations|
        invariant forall op <- operations[..i] :: Unchanged(op)
      {
        assert operations[..i + 1] == operations[..i] + [operations[i]];
        var read := Attempt();
        if !operations[i].action.Noop? && (!read || !Unchanged(operations[i])) { return false; }
      }
      assert operations[..|operations|] == operations;
      return true;
    }

    /** Backs a file up and replaces it; the undo is what was read before the first write. */
    method WriteOne(op: Operation, before: Option<string>, backup: Path)
        returns (ok: bool, undo: Option<Undo<Path, string>>)
      requires before == if op.path in tree.files then Some(tree.files[op.path]) else None
      modifies tree, this`backups
      ensures undo.None? ==> !ok && tree.files == old(tree.files)
      ensures undo.Some? ==>
        undo == Some(WriteBack(op.path, before)) && tree.files == old(tree.files)[op.path := op.content]
      ensures ok && before.Some? ==> backups == old(backups)[backup := before.value]
    {
      undo, ok := None, false;
      var allowed := Attempt();
      if !allowed { return; }
      if before.Some? {
        var copied := Attempt();
        if !copied { return; }
        backups := backups[backup := before.value];
      }
      var written := tree.Write(op.path, op.content);
      if !written { return; }
      undo := Some(WriteBack(op.path, before));
      var read := Attempt();
      ok := read && digest(tree.files[op.path]) == op.after;
    }

    /** `reviewed` is what was read when the plan was checked. */
    method WriteAll(operations: seq<Operation>, reviewed: map<Path, string>, backup: Path -> Path)
        returns (ok: bool, undos: seq<Undo<Path, string>>)
      requires DistinctPaths(operations) && reviewed == tree.files
      modifies tree, this`backups
      ensures UndoAll(tree.files, undos) == old(tree.files)
      ensures ok ==> tree.files == AppliedTo(old(tree.files), operations)
    {
      ok, undos := true, [];
      ghost var start := tree.files;
      for i := 0 to |operations|
        invariant tree.files == AppliedTo(start, operations[..i]) && UndoAll(tree.files, undos) == start && ok
      {
        assert operations[..i + 1][..i] == operations[..i];
        var op := operations[i];
        if op.action.Noop? { continue; }
        ghost var before := tree.files;
        assert forall earlier <- operations[..i] :: earlier.path != op.path;
        OthersAreKept(start, operations[..i], op.path);
        var undo;
        ok, undo := WriteOne(op, if op.path in reviewed then Some(reviewed[op.path]) else None, backup(op.path));
        if undo.Some? {
          assert UndoOne(tree.files, undo.value) == before;
          assert (undos + [undo.value])[..|undos|] == undos;
          undos := undos + [undo.value];
        }
        if !ok { return; }
      }
      assert operations[..|operations|] == operations;
    }

    /** A refusal touches nothing, a failure that was rolled back leaves every file as it
        was, and a success leaves exactly the reviewed contents. */
    method ApplyRefresh(planId: PlanId, digest: Digest, confirmed: bool, now: Time, fingerprint: Digest,
                        backup: Path -> Path)
        returns (r: Outcome)
      requires Valid()
      modifies this`plans, this`backups, tree
      ensures Valid()
      ensures r.Refused? || r == Aborted(true) ==> tree.files == old(tree.files)
      ensures !r.Applied? ==> plans == old(plans)
      ensures !r.Refused? ==>
        && old(Reviewed(planId, digest, confirmed, now, fingerprint))
        && forall op <- old(plans[planId].plan.operations) :: old(Unchanged(op))
      ensures r.Applied? ==> tree.files == AppliedTo(old(tree.files), old(plans[planId].plan.operations))
    {
      if !Reviewed(planId, digest, confirmed, now, fingerprint) { return Refused; }
      var operations := plans[planId].plan.operations;
      var ready := Revalidate(operations);
      if !ready { return Refused; }
      var ok, undos := WriteAll(operations, tree.files, backup);
      if !ok {
        var restored := tree.RollBack(undos);
        return Aborted(restored);
      }
      var removed := Attempt();
      if removed { plans := plans - {planId}; }
      r := Applied;
    }
  }
}
