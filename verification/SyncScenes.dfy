/** What an apply destroys because linking clears its staging name (linkResource,
    internal/resourcehub/fs.go:296-310), on plans that were reviewed and are ready. */
module SyncScenes {
  import opened Wrappers
  import opened Saga
  import opened TreeDigest
  import opened ResourceSync
  import opened SyncSteps
  import opened SyncApply
  import ResourceTargets
  import Text

  lemma PlainIdsAreValid(id: Id)
    requires id !in {"", ".", ".."} && forall c <- id :: PlainChar(c)
    ensures ValidId(id)
  {
    assert forall c | PlainChar(c) :: !Text.IsSpace(c);
    Text.NothingToTrim(id);
  }

  function SkillAt(root: Path, id: Id): Path {
    ResourceTargets.Destination(root, ResourceTargets.Codex, ResourceTargets.Skill, id)
  }

  /** What lies at a staging name may be another resource of the registry: a skill may be
      called like the staging name of any other skill. */
  lemma AStagingNameMayBeADestination(root: Path, id: Id)
    requires id != "" && forall c <- id :: PlainChar(c)
    ensures ValidId(id + ".agentstack-link")
    ensures SkillAt(root, id + ".agentstack-link") == StageOf(SkillAt(root, id))
  {
    var other := id + ".agentstack-link";
    assert forall c <- other :: PlainChar(c);
    assert |other| > 2;
    PlainIdsAreValid(other);
    PlacedAtTheStage(root, ResourceTargets.LayoutOf(ResourceTargets.Codex, ResourceTargets.Skill), id);
  }

  lemma PlacedAtTheStage(root: Path, layout: ResourceTargets.Layout, id: Id)
    requires layout.suffix == ""
    ensures
      ResourceTargets.Place(root, layout, id + ".agentstack-link") == StageOf(ResourceTargets.Place(root, layout, id))
  {
  }

  function CopyTree(content: Content): (r: Option<Tree>)
    ensures r == Copy(content)
  {
    Copy(content)
  }

  /** Any names, hash and seals, and a canonical tree that can be digested: a skill that is to
      be created on a target in link mode, and, at its staging name, perhaps another. */
  datatype Scene = Scene(
    root: Path, id: Id, targetId: Id, planId: PlanId, canonical: Content,
    base: Path -> string, hash: string -> Digest, sourcePath: Id -> Path,
    sealPlan: Plan -> Digest, sealRegistry: Registry -> Digest)
  {
    predicate Valid() {
      id != "" && (forall c <- id :: PlainChar(c)) && ValidId(id) && Of(base(sourcePath(id)), canonical, hash).Some?
    }

    function Wanted(): Digest
      requires Valid()
    {
      Of(base(sourcePath(id)), canonical, hash).value
    }

    function Place(): Path {
      SkillAt(root, id)
    }

    function Other(): Id {
      id + ".agentstack-link"
    }

    function Here(): Target {
      Target(ResourceTargets.Codex, root, LinkMode, true)
    }

    function Skill(name: Id): Resource
      requires Valid()
    {
      Resource(name, ResourceTargets.Skill, Wanted(), true, {})
    }

    function OneSkill(): Registry
      requires Valid()
    {
      Registry(map[id := Skill(id)], map[targetId := Here()])
    }

    function TwoSkills(): Registry
      requires Valid()
    {
      Registry(map[id := Skill(id), Other() := Skill(Other())], map[targetId := Here()])
    }

    function Creation(): Operation
      requires Valid()
    {
      Operation(id, Create, Place(), Wanted(), "")
    }

    function LinkDigest(): Digest {
      hash("L\0" + sourcePath(Other()))
    }

    /** The other skill's own link is in place. */
    function LeftAlone(): Operation
      requires Valid()
    {
      Operation(Other(), Noop, StageOf(Place()), Wanted(), LinkDigest())
    }

    function Stored(registry: Registry, operations: seq<Operation>): SavedPlan {
      var plan := Plan(targetId, sealRegistry(registry), 1, operations);
      SavedPlan(plan, sealPlan(plan))
    }
  }

  /** A hub over such a world, with the given files and one stored plan. */
  method NewHub(scene: Scene, files: map<Path, Content>, registry: Registry, entries: map<Path, Managed>,
                operations: seq<Operation>) returns (hub: Hub)
    requires PlanRecorded(scene.Stored(registry, operations).plan, Pairs(entries))
    ensures fresh(hub) && fresh(hub.tree) && hub.Valid() && Real(hub, scene.base, scene.hash)
    ensures hub.sourcePath == scene.sourcePath && hub.sealPlan == scene.sealPlan
    ensures hub.sealRegistry == scene.sealRegistry
    ensures hub.tree.files == files && hub.registry == registry && hub.recorded == Pairs(entries)
    ensures hub.canonical == map[scene.id := scene.canonical] && hub.managed == map[scene.targetId := entries]
    ensures hub.plans == map[scene.planId := scene.Stored(registry, operations)]
  {
    var tree := new FileTree(files);
    hub := new Hub(tree, (p: Path, c: Content) => Of(scene.base(p), c, scene.hash), (c: Content) => CopyTree(c),
                   scene.sourcePath, scene.sealPlan, scene.sealRegistry);
    hub.Arrange(registry, map[scene.id := scene.canonical], map[scene.targetId := entries],
                map[scene.planId := scene.Stored(registry, operations)], Pairs(entries));
  }

  ghost predicate Arranged(hub: Hub, scene: Scene, registry: Registry, operations: seq<Operation>)
    reads hub
  {
    && Real(hub, scene.base, scene.hash)
    && hub.sourcePath == scene.sourcePath && hub.sealPlan == scene.sealPlan && hub.sealRegistry == scene.sealRegistry
    && hub.registry == registry && hub.canonical == map[scene.id := scene.canonical]
    && hub.plans == map[scene.planId := scene.Stored(registry, operations)]
  }

  lemma SceneIsReady(hub: Hub, scene: Scene, registry: Registry, operations: seq<Operation>)
    requires scene.Valid() && Arranged(hub, scene, registry, operations)
    requires Loads(registry) && scene.id in registry.resources && registry.resources[scene.id] == scene.Skill(scene.id)
    requires scene.targetId in registry.targets && registry.targets[scene.targetId] == scene.Here()
    requires scene.Place() !in hub.tree.files
    requires forall op <- operations :: op == scene.Creation() || op.action.Noop?
    ensures hub.Reviewed(scene.planId, hub.plans[scene.planId].digest, true, 0) && hub.CanApply(scene.planId)
  {
    assert hub.digestOf(scene.sourcePath(scene.id), scene.canonical) == Some(scene.Wanted());
    assert hub.Current(scene.Creation());
  }

  /** What an apply that was carried out tells of the one staging name of its plan. */
  lemma WhatIsLost(hub: Hub, plan: Plan, r: SyncApply.Outcome, trace: Trace,
                   start: map<Path, Content>, files: map<Path, Content>,
                   entries: map<Path, Managed>, entries': map<Path, Managed>, op: Operation)
    requires RollbacksFree(plan.operations, LinkMode) && (r.Applied? || r == Aborted(true))
    requires hub.CarriedOut(plan, LinkMode, r, trace, start, files, entries, entries')
    requires op in plan.operations && op.action.Create?
    requires Scratch(plan.operations, LinkMode) == {StageOf(op.destination)} && StageOf(op.destination) in start
    ensures trace.made != {} ==> StageOf(op.destination) !in files
    ensures r.Applied? && op.destination in files && files[op.destination].Symlink? ==> trace.made != {}
  {
    assert Honest(plan.operations, LinkMode, trace, start, files);
    assert trace.made <= {StageOf(op.destination)};
    if trace.made != {} {
      var p :| p in trace.made;
      assert p == StageOf(op.destination);
    }
  }

  /** Applies the stored plan, which links the skill and has one staging name, where something lies. */
  method ApplyOver(hub: Hub, scene: Scene, operations: seq<Operation>)
      returns (r: SyncApply.Outcome, ghost trace: Trace)
    requires scene.Valid() && hub.Valid() && hub.Stored(scene.planId)
    requires hub.plans[scene.planId].plan.operations == operations && scene.Creation() in operations
    requires hub.registry.targets[hub.plans[scene.planId].plan.targetId].mode == LinkMode
    requires RollbacksFree(operations, LinkMode) && Scratch(operations, LinkMode) == {StageOf(scene.Place())}
    requires StageOf(scene.Place()) in hub.tree.files
    modifies hub, hub.tree
    ensures (r.Applied? || r == Aborted(true)) && trace.made != {} ==> StageOf(scene.Place()) !in hub.tree.files
    ensures r.Applied? && scene.Place() in hub.tree.files && hub.tree.files[scene.Place()].Symlink? ==> trace.made != {}
  {
    ghost var plan, start := hub.plans[scene.planId].plan, hub.tree.files;
    ghost var entries := hub.EntriesOf(plan.targetId);
    r, trace := hub.ApplySync(scene.planId, hub.plans[scene.planId].digest, true, 0);
    if r.Applied? || r == Aborted(true) {
      WhatIsLost(hub, plan, r, trace, start, hub.tree.files, entries, hub.EntriesOf(plan.targetId), scene.Creation());
    }
  }

  // ------------------------------------------------------------ a file of the user's

  /** A file of the user's at a staging name: nothing is recorded, the plan that creates one
      skill is sound, reviewed and ready, and the file is at risk. */
  method AForeignFileAtAStagingName(scene: Scene, mine: Content) returns (hub: Hub)
    requires scene.Valid() && Removable(mine)
    ensures fresh(hub) && fresh(hub.tree) && hub.Valid() && Real(hub, scene.base, scene.hash) && hub.recorded == {}
    ensures hub.tree.files == map[StageOf(scene.Place()) := mine] && hub.registry == scene.OneSkill()
    ensures hub.plans == map[scene.planId := scene.Stored(scene.OneSkill(), [scene.Creation()])]
    ensures Sound(hub.ViewOf(scene.targetId), {scene.id}, false, [scene.Creation()])
    ensures hub.Reviewed(scene.planId, hub.plans[scene.planId].digest, true, 0) && hub.CanApply(scene.planId)
    ensures RollbacksFree([scene.Creation()], LinkMode)
    ensures AtRisk([scene.Creation()], LinkMode, hub.tree.files) == {StageOf(scene.Place())}
  {
    StageIsNoBackup(scene.Place());
    hub := NewHub(scene, map[StageOf(scene.Place()) := mine], scene.OneSkill(), map[], [scene.Creation()]);
    OneCreationIsSound(hub.ViewOf(scene.targetId), scene);
    OneAtRisk(scene, mine);
    SceneIsReady(hub, scene, scene.OneSkill(), [scene.Creation()]);
  }

  lemma OneAtRisk(scene: Scene, mine: Content)
    requires scene.Valid() && Removable(mine)
    ensures var operations := [scene.Creation()];
      && RollbacksFree(operations, LinkMode) && Scratch(operations, LinkMode) == {StageOf(scene.Place())}
      && AtRisk(operations, LinkMode, map[StageOf(scene.Place()) := mine]) == {StageOf(scene.Place())}
  {
    var place, operations := scene.Place(), [scene.Creation()];
    StageIsNoBackup(place);
    assert scene.Creation() in operations;
    assert Destinations(operations) == {place} && Scratch(operations, LinkMode) == {StageOf(place)};
  }

  lemma OneCreationIsSound(view: View, scene: Scene)
    requires scene.Valid() && view.registry == scene.OneSkill() && view.target == scene.Here()
    requires view.placeOf == Placement(view.target) && scene.Place() !in view.files
    ensures Sound(view, {scene.id}, false, [scene.Creation()])
  {
    assert view.DestinationOf(scene.id) == scene.Place();
    assert view.Chosen({scene.id}) == {scene.id};
    assert view.ChosenDestinations({scene.id}) == {scene.Place()};
    assert Destinations([scene.Creation()]) == {scene.Place()};
  }

  /** Applying that plan, once its link was made, leaves nothing of the file, whether it comes
      through or is rolled back. */
  method TheForeignFileIsLost(scene: Scene, mine: Content) returns (hub: Hub, r: SyncApply.Outcome, ghost trace: Trace)
    requires scene.Valid() && Removable(mine)
    ensures (r.Applied? || r == Aborted(true)) && trace.made != {} ==> StageOf(scene.Place()) !in hub.tree.files
    ensures r.Applied? && scene.Place() in hub.tree.files && hub.tree.files[scene.Place()].Symlink? ==> trace.made != {}
  {
    hub := AForeignFileAtAStagingName(scene, mine);
    OneAtRisk(scene, mine);
    r, trace := ApplyOver(hub, scene, [scene.Creation()]);
  }

  // -------------------------------------------------------------- another skill

  function OthersLink(scene: Scene): map<Path, Content> {
    map[StageOf(scene.Place()) := Symlink(scene.sourcePath(scene.Other()))]
  }

  function OthersEntry(scene: Scene): map<Path, Managed> {
    map[StageOf(scene.Place()) := Managed(scene.Other(), scene.LinkDigest())]
  }

  function BothSkills(scene: Scene): seq<Operation>
    requires scene.Valid()
  {
    [scene.Creation(), scene.LeftAlone()]
  }

  lemma TwoDestinations(scene: Scene)
    requires scene.Valid()
    ensures var operations := BothSkills(scene);
      && scene.Creation() in operations && Noops(operations) == {StageOf(scene.Place())}
      && Scratch(operations, LinkMode) == {StageOf(scene.Place())}
      && Destinations(operations) == {scene.Place(), StageOf(scene.Place())}
  {
    var operations := BothSkills(scene);
    assert operations[0] in operations && operations[1] in operations;
    assert forall op <- operations :: op == scene.Creation() || op == scene.LeftAlone();
  }

  lemma TwoNamesAreApart(place: Path)
    ensures place != StageOf(place) && Text.Compare(place, StageOf(place)) <= 0
    ensures forall p, q | p in {place, StageOf(place)} && q in {place, StageOf(place)} :: !IsBackupOf(p, q)
  {
    StageIsNoBackup(place);
    StageIsNoBackup(StageOf(place));
    CompareExtended(place, ".agentstack-link");
    Text.CompareFlips(StageOf(place), place);
    assert forall p: Path | IsBackupOf(place, p) :: |p + ROLLBACK| <= |place|;
    assert forall p: Path | IsBackupOf(StageOf(place), p) :: |p + ROLLBACK| <= |StageOf(place)|;
  }

  lemma TwoOperations(scene: Scene)
    requires scene.Valid()
    ensures var operations := BothSkills(scene);
      DistinctDestinations(operations) && InOrder(operations) && RollbacksFree(operations, LinkMode)
  {
    TwoNamesAreApart(scene.Place());
    TwoDestinations(scene);
  }

  lemma TwoSkillsLoad(scene: Scene)
    requires scene.Valid()
    ensures Loads(scene.TwoSkills()) && scene.Other() != scene.id
    ensures SkillAt(scene.root, scene.Other()) == StageOf(scene.Place())
  {
    AStagingNameMayBeADestination(scene.root, scene.id);
    assert |scene.Other()| > |scene.id|;
  }

  ghost predicate ShowsBoth(view: View, scene: Scene)
    requires scene.Valid()
  {
    && view.registry == scene.TwoSkills() && view.target == scene.Here()
    && view.placeOf == Placement(view.target) && view.sourcePath == scene.sourcePath
    && view.files == OthersLink(scene) && view.entries == OthersEntry(scene)
    && view.Look(StageOf(scene.Place())) == Present(scene.LinkDigest())
  }

  lemma BothArePlaced(view: View, scene: Scene)
    requires scene.Valid() && ShowsBoth(view, scene)
    ensures view.DestinationOf(scene.id) == scene.Place() && view.DestinationOf(scene.Other()) == StageOf(scene.Place())
    ensures view.Supported(scene.id) && view.Supported(scene.Other())
  {
    TwoSkillsLoad(scene);
  }

  lemma ChosenPair(view: View, a: Id, b: Id)
    requires a in view.registry.resources && b in view.registry.resources && view.Supported(a) && view.Supported(b)
    ensures view.Chosen({a, b}) == {a, b}
    ensures view.ChosenDestinations({a, b}) == {view.DestinationOf(a), view.DestinationOf(b)}
  {
    assert view.Chosen({a, b}) == {a, b};
  }

  lemma BothAreChosen(view: View, scene: Scene)
    requires scene.Valid() && ShowsBoth(view, scene)
    ensures view.Chosen({scene.id, scene.Other()}) == {scene.id, scene.Other()}
    ensures view.DestinationOf(scene.id) == scene.Place() && view.DestinationOf(scene.Other()) == StageOf(scene.Place())
    ensures view.ChosenDestinations({scene.id, scene.Other()}) == {scene.Place(), StageOf(scene.Place())}
  {
    BothArePlaced(view, scene);
    ChosenPair(view, scene.id, scene.Other());
  }

  lemma BothAreAssessed(view: View, scene: Scene)
    requires scene.Valid() && ShowsBoth(view, scene)
    ensures view.ForResource(scene.Creation(), {scene.id, scene.Other()})
    ensures view.ForResource(scene.LeftAlone(), {scene.id, scene.Other()})
  {
    TwoSkillsLoad(scene);
    BothAreChosen(view, scene);
    StageIsNoBackup(scene.Place());
  }

  lemma BothSkillsAreSound(view: View, scene: Scene)
    requires scene.Valid() && ShowsBoth(view, scene)
    ensures Sound(view, {scene.id, scene.Other()}, false, BothSkills(scene))
  {
    TwoOperations(scene);
    TwoDestinations(scene);
    BothAreChosen(view, scene);
    BothAreAssessed(view, scene);
    assert Founded(view, {scene.id, scene.Other()}, false, BothSkills(scene)) by {
      assert forall op <- BothSkills(scene) :: op == scene.Creation() || op == scene.LeftAlone();
    }
  }

  lemma BothAreRecorded(scene: Scene)
    requires scene.Valid()
    ensures PlanRecorded(scene.Stored(scene.TwoSkills(), BothSkills(scene)).plan, Pairs(OthersEntry(scene)))
  {
    TwoOperations(scene);
  }

  lemma TwoAtRisk(scene: Scene)
    requires scene.Valid()
    ensures RollbacksFree(BothSkills(scene), LinkMode)
    ensures AtRisk(BothSkills(scene), LinkMode, OthersLink(scene)) == {StageOf(scene.Place())}
    ensures Noops(BothSkills(scene)) == {StageOf(scene.Place())}
  {
    TwoOperations(scene);
    TwoDestinations(scene);
  }

  lemma ShowsTheLink(hub: Hub, scene: Scene)
    requires scene.Valid() && Arranged(hub, scene, scene.TwoSkills(), BothSkills(scene))
    requires hub.tree.files == OthersLink(scene) && hub.managed == map[scene.targetId := OthersEntry(scene)]
    ensures ShowsBoth(hub.ViewOf(scene.targetId), scene)
  {
    var link := Symlink(scene.sourcePath(scene.Other()));
    assert hub.digestOf(StageOf(scene.Place()), link) == Of(scene.base(StageOf(scene.Place())), link, scene.hash);
  }

  /** A skill that is called like the staging name of another and is linked as it should be:
      the plan that creates the other and leaves this one alone is sound, reviewed and ready,
      and the link is at risk. */
  method ALinkedSkillAtAStagingName(scene: Scene) returns (hub: Hub)
    requires scene.Valid()
    ensures fresh(hub) && fresh(hub.tree) && hub.Valid() && Real(hub, scene.base, scene.hash)
    ensures hub.tree.files == OthersLink(scene) && hub.registry == scene.TwoSkills()
    ensures hub.plans == map[scene.planId := scene.Stored(scene.TwoSkills(), BothSkills(scene))]
    ensures Sound(hub.ViewOf(scene.targetId), {scene.id, scene.Other()}, false, BothSkills(scene))
    ensures hub.Reviewed(scene.planId, hub.plans[scene.planId].digest, true, 0) && hub.CanApply(scene.planId)
    ensures RollbacksFree(BothSkills(scene), LinkMode)
    ensures AtRisk(BothSkills(scene), LinkMode, hub.tree.files) == Noops(BothSkills(scene)) == {StageOf(scene.Place())}
  {
    BothAreRecorded(scene);
    TwoSkillsLoad(scene);
    StageIsNoBackup(scene.Place());
    hub := NewHub(scene, OthersLink(scene), scene.TwoSkills(), OthersEntry(scene), BothSkills(scene));
    ShowsTheLink(hub, scene);
    BothSkillsAreSound(hub.ViewOf(scene.targetId), scene);
    TwoAtRisk(scene);
    SceneIsReady(hub, scene, scene.TwoSkills(), BothSkills(scene));
  }

  /** Applying that plan, once its link was made, leaves nothing of the other skill's link: not
      when the rollback worked, nor when the apply came through. */
  method TheOtherSkillIsLost(scene: Scene) returns (hub: Hub, r: SyncApply.Outcome, ghost trace: Trace)
    requires scene.Valid()
    ensures (r.Applied? || r == Aborted(true)) && trace.made != {} ==> StageOf(scene.Place()) !in hub.tree.files
    ensures r.Applied? && scene.Place() in hub.tree.files && hub.tree.files[scene.Place()].Symlink? ==> trace.made != {}
  {
    hub := ALinkedSkillAtAStagingName(scene);
    TwoDestinations(scene);
    r, trace := ApplyOver(hub, scene, BothSkills(scene));
  }
}
