/** Planning a sync of resources to a target (internal/resourcehub/sync.go:20-133). */
module ResourceSync {
  import opened Wrappers
  import opened Saga
  import opened ResourceTargets
  import opened TreeDigest
  import Text

  type Id = string
  type PlanId = string
  type Time = int

  datatype Resource = Resource(id: Id, kind: Kind, digest: Digest, enabled: bool, agents: set<Agent>)

  /** The mode after `auto` has been resolved for the platform. */
  datatype Mode = CopyMode | LinkMode
  datatype Target = Target(agent: Agent, root: Path, mode: Mode, enabled: bool)

  datatype Registry = Registry(resources: map<Id, Resource>, targets: map<Id, Target>)

  datatype Managed = Managed(resourceId: Id, digest: Digest)

  datatype Action = Create | Update | Remove | Noop | Conflict
  datatype Operation = Operation(resourceId: Id, action: Action, destination: Path, desired: Digest, current: Digest)
  datatype Plan = Plan(targetId: Id, registryDigest: Digest, expiresAt: Time, operations: seq<Operation>)
  datatype SavedPlan = SavedPlan(plan: Plan, digest: Digest)

  datatype Found = Absent | Unreadable | Present(digest: Digest)

  // --------------------------------------------------------------- identifiers

  predicate PlainChar(c: char) {
    'a' <= c <= 'z' || 'A' <= c <= 'Z' || '0' <= c <= '9' || c in {'-', '_', '.'}
  }

  /** validID (internal/resourcehub/fs.go:30-42). */
  predicate ValidId(id: string) {
    var value := Text.TrimSpace(id);
    value != "" && (forall c <- value :: PlainChar(c)) && value !in {".", ".."}
  }

  lemma ValidIdHasNoSlash(id: string)
    requires ValidId(id)
    ensures '/' !in id
  {
    var left := Text.TrimLeftBy(id, Text.IsSpace);
    var value := Text.TrimRightBy(left, Text.IsSpace);
    Text.TrimLeftShape(id, Text.IsSpace);
    Text.TrimRightShape(left, Text.IsSpace);
    var skipped := |id| - |left|;
    forall i | 0 <= i < |id| ensures id[i] != '/' {
      assert i >= skipped ==> id[i] == id[skipped..][i - skipped];
      assert skipped <= i < skipped + |value| ==> left[..|value|][i - skipped] in value;
      assert !Text.IsSpace('/') && !PlainChar('/');
      assert i < skipped ==> Text.IsSpace(id[i]);
    }
  }

  /** The part of validateRegistry that concerns identifiers; a registry that fails it is
      neither loaded nor saved. */
  predicate Loads(registry: Registry) {
    Keyed(registry) && forall id <- registry.resources :: ValidId(id)
  }

  predicate Keyed(registry: Registry) {
    forall id <- registry.resources :: registry.resources[id].id == id
  }

  // ------------------------------------------------------------ lists of operations

  function Destinations(operations: seq<Operation>): set<Path> {
    set op <- operations :: op.destination
  }

  predicate DistinctDestinations(operations: seq<Operation>) {
    forall i, j | 0 <= i < j < |operations| :: operations[i].destination != operations[j].destination
  }

  predicate InOrder(operations: seq<Operation>) {
    forall i, j | 0 <= i < j < |operations| :: Text.Compare(operations[i].destination, operations[j].destination) <= 0
  }

  /** The plan is sorted by destination; building it one insertion at a time keeps it so. */
  function InsertByDestination(operations: seq<Operation>, op: Operation): (r: seq<Operation>)
    ensures |r| == |operations| + 1 && forall x :: x in r <==> x == op || x in operations
  {
    if operations == [] || Text.Compare(op.destination, operations[0].destination) <= 0 then [op] + operations
    else [operations[0]] + InsertByDestination(operations[1..], op)
  }

  lemma {:induction false} InsertKeepsOrder(operations: seq<Operation>, op: Operation)
    requires InOrder(operations)
    ensures InOrder(InsertByDestination(operations, op))
  {
    if operations != [] {
      var first := operations[0].destination;
      if Text.Compare(op.destination, first) <= 0 {
        forall j | 0 <= j < |operations| ensures Text.Compare(op.destination, operations[j].destination) <= 0 {
          if j > 0 { Text.CompareTransitive(op.destination, first, operations[j].destination); }
        }
      } else {
        InsertKeepsOrder(operations[1..], op);
        Text.CompareFlips(op.destination, first);
        var rest := InsertByDestination(operations[1..], op);
        forall j | 0 <= j < |rest| ensures Text.Compare(first, rest[j].destination) <= 0 { assert rest[j] in rest; }
      }
    }
  }

  lemma {:induction false} InsertKeepsDistinct(operations: seq<Operation>, op: Operation)
    requires DistinctDestinations(operations) && op.destination !in Destinations(operations)
    ensures DistinctDestinations(InsertByDestination(operations, op))
  {
    if operations != [] && Text.Compare(op.destination, operations[0].destination) > 0 {
      InsertKeepsDistinct(operations[1..], op);
      var rest := InsertByDestination(operations[1..], op);
      assert forall j | 0 <= j < |rest| :: rest[j] in rest;
    }
  }

  lemma InsertAddsDestination(operations: seq<Operation>, op: Operation)
    ensures Destinations(InsertByDestination(operations, op)) == Destinations(operations) + {op.destination}
  {
    var r := InsertByDestination(operations, op);
    assert op in r && forall x <- operations :: x in r;
  }

  // ----------------------------------------------------------- classification

  /** The switch over one selected resource; None is a digest that cannot be computed. */
  function Classify(resource: Resource, found: Found, managed: Option<Managed>, mode: Mode,
                    linkMatches: bool): Option<Action>
  {
    var ours := managed.Some? && managed.value.resourceId == resource.id;
    match found
    case Absent => Some(Create)
    case Unreadable => None
    case Present(digest) =>
      if mode.LinkMode? && ours && linkMatches then Some(Noop)
      else if digest == resource.digest then Some(Noop)
      else if ours && digest == managed.value.digest then Some(Update)
      else Some(Conflict)
  }

  // ------------------------------------------------------------------ planning

  /** What planning reads: the target's file tree, its managed entries and the registry. */
  datatype View = View(
    files: map<Path, Content>,
    entries: map<Path, Managed>,
    registry: Registry,
    target: Target,
    placeOf: (Kind, Id) -> Path,
    digestOf: (Path, Content) -> Option<Digest>,
    sourcePath: Id -> Path)
  {
    function Look(path: Path): Found {
      if path !in files then Absent
      else
        var d := digestOf(path, files[path]);
        if d.Some? then Present(d.value) else Unreadable
    }

    predicate Supported(id: Id)
      requires id in registry.resources
    {
      var resource := registry.resources[id];
      resource.enabled && (resource.agents == {} || target.agent in resource.agents)
    }

    function Chosen(ids: set<Id>): set<Id> {
      set id | id in ids && id in registry.resources && Supported(id)
    }

    function DestinationOf(id: Id): Path
      requires id in registry.resources
    {
      placeOf(registry.resources[id].kind, id)
    }

    function ChosenDestinations(ids: set<Id>): set<Path> {
      set id <- Chosen(ids) :: DestinationOf(id)
    }

    function Judge(id: Id): Option<Action>
      requires id in registry.resources
    {
      var path := DestinationOf(id);
      var entry := if path in entries then Some(entries[path]) else None;
      var linked := path in files && files[path] == Symlink(sourcePath(id));
      Classify(registry.resources[id], Look(path), entry, target.mode, linked)
    }

    predicate ForResource(op: Operation, ids: set<Id>) {
      && op.resourceId in Chosen(ids)
      && op.destination == DestinationOf(op.resourceId)
      && Judge(op.resourceId) == Some(op.action)
      && op.desired == registry.resources[op.resourceId].digest
      && (Look(op.destination).Present? ==> op.current == Look(op.destination).digest)
    }

    predicate ForPrune(op: Operation, keep: set<Path>) {
      && op.destination in entries && op.destination !in keep
      && Look(op.destination) == Present(op.current)
      && op.action == (if op.current == entries[op.destination].digest then Remove else Conflict)
    }

    /** The destinations a prune plans for: recorded, not selected any more, still there. */
    function Stale(keep: set<Path>): set<Path> {
      set p | p in entries && p !in keep && !Look(p).Absent?
    }

    ghost predicate Scattered() {
      forall a, b | a in registry.resources && b in registry.resources && a != b :: DestinationOf(a) != DestinationOf(b)
    }
  }

  function Placement(target: Target): (Kind, Id) -> Path {
    (kind: Kind, id: Id) => Destination(target.root, target.agent, kind, id)
  }

  /** The layout of a target puts no two resources of a registry that loads in one place. */
  lemma LayoutScatters(view: View)
    requires Loads(view.registry)
    requires view.placeOf == Placement(view.target)
    ensures view.Scattered()
  {
    var target, resources := view.target, view.registry.resources;
    forall a, b | a in resources && b in resources && view.DestinationOf(a) == view.DestinationOf(b) ensures a == b {
      ValidIdHasNoSlash(a);
      ValidIdHasNoSlash(b);
      DestinationsAreDistinct(target.root, target.agent, resources[a].kind, a, resources[b].kind, b);
    }
  }

  ghost predicate Founded(view: View, ids: set<Id>, prune: bool, operations: seq<Operation>) {
    var keep := view.ChosenDestinations(ids);
    forall op <- operations :: view.ForResource(op, ids) || (prune && view.ForPrune(op, keep))
  }

  ghost predicate Covers(view: View, ids: set<Id>, prune: bool, operations: seq<Operation>) {
    var keep := view.ChosenDestinations(ids);
    Destinations(operations) == keep + (if prune then view.Stale(keep) else {})
  }

  /** What a plan promises about the view it was made from: one operation, in order of
      destination, for each resource chosen and each stale entry, and no other. */
  ghost predicate Sound(view: View, ids: set<Id>, prune: bool, operations: seq<Operation>) {
    && DistinctDestinations(operations) && InOrder(operations)
    && Covers(view, ids, prune, operations) && Founded(view, ids, prune, operations)
  }

  method PlanSelected(view: View, ids: set<Id>, blocked: Id -> bool, allowRisk: bool)
      returns (r: Option<seq<Operation>>)
    requires view.Scattered()
    ensures r.Some? ==> Sound(view, ids, false, r.value) && ids <= view.registry.resources.Keys
    ensures r.Some? && !allowRisk ==> forall id <- view.Chosen(ids) :: !blocked(id)
  {
    var operations: seq<Operation> := [];
    ghost var done: set<Id> := {};
    var rest := ids;
    NothingChosen(view);
    while rest != {}
      invariant done + rest == ids && done !! rest && done <= view.registry.resources.Keys
      invariant Sound(view, done, false, operations)
      invariant !allowRisk ==> forall id <- view.Chosen(done) :: !blocked(id)
      decreases rest
    {
      var id :| id in rest;
      ghost var before := done;
      rest, done := rest - {id}, done + {id};
      if id !in view.registry.resources { return None; }
      if !view.Supported(id) {
        SameChoice(view, before, done, operations);
        continue;
      }
      if !allowRisk && blocked(id) { return None; }
      var op := PlanOne(view, id);
      if op.None? { return None; }
      ExtendSelected(view, before, operations, op.value);
      operations := InsertByDestination(operations, op.value);
    }
    assert done == ids;
    return Some(operations);
  }

  method PlanOne(view: View, id: Id) returns (op: Option<Operation>)
    requires id in view.registry.resources && view.Supported(id)
    ensures op.Some? <==> !view.Look(view.DestinationOf(id)).Unreadable?
    ensures op.Some? ==> op.value.resourceId == id && view.ForResource(op.value, {id})
  {
    var destination := view.DestinationOf(id);
    var action := view.Judge(id);
    if action.None? { return None; }
    var found := view.Look(destination);
    var current := if found.Present? then found.digest else "";
    op := Some(Operation(id, action.value, destination, view.registry.resources[id].digest, current));
    assert id in view.Chosen({id});
  }

  lemma NothingChosen(view: View)
    ensures Sound(view, {}, false, [])
  {
    assert view.Chosen({}) == {};
    assert view.ChosenDestinations({}) == {};
  }

  lemma SameChoice(view: View, before: set<Id>, after: set<Id>, operations: seq<Operation>)
    requires Sound(view, before, false, operations) && view.Chosen(before) == view.Chosen(after)
    ensures Sound(view, after, false, operations)
  {
    assert view.ChosenDestinations(before) == view.ChosenDestinations(after);
    assert forall op <- operations :: view.ForResource(op, before) ==> view.ForResource(op, after);
  }

  lemma ChoiceGrows(view: View, done: set<Id>, id: Id)
    requires id in view.registry.resources && view.Supported(id)
    ensures view.Chosen(done + {id}) == view.Chosen(done) + {id}
    ensures view.ChosenDestinations(done + {id}) == view.ChosenDestinations(done) + {view.DestinationOf(id)}
  {
    assert view.Chosen(done + {id}) == view.Chosen(done) + {id};
  }

  lemma NewDestination(view: View, done: set<Id>, id: Id)
    requires view.Scattered() && id in view.registry.resources && id !in done
    ensures view.DestinationOf(id) !in view.ChosenDestinations(done)
  {
    assert forall other <- view.Chosen(done) :: other != id;
  }

  lemma ExtendSelected(view: View, done: set<Id>, operations: seq<Operation>, op: Operation)
    requires view.Scattered() && Sound(view, done, false, operations)
    requires op.resourceId !in done && view.ForResource(op, {op.resourceId})
    ensures Sound(view, done + {op.resourceId}, false, InsertByDestination(operations, op))
  {
    ChoiceGrows(view, done, op.resourceId);
    NewDestination(view, done, op.resourceId);
    InsertKeepsDistinct(operations, op);
    InsertKeepsOrder(operations, op);
    InsertAddsDestination(operations, op);
    assert Founded(view, done + {op.resourceId}, false, InsertByDestination(operations, op)) by {
      forall x <- InsertByDestination(operations, op) ensures view.ForResource(x, done + {op.resourceId}) {
        assert x == op || view.ForResource(x, done);
      }
    }
  }

  method AddPruned(view: View, ids: set<Id>, selected: seq<Operation>) returns (r: Option<seq<Operation>>)
    requires Sound(view, ids, false, selected)
    ensures r.Some? ==> Sound(view, ids, true, r.value)
  {
    var operations := selected;
    var keep := view.ChosenDestinations(ids);
    var rest := view.entries.Keys;
    while rest != {}
      invariant rest <= view.entries.Keys
      invariant DistinctDestinations(operations) && InOrder(operations)
      invariant Destinations(operations) == keep + (view.Stale(keep) - rest)
      invariant forall op <- operations :: view.ForResource(op, ids) || view.ForPrune(op, keep)
      decreases rest
    {
      var destination :| destination in rest;
      rest := rest - {destination};
      var found := view.Look(destination);
      if destination in keep || found.Absent? {
        assert destination !in view.Stale(keep);
        continue;
      }
      if found.Unreadable? { return None; }
      var entry := view.entries[destination];
      var op := Operation(entry.resourceId, if found.digest == entry.digest then Remove else Conflict, destination, "",
                          found.digest);
      assert destination in view.Stale(keep) && view.ForPrune(op, keep);
      InsertKeepsDistinct(operations, op);
      InsertKeepsOrder(operations, op);
      InsertAddsDestination(operations, op);
      operations := InsertByDestination(operations, op);
    }
    return Some(operations);
  }

  /** An update or a removal is planned only over content with the recorded digest, a
      creation only over nothing; so whatever else is there makes a conflict. */
  lemma PlansActOnlyOnRecordedContent(view: View, ids: set<Id>, prune: bool, operations: seq<Operation>, op: Operation)
    requires Keyed(view.registry) && Sound(view, ids, prune, operations) && op in operations
    ensures op.action.Create? ==> op.destination !in view.files
    ensures op.action.Update? || op.action.Remove? ==>
      && op.destination in view.entries && view.entries[op.destination].digest == op.current
      && view.Look(op.destination) == Present(op.current)
    ensures op.action.Update? ==> view.entries[op.destination].resourceId == op.resourceId
    ensures op.action.Remove? ==> op.destination !in view.ChosenDestinations(ids)
  {
  }

  /** What is at the resource's destination is the wanted content, or what an apply recorded
      for this resource there, or in link mode its own link; or there is nothing. */
  ghost predicate Ours(view: View, id: Id)
    requires id in view.registry.resources
  {
    var p := view.DestinationOf(id);
    || p !in view.files
    || view.Look(p) == Present(view.registry.resources[id].digest)
    || (p in view.entries && view.Look(p) == Present(view.entries[p].digest) && view.entries[p].resourceId == id)
    || (view.target.mode.LinkMode? && p in view.entries && view.entries[p].resourceId == id
        && view.files[p] == Symlink(view.sourcePath(id)))
  }

  lemma ConflictIff(view: View, ids: set<Id>, prune: bool, operations: seq<Operation>, op: Operation)
    requires Keyed(view.registry) && Sound(view, ids, prune, operations) && op in operations
    ensures op.destination in view.ChosenDestinations(ids) ==>
      && op.resourceId in view.Chosen(ids) && op.destination == view.DestinationOf(op.resourceId)
      && (op.action.Conflict? <==> !Ours(view, op.resourceId))
    ensures op.destination !in view.ChosenDestinations(ids) ==>
      && prune && op.destination in view.Stale(view.ChosenDestinations(ids))
      && (op.action.Conflict? <==> view.Look(op.destination) != Present(view.entries[op.destination].digest))
  {
    assert view.ForResource(op, ids) ==> op.destination in view.ChosenDestinations(ids);
  }

  /** A plan holds a conflict, so that no apply of it gets anywhere, exactly when some chosen
      resource's place or some stale entry's place holds content that is not ours. */
  lemma PlanConflictsIff(view: View, ids: set<Id>, prune: bool, operations: seq<Operation>)
    requires Keyed(view.registry) && view.Scattered() && Sound(view, ids, prune, operations)
    ensures (exists op <- operations :: op.action.Conflict?) <==>
      || (exists id <- view.Chosen(ids) :: !Ours(view, id))
      || (prune && exists p <- view.Stale(view.ChosenDestinations(ids)) ::
            view.Look(p) != Present(view.entries[p].digest))
  {
    forall op <- operations { ConflictIff(view, ids, prune, operations, op); }
    forall id <- view.Chosen(ids) | !Ours(view, id) ensures exists op <- operations :: op.action.Conflict? {
      assert view.DestinationOf(id) in view.ChosenDestinations(ids);
      assert view.DestinationOf(id) in Destinations(operations);
      var op :| op in operations && op.destination == view.DestinationOf(id);
    }
    if prune {
      var keep := view.ChosenDestinations(ids);
      forall p <- view.Stale(keep) | view.Look(p) != Present(view.entries[p].digest)
        ensures exists op <- operations :: op.action.Conflict?
      {
        assert p in Destinations(operations);
        var op :| op in operations && op.destination == p;
      }
    }
  }
}
