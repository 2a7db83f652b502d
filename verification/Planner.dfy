/** Building a plan (internal/planner/planner.go): selection, dependency closure,
    provider reconciliation and dependency order. */
module Planner {
  import opened Wrappers
  import opened DependencyGraph
  import opened Catalog

  datatype Request = Request(
    profile: string, included: seq<Id>, excluded: seq<Id>,
    allowCredentialed: bool, allowUpgrades: bool, overrides: map<string, Id>)

  datatype InventoryItem = InventoryItem(installed: bool, incompatible: bool, broken: bool)

  datatype ActionKind = Keep | Install | Repair | Configure | PreserveInactive | ConsentRequired | SkipDominated | Skip

  datatype PlanAction = PlanAction(componentId: Id, kind: ActionKind, upgrade: bool, install: InstallKind)

  datatype Plan = Plan(actions: seq<PlanAction>, providers: map<string, Id>)

  datatype PlanError =
    | UnknownProfile | UnknownIncluded(id: Id) | UnknownExcluded(id: Id) | IncludedAndExcluded(id: Id)
    | BadOverride(capability: string) | MissingComponent(id: Id) | ExcludedDependency(id: Id)
    | AmbiguousProvider(capability: string) | CannotOrder(error: WalkError)

  type Providers = map<string, Id>

  function DependencyGraphOf(components: seq<Component>): Graph {
    map id | id in Ids(components) :: Find(components, id).value.dependsOn
  }

  lemma FindInDistinct(components: seq<Component>, component: Component)
    requires DistinctIds(components) && component in components
    ensures Find(components, component.id) == Some(component)
  {
    if components[0] != component {
      assert component in components[1..];
      FindInDistinct(components[1..], component);
    }
  }

  lemma GraphsAgree(components: seq<Component>)
    requires DistinctIds(components)
    ensures DependencyGraphOf(components) == Dependencies(components)
  {
    DependenciesAreTheComponents(components);
    forall component <- components { FindInDistinct(components, component); }
  }

  // ---------------------------------------------------- dependency closure

  ghost predicate Closed(g: Graph, s: set<Id>) {
    forall a <- s :: a in g ==> forall d <- g[a] :: d in s
  }

  function Mentioned(g: Graph): set<Id> {
    g.Keys + set a, d | a in g && d in g[a] :: d
  }

  /** The least dependency-closed set containing the selection. */
  ghost function Needed(g: Graph, selection: set<Id>): set<Id> {
    set id <- selection + Mentioned(g) | forall u: set<Id> :: selection <= u && Closed(g, u) ==> id in u
  }

  lemma NeededIsLeast(g: Graph, selection: set<Id>, t: set<Id>)
    requires selection <= t && Closed(g, t)
    requires forall u: set<Id> :: selection <= u && Closed(g, u) ==> t <= u
    ensures t == Needed(g, selection)
  {
    var universe := selection + Mentioned(g);
    assert Closed(g, universe);
    assert forall id <- t :: id in universe;
  }

  /** The worklist, seeded in any order.  It succeeds exactly when the least closed set
      avoids the exclusions and the catalog knows all of it. */
  method ExpandDependencies(g: Graph, selection: set<Id>, excluded: set<Id>) returns (r: Result<set<Id>, PlanError>)
    requires selection !! excluded
    ensures r.Ok? <==> Needed(g, selection) !! excluded && Needed(g, selection) <= g.Keys
    ensures r.Ok? ==> r.value == Needed(g, selection)
    ensures r.Err? ==>
      && (r.error.ExcludedDependency? || r.error.MissingComponent?) && r.error.id in Needed(g, selection)
      && (if r.error.ExcludedDependency? then r.error.id in excluded else r.error.id !in g)
  {
    var selected := selection;
    var queue: seq<Id> := [];
    var rest := selection;
    while rest != {}
      invariant rest <= selection && forall id :: id in queue <==> id in selection - rest
      decreases rest
    {
      var id :| id in rest;
      rest, queue := rest - {id}, queue + [id];
    }
    ghost var universe := selection + Mentioned(g);
    while queue != []
      invariant selection <= selected <= universe && selected !! excluded
      invariant forall id <- queue :: id in selected
      invariant forall id <- selected :: id in queue || (id in g && forall d <- g[id] :: d in selected)
      invariant forall u: set<Id> :: selection <= u && Closed(g, u) ==> selected <= u
      decreases universe - selected, |queue|
    {
      var id := queue[0];
      assert id in Needed(g, selection);
      if id !in g { return Err(MissingComponent(id)); }
      ghost var before := selected;
      var bad;
      selected, queue, bad := PushDependencies(g, id, selected, queue[1..], excluded);
      if bad.Some? {
        assert forall u: set<Id> :: selection <= u && Closed(g, u) ==> bad.value in u;
        assert bad.value in Needed(g, selection);
        return Err(ExcludedDependency(bad.value));
      }
    }
    NeededIsLeast(g, selection, selected);
    return Ok(selected);
  }

  method PushDependencies(g: Graph, id: Id, selected: set<Id>, queue: seq<Id>, excluded: set<Id>)
    returns (selected': set<Id>, queue': seq<Id>, bad: Option<Id>)
    requires id in g && id in selected
    ensures bad.Some? ==> bad.value in g[id] && bad.value in excluded
    ensures bad.None? ==>
      && selected' == selected + (set d <- g[id])
      && (selected !! excluded ==> selected' !! excluded)
      && (selected' == selected ==> queue' == queue)
      && (forall x <- queue :: x in queue')
      && (forall x <- queue' :: x in queue || x in selected')
      && (forall x <- selected' - selected :: x in queue')
  {
    selected', queue' := selected, queue;
    for k := 0 to |g[id]|
      invariant selected' == selected + (set j | 0 <= j < k :: g[id][j])
      invariant selected !! excluded ==> selected' !! excluded
      invariant selected' == selected ==> queue' == queue
      invariant forall x <- queue :: x in queue'
      invariant forall x <- queue' :: x in queue || x in selected'
      invariant forall x <- selected' - selected :: x in queue'
    {
      var dependency := g[id][k];
      if dependency in excluded { return selected', queue', Some(dependency); }
      if dependency !in selected' {
        selected', queue' := selected' + {dependency}, queue' + [dependency];
      }
    }
    return selected', queue', None;
  }

  // -------------------------------------------------------------- providers

  function Candidates(components: seq<Component>, selected: set<Id>, capability: string): seq<Id> {
    if components == [] then []
    else
      var last := components[|components| - 1];
      var init := Candidates(components[..|components| - 1], selected, capability);
      if last.id in selected && last.capability == capability then init + [last.id] else init
  }

  lemma {:induction false} CandidatesAre(components: seq<Component>, selected: set<Id>, capability: string)
    requires DistinctIds(components)
    ensures Distinct(Candidates(components, selected, capability))
    ensures forall id :: id in Candidates(components, selected, capability) <==>
      id in selected && exists component <- components :: component.id == id && component.capability == capability
  {
    if components != [] {
      var init, last := components[..|components| - 1], components[|components| - 1];
      CandidatesAre(init, selected, capability);
      assert components == init + [last];
    }
  }

  predicate Provides(components: seq<Component>, id: Id, capability: string) {
    exists component <- components :: component.id == id && component.capability == capability
  }

  predicate Contested(components: seq<Component>, selected: set<Id>, capability: string) {
    exists a <- components, b <- components ::
      a.id != b.id && a.id in selected && b.id in selected && a.capability == capability == b.capability
  }

  predicate Decided(selected: set<Id>, active: Providers, capability: string) {
    capability in active && active[capability] in selected
  }

  /** Two selected components compete and neither the catalog nor the request decides. */
  predicate Ambiguous(components: seq<Component>, selected: set<Id>, active: Providers, capability: string) {
    capability != "" && !Decided(selected, active, capability) && Contested(components, selected, capability)
  }

  predicate Unambiguous(components: seq<Component>, selected: set<Id>, active: Providers) {
    forall component <- components :: !Ambiguous(components, selected, active, component.capability)
  }

  predicate Reconciled(components: seq<Component>, selected: set<Id>, before: Providers, after: Providers) {
    && (forall capability <- after ::
          after[capability] in selected && Provides(components, after[capability], capability))
    && (forall component <- components ::
          component.id in selected && component.capability != "" ==> component.capability in after)
    && (forall capability <- before ::
          before[capability] in selected ==> capability in after && after[capability] == before[capability])
  }

  predicate IsGroup(components: seq<Component>, selected: set<Id>, capability: string, group: seq<Id>) {
    && group != [] && Distinct(group)
    && (forall id <- group :: id in selected && Provides(components, id, capability))
    && (forall component <- components ::
          component.id in selected && component.capability == capability ==> component.id in group)
  }

  method GroupByCapability(components: seq<Component>, selected: set<Id>) returns (groups: map<string, seq<Id>>)
    requires DistinctIds(components)
    ensures AreGroups(components, selected, groups)
  {
    groups := map[];
    for i := 0 to |components|
      invariant forall capability <- groups ::
        capability != "" && groups[capability] == Candidates(components[..i], selected, capability) != []
      invariant forall capability :: capability != "" && Candidates(components[..i], selected, capability) != [] ==>
        capability in groups
      invariant forall j | 0 <= j < i :: components[j].id in selected && components[j].capability != "" ==>
        components[j].capability in groups
    {
      var component := components[i];
      assert components[..i + 1][..i] == components[..i];
      if component.id in selected && component.capability != "" {
        var group := if component.capability in groups then groups[component.capability] else [];
        groups := groups[component.capability := group + [component.id]];
      }
    }
    assert components[..|components|] == components;
    forall capability <- groups { CandidatesAre(components, selected, capability); }
  }

  lemma GroupDecidesContest(components: seq<Component>, selected: set<Id>, capability: string, group: seq<Id>)
    requires IsGroup(components, selected, capability, group)
    ensures Contested(components, selected, capability) <==> |group| >= 2
  {
    if |group| >= 2 {
      assert group[0] in group && group[1] in group;
    }
  }

  /** One capability of the reconciliation: a lone candidate takes over from an absent
      provider, several are an error. */
  method ReconcileCapability(selected: set<Id>, capability: string, group: seq<Id>, active: Providers)
      returns (r: Option<Providers>)
    requires group != []
    ensures r.None? <==> !Decided(selected, active, capability) && |group| >= 2
    ensures r.Some? ==>
      r.value == if Decided(selected, active, capability) then active else active[capability := group[0]]
  {
    if Decided(selected, active, capability) { return Some(active); }
    return if |group| == 1 then Some(active[capability := group[0]]) else None;
  }

  /** The loop over the selected capabilities, in any order. */
  method ReconcileGroups(selected: set<Id>, before: Providers, groups: map<string, seq<Id>>)
    returns (active: Providers, unresolved: Option<string>)
    requires forall c <- groups :: groups[c] != []
    ensures unresolved.Some? ==>
      unresolved.value in groups && !Decided(selected, before, unresolved.value) && |groups[unresolved.value]| >= 2
    ensures unresolved.None? ==>
      && active == Filled(selected, before, groups, groups.Keys)
      && forall c <- groups :: Decided(selected, before, c) || |groups[c]| == 1
  {
    active := before;
    var done: set<string> := {};
    assert active == Filled(selected, before, groups, {});
    while groups.Keys - done != {}
      invariant done <= groups.Keys
      invariant forall c <- done :: Decided(selected, before, c) || |groups[c]| == 1
      invariant active == Filled(selected, before, groups, done)
      decreases groups.Keys - done
    {
      var capability :| capability in groups.Keys - done;
      FilledStep(selected, before, groups, done, capability);
      var next := ReconcileCapability(selected, capability, groups[capability], active);
      if next.None? { return active, Some(capability); }
      active, done := next.value, done + {capability};
    }
    assert done == groups.Keys by { assert forall c <- groups.Keys :: c in groups.Keys - done || c in done; }
    return active, None;
  }

  method ReconcileActiveProviders(components: seq<Component>, selected: set<Id>, before: Providers)
    returns (r: Result<Providers, PlanError>)
    requires DistinctIds(components)
    requires forall capability <- before :: Provides(components, before[capability], capability)
    ensures r.Ok? <==> Unambiguous(components, selected, before)
    ensures r.Ok? ==> Reconciled(components, selected, before, r.value)
    ensures r.Err? ==> r.error.AmbiguousProvider?
  {
    var groups := GroupByCapability(components, selected);
    var active, unresolved := ReconcileGroups(selected, before, groups);
    if unresolved.Some? {
      GroupDecidesContest(components, selected, unresolved.value, groups[unresolved.value]);
      ContestIsSeen(components, selected, before, unresolved.value);
      return Err(AmbiguousProvider(unresolved.value));
    }
    UncontestedIsUnambiguous(components, selected, before, groups);
    var after := map c | c in active && (active[c] in selected || c in groups) :: active[c];
    ReconciledByGroups(components, selected, before, groups, after);
    return Ok(after);
  }

  /** The providers after the capabilities in `done` have been reconciled. */
  function Filled(selected: set<Id>, before: Providers, groups: map<string, seq<Id>>, done: set<string>): Providers
    requires forall c <- groups :: groups[c] != []
  {
    before + map c | c in groups && c in done && !Decided(selected, before, c) :: groups[c][0]
  }

  lemma FilledStep(selected: set<Id>, before: Providers, groups: map<string, seq<Id>>, done: set<string>, c: string)
    requires (forall c <- groups :: groups[c] != []) && c in groups && c !in done
    ensures Decided(selected, Filled(selected, before, groups, done), c) == Decided(selected, before, c)
    ensures Filled(selected, before, groups, done + {c})
      == if Decided(selected, before, c) then Filled(selected, before, groups, done)
         else Filled(selected, before, groups, done)[c := groups[c][0]]
  {
  }

  lemma ContestIsSeen(components: seq<Component>, selected: set<Id>, before: Providers, capability: string)
    requires Ambiguous(components, selected, before, capability)
    ensures !Unambiguous(components, selected, before)
  {
    var a :| a in components && a.capability == capability;
  }

  predicate AreGroups(components: seq<Component>, selected: set<Id>, groups: map<string, seq<Id>>) {
    && (forall capability <- groups ::
          capability != "" && IsGroup(components, selected, capability, groups[capability]))
    && (forall component <- components ::
          component.id in selected && component.capability != "" ==> component.capability in groups)
  }

  lemma UncontestedIsUnambiguous(components: seq<Component>, selected: set<Id>, before: Providers,
                                 groups: map<string, seq<Id>>)
    requires AreGroups(components, selected, groups)
    requires forall c <- groups :: Decided(selected, before, c) || |groups[c]| == 1
    ensures Unambiguous(components, selected, before)
  {
    forall component <- components | component.capability in groups {
      GroupDecidesContest(components, selected, component.capability, groups[component.capability]);
    }
  }

  lemma ReconciledByGroups(components: seq<Component>, selected: set<Id>, before: Providers,
                           groups: map<string, seq<Id>>, after: Providers)
    requires AreGroups(components, selected, groups)
    requires forall capability <- before :: Provides(components, before[capability], capability)
    requires var active := Filled(selected, before, groups, groups.Keys);
      after == map c | c in active && (active[c] in selected || c in groups) :: active[c]
    ensures Reconciled(components, selected, before, after)
  {
    assert forall c <- groups :: groups[c][0] in groups[c];
  }

  // ------------------------------------------------------------- selection

  function ProfileName(request: Request): string {
    if request.profile == "" then "core" else request.profile
  }

  predicate Provider(components: seq<Component>, id: Id, capability: string) {
    var found := Find(components, id);
    found.Some? && found.value.capability == capability
  }

  predicate RequestDeclared(c: Catalog, request: Request) {
    && FindProfile(c.profiles, ProfileName(request)).Some?
    && (forall id <- request.included :: id in Ids(c.components))
    && (forall id <- request.excluded :: id in Ids(c.components) && id !in request.included)
    && (forall capability <- request.overrides ::
          && Provider(c.components, request.overrides[capability], capability)
          && request.overrides[capability] !in request.excluded)
  }

  /** The profile and the inclusions, less the exclusions, with the named providers. */
  function Requested(c: Catalog, request: Request): set<Id>
    requires FindProfile(c.profiles, ProfileName(request)).Some?
  {
    var profile := FindProfile(c.profiles, ProfileName(request)).value;
    (set id <- profile.components) + (set id <- request.included) - (set id <- request.excluded)
    + (set capability <- request.overrides :: request.overrides[capability])
  }

  function PreferredProviders(components: seq<Component>): (providers: Providers)
    ensures forall capability <- providers :: Provides(components, providers[capability], capability)
  {
    if components == [] then map[]
    else
      var last := components[|components| - 1];
      var init := PreferredProviders(components[..|components| - 1]);
      assert components == components[..|components| - 1] + [last];
      if last.preferred && last.capability != "" then init[last.capability := last.id] else init
  }

  method SelectRequested(c: Catalog, request: Request) returns (r: Result<(set<Id>, set<Id>), PlanError>)
    ensures r.Ok? <==> RequestDeclared(c, request)
    ensures r.Ok? ==> r.value == (Requested(c, request), set id <- request.excluded)
    ensures r.Err? ==> !r.error.CannotOrder? && !r.error.MissingComponent?
  {
    var profile := FindProfile(c.profiles, ProfileName(request));
    if profile.None? { return Err(UnknownProfile); }
    var selected := set id <- profile.value.components;
    for i := 0 to |request.included|
      invariant selected == (set id <- profile.value.components) + set id <- request.included[..i]
      invariant forall id <- request.included[..i] :: id in Ids(c.components)
    {
      var id := request.included[i];
      if id !in Ids(c.components) { return Err(UnknownIncluded(id)); }
      selected := selected + {id};
      assert request.included[..i + 1] == request.included[..i] + [id];
    }
    assert request.included[..|request.included|] == request.included;
    ghost var wanted := selected;
    var excluded: set<Id> := {};
    for i := 0 to |request.excluded|
      invariant excluded == (set id <- request.excluded[..i]) && selected == wanted - excluded
      invariant forall id <- request.excluded[..i] :: id in Ids(c.components) && id !in request.included
    {
      var id := request.excluded[i];
      if id !in Ids(c.components) { return Err(UnknownExcluded(id)); }
      if id in request.included { return Err(IncludedAndExcluded(id)); }
      excluded, selected := excluded + {id}, selected - {id};
      assert request.excluded[..i + 1] == request.excluded[..i] + [id];
    }
    assert request.excluded[..|request.excluded|] == request.excluded;
    ghost var kept := selected;
    var done: set<string> := {};
    while request.overrides.Keys - done != {}
      invariant done <= request.overrides.Keys
      invariant selected == kept + set capability <- done :: request.overrides[capability]
      invariant forall capability <- done ::
        Provider(c.components, request.overrides[capability], capability) && request.overrides[capability] !in excluded
      decreases request.overrides.Keys - done
    {
      var capability :| capability in request.overrides.Keys - done;
      var id := request.overrides[capability];
      if !Provider(c.components, id, capability) || id in excluded { return Err(BadOverride(capability)); }
      selected, done := selected + {id}, done + {capability};
    }
    assert done == request.overrides.Keys by {
      assert forall k <- request.overrides.Keys :: k in request.overrides.Keys - done || k in done;
    }
    return Ok((selected, excluded));
  }

  // ----------------------------------------------------------------- actions

  function Item(inventory: map<Id, InventoryItem>, id: Id): InventoryItem {
    if id in inventory then inventory[id] else InventoryItem(false, false, false)
  }

  function ActionFor(component: Component, inventory: map<Id, InventoryItem>, request: Request,
                     providers: Providers): (a: PlanAction)
    ensures a.componentId == component.id
  {
    var item := Item(inventory, component.id);
    var action := kind => PlanAction(component.id, kind, false, component.install);
    if component.credentialRequired && !request.allowCredentialed then action(ConsentRequired)
    else if component.capability != "" && component.capability in providers &&
            providers[component.capability] != component.id then
      action(if item.installed then PreserveInactive else SkipDominated)
    else if item.incompatible && !request.allowUpgrades then action(ConsentRequired)
    else if item.incompatible then PlanAction(component.id, Repair, true, component.install)
    else if item.broken then action(Repair)
    else if item.installed then action(Keep)
    else if component.install.Router? then action(Configure)
    else if component.install.InstallNone? || component.install.Manual? then action(Skip)
    else action(Install)
  }

  predicate FromCatalog(components: seq<Component>, inventory: map<Id, InventoryItem>, request: Request,
                        providers: Providers, a: PlanAction)
  {
    exists component <- components :: a == ActionFor(component, inventory, request, providers)
  }

  function ActionsFor(components: seq<Component>, selected: set<Id>, inventory: map<Id, InventoryItem>,
                      request: Request, providers: Providers): seq<PlanAction>
  {
    if components == [] then []
    else
      var last := components[|components| - 1];
      var init := ActionsFor(components[..|components| - 1], selected, inventory, request, providers);
      if last.id in selected then init + [ActionFor(last, inventory, request, providers)] else init
  }

  lemma {:induction false} ActionsCoverTheSelection(
      components: seq<Component>, selected: set<Id>, inventory: map<Id, InventoryItem>, request: Request,
      providers: Providers)
    ensures var actions := ActionsFor(components, selected, inventory, request, providers);
      && ActionIdSet(actions) == selected * Ids(components)
      && forall a <- actions :: FromCatalog(components, inventory, request, providers, a)
  {
    if components != [] {
      var init, last := components[..|components| - 1], components[|components| - 1];
      ActionsCoverTheSelection(init, selected, inventory, request, providers);
      assert components == init + [last];
      assert Ids(components) == Ids(init) + {last.id};
      var before := ActionsFor(init, selected, inventory, request, providers);
      var actions := ActionsFor(components, selected, inventory, request, providers);
      if last.id in selected {
        assert ActionIdSet(actions) == ActionIdSet(before) + {last.id};
      }
      forall a <- actions ensures FromCatalog(components, inventory, request, providers, a) {
        if a in before { assert FromCatalog(init, inventory, request, providers, a); }
      }
    }
  }

  function ActionIdSet(actions: seq<PlanAction>): set<Id> {
    set a <- actions :: a.componentId
  }

  /** Sorting for review only permutes; any permutation is covered. */
  method ArrangeForReview(actions: seq<PlanAction>) returns (arranged: seq<PlanAction>)
    ensures multiset(arranged) == multiset(actions)
  {
    var rest := actions;
    arranged := [];
    while rest != []
      invariant multiset(arranged) + multiset(rest) == multiset(actions)
      decreases |rest|
    {
      var i :| 0 <= i < |rest|;
      assert rest == rest[..i] + [rest[i]] + rest[i + 1..];
      arranged, rest := arranged + [rest[i]], rest[..i] + rest[i + 1..];
    }
  }

  function ActionIds(actions: seq<PlanAction>): (ids: seq<Id>)
    ensures |ids| == |actions| && forall i | 0 <= i < |ids| :: ids[i] == actions[i].componentId
  {
    seq(|actions|, i requires 0 <= i < |actions| => actions[i].componentId)
  }

  // ------------------------------------------------------------------- order

  function Retain(deps: seq<Id>, kept: set<Id>): (r: seq<Id>)
    ensures forall d :: d in r <==> d in deps && d in kept
  {
    if deps == [] then []
    else if deps[0] in kept then [deps[0]] + Retain(deps[1..], kept)
    else Retain(deps[1..], kept)
  }

  function Restricted(g: Graph, kept: set<Id>): Graph {
    map id | id in g && id in kept :: Retain(g[id], kept)
  }

  lemma RestrictionStaysAcyclic(g: Graph, kept: set<Id>)
    requires !Cyclic(g)
    ensures !Cyclic(Restricted(g, kept))
  {
    forall p | IsCycle(Restricted(g, kept), p)
      ensures IsCycle(g, p)
    {
      forall i | 0 <= i < |p| - 1 ensures Edge(g, p[i], p[i + 1]) { assert Edge(Restricted(g, kept), p[i], p[i + 1]); }
    }
  }

  function LastAction(actions: seq<PlanAction>): (byId: map<Id, PlanAction>)
    ensures byId.Keys == ActionIdSet(actions)
    ensures forall id <- byId :: byId[id] in actions && byId[id].componentId == id
  {
    if actions == [] then map[]
    else
      var last := actions[|actions| - 1];
      assert actions == actions[..|actions| - 1] + [last];
      LastAction(actions[..|actions| - 1])[last.componentId := last]
  }

  /** Every selected component once, dependencies first; an error only for a cycle or an
      unknown component. */
  method OrderByDependencies(g: Graph, actions: seq<PlanAction>) returns (r: Result<seq<PlanAction>, PlanError>)
    ensures r.Ok? ==>
      && (forall a <- r.value :: a in actions)
      && (set id <- ActionIds(r.value)) == ActionIdSet(actions)
      && Topological(Restricted(g, ActionIdSet(actions)), ActionIds(r.value))
    ensures r.Err? ==> r.error.CannotOrder? && (Cyclic(g) || exists a <- actions :: a.componentId !in g)
  {
    var byId := LastAction(actions);
    var graph := Restricted(g, byId.Keys);
    var walk := new Walk(graph, true, byId.Keys);
    var error := walk.VisitRoots(ActionIds(actions));
    if error.Some? {
      if !Cyclic(g) { RestrictionStaysAcyclic(g, byId.Keys); }
      return Err(CannotOrder(error.value));
    }
    var ids := walk.ordered;
    var ordered := seq(|ids|, i requires 0 <= i < |ids| && ids[i] in byId => byId[ids[i]]);
    assert ActionIds(ordered) == ids;
    return Ok(ordered);
  }

  // -------------------------------------------------------------------- plan

  ghost predicate Plannable(c: Catalog, request: Request) {
    && RequestDeclared(c, request)
    && var needed := Needed(DependencyGraphOf(c.components), Requested(c, request));
      && needed !! (set id <- request.excluded)
      && Unambiguous(c.components, needed, PreferredProviders(c.components) + request.overrides)
  }

  ghost predicate GoodPlan(c: Catalog, inventory: map<Id, InventoryItem>, request: Request, plan: Plan)
    requires RequestDeclared(c, request)
  {
    var g := DependencyGraphOf(c.components);
    var needed := Needed(g, Requested(c, request));
    && (set id <- ActionIds(plan.actions)) == needed
    && needed !! (set id <- request.excluded)
    && Topological(g, ActionIds(plan.actions))
    && Reconciled(c.components, needed, PreferredProviders(c.components) + request.overrides, plan.providers)
    && (forall a <- plan.actions :: FromCatalog(c.components, inventory, request, plan.providers, a))
  }

  lemma RequestedIsKnown(c: Catalog, request: Request)
    requires WellFormed(c) && RequestDeclared(c, request)
    ensures Requested(c, request) <= Ids(c.components)
    ensures Requested(c, request) !! set id <- request.excluded
  {
    forall id <- Requested(c, request)
      ensures id in Ids(c.components) && id !in request.excluded
    {
      if capability :| capability in request.overrides && request.overrides[capability] == id {
        assert Provider(c.components, id, capability);
      }
    }
  }

  lemma NeededIsKnown(g: Graph, selection: set<Id>)
    requires selection <= g.Keys && forall a <- g :: forall d <- g[a] :: d in g
    ensures Needed(g, selection) <= g.Keys
  {
    assert Closed(g, g.Keys);
  }

  lemma NeededIsClosed(g: Graph, selection: set<Id>)
    ensures Closed(g, Needed(g, selection)) && selection <= Needed(g, selection)
  {
  }

  lemma PermutationKeepsMembers(a: seq<PlanAction>, b: seq<PlanAction>)
    requires multiset(a) == multiset(b)
    ensures forall x :: x in a <==> x in b
  {
    assert forall x :: x in a <==> x in multiset(a);
    assert forall x :: x in b <==> x in multiset(b);
  }

  lemma ClosedRestrictionIsWhole(g: Graph, kept: set<Id>, order: seq<Id>)
    requires Closed(g, kept) && Topological(Restricted(g, kept), order) && forall id <- order :: id in kept
    ensures Topological(g, order)
  {
    forall i | 0 <= i < |order| && order[i] in g
      ensures forall d <- g[order[i]] :: d in order[..i]
    {
      assert order[i] in Restricted(g, kept);
    }
  }

  method PlanActions(c: Catalog, selected: set<Id>, inventory: map<Id, InventoryItem>, request: Request,
                     providers: Providers)
    returns (r: Result<seq<PlanAction>, PlanError>)
    requires WellFormed(c) && selected <= Ids(c.components) && Closed(DependencyGraphOf(c.components), selected)
    ensures r.Ok?
    ensures (set id <- ActionIds(r.value)) == selected
    ensures Topological(DependencyGraphOf(c.components), ActionIds(r.value))
    ensures forall a <- r.value :: FromCatalog(c.components, inventory, request, providers, a)
  {
    var g := DependencyGraphOf(c.components);
    GraphsAgree(c.components);
    var actions := ActionsFor(c.components, selected, inventory, request, providers);
    ActionsCoverTheSelection(c.components, selected, inventory, request, providers);
    assert selected * Ids(c.components) == selected;
    var arranged := ArrangeForReview(actions);
    PermutationKeepsMembers(arranged, actions);
    assert ActionIdSet(arranged) == selected;
    r := OrderByDependencies(g, arranged);
    assert r.Ok? by { assert forall a <- arranged :: a.componentId in ActionIdSet(arranged); }
    assert forall id <- ActionIds(r.value) :: id in set id <- ActionIds(r.value);
    ClosedRestrictionIsWhole(g, selected, ActionIds(r.value));
  }

  /** A plan exists exactly when the request is declared, no needed component is excluded
      and no capability is left undecided; a valid catalog never fails to order. */
  method Build(c: Catalog, inventory: map<Id, InventoryItem>, request: Request) returns (r: Result<Plan, PlanError>)
    requires WellFormed(c)
    ensures r.Ok? <==> Plannable(c, request)
    ensures r.Ok? ==> GoodPlan(c, inventory, request, r.value)
    ensures r.Err? ==> !r.error.CannotOrder? && !r.error.MissingComponent?
  {
    var requested := SelectRequested(c, request);
    if requested.Err? { return Err(requested.error); }
    r := BuildSelected(c, inventory, request, requested.value.0, requested.value.1);
  }

  method BuildSelected(c: Catalog, inventory: map<Id, InventoryItem>, request: Request, selection: set<Id>,
                       excluded: set<Id>)
    returns (r: Result<Plan, PlanError>)
    requires WellFormed(c) && RequestDeclared(c, request)
    requires selection == Requested(c, request) && excluded == set id <- request.excluded
    ensures r.Ok? <==> Plannable(c, request)
    ensures r.Ok? ==> GoodPlan(c, inventory, request, r.value)
    ensures r.Err? ==> r.error.ExcludedDependency? || r.error.AmbiguousProvider?
  {
    RequestFacts(c, request);
    ghost var needed := Needed(DependencyGraphOf(c.components), selection);
    var selected := ExpandDependencies(DependencyGraphOf(c.components), selection, excluded);
    if selected.Err? { return Err(selected.error); }
    assert selected.value == needed;
    var providers := ReconcileActiveProviders(c.components, selected.value,
                                              PreferredProviders(c.components) + request.overrides);
    if providers.Err? { return Err(providers.error); }
    var actions := PlanActions(c, selected.value, inventory, request, providers.value);
    return Ok(Plan(actions.value, providers.value));
  }

  lemma RequestFacts(c: Catalog, request: Request)
    requires WellFormed(c) && RequestDeclared(c, request)
    ensures Requested(c, request) !! set id <- request.excluded
    ensures var g := DependencyGraphOf(c.components);
      var needed := Needed(g, Requested(c, request));
      needed <= g.Keys && needed <= Ids(c.components) && Closed(g, needed)
    ensures var before := PreferredProviders(c.components) + request.overrides;
      forall capability <- before :: Provides(c.components, before[capability], capability)
  {
    var g := DependencyGraphOf(c.components);
    GraphsAgree(c.components);
    DependenciesAreTheComponents(c.components);
    RequestedIsKnown(c, request);
    NeededIsKnown(g, Requested(c, request));
    NeededIsClosed(g, Requested(c, request));
    ActiveProvidersFit(c, request);
  }

  lemma ActiveProvidersFit(c: Catalog, request: Request)
    requires RequestDeclared(c, request)
    ensures var before := PreferredProviders(c.components) + request.overrides;
      forall capability <- before :: Provides(c.components, before[capability], capability)
  {
    forall capability <- request.overrides
      ensures Provides(c.components, request.overrides[capability], capability)
    {
      assert Provider(c.components, request.overrides[capability], capability);
    }
  }

  // ---------------------------------------------------------- what a plan means

  predicate Acts(kind: ActionKind) {
    kind.Keep? || kind.Install? || kind.Repair? || kind.Configure?
  }

  lemma ActingComponentIsTheProvider(c: Catalog, inventory: map<Id, InventoryItem>, request: Request, plan: Plan,
                                     component: Component, a: PlanAction)
    requires WellFormed(c) && RequestDeclared(c, request) && GoodPlan(c, inventory, request, plan)
    requires component in c.components && component.capability != ""
    requires a in plan.actions && a.componentId == component.id && Acts(a.kind)
    ensures component.capability in plan.providers && plan.providers[component.capability] == component.id
  {
    assert FromCatalog(c.components, inventory, request, plan.providers, a);
    var other :| other in c.components && a == ActionFor(other, inventory, request, plan.providers);
    FindInDistinct(c.components, other);
    FindInDistinct(c.components, component);
    var i :| 0 <= i < |plan.actions| && plan.actions[i] == a;
    assert ActionIds(plan.actions)[i] == component.id;
  }

  /** For each capability at most one component of the plan is acted on. */
  lemma AtMostOneActiveProvider(c: Catalog, inventory: map<Id, InventoryItem>, request: Request, plan: Plan, i: nat,
                                j: nat, a: Component, b: Component)
    requires WellFormed(c) && RequestDeclared(c, request) && GoodPlan(c, inventory, request, plan)
    requires i < |plan.actions| && j < |plan.actions| && a in c.components && b in c.components
    requires plan.actions[i].componentId == a.id && plan.actions[j].componentId == b.id
    requires a.capability == b.capability != "" && Acts(plan.actions[i].kind) && Acts(plan.actions[j].kind)
    ensures i == j
  {
    ActingComponentIsTheProvider(c, inventory, request, plan, a, plan.actions[i]);
    ActingComponentIsTheProvider(c, inventory, request, plan, b, plan.actions[j]);
    assert ActionIds(plan.actions)[i] == ActionIds(plan.actions)[j];
  }

  /** The capabilities with a provider are exactly those some planned component has. */
  lemma ProvidersAreTheSelectedCapabilities(c: Catalog, inventory: map<Id, InventoryItem>, request: Request,
                                            plan: Plan, capability: string)
    requires WellFormed(c) && RequestDeclared(c, request) && GoodPlan(c, inventory, request, plan) && capability != ""
    ensures capability in plan.providers <==>
      exists component <- c.components :: component.capability == capability && component.id in ActionIds(plan.actions)
  {
    var needed := Needed(DependencyGraphOf(c.components), Requested(c, request));
    assert forall id :: id in needed <==> id in ActionIds(plan.actions);
    if capability in plan.providers {
      assert Provides(c.components, plan.providers[capability], capability);
    }
  }
}
