/** Catalog records (internal/model/model.go) and the structural part of catalog
    validation (internal/catalog/catalog.go). */
module Catalog {
  import opened Wrappers
  import opened DependencyGraph
  import opened Text

  datatype InstallKind = InstallNone | Winget | NpmGlobal | UvTool | Router | SkillPack | Manual

  datatype Component = Component(
    id: Id, name: string, tier: string, capability: string, preferred: bool,
    credentialRequired: bool, dependsOn: seq<Id>, install: InstallKind)

  datatype Profile = Profile(id: string, components: seq<Id>)

  datatype Catalog = Catalog(version: int, components: seq<Component>, profiles: seq<Profile>)

  function Ids(components: seq<Component>): set<Id> {
    set component <- components :: component.id
  }

  /** The first component with the id, as a linear scan finds it. */
  function Find(components: seq<Component>, id: Id): (found: Option<Component>)
    ensures found.Some? ==> found.value in components && found.value.id == id
    ensures found.None? ==> id !in Ids(components)
  {
    if components == [] then None
    else if components[0].id == id then Some(components[0])
    else Find(components[1..], id)
  }

  function FindProfile(profiles: seq<Profile>, id: string): (found: Option<Profile>)
    ensures found.Some? ==> found.value in profiles && found.value.id == id
  {
    if profiles == [] then None
    else if profiles[0].id == id then Some(profiles[0])
    else FindProfile(profiles[1..], id)
  }

  /** Later components win, as in a map filled in catalog order. */
  function Dependencies(components: seq<Component>): Graph {
    if components == [] then map[]
    else
      var last := components[|components| - 1];
      Dependencies(components[..|components| - 1])[last.id := last.dependsOn]
  }

  lemma {:induction false} DependenciesAreTheComponents(components: seq<Component>)
    ensures Dependencies(components).Keys == Ids(components)
    ensures DistinctIds(components) ==>
      forall component <- components :: Dependencies(components)[component.id] == component.dependsOn
  {
    if components != [] {
      var init, last := components[..|components| - 1], components[|components| - 1];
      DependenciesAreTheComponents(init);
      assert components == init + [last];
      assert Ids(components) == Ids(init) + {last.id};
    }
  }

  predicate DistinctIds(components: seq<Component>) {
    forall i, j | 0 <= i < j < |components| :: components[i].id != components[j].id
  }

  // ---------------------------------------------------------- specification

  predicate OnePreferredProvider(components: seq<Component>) {
    forall i, j | 0 <= i < j < |components| ::
      components[i].preferred && components[j].preferred ==>
        components[i].capability == "" || components[i].capability != components[j].capability
  }

  predicate DependenciesDeclared(components: seq<Component>, component: Component) {
    && component.id !in component.dependsOn
    && Distinct(component.dependsOn)
    && forall d <- component.dependsOn :: d in Ids(components)
  }

  predicate ProfilesDeclared(c: Catalog) {
    && (forall profile <- c.profiles :: profile.id != "" && forall id <- profile.components :: id in Ids(c.components))
    && (forall i, j | 0 <= i < j < |c.profiles| :: c.profiles[i].id != c.profiles[j].id)
  }

  ghost predicate WellFormed(c: Catalog) {
    && c.version >= 1
    && (forall component <- c.components :: !Blank(component.id))
    && DistinctIds(c.components)
    && OnePreferredProvider(c.components)
    && (forall component <- c.components :: DependenciesDeclared(c.components, component))
    && !Cyclic(Dependencies(c.components))
    && ProfilesDeclared(c)
  }

  // --------------------------------------------------------------- checking

  /** No error exactly when the graph is acyclic, in whatever order the roots come. */
  method ValidateDependencyCycles(g: Graph, roots: seq<Id>) returns (error: Option<WalkError>)
    requires g.Keys == set id <- roots
    ensures error.None? <==> !Cyclic(g)
  {
    ghost var universe := g.Keys + set a, d | a in g && d in g[a] :: d;
    var walk := new Walk(g, false, universe);
    error := walk.VisitRoots(roots);
    if error.None? {
      TopologicalMeansAcyclic(g, walk.ordered);
    }
  }

  method Validate(c: Catalog, acceptable: Component -> bool) returns (ok: bool)
    ensures ok <==> WellFormed(c) && forall component <- c.components :: acceptable(component)
  {
    if c.version < 1 { return false; }
    ok := ValidateComponents(c.components, acceptable);
    if !ok { return; }
    ok := ValidateDependencies(c.components);
    if !ok { return; }
    DependenciesAreTheComponents(c.components);
    var roots := seq(|c.components|, i requires 0 <= i < |c.components| => c.components[i].id);
    assert Ids(c.components) == set id <- roots by {
      forall id ensures id in Ids(c.components) <==> id in roots {
        if id in Ids(c.components) {
          var i :| 0 <= i < |c.components| && c.components[i].id == id;
          assert roots[i] == id;
        }
      }
    }
    var error := ValidateDependencyCycles(Dependencies(c.components), roots);
    if error.Some? { return false; }
    ok := ValidateProfiles(c);
  }

  /** What the loop over the components has seen of the first n. */
  ghost function IdsBefore(components: seq<Component>, n: nat): set<Id>
    requires n <= |components|
  {
    set i | 0 <= i < n :: components[i].id
  }

  ghost function PreferredBefore(components: seq<Component>, n: nat): set<string>
    requires n <= |components|
  {
    set i | 0 <= i < n && components[i].preferred && components[i].capability != "" :: components[i].capability
  }

  /** The first n components pass every check, each against those before it. */
  ghost predicate AcceptedBefore(components: seq<Component>, n: nat, acceptable: Component -> bool)
    requires n <= |components|
  {
    n == 0 ||
    var component := components[n - 1];
    && AcceptedBefore(components, n - 1, acceptable)
    && !Blank(component.id) && acceptable(component) && component.id !in IdsBefore(components, n - 1)
    && (component.preferred ==> component.capability !in PreferredBefore(components, n - 1))
  }

  lemma OneMoreId(components: seq<Component>, n: nat)
    requires n < |components|
    ensures IdsBefore(components, n + 1) == IdsBefore(components, n) + {components[n].id}
  {
  }

  lemma OneMoreProvider(components: seq<Component>, n: nat)
    requires n < |components|
    ensures PreferredBefore(components, n + 1) == PreferredBefore(components, n) +
      if components[n].preferred && components[n].capability != "" then {components[n].capability} else {}
  {
  }

  lemma {:induction false} AcceptedIff(components: seq<Component>, n: nat, acceptable: Component -> bool)
    requires n <= |components|
    ensures AcceptedBefore(components, n, acceptable) <==>
      && (forall i | 0 <= i < n :: !Blank(components[i].id) && acceptable(components[i]))
      && DistinctIds(components[..n]) && OnePreferredProvider(components[..n])
  {
    if n > 0 { AcceptedIff(components, n - 1, acceptable); }
  }

  lemma {:induction false} AcceptedThroughout(components: seq<Component>, i: nat, n: nat, acceptable: Component -> bool)
    requires i <= n <= |components| && AcceptedBefore(components, n, acceptable)
    ensures AcceptedBefore(components, i, acceptable)
  {
    if i < n { AcceptedThroughout(components, i, n - 1, acceptable); }
  }

  method ValidateComponents(components: seq<Component>, acceptable: Component -> bool) returns (ok: bool)
    ensures ok <==>
      && (forall component <- components :: !Blank(component.id) && acceptable(component))
      && DistinctIds(components) && OnePreferredProvider(components)
  {
    ok := CheckComponents(components, acceptable);
    AcceptedIff(components, |components|, acceptable);
    assert components[..|components|] == components;
  }

  method CheckComponents(components: seq<Component>, acceptable: Component -> bool) returns (ok: bool)
    ensures ok <==> AcceptedBefore(components, |components|, acceptable)
  {
    var componentIds: set<Id> := {};
    var preferredByCapability: map<string, Id> := map[];
    for i := 0 to |components|
      invariant componentIds == IdsBefore(components, i)
      invariant preferredByCapability.Keys == PreferredBefore(components, i)
      invariant AcceptedBefore(components, i, acceptable)
    {
      var component := components[i];
      OneMoreId(components, i);
      OneMoreProvider(components, i);
      if AcceptedBefore(components, |components|, acceptable) {
        AcceptedThroughout(components, i + 1, |components|, acceptable);
      }
      if Blank(component.id) { return false; }
      if component.id in componentIds { return false; }
      componentIds := componentIds + {component.id};
      if component.preferred && component.capability != "" {
        if component.capability in preferredByCapability { return false; }
        preferredByCapability := preferredByCapability[component.capability := component.id];
      }
      if !acceptable(component) { return false; }
    }
    return true;
  }

  method ValidateDependencies(components: seq<Component>) returns (ok: bool)
    ensures ok <==> forall component <- components :: DependenciesDeclared(components, component)
  {
    var componentIds := Ids(components);
    for i := 0 to |components|
      invariant forall j | 0 <= j < i :: DependenciesDeclared(components, components[j])
    {
      var component := components[i];
      var seen: set<Id> := {};
      for k := 0 to |component.dependsOn|
        invariant seen == set j | 0 <= j < k :: component.dependsOn[j]
        invariant forall j, l | 0 <= j < l < k :: component.dependsOn[j] != component.dependsOn[l]
        invariant forall j | 0 <= j < k ::
          component.dependsOn[j] != component.id && component.dependsOn[j] in componentIds
      {
        var dependency := component.dependsOn[k];
        if dependency == component.id || dependency in seen || dependency !in componentIds {
          assert component in components && dependency in component.dependsOn;
          return false;
        }
        seen := seen + {dependency};
      }
    }
    return true;
  }

  method ValidateProfiles(c: Catalog) returns (ok: bool)
    ensures ok <==> ProfilesDeclared(c)
  {
    var componentIds := Ids(c.components);
    var profileIds: set<string> := {};
    for i := 0 to |c.profiles|
      invariant profileIds == set j | 0 <= j < i :: c.profiles[j].id
      invariant forall j | 0 <= j < i :: c.profiles[j].id != "" && forall id <- c.profiles[j].components ::
        id in componentIds
      invariant forall j, k | 0 <= j < k < i :: c.profiles[j].id != c.profiles[k].id
    {
      var profile := c.profiles[i];
      if profile.id == "" || profile.id in profileIds { return false; }
      profileIds := profileIds + {profile.id};
      for k := 0 to |profile.components|
        invariant forall id <- profile.components[..k] :: id in componentIds
      {
        if profile.components[k] !in componentIds { return false; }
        assert profile.components[..k + 1] == profile.components[..k] + [profile.components[k]];
      }
      assert profile.components[..|profile.components|] == profile.components;
    }
    return true;
  }
}
