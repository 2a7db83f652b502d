/** Applying a plan (internal/runner/runner.go): journaled execution in plan order, with
    failures carried to dependents.  Installers, verifiers, the PATH refresh and the
    journal writer are outside; each answers arbitrarily. */
module Runner {
  import opened Wrappers
  import opened DependencyGraph
  import opened Planner
  import opened Catalog

  datatype TransactionStatus = Planned | Running | Succeeded | Stopped

  /** `error` is None when the record carries no error text at all. */
  datatype Record = Record(componentId: Id, kind: ActionKind, verified: bool, error: Option<string>)

  datatype Journal = Journal(status: TransactionStatus, records: seq<Record>)

  const JOURNAL_FAILURE := Record("agentstack-state", Configure, false, Some("persist transaction journal"))

  predicate Installs(kind: ActionKind) {
    kind.Install? || kind.Repair?
  }

  /** The first declared dependency with a failure, looking in the catalog. */
  function FailedDependency(g: Graph, id: Id, failed: set<Id>): (d: Option<Id>)
    ensures d.Some? ==> Edge(g, id, d.value) && d.value in failed
    ensures d.None? ==> forall x :: Edge(g, id, x) ==> x !in failed
  {
    if id in g then FirstFailed(g[id], failed) else None
  }

  function FirstFailed(dependencies: seq<Id>, failed: set<Id>): (d: Option<Id>)
    ensures d.Some? ==> d.value in dependencies && d.value in failed
    ensures d.None? ==> forall x <- dependencies :: x !in failed
  {
    if dependencies == [] then None
    else if dependencies[0] in failed then Some(dependencies[0])
    else FirstFailed(dependencies[1..], failed)
  }

  predicate Clean(record: Record) {
    record.verified && record.error.None?
  }

  predicate Extending(journals: seq<Journal>) {
    forall i | 0 <= i < |journals| - 1 :: journals[i].records <= journals[i + 1].records
  }

  /** The first `done` records answer the first `done` actions, and `entered` are the
      positions whose installer ran: exactly the installs and repairs none of whose
      dependencies had failed. */
  ghost predicate Faithful(g: Graph, actions: seq<PlanAction>, records: seq<Record>, done: nat, entered: set<nat>,
                           dryRun: bool)
  {
    && done <= |actions| && done <= |records|
    && (forall i | 0 <= i < done :: Answers(actions[i], records[i]))
    && (forall i <- entered :: i < done && Installs(actions[i].kind) && !dryRun && !BlockedAt(g, actions, records, i))
    && (forall i | 0 <= i < done && Installs(actions[i].kind) && i !in entered ::
          dryRun || BlockedAt(g, actions, records, i))
    && (forall i | 0 <= i < done && BlockedAt(g, actions, records, i) && Installs(actions[i].kind) ::
          !Clean(records[i]))
  }

  predicate Answers(action: PlanAction, record: Record) {
    && record.componentId == action.componentId && record.kind == action.kind
    && (!Installs(action.kind) ==> Clean(record))
  }

  /** A declared dependency of the action stands earlier in the plan with a failed record. */
  predicate BlockedAt(g: Graph, actions: seq<PlanAction>, records: seq<Record>, i: nat)
    requires i < |actions| && i <= |records|
  {
    exists j | 0 <= j < i :: Edge(g, actions[i].componentId, records[j].componentId) && !Clean(records[j])
  }

  function Failures(records: seq<Record>): set<Id> {
    set record <- records | !Clean(record) :: record.componentId
  }

  lemma BlockedByFailures(g: Graph, actions: seq<PlanAction>, records: seq<Record>)
    requires |records| < |actions|
    ensures BlockedAt(g, actions, records, |records|)
      <==> exists d <- Failures(records) :: Edge(g, actions[|records|].componentId, d)
  {
    if d :| d in Failures(records) && Edge(g, actions[|records|].componentId, d) {
      var j :| 0 <= j < |records| && !Clean(records[j]) && records[j].componentId == d;
      assert BlockedAt(g, actions, records, |records|);
    }
  }

  lemma FaithfulFrame(g: Graph, actions: seq<PlanAction>, records: seq<Record>, more: Record, done: nat,
                      entered: set<nat>, dryRun: bool)
    requires Faithful(g, actions, records, done, entered, dryRun)
    ensures Faithful(g, actions, records + [more], done, entered, dryRun)
  {
    forall i | 0 <= i < done { BlockedIsSettled(g, actions, records, more, i); }
  }

  lemma BlockedIsSettled(g: Graph, actions: seq<PlanAction>, records: seq<Record>, more: Record, i: nat)
    requires i < |actions| && i <= |records|
    ensures BlockedAt(g, actions, records + [more], i) == BlockedAt(g, actions, records, i)
  {
    assert forall j | 0 <= j < i :: (records + [more])[j] == records[j];
  }

  lemma FaithfulExtend(g: Graph, actions: seq<PlanAction>, records: seq<Record>, record: Record, before: set<nat>,
                       after: set<nat>, dryRun: bool)
    requires |records| < |actions| && Faithful(g, actions, records, |records|, before, dryRun)
    requires var i := |records|;
      var blocked := exists d <- Failures(records) :: Edge(g, actions[i].componentId, d);
      && Answers(actions[i], record)
      && (Installs(actions[i].kind) && blocked ==> !Clean(record))
      && after == if Installs(actions[i].kind) && !dryRun && !blocked then before + {i} else before
    ensures Faithful(g, actions, records + [record], |records| + 1, after, dryRun)
  {
    var i := |records|;
    BlockedByFailures(g, actions, records);
    FaithfulFrame(g, actions, records, record, i, before, dryRun);
    BlockedIsSettled(g, actions, records, record, i);
  }

  lemma FailuresExtend(records: seq<Record>, record: Record)
    ensures Failures(records + [record]) == Failures(records) + if Clean(record) then {} else {record.componentId}
  {
  }

  class Engine {
    const graph: Graph
    const hasVerifier: bool
    const dryRun: bool
    /** What reached the outside: positions whose installer ran, and journals handed to
        the writer. */
    ghost var entered: set<nat>
    ghost var published: seq<Journal>
    ghost var writesFailed: bool

    constructor (graph: Graph, hasVerifier: bool, dryRun: bool)
      ensures this.graph == graph && this.hasVerifier == hasVerifier && this.dryRun == dryRun
      ensures entered == {} && published == [] && !writesFailed
    {
      this.graph, this.hasVerifier, this.dryRun := graph, hasVerifier, dryRun;
      entered, published, writesFailed := {}, [], false;
    }

    // ------------------------------------------------------------- outside

    method Publish(journal: Journal) returns (ok: bool)
      modifies this`published, this`writesFailed
      ensures published == old(published) + [journal]
      ensures writesFailed <==> old(writesFailed) || !ok
    {
      ok := *;
      published := published + [journal];
      writesFailed := writesFailed || !ok;
    }

    /** Runs the installer and, for winget, refreshes the PATH; the error text may be empty. */
    method RunInstaller(action: PlanAction, ghost at: nat) returns (error: Option<string>)
      modifies this`entered
      ensures entered == old(entered) + {at}
    {
      error := *;
      entered := entered + {at};
    }

    method Verify(action: PlanAction) returns (ok: bool)
    {
      ok := *;
    }

    method ResolveInvocation(action: PlanAction) returns (ok: bool)
    {
      ok := *;
    }

    // ----------------------------------------------------------------- apply

    /** An installer error whose text is empty leaves no error in the record, but the
        record is not verified either. */
    method Perform(action: PlanAction, ghost at: nat) returns (record: Record, failed: bool)
      modifies this`entered
      ensures entered == if dryRun then old(entered) else old(entered) + {at}
      ensures record.componentId == action.componentId && record.kind == action.kind
      ensures failed <==> !Clean(record)
    {
      if dryRun {
        var ok := ResolveInvocation(action);
        return Record(action.componentId, action.kind, ok, if ok then None else Some("unresolved")), !ok;
      }
      var error := RunInstaller(action, at);
      if error.Some? {
        return Record(action.componentId, action.kind, false, if error.value == "" then None else error), true;
      }
      if !hasVerifier {
        return Record(action.componentId, action.kind, true, None), false;
      }
      var ok := action.componentId in graph;
      if ok { ok := Verify(action); }
      return Record(action.componentId, action.kind, ok,
                    if ok then None else Some("postcondition verification failed")), !ok;
    }

    /** The record for one action, and whether it counts as a failure. */
    method Next(action: PlanAction, failures: set<Id>, ghost at: nat) returns (record: Record, failed: bool)
      modifies this`entered
      ensures Answers(action, record)
      ensures failed <==> !Clean(record)
      ensures entered ==
        if Installs(action.kind) && !dryRun && !(exists d <- failures :: Edge(graph, action.componentId, d))
        then old(entered) + {at} else old(entered)
      ensures Installs(action.kind) && (exists d <- failures :: Edge(graph, action.componentId, d)) ==> failed
    {
      if !Installs(action.kind) {
        return Record(action.componentId, action.kind, true, None), false;
      }
      var dependency := FailedDependency(graph, action.componentId, failures);
      if dependency.Some? {
        return Record(action.componentId, action.kind, false, Some("dependency " + dependency.value + " failed")), true;
      }
      record, failed := Perform(action, at);
    }

    /** The journal after `done` actions, each recorded and each publish accepted. */
    ghost predicate Progress(actions: seq<PlanAction>, tx: Journal, failures: set<Id>)
      reads this
    {
      && !writesFailed && |tx.records| <= |actions|
      && Extending(published) && published != [] && published[|published| - 1].records == tx.records
      && tx.status == (if failures != {} then Stopped else if dryRun then Planned else Running)
      && failures == Failures(tx.records)
      && Faithful(graph, actions, tx.records, |tx.records|, entered, dryRun)
    }

    method Advance(actions: seq<PlanAction>, tx: Journal, failures: set<Id>)
        returns (tx': Journal, failures': set<Id>, ok: bool)
      requires Progress(actions, tx, failures) && |tx.records| < |actions|
      modifies this
      ensures Extending(published) && published != []
      ensures ok ==> Progress(actions, tx', failures') && |tx'.records| == |tx.records| + 1
      ensures !ok ==>
        && writesFailed && tx'.status.Stopped? && published[|published| - 1].records <= tx'.records
        && |tx'.records| == |tx.records| + 2 && tx'.records[|tx.records| + 1] == JOURNAL_FAILURE
        && Faithful(graph, actions, tx'.records, |tx.records| + 1, entered, dryRun)
    {
      tx', failures' := Settle(actions, tx, failures);
      ok := Publish(tx');
      if !ok {
        FaithfulFrame(graph, actions, tx'.records, JOURNAL_FAILURE, |tx.records| + 1, entered, dryRun);
        tx' := Journal(Stopped, tx'.records + [JOURNAL_FAILURE]);
      }
    }

    /** The next action and its record, before the journal is published. */
    method Settle(actions: seq<PlanAction>, tx: Journal, failures: set<Id>) returns (tx': Journal, failures': set<Id>)
      requires |tx.records| < |actions| && failures == Failures(tx.records)
      requires tx.status == (if failures != {} then Stopped else if dryRun then Planned else Running)
      requires Faithful(graph, actions, tx.records, |tx.records|, entered, dryRun)
      modifies this`entered
      ensures |tx'.records| == |tx.records| + 1 && tx.records <= tx'.records && failures' == Failures(tx'.records)
      ensures tx'.status == (if failures' != {} then Stopped else if dryRun then Planned else Running)
      ensures Faithful(graph, actions, tx'.records, |tx'.records|, entered, dryRun)
    {
      var i := |tx.records|;
      ghost var before := entered;
      var record, failed := Next(actions[i], failures, i);
      FaithfulExtend(graph, actions, tx.records, record, before, entered, dryRun);
      FailuresExtend(tx.records, record);
      failures' := if failed then failures + {record.componentId} else failures;
      tx' := Journal(if failed then Stopped else tx.status, tx.records + [record]);
    }

    method Apply(actions: seq<PlanAction>) returns (tx: Journal, ghost done: nat)
      requires entered == {} && published == [] && !writesFailed
      modifies this
      ensures Extending(published)
      ensures Faithful(graph, actions, tx.records, done, entered, dryRun)
      ensures !writesFailed ==> done == |actions| == |tx.records|
      ensures forall i | done <= i < |tx.records| :: tx.records[i] == JOURNAL_FAILURE
      ensures tx.status.Succeeded? <==>
        !dryRun && !writesFailed && |tx.records| == |actions| && forall record <- tx.records :: Clean(record)
    {
      tx, done := Journal(if dryRun then Planned else Running, []), 0;
      var ok := Publish(tx);
      if !ok {
        return Journal(Stopped, [JOURNAL_FAILURE]), 0;
      }
      var failures: set<Id> := {};
      while |tx.records| < |actions|
        invariant Progress(actions, tx, failures)
        decreases |actions| - |tx.records|
      {
        ghost var before := |tx.records|;
        tx, failures, ok := Advance(actions, tx, failures);
        if !ok {
          tx, done := Finish(actions, tx, before + 1);
          return;
        }
      }
      if tx.status.Running? {
        assert forall record <- tx.records :: !Clean(record) ==> record.componentId in Failures(tx.records);
        tx := tx.(status := TransactionStatus.Succeeded);
      } else if tx.status.Stopped? {
        assert exists record <- tx.records :: !Clean(record);
      }
      tx, done := Finish(actions, tx, |tx.records|);
    }

    /** The last publish, which can still turn the transaction into a failed one. */
    method Finish(actions: seq<PlanAction>, tx: Journal, ghost settled: nat) returns (tx': Journal, ghost done: nat)
      requires Extending(published) && published != [] && published[|published| - 1].records <= tx.records
      requires Faithful(graph, actions, tx.records, settled, entered, dryRun)
      requires forall i | settled <= i < |tx.records| :: tx.records[i] == JOURNAL_FAILURE
      modifies this`published, this`writesFailed
      ensures Extending(published) && done == settled
      ensures Faithful(graph, actions, tx'.records, done, entered, dryRun)
      ensures forall i | done <= i < |tx'.records| :: tx'.records[i] == JOURNAL_FAILURE
      ensures old(writesFailed) ==> writesFailed
      ensures writesFailed && !old(writesFailed) ==> tx'.status.Stopped?
      ensures old(writesFailed) ==> tx'.status == tx.status || tx'.status.Stopped?
      ensures !writesFailed ==> tx' == tx
    {
      tx', done := tx, settled;
      var ok := Publish(tx);
      if !ok {
        FaithfulFrame(graph, actions, tx.records, JOURNAL_FAILURE, settled, entered, dryRun);
        tx' := Journal(Stopped, tx.records + [JOURNAL_FAILURE]);
      }
    }
  }

  // ------------------------------------------------- over a plan in dependency order

  /** No installer runs over a dependency whose record failed. */
  lemma NoInstallOverAFailedDependency(g: Graph, actions: seq<PlanAction>, records: seq<Record>, done: nat,
                                       entered: set<nat>, i: nat, j: nat)
    requires Faithful(g, actions, records, done, entered, false) && Topological(g, ActionIds(actions))
    requires i in entered && j < done && Edge(g, actions[i].componentId, actions[j].componentId)
    ensures j < i && Clean(records[j])
  {
    var ids := ActionIds(actions);
    assert ids[j] in ids[..i];
    assert Answers(actions[j], records[j]);
    assert !BlockedAt(g, actions, records, i);
  }

  /** A failure reaches every install or repair that depends on it through installs and
      repairs: none of their installers runs and all their records fail. */
  lemma {:induction false} FailureCarriesAlongChains(g: Graph, actions: seq<PlanAction>, records: seq<Record>,
                                                     done: nat, entered: set<nat>, chain: seq<nat>)
    requires Faithful(g, actions, records, done, entered, false) && Topological(g, ActionIds(actions))
    requires |chain| >= 2 && forall k | 0 <= k < |chain| :: chain[k] < done && Installs(actions[chain[k]].kind)
    requires forall k | 0 <= k < |chain| - 1 ::
      Edge(g, actions[chain[k]].componentId, actions[chain[k + 1]].componentId)
    requires !Clean(records[chain[|chain| - 1]])
    ensures chain[0] !in entered && !Clean(records[chain[0]])
  {
    var i, j := chain[0], chain[1];
    if |chain| > 2 {
      var rest := chain[1..];
      forall k | 0 <= k < |rest| - 1
        ensures Edge(g, actions[rest[k]].componentId, actions[rest[k + 1]].componentId)
      {
        assert rest[k] == chain[k + 1] && rest[k + 1] == chain[k + 2];
      }
      FailureCarriesAlongChains(g, actions, records, done, entered, rest);
    }
    var ids := ActionIds(actions);
    assert ids[j] in ids[..i];
    assert Answers(actions[j], records[j]);
    assert BlockedAt(g, actions, records, i);
  }
}
