/** The undo journal behind every workspace commit (internal/workspace/transaction.go).

    A commit copies the old bytes of each collection file into a fresh transaction
    directory, writes a journal beside them, publishes the active pointer, overwrites
    the files, and commits by removing the pointer.  Any primitive may fail or crash. */
module WorkspaceTransaction {
  import opened Wrappers

  type Bytes = string
  type Time = int  // seconds

  const STALE_AFTER: Time := 30 * 60

  datatype Update = Update(path: Target, data: Bytes)
  datatype Target = Inside(name: string) | Outside(path: string)

  datatype Snapshot = Snapshot(path: string, backup: Option<Bytes>)
  datatype TransactionDir = TransactionDir(modified: Time, backups: map<nat, Bytes>, journal: Option<seq<JournalLine>>)
  datatype JournalLine = JournalLine(path: string, backupFile: nat, existed: bool)
  datatype Pointer = Pointer(id: string, createdAt: Time)

  datatype Status = Succeeded | Rejected | InProgress | Interrupted

  type Store = map<string, Bytes>

  // ---------------------------------------------------------------- restoring

  /** The journal line together with the bytes its backup file holds. */
  function Resolve(dir: TransactionDir, line: JournalLine): Snapshot
    requires line.existed ==> line.backupFile in dir.backups
  {
    Snapshot(line.path, if line.existed then Some(dir.backups[line.backupFile]) else None)
  }

  predicate Complete(dir: TransactionDir) {
    dir.journal.Some? && forall line <- dir.journal.value :: line.existed ==> line.backupFile in dir.backups
  }

  function Snapshots(dir: TransactionDir): (snapshots: seq<Snapshot>)
    requires Complete(dir)
  {
    seq(|dir.journal.value|, i requires 0 <= i < |dir.journal.value| => Resolve(dir, dir.journal.value[i]))
  }

  function RestoreOne(store: Store, s: Snapshot): Store {
    if s.backup.Some? then store[s.path := s.backup.value] else store - {s.path}
  }

  /** What the restore loop leaves behind. */
  function Restored(store: Store, snapshots: seq<Snapshot>): Store {
    if snapshots == [] then store
    else RestoreOne(Restored(store, snapshots[..|snapshots| - 1]), snapshots[|snapshots| - 1])
  }

  function Paths(snapshots: seq<Snapshot>): set<string> {
    set s <- snapshots :: s.path
  }

  ghost predicate AgreeOutside(a: Store, b: Store, masked: set<string>) {
    forall n | n !in masked :: (n in a <==> n in b) && (n in a ==> a[n] == b[n])
  }

  lemma {:induction false} RestoreNarrowsDisagreement(a: Store, b: Store, masked: set<string>, snapshots: seq<Snapshot>)
    requires AgreeOutside(a, b, masked)
    ensures AgreeOutside(Restored(a, snapshots), Restored(b, snapshots), masked - Paths(snapshots))
  {
    if snapshots != [] {
      var init, last := snapshots[..|snapshots| - 1], snapshots[|snapshots| - 1];
      RestoreNarrowsDisagreement(a, b, masked, init);
      assert snapshots == init + [last];
      assert Paths(snapshots) == Paths(init) + {last.path};
    }
  }

  /** Restoring forgets everything that happened at the paths the journal covers, which
      is why neither the forward writes nor an interrupted restore can be seen. */
  lemma RestoreForgetsCoveredPaths(a: Store, b: Store, snapshots: seq<Snapshot>)
    requires AgreeOutside(a, b, Paths(snapshots))
    ensures Restored(a, snapshots) == Restored(b, snapshots)
  {
    RestoreNarrowsDisagreement(a, b, Paths(snapshots), snapshots);
    assert Paths(snapshots) - Paths(snapshots) == {};
  }

  ghost predicate Faithful(store: Store, snapshots: seq<Snapshot>) {
    forall s <- snapshots :: s.backup == if s.path in store then Some(store[s.path]) else None
  }

  /** Publishing a journal of the present bytes changes nothing by itself. */
  lemma {:induction false} FaithfulJournalRestoresNothing(store: Store, snapshots: seq<Snapshot>)
    requires Faithful(store, snapshots)
    ensures Restored(store, snapshots) == store
  {
    if snapshots != [] {
      FaithfulJournalRestoresNothing(store, snapshots[..|snapshots| - 1]);
      assert snapshots[|snapshots| - 1] in snapshots;
    }
  }

  // ------------------------------------------------- the atomic specification

  function Applied(store: Store, updates: seq<Update>): Store {
    if updates == [] then store
    else
      var init, last := Applied(store, updates[..|updates| - 1]), updates[|updates| - 1];
      if last.path.Inside? then init[last.path.name := last.data] else init
  }

  predicate DistinctPaths(updates: seq<Update>) {
    forall i, j | 0 <= i < j < |updates| :: updates[i].path != updates[j].path
  }

  lemma {:induction false} AppliedTouchesOnlyItsPaths(store: Store, updates: seq<Update>)
    ensures AgreeOutside(store, Applied(store, updates), set u <- updates | u.path.Inside? :: u.path.name)
  {
    if updates != [] {
      AppliedTouchesOnlyItsPaths(store, updates[..|updates| - 1]);
      assert updates == updates[..|updates| - 1] + [updates[|updates| - 1]];
    }
  }

  // ------------------------------------------------------------- the manager

  class Manager {
    var collections: Store
    var pointer: Option<Pointer>
    var transactions: map<string, TransactionDir>

    constructor ()
      ensures Valid() && Current() == map[]
    {
      collections, pointer, transactions := map[], None, map[];
    }

    ghost predicate Valid()
      reads this
    {
      pointer.Some? ==>
        && pointer.value.id in transactions
        && Complete(transactions[pointer.value.id])
    }

    /** The store a completed recovery would leave: the abstract state of the workspace. */
    ghost function Current(): Store
      reads this
      requires Valid()
    {
      if pointer.None? then collections
      else Restored(collections, Snapshots(transactions[pointer.value.id]))
    }

    // ------------------------------------------------------ disk primitives

    method Attempt() returns (o: Outcome)
    {
      o := *;
    }

    method Now() returns (t: Time)
    {
      t := *;
    }

    method WriteCollection(name: string, data: Bytes) returns (o: Outcome)
      modifies this`collections
      ensures collections == if o.Done? then old(collections)[name := data] else old(collections)
    {
      o := Attempt();
      if o.Done? { collections := collections[name := data]; }
    }

    method RemoveCollection(name: string) returns (o: Outcome)
      modifies this`collections
      ensures collections == if o.Done? then old(collections) - {name} else old(collections)
    {
      o := Attempt();
      if o.Done? { collections := collections - {name}; }
    }

    method RemovePointer() returns (o: Outcome)
      modifies this`pointer
      ensures pointer == if o.Done? then None else old(pointer)
    {
      o := Attempt();
      if o.Done? { pointer := None; }
    }

    /** Removing a directory is not atomic: cut short, it leaves some of the files. */
    method RemoveTransaction(id: string) returns (o: Outcome)
      modifies this`transactions
      ensures transactions - {id} == old(transactions) - {id}
      ensures o.Done? ==> id !in transactions
    {
      o := Attempt();
      if o.Done? {
        transactions := transactions - {id};
      } else if id in transactions {
        var kept: set<nat>, keepJournal: bool := *, *;
        var dir := transactions[id];
        transactions := transactions[id := dir.(
          backups := map n | n in dir.backups && n in kept :: dir.backups[n],
          journal := if keepJournal then dir.journal else None)];
      }
    }

    // ------------------------------------------------------------- recovery

    method RecoverPendingTransaction(force: bool) returns (r: Status)
      requires Valid()
      modifies this
      ensures Valid() && Current() == old(Current())
      ensures r.Succeeded? ==> pointer.None? && collections == old(Current())
      ensures r.InProgress? ==> !force && old(pointer).Some? && collections == old(collections)
    {
      var o := Attempt();
      if o.Crashed? { return Interrupted; }
      if o.Failed? { return Rejected; }
      if pointer.None? {
        ghost var knew, cutoff;
        r, knew, cutoff := CleanupOrphanTransactions();
        return;
      }
      var p := pointer.value;
      var now := Now();
      if !force && now - p.createdAt < STALE_AFTER { return InProgress; }
      o := Attempt();
      if o.Crashed? { return Interrupted; }
      if o.Failed? { return Rejected; }
      r := RestoreTransaction(p.id);
    }

    /** Puts every journaled file back, remembers but does not stop at a failure, and
        drops the pointer only when all of them are back. */
    method RestoreTransaction(id: string) returns (r: Status)
      requires Valid() && pointer.Some? && pointer.value.id == id
      modifies this
      ensures Valid() && Current() == old(Current())
      ensures r.Succeeded? || r.Rejected? || r.Interrupted?
      ensures r.Succeeded? ==> pointer.None? && collections == old(Current())
    {
      var dir := transactions[id];
      ghost var snapshots := Snapshots(dir);
      ghost var before := collections;
      var failed := false;
      for i := 0 to |dir.journal.value|
        invariant pointer == old(pointer) && transactions == old(transactions)
        invariant AgreeOutside(before, collections, Paths(snapshots))
        invariant !failed ==> collections == Restored(before, snapshots[..i])
      {
        var line := dir.journal.value[i];
        assert snapshots[i] in snapshots;
        assert snapshots[..i + 1][..i] == snapshots[..i];
        var o;
        if line.existed {
          o := Attempt();
          if o.Done? {
            o := WriteCollection(line.path, dir.backups[line.backupFile]);
          }
        } else {
          o := RemoveCollection(line.path);
        }
        if o.Crashed? {
          RestoreForgetsCoveredPaths(before, collections, snapshots);
          return Interrupted;
        }
        failed := failed || o.Failed?;
      }
      RestoreForgetsCoveredPaths(before, collections, snapshots);
      if failed { return Rejected; }
      assert snapshots[..|snapshots|] == snapshots;
      var o := RemovePointer();
      if o.Crashed? { return Interrupted; }
      if o.Failed? { return Rejected; }
      o := RemoveTransaction(id);
      r := match o case Done => Succeeded case Failed => Rejected case Crashed => Interrupted;
    }

    /** Best effort: an old directory that is not the active one may lose any of its files.
        `knew` says that the pointer could be read: only then is the active directory known.
        Both calls are made where there is no pointer. */
    method CleanupOrphanTransactions() returns (r: Status, ghost knew: bool, ghost cutoff: Time)
      requires Valid()
      modifies this`transactions
      ensures r.Succeeded? || r.Interrupted?
      ensures pointer.None? || knew ==> Valid() && Current() == old(Current())
      ensures pointer.Some? && knew ==> transactions[pointer.value.id] == old(transactions[pointer.value.id])
      ensures forall id <- old(transactions) | old(transactions)[id].modified >= cutoff ::
        id in transactions && transactions[id] == old(transactions)[id]
    {
      knew, cutoff := true, 0;
      var o := Attempt();
      if o.Crashed? { return Interrupted, knew, cutoff; }
      if o.Failed? { return Succeeded, knew, cutoff; }
      var active: Option<string> := None;
      o := Attempt();
      if o.Crashed? { return Interrupted, knew, cutoff; }
      if o.Done? && pointer.Some? { active := Some(pointer.value.id); }
      knew := o.Done?;
      var now := Now();
      cutoff := now - STALE_AFTER;
      var entries := transactions.Keys;
      while entries != {}
        invariant active.Some? ==>
          active.value in transactions && transactions[active.value] == old(transactions)[active.value]
        invariant forall id <- old(transactions) | old(transactions)[id].modified >= cutoff ::
            id in transactions && transactions[id] == old(transactions)[id]
        invariant forall id <- entries ::
          id in transactions && id in old(transactions) && transactions[id] == old(transactions)[id]
        decreases entries
      {
        var entry :| entry in entries;
        entries := entries - {entry};
        if Some(entry) != active && transactions[entry].modified < now - STALE_AFTER {
          ghost var before := transactions;
          o := RemoveTransaction(entry);
          assert forall id <- before | id != entry :: id in transactions && transactions[id] == before[id] by {
            forall id <- before | id != entry ensures id in transactions && transactions[id] == before[id] {
              assert id in before - {entry} && (before - {entry})[id] == before[id];
            }
          }
          if o.Crashed? { return Interrupted, knew, cutoff; }
        }
      }
      return Succeeded, knew, cutoff;
    }

    // --------------------------------------------------------------- commit

    /** Snapshots the old bytes under a fresh id and publishes the pointer last. */
    method BeginTransaction(updates: seq<Update>) returns (r: Status, id: string)
      requires Valid() && pointer.None?
      modifies this
      ensures Valid() && collections == old(collections) && Current() == old(Current())
      ensures r.Succeeded? || r.Rejected? || r.Interrupted?
      ensures !r.Succeeded? ==> pointer.None?
      ensures r.Succeeded? ==>
        && pointer.Some? && pointer.value.id == id
        && DistinctPaths(updates) && Faithful(collections, Snapshots(transactions[id]))
        && |Snapshots(transactions[id])| == |updates|
        && forall i | 0 <= i < |updates| :: updates[i].path == Inside(Snapshots(transactions[id])[i].path)
    {
      var o := Attempt();
      id := *;
      if !o.Done? { return if o.Failed? then Rejected else Interrupted, id; }
      if id in transactions { return Rejected, id; }  // creation is exclusive
      var created := Now();
      transactions := transactions[id := TransactionDir(created, map[], None)];
      var lines: seq<JournalLine> := [];
      var seen: set<string> := {};
      for i := 0 to |updates|
        invariant pointer.None? && collections == old(collections)
        invariant id in transactions && transactions[id].journal.None?
        invariant |lines| == i && forall j | 0 <= j < i :: lines[j].path in seen
        invariant forall j, k | 0 <= j < k < i :: lines[j].path != lines[k].path
        invariant forall j | 0 <= j < i ::
            && lines[j].backupFile == j
            && updates[j].path == Inside(lines[j].path)
            && lines[j].existed == (lines[j].path in collections)
            && (lines[j].existed ==>
                  j in transactions[id].backups && transactions[id].backups[j] == collections[lines[j].path])
      {
        var update := updates[i];
        if update.path.Outside? || update.path.name in seen {
          r := Abandon(id);
          return;
        }
        var rel := update.path.name;
        seen := seen + {rel};
        o := Attempt();
        if o.Crashed? { return Interrupted, id; }
        if o.Failed? { r := Abandon(id); return; }
        if rel in collections {
          o := Attempt();
          if o.Crashed? { return Interrupted, id; }
          if o.Failed? { r := Abandon(id); return; }
          var dir := transactions[id];
          transactions := transactions[id := dir.(backups := dir.backups[i := collections[rel]])];
        }
        lines := lines + [JournalLine(rel, i, rel in collections)];
      }
      o := Attempt();
      if o.Crashed? { return Interrupted, id; }
      if o.Failed? { r := Abandon(id); return; }
      transactions := transactions[id := transactions[id].(journal := Some(lines))];
      o := Attempt();
      if o.Crashed? { return Interrupted, id; }
      if o.Failed? { r := Abandon(id); return; }
      FaithfulJournalRestoresNothing(collections, Snapshots(transactions[id]));
      pointer := Some(Pointer(id, created));
      return Succeeded, id;
    }

    method Abandon(id: string) returns (r: Status)
      requires Valid() && pointer.None?
      modifies this`transactions
      ensures r.Rejected? || r.Interrupted?
    {
      var o := RemoveTransaction(id);
      return if o.Crashed? then Interrupted else Rejected;
    }

    /** The forward writes: none of them can be seen in the abstract store. */
    method OverwriteFiles(updates: seq<Update>) returns (o: Outcome)
      requires Valid() && pointer.Some?
      requires var snapshots := Snapshots(transactions[pointer.value.id]);
        && Faithful(collections, snapshots) && |snapshots| == |updates|
        && forall i | 0 <= i < |updates| :: updates[i].path == Inside(snapshots[i].path)
      modifies this`collections
      ensures Valid() && Current() == old(Current()) == old(collections)
      ensures o.Done? ==> collections == Applied(old(collections), updates)
    {
      ghost var before, snapshots := collections, Snapshots(transactions[pointer.value.id]);
      FaithfulJournalRestoresNothing(before, snapshots);
      for i := 0 to |updates|
        invariant collections == Applied(before, updates[..i]) && AgreeOutside(before, collections, Paths(snapshots))
      {
        assert snapshots[i] in snapshots;
        assert updates[..i + 1][..i] == updates[..i];
        o := WriteCollection(updates[i].path.name, updates[i].data);
        if !o.Done? {
          RestoreForgetsCoveredPaths(before, collections, snapshots);
          return;
        }
      }
      RestoreForgetsCoveredPaths(before, collections, snapshots);
      assert updates[..|updates|] == updates;
      o := Done;
    }

    /** One multi-file commit.  `committed` is set exactly where the pointer is removed
        after the forward writes; on every exit the abstract store is the old one or the
        one with all updates, according to that flag alone. */
    method CommitCollections(updates: seq<Update>) returns (r: Status, ghost committed: bool)
      requires Valid()
      modifies this
      ensures Valid()
      ensures Current() == if committed then Applied(old(Current()), updates) else old(Current())
      ensures committed ==> pointer.None? && collections == Applied(old(Current()), updates)
      ensures updates != [] && r.Succeeded? ==> committed
      ensures r.Rejected? || r.InProgress? || updates == [] ==> !committed
    {
      committed := false;
      if updates == [] { return Succeeded, false; }
      r := RecoverPendingTransaction(false);
      if !r.Succeeded? { return; }
      var id;
      r, id := BeginTransaction(updates);
      if !r.Succeeded? { return; }
      var o := OverwriteFiles(updates);
      if o.Crashed? { return Interrupted, false; }
      if o.Failed? {
        r := RestoreTransaction(id);
        return if r.Interrupted? then r else Rejected, false;
      }
      o := RemovePointer();
      if o.Crashed? { return Interrupted, false; }
      if o.Failed? { return Rejected, false; }
      committed := true;
      o := RemoveTransaction(id);
      if o.Crashed? { return Interrupted, true; }
      ghost var knew, cutoff;
      r, knew, cutoff := CleanupOrphanTransactions();
    }

    method LoadCollection(name: string) returns (r: Status, data: Option<Bytes>)
      requires Valid()
      modifies this
      ensures Valid() && Current() == old(Current())
      ensures r.Succeeded? ==> data == Lookup(Current(), name)
    {
      data := None;
      r := RecoverPendingTransaction(false);
      if !r.Succeeded? { return; }
      var o := Attempt();
      if !o.Done? { return if o.Failed? then Rejected else Interrupted, None; }
      return Succeeded, if name in collections then Some(collections[name]) else None;
    }

    // ----------------------------------------------------------- whole runs

    method Serve(request: Request) returns (event: Event)
      requires Valid()
      modifies this
      ensures Valid() && Answers(request, event) && Step(old(Current()), event, Current())
    {
      match request
      case Load(name) =>
        var r, data := LoadCollection(name);
        return LoadEvent(name, r, data);
      case Commit(updates) =>
        var r; ghost var committed;
        r, committed := CommitCollections(updates);
        return CommitEvent(updates, r);
      case Recover =>
        var r := RecoverPendingTransaction(true);
        return RecoverEvent(r);
    }

    /** Any sequential run, every crash and failure included, is one in which each commit
        happened at once or not at all, and each successful load saw the result. */
    method Run(requests: seq<Request>) returns (events: seq<Event>, ghost stores: seq<Store>)
      requires Valid()
      modifies this
      ensures Valid() && |events| == |requests|
      ensures forall i | 0 <= i < |requests| :: Answers(requests[i], events[i])
      ensures Explains(stores, events) && stores[0] == old(Current()) && stores[|events|] == Current()
    {
      events, stores := [], [Current()];
      for i := 0 to |requests|
        invariant Valid() && |events| == i
        invariant forall j | 0 <= j < i :: Answers(requests[j], events[j])
        invariant Explains(stores, events) && stores[0] == old(Current()) && stores[i] == Current()
      {
        var event := Serve(requests[i]);
        events, stores := events + [event], stores + [Current()];
      }
    }
  }

  function Lookup(store: Store, name: string): Option<Bytes> {
    if name in store then Some(store[name]) else None
  }

  datatype Request = Load(name: string) | Commit(updates: seq<Update>) | Recover
  datatype Event =
    | LoadEvent(name: string, status: Status, data: Option<Bytes>)
    | CommitEvent(updates: seq<Update>, status: Status)
    | RecoverEvent(status: Status)

  predicate Answers(request: Request, event: Event) {
    match request
    case Load(name) => event.LoadEvent? && event.name == name
    case Commit(updates) => event.CommitEvent? && event.updates == updates
    case Recover => event.RecoverEvent?
  }

  /** One event as seen by a client of an atomic store: only an interrupted commit may
      go either way. */
  predicate Step(before: Store, event: Event, after: Store) {
    match event
    case LoadEvent(name, status, data) => after == before && (status.Succeeded? ==> data == Lookup(before, name))
    case RecoverEvent(_) => after == before
    case CommitEvent(updates, status) =>
      match status
      case Succeeded => after == Applied(before, updates)
      case Interrupted => after == before || after == Applied(before, updates)
      case _ => after == before
  }

  ghost predicate Explains(stores: seq<Store>, events: seq<Event>) {
    && |stores| == |events| + 1
    && forall i | 0 <= i < |events| :: Step(stores[i], events[i], stores[i + 1])
  }

  function Committed(events: seq<Event>, took: seq<bool>): (commits: seq<seq<Update>>)
    requires |events| == |took|
  {
    if events == [] then []
    else
      var rest, last := Committed(events[..|events| - 1], took[..|events| - 1]), events[|events| - 1];
      if last.CommitEvent? && took[|events| - 1] then rest + [last.updates] else rest
  }

  function Folded(store: Store, commits: seq<seq<Update>>): Store {
    if commits == [] then store
    else Applied(Folded(store, commits[..|commits| - 1]), commits[|commits| - 1])
  }

  ghost predicate Honest(events: seq<Event>, took: seq<bool>) {
    && |took| == |events|
    && forall i | 0 <= i < |events| && events[i].CommitEvent? ::
      && (events[i].status.Succeeded? ==> took[i])
      && (events[i].status.Rejected? || events[i].status.InProgress? ==> !took[i])
  }

  function Took(stores: seq<Store>, events: seq<Event>): (took: seq<bool>)
    requires |stores| == |events| + 1
  {
    seq(|events|, i requires 0 <= i < |events| =>
      && events[i].CommitEvent?
      && (events[i].status.Succeeded? || (events[i].status.Interrupted? && stores[i + 1] != stores[i])))
  }

  lemma {:induction false} StoreIsAFoldOfCommits(stores: seq<Store>, events: seq<Event>, i: nat)
    requires Explains(stores, events) && i <= |events|
    ensures stores[i] == Folded(stores[0], Committed(events[..i], Took(stores, events)[..i]))
  {
    if i > 0 {
      var took := Took(stores, events);
      StoreIsAFoldOfCommits(stores, events, i - 1);
      assert Step(stores[i - 1], events[i - 1], stores[i]);
      assert events[..i][..i - 1] == events[..i - 1] && took[..i][..i - 1] == took[..i - 1];
      var commits := Committed(events[..i - 1], took[..i - 1]);
      if took[i - 1] {
        assert (commits + [events[i - 1].updates])[..|commits|] == commits;
      }
    }
  }

  /** In an explained run every successful load reads the fold of the commits that took
      effect before it, in order: nothing is lost, reordered or half applied. */
  lemma ExplainedRunIsAFoldOfCommits(stores: seq<Store>, events: seq<Event>) returns (took: seq<bool>)
    requires Explains(stores, events)
    ensures Honest(events, took)
    ensures stores[|events|] == Folded(stores[0], Committed(events, took))
    ensures forall i | 0 <= i < |events| && events[i].LoadEvent? && events[i].status.Succeeded? ::
      events[i].data == Lookup(Folded(stores[0], Committed(events[..i], took[..i])), events[i].name)
  {
    took := Took(stores, events);
    forall i | 0 <= i < |events| && events[i].CommitEvent? &&
               (events[i].status.Rejected? || events[i].status.InProgress?)
      ensures !took[i]
    {
      assert Step(stores[i], events[i], stores[i + 1]);
    }
    forall i | 0 <= i < |events| && events[i].LoadEvent? && events[i].status.Succeeded?
      ensures events[i].data == Lookup(Folded(stores[0], Committed(events[..i], took[..i])), events[i].name)
    {
      assert Step(stores[i], events[i], stores[i + 1]);
      StoreIsAFoldOfCommits(stores, events, i);
    }
    StoreIsAFoldOfCommits(stores, events, |events|);
    assert events[..|events|] == events && took[..|events|] == took;
  }
}
