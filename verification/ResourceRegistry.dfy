/** The registry of imported resources and their canonical trees
    (internal/resourcehub/manager.go:150-303, 473-509). */
module ResourceRegistry {
  import opened Wrappers
  import opened Saga
  import opened TreeDigest
  import opened ResourceSync
  import opened FreeNames
  import opened ResourceTargets
  import Text

  datatype Registered = Registered(id: Id, kind: Kind, digest: Digest, source: Path, enabled: bool, importedAt: Time,
                                   updatedAt: Time)

  /** A resource directory: its resource.json and its content. */
  datatype Package = Package(meta: Registered, content: Content)

  /** The directories under the manager's root; a temporary name is never a resource id. */
  datatype Place = Dir(id: Id) | BackupDir(name: string) | StageDir(name: string)

  /** filepath.Base of a clean absolute path. */
  function Base(path: Path): (r: string)
    ensures '/' !in r
  {
    if path == "" then ""
    else if path[|path| - 1] == '/' then ""
    else Base(path[..|path| - 1]) + [path[|path| - 1]]
  }

  /** Everything that was there is still there, unchanged. */
  ghost predicate Undisturbed(before: map<Place, Package>, after: map<Place, Package>) {
    forall p <- before :: p in after && after[p] == before[p]
  }

  type Digester = (string, Content) -> Option<Digest>

  /** The entry describes the directory of its resource: its copy lies beside the content and
      its digest is that of the content. */
  ghost predicate Holds(registry: map<Id, Registered>, files: map<Place, Package>, digestOf: Digester, id: Id) {
    && id in registry && registry[id].id == id && Dir(id) in files && files[Dir(id)].meta == registry[id]
    && digestOf("content", files[Dir(id)].content) == Some(registry[id].digest)
  }

  /** The resources that their entries describe. */
  ghost function Held(registry: map<Id, Registered>, files: map<Place, Package>, digestOf: Digester): set<Id> {
    set id <- registry | Holds(registry, files, digestOf, id)
  }

  /** What is not moved and not entered anew stays described. */
  lemma OthersStayHeld(registry: map<Id, Registered>, files: map<Place, Package>,
                       registry': map<Id, Registered>, files': map<Place, Package>, digestOf: Digester, moved: set<Id>)
    requires forall id <- registry | id !in moved :: id in registry' && registry'[id] == registry[id]
    requires forall id <- registry | id !in moved && Dir(id) in files ::
      Dir(id) in files' && files'[Dir(id)] == files[Dir(id)]
    ensures Held(registry, files, digestOf) - moved <= Held(registry', files', digestOf)
  {
  }

  lemma UndisturbedBesides(before: map<Place, Package>, middle: map<Place, Package>, after: map<Place, Package>,
                           stage: Place, p: Place)
    requires stage !in before && Undisturbed(before, middle)
    ensures Undisturbed(middle - {stage, p}, after) ==> Undisturbed(before - {p}, after)
    ensures Undisturbed(middle - {stage}, after) ==> Undisturbed(before, after)
  {
  }

  lemma OthersAreHeld(registry: map<Id, Registered>, files: map<Place, Package>,
                      registry': map<Id, Registered>, files': map<Place, Package>, digestOf: Digester, id: Id)
    requires registry' - {id} == registry - {id} && Undisturbed(files - {Dir(id)}, files')
    ensures Held(registry, files, digestOf) - {id} <= Held(registry', files', digestOf)
  {
    forall other <- registry | other != id ensures other in registry' && registry'[other] == registry[other] {
      assert other in registry - {id} && (registry' - {id})[other] == (registry - {id})[other];
    }
  }

  /** The digest and the copy of an import are those of the tree model. */
  ghost predicate Faithful(digestOf: Digester, importOf: (string, Content) -> Option<Content>, hash: string -> Digest) {
    forall b, c :: digestOf(b, c) == Of(b, c, hash) && importOf(b, c) == Imported(b, c)
  }

  /** What is imported has the digest of what it was imported from. */
  lemma ImportedDigestIsTheSources(digestOf: Digester, importOf: (string, Content) -> Option<Content>,
                                   hash: string -> Digest, base: string, content: Content)
    requires Faithful(digestOf, importOf, hash) && '/' !in base && importOf(base, content).Some?
    ensures digestOf("content", importOf(base, content).value) == digestOf(base, content)
  {
    assert importOf(base, content) == Imported(base, content) && digestOf(base, content) == Of(base, content, hash);
    ImportKeepsDigest(base, "content", content, hash);
  }

  /** The outcome of a change: an error tells whether its compensations worked. */
  datatype Change = Changed(entry: Registered) | Undone(restored: bool)

  class Manager {
    const root: FileTree<Place, Package>
    const digestOf: Digester
    const importOf: (string, Content) -> Option<Content>
    /** The content of a backup as a path of the file system, and filepath.Clean. */
    const backupPath: string -> Path
    const clean: Path -> Path
    var registry: map<Id, Registered>
    var sources: map<Path, Content>

    constructor (root: FileTree<Place, Package>, digestOf: Digester, importOf: (string, Content) -> Option<Content>,
                 backupPath: string -> Path, clean: Path -> Path)
      ensures this.root == root && registry == map[] && sources == map[]
      ensures this.digestOf == digestOf && this.importOf == importOf
      ensures this.backupPath == backupPath && this.clean == clean
    {
      this.root, this.digestOf, this.importOf := root, digestOf, importOf;
      this.backupPath, this.clean := backupPath, clean;
      registry, sources := map[], map[];
    }

    ghost function HeldNow(): set<Id>
      reads this, root
    {
      Held(registry, root.files, digestOf)
    }

    method Attempt() returns (ok: bool)
    {
      ok := *;
    }

    predicate ImportedAs(base: string, content: Content, digest: Digest) {
      importOf(base, content).Some? && digestOf("content", importOf(base, content).value) == Some(digest)
    }

    /** Renaming a directory onto one that is there fails. */
    method MoveDir(from: Place, to: Place) returns (ok: bool)
      requires from != to
      modifies root
      ensures ok ==> from in old(root.files) && to !in old(root.files)
      ensures ok ==> root.files == old(root.files)[to := old(root.files)[from]] - {from}
      ensures !ok ==> root.files == old(root.files)
    {
      if to in root.files { return false; }
      ok := root.Rename(from, to);
    }

    /** Copies the content into a fresh stage and digests the copy. */
    method MakeStage(base: string, content: Content, meta: Digest -> Registered)
        returns (r: Option<(Place, Registered)>)
      requires forall d :: meta(d).digest == d
      modifies root
      ensures r.None? ==> root.files == old(root.files)
      ensures r.Some? ==>
        var (stage, entry) := r.value;
        && stage !in old(root.files) && stage.StageDir?
        && ImportedAs(base, content, entry.digest) && entry == meta(entry.digest)
        && root.files == old(root.files)[stage := Package(entry, importOf(base, content).value)]
    {
      var name := FreeName(set p | p in root.files && p.StageDir? :: p.name, "");
      var stage := StageDir(name);
      var copied := importOf(base, content);
      if copied.None? { return None; }
      var digest := digestOf("content", copied.value);
      if digest.None? { return None; }
      var entry := meta(digest.value);
      var ok := root.Write(stage, Package(entry, copied.value));
      if !ok { return None; }
      r := Some((stage, entry));
    }

    /** nextBackupPath. */
    method FreeBackup() returns (backup: Place)
      ensures backup.BackupDir? && backup !in root.files
    {
      var name := FreeName(set p | p in root.files && p.BackupDir? :: p.name, "");
      backup := BackupDir(name);
    }

    /** Moves the directory of a registered resource to a free backup name; a directory that
        is missing is no error. */
    method SetAside(id: Id) returns (ok: bool, backup: Option<Place>)
      modifies root
      ensures backup.None? ==> root.files == old(root.files) && (ok ==> Dir(id) !in root.files)
      ensures backup.Some? ==>
        && ok && backup.value !in old(root.files) && backup.value.BackupDir?
        && Dir(id) in old(root.files)
        && root.files == old(root.files)[backup.value := old(root.files)[Dir(id)]] - {Dir(id)}
    {
      var backup' := FreeBackup();
      var moved := MoveDir(Dir(id), backup');
      if moved { return true, Some(backup'); }
      return Dir(id) !in root.files, None;
    }

    /** Moves the stage into place, or moves the backup back. */
    method Place(id: Id, stage: Place, backup: Option<Place>) returns (ok: bool, restored: bool)
      requires stage != Dir(id) && backup != Some(Dir(id))
      modifies root
      ensures ok ==> stage in old(root.files) && Dir(id) !in old(root.files)
      ensures ok ==> root.files == old(root.files)[Dir(id) := old(root.files)[stage]] - {stage}
      ensures !ok && backup.None? ==> restored && root.files == old(root.files)
      ensures !ok && backup.Some? && !restored ==> root.files == old(root.files)
      ensures !ok && backup.Some? && restored ==>
        && backup.value in old(root.files)
        && root.files == old(root.files)[Dir(id) := old(root.files)[backup.value]] - {backup.value}
    {
      restored := true;
      ok := MoveDir(stage, Dir(id));
      if !ok && backup.Some? { restored := MoveDir(backup.value, Dir(id)); }
    }

    /** Import: whatever was on the disk, a new or replaced entry describes its directory, the
        replaced directory is kept among the backups, every other resource that was described
        stays so, and a failure whose compensations work changes nothing. */
    method Install(base: string, content: Content, id: Id, kind: Kind, replace: bool, tracked: Path, now: Time)
        returns (r: Change)
      modifies this`registry, root
      ensures r.Undone? ==> registry == old(registry) && Undisturbed(old(root.files) - {Dir(id)}, root.files)
      ensures r.Undone? && r.restored ==> Undisturbed(old(root.files), root.files)
      ensures r.Changed? ==>
        && registry == old(registry)[id := r.entry] && r.entry.id == id && r.entry.source == tracked && r.entry.enabled
        && (id in old(registry) ==> replace && r.entry.importedAt == old(registry)[id].importedAt)
        && ImportedAs(base, content, r.entry.digest)
        && Dir(id) in root.files && root.files[Dir(id)] == Package(r.entry, importOf(base, content).value)
        && Undisturbed(old(root.files) - {Dir(id)}, root.files)
      ensures r.Changed? && id in old(registry) ==> Replaced(old(root.files), root.files, id)
      ensures r.Changed? ==> old(HeldNow()) + {id} <= HeldNow()
      ensures r.Undone? ==> old(HeldNow()) - (if r.restored then {} else {id}) <= HeldNow()
    {
      r := Undone(true);
      if !ValidId(id) || (id in registry && !replace) { return; }
      var importedAt := if id in registry then registry[id].importedAt else now;
      var staged := MakeStage(base, content, d => Registered(id, kind, d, tracked, true, importedAt, now));
      if staged.None? { return; }
      var (stage, entry) := staged.value;
      ghost var middle := root.files;
      r := Exchange(id, stage, entry);
      UndisturbedBesides(old(root.files), middle, root.files, stage, Dir(id));
      OthersAreHeld(old(registry), old(root.files), registry, root.files, digestOf, id);
      if r.Changed? {
        assert Holds(registry, root.files, digestOf, id);
        if id in old(registry) { ReplacedBefore(old(root.files), middle, root.files, id); }
      } else if r.restored {
        OthersStayHeld(registry, old(root.files), registry, root.files, digestOf, {});
      }
    }

    /** The renames and the save of the registry. */
    method Exchange(id: Id, stage: Place, entry: Registered) returns (r: Change)
      requires stage in root.files && stage != Dir(id)
      modifies this`registry, root
      ensures r.Undone? ==> registry == old(registry) && Undisturbed(old(root.files) - {stage, Dir(id)}, root.files)
      ensures r.Undone? && r.restored ==> Undisturbed(old(root.files) - {stage}, root.files)
      ensures r.Changed? ==>
        && r.entry == entry && registry == old(registry)[id := entry]
        && Dir(id) in root.files && root.files[Dir(id)] == old(root.files[stage])
        && Undisturbed(old(root.files) - {stage, Dir(id)}, root.files)
      ensures r.Changed? && id in old(registry) ==> Replaced(old(root.files), root.files, id)
    {
      r := Undone(true);
      var backup := None;
      if id in registry {
        var ok;
        ok, backup := SetAside(id);
        if !ok { return; }
      }
      var placed, restored := Place(id, stage, backup);
      if !placed { return Undone(restored); }
      var saved := Attempt();
      if !saved {
        var back := TakeBack(id, backup);
        return Undone(back);
      }
      registry := registry[id := entry];
      r := Changed(entry);
    }

    /** Removes the directory and moves the backup back. */
    method TakeBack(id: Id, backup: Option<Place>) returns (ok: bool)
      requires backup != Some(Dir(id))
      modifies root
      ensures ok ==> root.files == UndoOne(old(root.files), MoveBack(Dir(id), backup))
      ensures forall p <- old(root.files) | p != Dir(id) && Some(p) != backup ::
        p in root.files && root.files[p] == old(root.files)[p]
    {
      ok := root.Remove(Dir(id));
      if backup.Some? {
        var moved := MoveDir(backup.value, Dir(id));
        ok := ok && moved;
      }
    }

    /** Import of a file or directory; links are refused. */
    method Import(source: Path, id: Id, kind: Kind, replace: bool, now: Time) returns (r: Change)
      modifies this`registry, root
      ensures r.Undone? ==> registry == old(registry) && Undisturbed(old(root.files) - {Dir(id)}, root.files)
      ensures r.Undone? && r.restored ==> Undisturbed(old(root.files), root.files)
      ensures r.Changed? ==>
        && registry == old(registry)[id := r.entry] && r.entry.id == id && r.entry.source == source
        && source in sources && !sources[source].Symlink? && ImportedAs(Base(source), sources[source], r.entry.digest)
        && Undisturbed(old(root.files) - {Dir(id)}, root.files)
      ensures r.Changed? && id in old(registry) ==> replace && Replaced(old(root.files), root.files, id)
      ensures r.Changed? ==> old(HeldNow()) + {id} <= HeldNow()
      ensures r.Undone? ==> old(HeldNow()) - (if r.restored then {} else {id}) <= HeldNow()
    {
      if source !in sources || sources[source].Symlink? { return Undone(true); }
      r := Install(Base(source), sources[source], id, kind, replace, source, now);
    }

    /** The directory, intact or not, goes to a backup; a failed save brings it back. */
    method RemoveResource(id: Id) returns (ok: bool, restored: bool)
      modifies this`registry, root
      ensures !ok ==> registry == old(registry) && Undisturbed(old(root.files) - {Dir(id)}, root.files)
      ensures !ok && restored ==> Undisturbed(old(root.files), root.files)
      ensures ok ==> registry == old(registry) - {id} && Undisturbed(old(root.files) - {Dir(id)}, root.files)
      ensures ok && id in old(registry) ==> Dir(id) !in root.files && Replaced(old(root.files), root.files, id)
      ensures old(HeldNow()) - (if !ok && restored then {} else {id}) <= HeldNow()
    {
      if !ValidId(id) { return false, true; }
      if id !in registry {
        assert registry - {id} == registry;
        return true, true;
      }
      ok, restored := Withdraw(id);
      OthersStayHeld(old(registry), old(root.files), registry, root.files, digestOf,
                     if !ok && restored then {} else {id});
    }

    method Withdraw(id: Id) returns (ok: bool, restored: bool)
      requires id in registry
      modifies this`registry, root
      ensures !ok ==> registry == old(registry) && (restored ==> Undisturbed(old(root.files), root.files))
      ensures registry == (if ok then old(registry) - {id} else old(registry))
      ensures Undisturbed(old(root.files) - {Dir(id)}, root.files)
      ensures ok ==> Dir(id) !in root.files && Replaced(old(root.files), root.files, id)
    {
      var backup;
      ok, backup := SetAside(id);
      restored := true;
      if !ok { return; }
      ok := Attempt();
      if ok {
        registry := registry - {id};
      } else if backup.Some? {
        restored := MoveDir(backup.value, Dir(id));
      }
    }

    /** The source that a restored resource is refreshed from: the one it had, or, where none
        was tracked, the backup itself. */
    function Tracked(name: string, meta: Registered): Path {
      if Text.Blank(meta.source) then backupPath(name) else clean(meta.source)
    }

    /** A backup is imported again under the identity it had; one whose content is no longer
        what its own entry says is refused. */
    method RestoreBackup(name: string, confirmed: bool, now: Time) returns (r: Change)
      modifies this`registry, root
      ensures BackupDir(name) !in old(root.files) || !Sound(old(root.files[BackupDir(name)])) || !confirmed ==>
        r == Undone(true) && root.files == old(root.files)
      ensures r.Undone? ==> registry == old(registry)
      ensures r.Undone? && r.restored ==> Undisturbed(old(root.files), root.files)
      ensures r.Changed? ==>
        var package := old(root.files[BackupDir(name)]);
        && registry == old(registry)[package.meta.id := r.entry]
        && r.entry.id == package.meta.id && r.entry.source == Tracked(name, package.meta)
        && ImportedAs("content", package.content, r.entry.digest)
        && Undisturbed(old(root.files) - {Dir(package.meta.id)}, root.files)
        && old(HeldNow()) + {package.meta.id} <= HeldNow()
      ensures r.Undone? && r.restored ==> old(HeldNow()) <= HeldNow()
      ensures r.Undone? && !r.restored ==>
        BackupDir(name) in old(root.files) && old(HeldNow()) - {old(root.files[BackupDir(name)]).meta.id} <= HeldNow()
    {
      if !confirmed || BackupDir(name) !in root.files { return Undone(true); }
      var package := root.files[BackupDir(name)];
      if !Sound(package) { return Undone(true); }
      r := Install("content", package.content, package.meta.id, package.meta.kind, true, Tracked(name, package.meta),
                   now);
    }

    /** A package whose content has the digest its entry records. */
    predicate Sound(package: Package) {
      digestOf("content", package.content) == Some(package.meta.digest)
    }

    /** Removing a resource and restoring the backup that this made: when both succeed the
        entry has the digest it had, and describes its directory again; and it has the source
        it had exactly when one was tracked, by a path in its shortest form. */
    method RemoveThenRestore(id: Id, now: Time, ghost hash: string -> Digest) returns (ok: bool, name: string)
      requires Faithful(digestOf, importOf, hash) && Holds(registry, root.files, digestOf, id)
      modifies this`registry, root
      ensures ok ==> registry.Keys == old(registry.Keys) && registry[id].digest == old(registry)[id].digest
      ensures ok ==> old(HeldNow()) <= HeldNow() && registry[id].source == Tracked(name, old(registry)[id])
      ensures ok && !Text.Blank(backupPath(name)) ==>
        (registry[id].source == old(registry)[id].source <==>
          !Text.Blank(old(registry)[id].source) && clean(old(registry)[id].source) == old(registry)[id].source)
      ensures ok ==> forall other <- old(registry) | other != id :: registry[other] == old(registry)[other]
    {
      var package := root.files[Dir(id)];
      name := "";
      var restored;
      ok, restored := RemoveResource(id);
      if !ok { return; }
      var backup :| backup in root.files && backup.BackupDir? && root.files[backup] == package;
      name := backup.name;
      var r := RestoreBackup(name, true, now);
      if r.Undone? { return false, name; }
      ImportedDigestIsTheSources(digestOf, importOf, hash, "content", package.content);
    }
  }

  /** The directory of the resource, if there was one, is at a backup name that was free. */
  ghost predicate Replaced(before: map<Place, Package>, after: map<Place, Package>, id: Id) {
    Dir(id) in before ==>
      exists backup <- after :: backup !in before && backup.BackupDir? && after[backup] == before[Dir(id)]
  }

  lemma ReplacedBefore(before: map<Place, Package>, middle: map<Place, Package>, after: map<Place, Package>, id: Id)
    requires Undisturbed(before, middle) && Replaced(middle, after, id)
    ensures Replaced(before, after, id)
  {
    if Dir(id) in before {
      var backup :| backup in after && backup !in middle && backup.BackupDir? && after[backup] == middle[Dir(id)];
      assert backup !in before;
    }
  }
}
