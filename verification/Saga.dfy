/** Mutate in order, compensate in reverse: the shape shared by resource sync, resource
    refresh, context refresh and client linking. */
module Saga {
  import opened Wrappers

  type Path = string

  /** How one forward step is compensated. */
  datatype Undo<P, C> =
    | WriteBack(path: P, before: Option<C>)           // rewrite the old bytes, or remove the new file
    | MoveBack(path: P, backup: Option<P>)            // remove what is there, then rename the backup into place

  function UndoOne<P(==), C>(files: map<P, C>, u: Undo<P, C>): map<P, C> {
    match u
    case WriteBack(path, Some(content)) => files[path := content]
    case WriteBack(path, None) => files - {path}
    case MoveBack(path, None) => files - {path}
    case MoveBack(path, Some(backup)) =>
      if backup in files && backup != path then files[path := files[backup]] - {backup} else files - {path}
  }

  /** The newest step is undone first. */
  function UndoAll<P(==), C>(files: map<P, C>, undos: seq<Undo<P, C>>): map<P, C>
    decreases |undos|
  {
    if undos == [] then files
    else UndoAll(UndoOne(files, undos[|undos| - 1]), undos[..|undos| - 1])
  }

  ghost function BackupsOf<P, C>(undos: seq<Undo<P, C>>): set<P> {
    set u <- undos | u.MoveBack? && u.backup.Some? :: u.backup.value
  }

  function BackupList<P, C>(undos: seq<Undo<P, C>>): (r: seq<P>)
    ensures (forall b <- r :: b in BackupsOf(undos)) && forall b <- BackupsOf(undos) :: b in r
  {
    if undos == [] then []
    else
      var u, rest := undos[0], BackupList(undos[1..]);
      assert undos == [u] + undos[1..];
      if u.MoveBack? && u.backup.Some? then [u.backup.value] + rest else rest
  }

  ghost predicate SameExcept<P(!new), C>(a: map<P, C>, b: map<P, C>, except: set<P>) {
    forall p | p !in except :: (p in a <==> p in b) && (p in a ==> a[p] == b[p])
  }

  ghost predicate Kept<P, C>(a: map<P, C>, b: map<P, C>, p: P) {
    (p in a <==> p in b) && (p in a ==> a[p] == b[p])
  }

  ghost predicate Avoids<P, C>(undos: seq<Undo<P, C>>, except: set<P>) {
    forall u <- undos :: u.path !in except && (u.MoveBack? && u.backup.Some? ==> u.backup.value !in except)
  }

  ghost predicate BackupsAvoid<P, C>(undos: seq<Undo<P, C>>, except: set<P>) {
    forall u <- undos :: u.MoveBack? && u.backup.Some? ==> u.backup.value !in except
  }

  /** What no compensation names stays. */
  lemma {:induction false} UndoAllKeeps<P, C>(files: map<P, C>, undos: seq<Undo<P, C>>, p: P)
    requires Avoids(undos, {p})
    ensures Kept(UndoAll(files, undos), files, p)
    decreases |undos|
  {
    if undos != [] {
      var u := undos[|undos| - 1];
      assert u in undos;
      UndoAllKeeps(UndoOne(files, u), undos[..|undos| - 1], p);
    }
  }

  /** Two trees that agree off some paths are compensated to trees that do, so long as no
      backup lies there: a destination may. */
  lemma {:induction false} UndoAllRespects<P(!new), C>(a: map<P, C>, b: map<P, C>, undos: seq<Undo<P, C>>,
                                                       except: set<P>)
    requires SameExcept(a, b, except) && BackupsAvoid(undos, except)
    ensures SameExcept(UndoAll(a, undos), UndoAll(b, undos), except)
    decreases |undos|
  {
    if undos != [] {
      var u := undos[|undos| - 1];
      assert u in undos;
      assert SameExcept(UndoOne(a, u), UndoOne(b, u), except);
      UndoAllRespects(UndoOne(a, u), UndoOne(b, u), undos[..|undos| - 1], except);
    }
  }

  /** The saga lemma: a step that its own compensation takes back extends a run that its
      compensations take back. */
  lemma SagaStep<P(!new), C>(start: map<P, C>, before: map<P, C>, after: map<P, C>, undos: seq<Undo<P, C>>,
                             u: Undo<P, C>, except: set<P>)
    requires SameExcept(UndoAll(before, undos), start, except)
    requires SameExcept(UndoOne(after, u), before, except) && BackupsAvoid(undos, except)
    ensures SameExcept(UndoAll(after, undos + [u]), start, except)
  {
    assert (undos + [u])[..|undos|] == undos;
    UndoAllRespects(UndoOne(after, u), before, undos, except);
  }

  /** Contents are moved and dropped, never made up. */
  ghost predicate NothingNew<P, C>(before: map<P, C>, after: map<P, C>) {
    forall p <- after :: exists q <- before :: before[q] == after[p]
  }

  /** A directory tree, seen as contents at paths; every primitive happens whole or fails. */
  class FileTree<P(==), C> {
    var files: map<P, C>

    constructor (files: map<P, C>)
      ensures this.files == files
    {
      this.files := files;
    }

    method Attempt() returns (ok: bool)
    {
      ok := *;
    }

    method Write(path: P, content: C) returns (ok: bool)
      modifies this
      ensures files == if ok then old(files)[path := content] else old(files)
    {
      ok := Attempt();
      if ok { files := files[path := content]; }
    }

    method Remove(path: P) returns (ok: bool)
      modifies this
      ensures files == if ok then old(files) - {path} else old(files)
    {
      ok := Attempt();
      if ok { files := files - {path}; }
    }

    /** Fails when there is nothing to rename. */
    method Rename(from: P, to: P) returns (ok: bool)
      requires from != to
      modifies this
      ensures ok ==> from in old(files) && files == old(files)[to := old(files)[from]] - {from}
      ensures !ok ==> files == old(files)
    {
      ok := Attempt();
      ok := ok && from in files;
      if ok { files := files[to := files[from]] - {from}; }
    }

    method Compensate(u: Undo<P, C>, ghost spared: set<P> := {}) returns (ok: bool)
      requires Avoids([u], spared)
      modifies this
      ensures ok ==> files == UndoOne(old(files), u)
      ensures u.MoveBack? ==> NothingNew(old(files), files)
      ensures forall p <- spared :: Kept(files, old(files), p)
    {
      assert u in [u];
      match u
      case WriteBack(path, Some(content)) => ok := Write(path, content);
      case WriteBack(path, None) => ok := Remove(path);
      case MoveBack(path, backup) =>
        ok := Remove(path);
        if backup.Some? && backup.value == path { return false; }
        if backup.Some? {
          var moved := Rename(backup.value, path);
          ok := ok && moved;
        }
    }

    /** Every compensation is tried, newest first; `ok` says that all of them worked.  Whether
        they did or not, what no compensation names stays. */
    method RollBack(undos: seq<Undo<P, C>>, ghost spared: set<P> := {}) returns (ok: bool)
      requires Avoids(undos, spared)
      modifies this
      ensures ok ==> files == UndoAll(old(files), undos)
      ensures (forall u <- undos :: u.MoveBack?) ==> NothingNew(old(files), files)
      ensures forall p <- spared :: Kept(files, old(files), p)
    {
      ok := true;
      var i := |undos|;
      assert undos[..i] == undos;
      while i > 0
        invariant 0 <= i <= |undos|
        invariant ok ==> UndoAll(files, undos[..i]) == UndoAll(old(files), undos)
        invariant (forall u <- undos :: u.MoveBack?) ==> NothingNew(old(files), files)
        invariant forall p <- spared :: Kept(files, old(files), p)
      {
        assert undos[i - 1] in undos;
        i := i - 1;
        assert undos[..i + 1][..i] == undos[..i];
        var done := Compensate(undos[i], spared);
        ok := ok && done;
      }
    }
  }
}
