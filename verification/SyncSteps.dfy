/** What one operation of a sync apply may do to the files, and what a run of them keeps
    (internal/resourcehub/sync.go:231-310, internal/resourcehub/fs.go:265-313). */
module SyncSteps {
  import opened Wrappers
  import opened Saga
  import opened TreeDigest
  import opened ResourceSync
  import Text

  const ROLLBACK := ".agentstack-rollback-"

  function StageOf(destination: Path): Path {
    destination + ".agentstack-link"
  }

  predicate Installs(op: Operation) {
    op.action.Create? || op.action.Update?
  }

  predicate Links(op: Operation, mode: Mode) {
    mode.LinkMode? && Installs(op)
  }

  /** Before a link is made at a staging name, what lies there is removed: a file, a link or
      an empty directory goes, any other directory makes the linking fail. */
  predicate Removable(content: Content) {
    content.Directory? ==> content.entries == map[]
  }

  /** The staging names of the creations and updates that are made by linking. */
  function Scratch(operations: seq<Operation>, mode: Mode): set<Path> {
    set op <- operations | Links(op, mode) :: StageOf(op.destination)
  }

  /** What linking would clear away: whoever applies the plan can look before. */
  function AtRisk(operations: seq<Operation>, mode: Mode, start: map<Path, Content>): set<Path> {
    set p <- Scratch(operations, mode) | p in start && Removable(start[p])
  }

  /** The staging names where something may change: those and the free ones. */
  function Loose(operations: seq<Operation>, mode: Mode, start: map<Path, Content>): set<Path> {
    set p <- Scratch(operations, mode) | p in start ==> Removable(start[p])
  }

  function Linked(files: map<Path, Content>, source: Path, destination: Path): map<Path, Content> {
    (files - {StageOf(destination)})[destination := Symlink(source)]
  }

  predicate IsBackupOf(path: Path, destination: Path) {
    destination + ROLLBACK <= path
  }

  /** No destination or staging name of the plan is a rollback name of a destination. */
  ghost predicate RollbacksFree(operations: seq<Operation>, mode: Mode) {
    forall p, q | p in Destinations(operations) + Scratch(operations, mode) && q in Destinations(operations) ::
      !IsBackupOf(p, q)
  }

  /** What linking may do at its staging name. */
  ghost predicate StageStep(stage: Path, link: Content, before: map<Path, Content>, after: map<Path, Content>) {
    || Kept(after, before, stage)
    || ((stage in before ==> Removable(before[stage])) && (stage in after ==> after[stage] == link))
  }

  lemma StagesDiffer(a: Path, b: Path)
    requires StageOf(a) == StageOf(b)
    ensures a == b
  {
    assert StageOf(a)[..|a|] == a && StageOf(b)[..|b|] == b;
  }

  lemma StageIsNoBackup(d: Path)
    ensures StageOf(d) != d && !IsBackupOf(StageOf(d), d) && !IsBackupOf(d, d)
  {
    assert StageOf(d)[|d| + 12] == 'l' && (d + ROLLBACK)[|d| + 12] == 'r';
    assert |d + ROLLBACK| > |d| && |StageOf(d)| > |d|;
  }

  lemma {:induction false} CompareExtended(a: string, b: string)
    requires b != ""
    ensures Text.Compare(a + b, a) == 1
  {
    if a == "" {
      assert a + b == b;
    } else {
      assert (a + b)[1..] == a[1..] + b;
      CompareExtended(a[1..], b);
    }
  }

  /** In a plan sorted by destination a staging name comes behind the destination, so no
      later operation links by way of an earlier destination. */
  lemma StagesComeLater(operations: seq<Operation>, i: nat, j: nat)
    requires InOrder(operations) && i <= j < |operations|
    ensures StageOf(operations[j].destination) != operations[i].destination
  {
    var d := operations[j].destination;
    CompareExtended(d, ".agentstack-link");
    StageIsNoBackup(d);
  }

  lemma LooseGrows(operations: seq<Operation>, mode: Mode, start: map<Path, Content>, n: nat, m: nat)
    requires n <= m <= |operations|
    ensures Loose(operations[..n], mode, start) <= Loose(operations[..m], mode, start) <= Loose(operations, mode, start)
    ensures Destinations(operations[..n]) <= Destinations(operations[..m]) <= Destinations(operations)
  {
    assert operations[..n] <= operations[..m] <= operations;
    assert forall op <- operations[..n] :: op in operations[..m];
    assert forall op <- operations[..m] :: op in operations;
  }

  lemma LooseNext(operations: seq<Operation>, mode: Mode, start: map<Path, Content>, n: nat)
    requires n < |operations|
    ensures Loose(operations[..n + 1], mode, start) == Loose(operations[..n], mode, start)
      + (set p | p == StageOf(operations[n].destination) && Links(operations[n], mode)
                 && (p in start ==> Removable(start[p])))
    ensures Destinations(operations[..n + 1]) == Destinations(operations[..n]) + {operations[n].destination}
  {
    assert operations[..n + 1] == operations[..n] + [operations[n]];
  }

  /** Copying refuses a symbolic link. */
  type Tree = c: Content | !c.Symlink? witness File("")

  // -------------------------------------------------------------- one operation

  /** What was at the destination is at a backup name that was free, if anything had to go. */
  ghost predicate Moved(op: Operation, before: map<Path, Content>, middle: map<Path, Content>, u: Undo<Path, Content>) {
    && u.MoveBack? && u.path == op.destination && (u.backup.Some? <==> !op.action.Create?)
    && (u.backup.None? ==> middle == before)
    && (u.backup.Some? ==>
          var b := u.backup.value;
          && b !in before && IsBackupOf(b, op.destination) && op.destination in before
          && middle == before[b := before[op.destination]] - {op.destination})
  }

  /** Besides the destination only its staging name, and that only as linking may. */
  ghost predicate Touches(destination: Path, link: Content, mode: Mode, before: map<Path, Content>,
                          after: map<Path, Content>)
  {
    && (forall p | p != destination && !(mode.LinkMode? && p == StageOf(destination)) :: Kept(after, before, p))
    && (mode.LinkMode? ==> StageStep(StageOf(destination), link, before, after))
  }

  /** An operation that set out, whether it came through or not; `made` tells that its link
      was made. */
  ghost predicate Carried(op: Operation, mode: Mode, link: Content, before: map<Path, Content>,
                          middle: map<Path, Content>, after: map<Path, Content>, u: Undo<Path, Content>, made: bool)
  {
    && Moved(op, before, middle, u)
    && (if Installs(op) then Touches(op.destination, link, mode, middle, after) else after == middle && !made)
    && (made ==> mode.LinkMode? && StageOf(op.destination) !in after)
  }

  /** Of what was there one operation changes its destination and what is removable at its
      staging name. */
  ghost predicate Leaves(op: Operation, mode: Mode, before: map<Path, Content>, after: map<Path, Content>) {
    forall p <- before | p != op.destination ::
      || Kept(after, before, p)
      || (Links(op, mode) && p == StageOf(op.destination) && Removable(before[p]))
  }

  lemma CarriedLeaves(op: Operation, mode: Mode, link: Content, before: map<Path, Content>, middle: map<Path, Content>,
                      after: map<Path, Content>, u: Undo<Path, Content>, made: bool)
    requires Carried(op, mode, link, before, middle, after, u, made)
    ensures Leaves(op, mode, before, after)
  {
    forall p <- before | p != op.destination && !Kept(after, before, p)
      ensures Links(op, mode) && p == StageOf(op.destination) && Removable(before[p])
    {
      assert Kept(middle, before, p);
      assert Kept(after, middle, p) || (Links(op, mode) && p == StageOf(op.destination));
    }
  }

  /** The operation finds its destination free or as reviewed, unless linking came by, and its
      staging name loose or occupied for good. */
  ghost predicate Fits(op: Operation, mode: Mode, loose: set<Path>, files: map<Path, Content>) {
    && (op.action.Create? ==> op.destination !in files || op.destination in loose)
    && (Links(op, mode) ==>
          var stage := StageOf(op.destination);
          stage in loose || (stage in files && !Removable(files[stage])))
    && forall p <- loose :: !IsBackupOf(p, op.destination)
  }

  /** What an operation may do to the files, and what its undo takes back. */
  ghost predicate StepFrame(op: Operation, mode: Mode, loose: set<Path>, link: Content,
                            before: map<Path, Content>, after: map<Path, Content>, u: Undo<Path, Content>, made: bool)
  {
    var stage := StageOf(op.destination);
    && u.MoveBack? && u.path == op.destination && (u.backup.Some? <==> !op.action.Create?) && BackupsAvoid([u], loose)
    && SameExcept(UndoOne(after, u), before, {stage, op.destination} * loose)
    && (u.backup.Some? ==>
          && op.destination in before && IsBackupOf(u.backup.value, op.destination)
          && u.backup.value !in before && u.backup.value in after && after[u.backup.value] == before[op.destination])
    && (forall p | p != op.destination && p != stage && Some(p) != u.backup :: Kept(after, before, p))
    && (Kept(after, before, stage) || (Links(op, mode) && stage in loose && StageStep(stage, link, before, after)))
    && (made ==> Links(op, mode) && stage in loose && stage !in after)
  }

  lemma CarriedFrame(op: Operation, mode: Mode, loose: set<Path>, link: Content, before: map<Path, Content>,
                     middle: map<Path, Content>, after: map<Path, Content>, u: Undo<Path, Content>, made: bool)
    requires Carried(op, mode, link, before, middle, after, u, made) && Fits(op, mode, loose, before)
    ensures StepFrame(op, mode, loose, link, before, after, u, made)
  {
    var d, stage := op.destination, StageOf(op.destination);
    StageIsNoBackup(d);
    assert BackupsAvoid([u], loose);
    assert Kept(middle, before, stage);
    assert !(Links(op, mode) && stage in loose) ==> Kept(after, middle, stage);
    assert !(Links(op, mode) && stage in loose) ==> Kept(after, before, stage);
    assert u.backup.Some? ==> Kept(after, middle, u.backup.value);
    forall p | p != d && p != stage && Some(p) != u.backup ensures Kept(after, before, p) {
      assert Kept(after, middle, p) && Kept(middle, before, p);
    }
    forall p | p !in {stage, d} * loose ensures Kept(UndoOne(after, u), before, p) {
      assert p != d && p != stage && Some(p) != u.backup ==> Kept(after, before, p);
    }
  }

  // ---------------------------------------------------------- a run of operations

  ghost predicate SetsAside(undos: seq<Undo<Path, Content>>, path: Path) {
    exists u <- undos :: u.MoveBack? && u.backup.Some? && u.path == path
  }

  ghost predicate LeftLink(operations: seq<Operation>, mode: Mode, sourcePath: Id -> Path, path: Path,
                           content: Content)
  {
    exists op <- operations ::
      Links(op, mode) && path == StageOf(op.destination) && content == Symlink(sourcePath(op.resourceId))
  }

  /** How far a run of operations has come: `files` and `entries'` are what `start` and
      `entries` became after `done`, with `undos` to take it all back.  The first `tried`
      operations set out, and by way of the staging names `made` a link was made. */
  datatype Progress = Progress(
    mode: Mode, all: seq<Operation>, done: nat, tried: nat, made: set<Path>,
    start: map<Path, Content>, files: map<Path, Content>,
    entries: map<Path, Managed>, entries': map<Path, Managed>,
    undos: seq<Undo<Path, Content>>,
    sourcePath: Id -> Path,
    digestOf: (Path, Content) -> Option<Digest>,
    suits: (Id, Content) -> bool)
  {
    /** The staging names that may have changed. */
    ghost function Stirred(): set<Path>
      requires tried <= |all|
    {
      Loose(all[..tried], mode, start)
    }

    function LinkOf(op: Operation): Content {
      Symlink(sourcePath(op.resourceId))
    }

    /** Undoing restores all but what lay at risk where linking was tried. */
    ghost predicate Undoable()
      requires tried <= |all|
    {
      SameExcept(UndoAll(files, undos), start, Stirred()) && BackupsAvoid(undos, Loose(all, mode, start))
    }

    /** And leaves, where there was nothing, at most a link at its staging name. */
    ghost predicate Tidy()
      requires tried <= |all|
    {
      var back := UndoAll(files, undos);
      forall p <- Stirred() | p !in start && p in back :: LeftLink(all, mode, sourcePath, p, back[p])
    }

    /** Where a link was made nothing is left that was there, and nothing brings it back. */
    ghost predicate Cleared()
      requires tried <= |all|
    {
      && made <= Stirred()
      && (forall p <- made :: p !in files || (p !in start && p in Destinations(all[..tried])))
      && forall p <- made | p in start :: Avoids(undos, {p})
    }

    /** Every overwritten or removed tree is still there, under a name that was free, unless
        linking had come by before. */
    ghost predicate BackedUp()
      requires tried <= |all|
    {
      forall u <- undos ::
        && u.MoveBack? && u.path in Destinations(all[..tried])
        && (u.backup.Some? ==>
              IsBackupOf(u.backup.value, u.path) && u.backup.value !in start && u.backup.value in files)
        && (u.backup.Some? && u.path !in Stirred() ==> u.path in start && files[u.backup.value] == start[u.path])
    }

    /** What a run keeps, whether or not its last operation came through. */
    ghost predicate Retractable()
      requires tried <= |all|
    {
      Undoable() && Tidy() && Cleared() && BackedUp()
    }

    ghost predicate Confined()
      requires done <= |all|
    {
      && (forall p | p !in Destinations(all[..done]) + Loose(all[..done], mode, start) + BackupsOf(undos) ::
            Kept(files, start, p))
      && EntriesConfined()
    }

    ghost predicate EntriesConfined()
      requires done <= |all|
    {
      forall p | p !in Destinations(all[..done]) :: Kept(entries', entries, p)
    }

    ghost predicate AllAchieved()
      requires done <= |all|
    {
      forall i | 0 <= i < done :: Achieved(all[i])
    }

    ghost predicate Matched()
      requires done <= |all|
    {
      forall i | 0 <= i < done :: all[i].action.Update? || all[i].action.Remove? ==>
        SetsAside(undos, all[i].destination)
    }

    ghost predicate Achieved(op: Operation) {
      match op.action
      case Create => Installed(op)
      case Update => Installed(op)
      case Remove => op.destination !in files && op.destination !in entries'
      case _ =>
        && (op.destination !in Loose(all, mode, start) ==> Kept(files, start, op.destination))
        && Kept(entries', entries, op.destination)
    }

    ghost predicate Installed(op: Operation) {
      && op.destination in files && op.destination in entries' && suits(op.resourceId, files[op.destination])
      && digestOf(op.destination, files[op.destination]) == Some(entries'[op.destination].digest)
      && entries'[op.destination].resourceId == op.resourceId
      && (mode.CopyMode? ==> entries'[op.destination].digest == op.desired)
      && (mode.LinkMode? && files[op.destination].Symlink? ==> StageOf(op.destination) in made)
    }

    ghost predicate Good() {
      done == tried <= |all| && Retractable() && Confined() && Matched() && AllAchieved()
    }

    /** The plan is sorted, its destinations are distinct and no name is a rollback name. */
    ghost predicate Lined() {
      DistinctDestinations(all) && InOrder(all) && RollbacksFree(all, mode)
    }

    /** The next operation set out. */
    ghost predicate Stepped(next: Progress, u: Undo<Path, Content>, linked: bool)
      requires done < |all|
    {
      && StepFrame(all[done], mode, Loose(all, mode, start), LinkOf(all[done]), files, next.files, u, linked)
      && (all[done].action.Create? ==> all[done].destination !in start)
    }

    /** The same with what the next operation did. */
    ghost function After(files': map<Path, Content>, u: Undo<Path, Content>, linked: bool): Progress
      requires done < |all|
    {
      this.(tried := done + 1, files := files', undos := undos + [u],
            made := if linked then made + {StageOf(all[done].destination)} else made)
    }
  }

  // ----------------------------------------------------- what comes next is untouched

  lemma NextPlaces(g: Progress)
    requires g.done < |g.all| && g.Good() && g.Lined()
    ensures var d := g.all[g.done].destination;
      && d !in Destinations(g.all[..g.done]) && d !in BackupsOf(g.undos) && StageOf(d) !in Destinations(g.all[..g.done])
      && (d in Loose(g.all, g.mode, g.start) ==> d in g.Stirred())
      && (d !in g.Stirred() ==> Kept(g.files, g.start, d))
      && (Links(g.all[g.done], g.mode) ==>
            StageOf(d) !in g.Stirred() && StageOf(d) !in BackupsOf(g.undos) && Kept(g.files, g.start, StageOf(d)))
  {
    var op := g.all[g.done];
    var d := op.destination;
    assert d in Destinations(g.all);
    assert Links(op, g.mode) ==> StageOf(d) in Scratch(g.all, g.mode);
    forall i | 0 <= i < g.done
      ensures g.all[i].destination != d && StageOf(d) != g.all[i].destination
      ensures StageOf(g.all[i].destination) != StageOf(d)
    {
      StagesComeLater(g.all, i, g.done);
      if StageOf(g.all[i].destination) == StageOf(d) { StagesDiffer(g.all[i].destination, d); }
    }
    forall i | g.done <= i < |g.all| ensures StageOf(g.all[i].destination) != d { StagesComeLater(g.all, g.done, i); }
    assert d in Loose(g.all, g.mode, g.start) ==> d in g.Stirred() by { LaterStageIsEarlier(g, d); }
    LooseGrows(g.all, g.mode, g.start, g.done, |g.all|);
    assert g.all[..|g.all|] == g.all;
  }

  lemma LaterStageIsEarlier(g: Progress, d: Path)
    requires g.done <= |g.all| && forall i | g.done <= i < |g.all| :: StageOf(g.all[i].destination) != d
    ensures d in Loose(g.all, g.mode, g.start) ==> d in Loose(g.all[..g.done], g.mode, g.start)
  {
    if d in Loose(g.all, g.mode, g.start) {
      var op :| op in g.all && Links(op, g.mode) && StageOf(op.destination) == d;
      var i :| 0 <= i < |g.all| && g.all[i] == op;
      assert g.all[..g.done][i] == op;
    }
  }

  // -------------------------------------------------------------- one step further

  lemma StirredNext(g: Progress, files': map<Path, Content>, u: Undo<Path, Content>, linked: bool)
    requires g.done < |g.all| && g.Good()
    ensures var d := g.all[g.done].destination; var next := g.After(files', u, linked);
      && g.Stirred() <= next.Stirred() <= Loose(g.all, g.mode, g.start)
      && next.Stirred() <= g.Stirred() + {StageOf(d)}
      && (StageOf(d) in Loose(g.all, g.mode, g.start) && Links(g.all[g.done], g.mode) ==> StageOf(d) in next.Stirred())
      && (d in next.Stirred() <==> d in g.Stirred())
      && Destinations(g.all[..g.done + 1]) == Destinations(g.all[..g.done]) + {d}
  {
    LooseNext(g.all, g.mode, g.start, g.done);
    LooseGrows(g.all, g.mode, g.start, g.done, g.done + 1);
    StageIsNoBackup(g.all[g.done].destination);
  }

  lemma ExtendUndoable(g: Progress, next: Progress, files': map<Path, Content>, u: Undo<Path, Content>, linked: bool)
    requires g.done < |g.all| && g.Good() && g.Lined() && next == g.After(files', u, linked)
    requires g.Stepped(next, u, linked)
    ensures next.Undoable()
  {
    var d := g.all[g.done].destination;
    NextPlaces(g);
    StirredNext(g, files', u, linked);
    assert {StageOf(d), d} * Loose(g.all, g.mode, g.start) <= next.Stirred() by {
      StageStaysLoose(g, files', u, linked);
    }
    SagaStep(g.start, g.files, files', g.undos, u, next.Stirred());
  }

  /** Each staging name belongs to one operation. */
  lemma UnlinkedStage(g: Progress)
    requires g.done < |g.all| && g.Lined() && !Links(g.all[g.done], g.mode)
    ensures StageOf(g.all[g.done].destination) !in Loose(g.all, g.mode, g.start)
  {
    var d := g.all[g.done].destination;
    if StageOf(d) in Loose(g.all, g.mode, g.start) {
      var op :| op in g.all && Links(op, g.mode) && StageOf(op.destination) == StageOf(d);
      StagesDiffer(op.destination, d);
    }
  }

  lemma StageStaysLoose(g: Progress, files': map<Path, Content>, u: Undo<Path, Content>, linked: bool)
    requires g.done < |g.all| && g.Good() && g.Lined()
    ensures var d := g.all[g.done].destination;
      StageOf(d) in Loose(g.all, g.mode, g.start) ==> StageOf(d) in g.After(files', u, linked).Stirred()
  {
    StirredNext(g, files', u, linked);
    if !Links(g.all[g.done], g.mode) { UnlinkedStage(g); }
  }

  /** Undoing the step first, and then the rest, differs from undoing the rest at most at the
      staging name and, where linking came by before, at the destination. */
  lemma UndoneStep(g: Progress, next: Progress, files': map<Path, Content>, u: Undo<Path, Content>, linked: bool)
    requires g.done < |g.all| && g.Good() && g.Lined() && next == g.After(files', u, linked)
    requires g.Stepped(next, u, linked)
    ensures UndoAll(files', next.undos) == UndoAll(UndoOne(files', u), g.undos)
    ensures var d := g.all[g.done].destination;
      SameExcept(UndoAll(files', next.undos), UndoAll(g.files, g.undos),
                 {StageOf(d), d} * Loose(g.all, g.mode, g.start))
  {
    assert next.undos[..|g.undos|] == g.undos;
    var d := g.all[g.done].destination;
    UndoAllRespects(UndoOne(files', u), g.files, g.undos, {StageOf(d), d} * Loose(g.all, g.mode, g.start));
  }

  lemma NextIsAvoided(g: Progress)
    requires g.done < |g.all| && g.Good() && g.Lined()
    ensures var d := g.all[g.done].destination;
      Avoids(g.undos, {d}) && (Links(g.all[g.done], g.mode) ==> Avoids(g.undos, {StageOf(d)}))
  {
    NextPlaces(g);
  }

  lemma TidyAtDestination(g: Progress, next: Progress, files': map<Path, Content>, u: Undo<Path, Content>, linked: bool)
    requires g.done < |g.all| && g.Good() && g.Lined() && next == g.After(files', u, linked)
    requires g.Stepped(next, u, linked)
    ensures var d := g.all[g.done].destination;
      var back, before := UndoAll(files', next.undos), UndoAll(g.files, g.undos);
      d in back && d !in g.start ==> Kept(back, before, d)
  {
    var d := g.all[g.done].destination;
    UndoneStep(g, next, files', u, linked);
    NextIsAvoided(g);
    UndoAllKeeps(UndoOne(files', u), g.undos, d);
    UndoAllKeeps(g.files, g.undos, d);
  }

  lemma TidyAtStage(g: Progress, next: Progress, files': map<Path, Content>, u: Undo<Path, Content>, linked: bool)
    requires g.done < |g.all| && g.Good() && g.Lined() && next == g.After(files', u, linked)
    requires g.Stepped(next, u, linked)
    requires Links(g.all[g.done], g.mode)
    ensures var stage := StageOf(g.all[g.done].destination);
      var back := UndoAll(files', next.undos);
      stage in back && stage !in g.start ==> LeftLink(g.all, g.mode, g.sourcePath, stage, back[stage])
  {
    var d := g.all[g.done].destination;
    UndoneStep(g, next, files', u, linked);
    NextPlaces(g);
    NextIsAvoided(g);
    StageIsNoBackup(d);
    UndoAllKeeps(UndoOne(files', u), g.undos, StageOf(d));
  }

  lemma ExtendTidy(g: Progress, next: Progress, files': map<Path, Content>, u: Undo<Path, Content>, linked: bool)
    requires g.done < |g.all| && g.Good() && g.Lined() && next == g.After(files', u, linked)
    requires g.Stepped(next, u, linked)
    ensures next.Tidy()
  {
    var d := g.all[g.done].destination;
    var back, before := UndoAll(files', next.undos), UndoAll(g.files, g.undos);
    StirredNext(g, files', u, linked);
    UndoneStep(g, next, files', u, linked);
    TidyAtDestination(g, next, files', u, linked);
    if Links(g.all[g.done], g.mode) { TidyAtStage(g, next, files', u, linked); } else { UnlinkedStage(g); }
    TidyElsewhere(g, next.Stirred(), before, back, StageOf(d), d);
  }

  lemma TidyElsewhere(g: Progress, stirred: set<Path>, before: map<Path, Content>, back: map<Path, Content>,
                      stage: Path, d: Path)
    requires g.tried <= |g.all| && stirred <= g.Stirred() + {stage} && stirred <= Loose(g.all, g.mode, g.start)
    requires forall p <- g.Stirred() | p !in g.start && p in before ::
      LeftLink(g.all, g.mode, g.sourcePath, p, before[p])
    requires SameExcept(back, before, {stage, d} * Loose(g.all, g.mode, g.start))
    requires d in back && d !in g.start ==> Kept(back, before, d)
    requires stage in Loose(g.all, g.mode, g.start) && stage in back && stage !in g.start ==>
      LeftLink(g.all, g.mode, g.sourcePath, stage, back[stage])
    ensures forall p <- stirred | p !in g.start && p in back :: LeftLink(g.all, g.mode, g.sourcePath, p, back[p])
  {
    forall p <- stirred | p !in g.start && p in back && p != stage ensures Kept(back, before, p) {
    }
  }

  lemma ExtendBackedUp(g: Progress, next: Progress, files': map<Path, Content>, u: Undo<Path, Content>, linked: bool)
    requires g.done < |g.all| && g.Good() && g.Lined() && next == g.After(files', u, linked)
    requires g.Stepped(next, u, linked)
    ensures next.BackedUp()
  {
    var op := g.all[g.done];
    var d := op.destination;
    NextPlaces(g);
    StirredNext(g, files', u, linked);
    assert d in Destinations(g.all);
    LooseGrows(g.all, g.mode, g.start, g.done, g.done + 1);
    assert g.all[..|g.all|] == g.all;
    forall v <- g.undos | v.backup.Some? ensures Kept(files', g.files, v.backup.value) {
      OldBackupStays(g, next, files', u, linked, v);
    }
    if u.backup.Some? { NewBackupIsFree(g, u); }
  }

  lemma OldBackupStays(g: Progress, next: Progress, files': map<Path, Content>, u: Undo<Path, Content>, linked: bool,
                       v: Undo<Path, Content>)
    requires g.done < |g.all| && g.Good() && g.Lined() && next == g.After(files', u, linked)
    requires g.Stepped(next, u, linked)
    requires v in g.undos && v.backup.Some?
    ensures Kept(files', g.files, v.backup.value)
  {
    var d := g.all[g.done].destination;
    assert d in Destinations(g.all) && v.path in Destinations(g.all) by {
      LooseGrows(g.all, g.mode, g.start, g.done, g.done);
    }
    NextPlaces(g);
    if Links(g.all[g.done], g.mode) { assert StageOf(d) in Scratch(g.all, g.mode); }
  }

  lemma NewBackupIsFree(g: Progress, u: Undo<Path, Content>)
    requires g.done < |g.all| && g.Good() && g.Lined() && u.MoveBack? && u.backup.Some?
    requires IsBackupOf(u.backup.value, g.all[g.done].destination) && u.backup.value !in g.files
    ensures u.backup.value !in g.start
  {
    var b := u.backup.value;
    assert g.all[g.done].destination in Destinations(g.all);
    LooseGrows(g.all, g.mode, g.start, g.done, |g.all|);
    assert g.all[..|g.all|] == g.all;
    assert b !in Destinations(g.all[..g.done]) && b !in g.Stirred();
    assert b !in BackupsOf(g.undos);
    assert Kept(g.files, g.start, b);
  }

  /** What a link cleared away before this step stays away. */
  lemma OldLinkStays(g: Progress, files': map<Path, Content>, u: Undo<Path, Content>, linked: bool, p: Path)
    requires g.done < |g.all| && g.Stepped(g.(files := files'), u, linked)
    requires p in Loose(g.all, g.mode, g.start) && !IsBackupOf(p, g.all[g.done].destination)
    requires Links(g.all[g.done], g.mode) ==> p != StageOf(g.all[g.done].destination)
    requires p !in g.files || (p !in g.start && p in Destinations(g.all[..g.done]))
    ensures p !in files' || (p !in g.start && p in Destinations(g.all[..g.done]) + {g.all[g.done].destination})
    ensures p in g.start ==> Avoids([u], {p})
  {
    if p != g.all[g.done].destination { assert Kept(files', g.files, p); }
  }

  lemma OldLinkElsewhere(g: Progress, p: Path)
    requires g.done < |g.all| && g.Good() && g.Lined() && p in g.made
    ensures p in Scratch(g.all, g.mode) && p in Loose(g.all, g.mode, g.start)
    ensures Links(g.all[g.done], g.mode) ==> p != StageOf(g.all[g.done].destination)
    ensures !IsBackupOf(p, g.all[g.done].destination)
  {
    NextPlaces(g);
    LooseGrows(g.all, g.mode, g.start, g.done, |g.all|);
    assert g.all[..|g.all|] == g.all;
    assert g.all[g.done].destination in Destinations(g.all);
  }

  lemma NewLinkClears(g: Progress, next: Progress, files': map<Path, Content>, u: Undo<Path, Content>)
    requires g.done < |g.all| && g.Good() && g.Lined() && next == g.After(files', u, true) && g.Stepped(next, u, true)
    ensures var stage := StageOf(g.all[g.done].destination);
      stage in next.Stirred() && stage !in files' && Avoids(next.undos, {stage})
  {
    var d := g.all[g.done].destination;
    StageStaysLoose(g, files', u, true);
    NextIsAvoided(g);
    StageIsNoBackup(d);
  }

  lemma ExtendCleared(g: Progress, next: Progress, files': map<Path, Content>, u: Undo<Path, Content>, linked: bool)
    requires g.done < |g.all| && g.Good() && g.Lined() && next == g.After(files', u, linked)
    requires g.Stepped(next, u, linked)
    ensures next.Cleared()
  {
    StirredNext(g, files', u, linked);
    forall p <- next.made
      ensures p in next.Stirred() && (p !in files' || (p !in g.start && p in Destinations(g.all[..g.done + 1])))
      ensures p in g.start ==> Avoids(next.undos, {p})
    {
      if p in g.made {
        OldLinkElsewhere(g, p);
        OldLinkStays(g, files', u, linked, p);
      } else {
        NewLinkClears(g, next, files', u);
      }
    }
  }

  lemma Retracts(g: Progress, next: Progress, files': map<Path, Content>, u: Undo<Path, Content>, linked: bool)
    requires g.done < |g.all| && g.Good() && g.Lined() && next == g.After(files', u, linked)
    requires g.Stepped(next, u, linked)
    ensures next.Retractable()
  {
    ExtendUndoable(g, next, files', u, linked);
    ExtendTidy(g, next, files', u, linked);
    ExtendCleared(g, next, files', u, linked);
    ExtendBackedUp(g, next, files', u, linked);
  }

  lemma ExtendConfined(g: Progress, next: Progress, files': map<Path, Content>, u: Undo<Path, Content>, linked: bool,
                       entries: map<Path, Managed>)
    requires g.done < |g.all| && g.Good() && g.Lined() && next == g.After(files', u, linked)
    requires g.Stepped(next, u, linked)
    requires forall p | p != g.all[g.done].destination :: Kept(entries, g.entries', p)
    ensures next.(done := g.done + 1, entries' := entries).Confined()
  {
    var d := g.all[g.done].destination;
    StirredNext(g, files', u, linked);
    assert u in next.undos && forall v <- g.undos :: v in next.undos;
    forall p | p !in Destinations(g.all[..g.done + 1]) + next.Stirred() + BackupsOf(next.undos)
      ensures Kept(files', g.start, p)
    {
      assert p !in BackupsOf(g.undos) && Some(p) != u.backup;
      assert Kept(g.files, g.start, p);
      assert Kept(files', g.files, p) by { OffTheStep(g, next, files', u, linked, p); }
    }
    assert next.(done := g.done + 1, entries' := entries).EntriesConfined() by {
      forall p | p !in Destinations(g.all[..g.done + 1]) ensures Kept(entries, g.entries, p) {
        assert Kept(entries, g.entries', p) && Kept(g.entries', g.entries, p);
      }
    }
  }

  lemma OffTheStep(g: Progress, next: Progress, files': map<Path, Content>, u: Undo<Path, Content>, linked: bool,
                   p: Path)
    requires g.done < |g.all| && g.Good() && g.Lined() && next == g.After(files', u, linked)
    requires g.Stepped(next, u, linked)
    requires p != g.all[g.done].destination && p !in next.Stirred() && Some(p) != u.backup
    ensures Kept(files', g.files, p)
  {
    if p == StageOf(g.all[g.done].destination) { StageStaysLoose(g, files', u, linked); }
  }

  lemma EarlierStaysAchieved(g: Progress, g1: Progress, u: Undo<Path, Content>, linked: bool, i: nat)
    requires i < g.done < |g.all| && g.Lined() && g.Stepped(g1, u, linked) && g.Achieved(g.all[i])
    requires g1.all == g.all && g1.mode == g.mode && g1.start == g.start && g1.entries == g.entries && g.made <= g1.made
    requires g1.digestOf == g.digestOf && g1.suits == g.suits
    requires forall p | p != g.all[g.done].destination :: Kept(g1.entries', g.entries', p)
    ensures g1.Achieved(g.all[i])
  {
    var d := g.all[i].destination;
    StagesComeLater(g.all, i, g.done);
    assert d in Destinations(g.all) && g.all[g.done].destination in Destinations(g.all);
    assert Kept(g1.files, g.files, d);
    assert Kept(g1.entries', g.entries', d);
  }

  lemma ExtendMatched(g: Progress, next: Progress, files': map<Path, Content>, u: Undo<Path, Content>, linked: bool)
    requires g.done < |g.all| && g.Good() && next == g.After(files', u, linked) && g.Stepped(next, u, linked)
    ensures next.(done := g.done + 1).Matched()
  {
    assert u in next.undos && forall v <- g.undos :: v in next.undos;
    forall i | 0 <= i < g.done + 1 && (g.all[i].action.Update? || g.all[i].action.Remove?)
      ensures SetsAside(next.undos, g.all[i].destination)
    {
      assert i < g.done ==> SetsAside(g.undos, g.all[i].destination);
    }
  }

  lemma AllStaysAchieved(g: Progress, g1: Progress, u: Undo<Path, Content>, linked: bool)
    requires g.done < |g.all| && g.Lined() && g.Stepped(g1, u, linked) && g.AllAchieved()
    requires g1.all == g.all && g1.mode == g.mode && g1.start == g.start && g1.entries == g.entries && g.made <= g1.made
    requires g1.digestOf == g.digestOf && g1.suits == g.suits
    requires forall p | p != g.all[g.done].destination :: Kept(g1.entries', g.entries', p)
    requires g1.done == g.done + 1 && g1.Achieved(g.all[g.done])
    ensures g1.AllAchieved()
  {
    forall i | 0 <= i < g1.done ensures g1.Achieved(g.all[i]) {
      if i < g.done { EarlierStaysAchieved(g, g1, u, linked, i); }
    }
  }

  lemma RetractsStill(g: Progress, next: Progress, files': map<Path, Content>, u: Undo<Path, Content>, linked: bool,
                      entries: map<Path, Managed>, g1: Progress)
    requires g.done < |g.all| && g.Good() && g.Lined() && next == g.After(files', u, linked)
    requires g.Stepped(next, u, linked)
    requires g1 == next.(done := g.done + 1, entries' := entries)
    ensures g1.Retractable() && g1.Matched()
  {
    Retracts(g, next, files', u, linked);
    RetractableIgnores(next, g1);
    ExtendMatched(g, next, files', u, linked);
  }

  /** One operation that did what it should extends a good run. */
  lemma StepExtends(g: Progress, next: Progress, files': map<Path, Content>, u: Undo<Path, Content>, linked: bool,
                    entries: map<Path, Managed>)
    requires g.done < |g.all| && g.Good() && g.Lined() && next == g.After(files', u, linked)
    requires g.Stepped(next, u, linked)
    requires forall p | p != g.all[g.done].destination :: Kept(entries, g.entries', p)
    requires next.(done := g.done + 1, entries' := entries).Achieved(g.all[g.done])
    ensures next.(done := g.done + 1, entries' := entries).Good()
  {
    var g1 := next.(done := g.done + 1, entries' := entries);
    RetractsStill(g, next, files', u, linked, entries, g1);
    ExtendConfined(g, next, files', u, linked, entries);
    AllStaysAchieved(g, g1, u, linked);
  }

  lemma RetractableIgnores(g: Progress, g': Progress)
    requires g.tried <= |g.all| && g.Retractable() && g' == g.(done := g'.done, entries' := g'.entries')
    ensures g'.Retractable()
  {
  }

  lemma SkipStirsNothing(g: Progress)
    requires g.done == g.tried < |g.all| && g.all[g.done].action.Noop?
    ensures g.(tried := g.done + 1).Stirred() == g.Stirred()
    ensures Destinations(g.all[..g.done]) <= Destinations(g.all[..g.done + 1])
  {
    LooseNext(g.all, g.mode, g.start, g.done);
  }

  lemma SkipRetracts(g: Progress, g1: Progress)
    requires g.done == g.tried < |g.all| && g.all[g.done].action.Noop? && g.Retractable()
    requires g1 == g.(done := g.done + 1, tried := g.done + 1)
    ensures g1.Retractable()
  {
    SkipStirsNothing(g);
    assert g1.Stirred() == g.Stirred();
  }

  lemma SkipStaysAchieved(g: Progress, g1: Progress)
    requires g.done == g.tried < |g.all| && g.all[g.done].action.Noop? && g.AllAchieved()
    requires g1 == g.(done := g.done + 1, tried := g.done + 1) && g1.Achieved(g.all[g.done])
    ensures g1.AllAchieved()
  {
    forall i | 0 <= i < g1.done ensures g1.Achieved(g.all[i]) {
      if i < g.done { assert g.Achieved(g.all[i]); }
    }
  }

  /** A skipped operation extends a good run as well. */
  lemma SkipExtends(g: Progress)
    requires g.done < |g.all| && g.Good() && g.Lined() && g.all[g.done].action.Noop?
    ensures g.(done := g.done + 1, tried := g.done + 1).Good()
  {
    var g1 := g.(done := g.done + 1, tried := g.done + 1);
    SkipRetracts(g, g1);
    SkipStaysConfined(g, g1);
    SkipAchieves(g, g1);
    SkipStaysAchieved(g, g1);
  }

  lemma SkipStaysConfined(g: Progress, g1: Progress)
    requires g.done == g.tried < |g.all| && g.all[g.done].action.Noop? && g.Confined() && g.Matched()
    requires g1 == g.(done := g.done + 1, tried := g.done + 1)
    ensures g1.Confined() && g1.Matched()
  {
    SkipStirsNothing(g);
    assert Loose(g.all[..g.done + 1], g.mode, g.start) == Loose(g.all[..g.done], g.mode, g.start);
  }

  lemma SkipAchieves(g: Progress, g1: Progress)
    requires g.done < |g.all| && g.Good() && g.Lined() && g.all[g.done].action.Noop?
    requires g1 == g.(done := g.done + 1, tried := g.done + 1)
    ensures g1.Achieved(g.all[g.done])
  {
    NextPlaces(g);
  }

  lemma NothingDone(g: Progress)
    requires g.done == g.tried == 0 && g.made == {} && g.undos == [] && g.files == g.start && g.entries' == g.entries
    ensures g.Good()
  {
    assert g.all[..0] == [];
  }

  // --------------------------------------------------------------- how it may end

  /** The staging names by way of which linking was tried, and those where it came through. */
  datatype Trace = Trace(tried: set<Path>, made: set<Path>)

  /** Off the changed paths all that was there and not at risk is as it was, and all that is
      new is a link left at its staging name. */
  ghost predicate Settled(operations: seq<Operation>, mode: Mode, sourcePath: Id -> Path, risk: set<Path>,
                          start: map<Path, Content>, files: map<Path, Content>, changed: set<Path>)
  {
    && (forall p <- start | p !in changed && p !in risk :: Kept(files, start, p))
    && (forall p <- files | p !in start && p !in changed :: LeftLink(operations, mode, sourcePath, p, files[p]))
  }

  /** What a link that was made found at its staging name was at risk, and is gone. */
  ghost predicate Honest(operations: seq<Operation>, mode: Mode, trace: Trace, start: map<Path, Content>,
                         files: map<Path, Content>)
  {
    && trace.made <= trace.tried <= Scratch(operations, mode)
    && forall p <- trace.made | p in start :: p !in files && p in AtRisk(operations, mode, start)
  }

  ghost predicate KeptAside(start: map<Path, Content>, files: map<Path, Content>, path: Path, backups: seq<Path>) {
    path in start && exists b <- backups :: b in files && files[b] == start[path]
  }

  /** The files and the managed entries changed as the reviewed operations say and nowhere
      else, and every tree that had to go is at a backup name that was free before; but for
      what was at risk. */
  ghost predicate Fulfilled(operations: seq<Operation>, mode: Mode, sourcePath: Id -> Path,
                            digestOf: (Path, Content) -> Option<Digest>, suits: (Id, Content) -> bool, made: set<Path>,
                            start: map<Path, Content>, files: map<Path, Content>,
                            entries: map<Path, Managed>, entries': map<Path, Managed>, backups: seq<Path>)
  {
    var risk := AtRisk(operations, mode, start);
    var n := |operations|;
    var g := Progress(mode, operations, n, n, made, start, files, entries, entries', [], sourcePath, digestOf, suits);
    && (forall op <- operations :: g.Achieved(op))
    && (forall p | p !in Destinations(operations) :: Kept(entries', entries, p))
    && Settled(operations, mode, sourcePath, risk, start, files, Destinations(operations) + set b <- backups)
    && (forall b <- backups :: b !in start && b in files)
    && forall op <- operations | (op.action.Update? || op.action.Remove?) && op.destination !in risk ::
      KeptAside(start, files, op.destination, backups) || op.destination in Scratch(operations, mode) - start.Keys
  }

  lemma StirredIsAtRisk(g: Progress, p: Path)
    requires g.tried <= |g.all| && p in g.Stirred()
    ensures p in Scratch(g.all[..g.tried], g.mode) && p in Scratch(g.all, g.mode)
    ensures p in g.start ==> p in AtRisk(g.all, g.mode, g.start)
  {
    LooseGrows(g.all, g.mode, g.start, g.tried, |g.all|);
    assert g.all[..|g.all|] == g.all;
  }

  lemma RolledBackIsSettled(g: Progress, files: map<Path, Content>)
    requires g.tried <= |g.all| && g.Undoable() && g.Tidy() && files == UndoAll(g.files, g.undos)
    ensures var risk := AtRisk(g.all, g.mode, g.start) * Scratch(g.all[..g.tried], g.mode);
      Settled(g.all, g.mode, g.sourcePath, risk, g.start, files, {})
  {
    forall p <- g.Stirred() { StirredIsAtRisk(g, p); }
  }

  lemma TraceIsHonest(g: Progress, files: map<Path, Content>)
    requires g.tried <= |g.all| && g.Cleared()
    requires files == g.files || files == UndoAll(g.files, g.undos)
    ensures Honest(g.all, g.mode, Trace(Scratch(g.all[..g.tried], g.mode), g.made), g.start, files)
  {
    forall p <- g.made ensures p in Scratch(g.all[..g.tried], g.mode) {
      StirredIsAtRisk(g, p);
    }
    forall p <- g.made | p in g.start ensures p !in files && p in AtRisk(g.all, g.mode, g.start) {
      StirredIsAtRisk(g, p);
      UndoAllKeeps(g.files, g.undos, p);
    }
    assert forall op <- g.all[..g.tried] :: op in g.all;
  }

  lemma GoodIsSettled(g: Progress)
    requires g.done == |g.all| && g.Good()
    ensures Settled(g.all, g.mode, g.sourcePath, AtRisk(g.all, g.mode, g.start), g.start, g.files,
                    Destinations(g.all) + set b <- BackupList(g.undos))
  {
    assert g.all[..g.done] == g.all;
    var changed := Destinations(g.all) + set b <- BackupList(g.undos);
    forall p <- g.start.Keys + g.files.Keys | p !in changed && !Kept(g.files, g.start, p)
      ensures p in AtRisk(g.all, g.mode, g.start) ||
        (p !in g.start && LeftLink(g.all, g.mode, g.sourcePath, p, g.files[p]))
    {
      assert p in g.Stirred();
      StirredIsAtRisk(g, p);
      assert Avoids(g.undos, {p});
      UndoAllKeeps(g.files, g.undos, p);
    }
  }

  lemma GoodKeepsAside(g: Progress, op: Operation)
    requires g.done == |g.all| && g.Good() && op in g.all && (op.action.Update? || op.action.Remove?)
    requires op.destination !in AtRisk(g.all, g.mode, g.start)
    ensures KeptAside(g.start, g.files, op.destination, BackupList(g.undos))
      || op.destination in Scratch(g.all, g.mode) - g.start.Keys
  {
    var i :| 0 <= i < |g.all| && g.all[i] == op;
    assert SetsAside(g.undos, g.all[i].destination);
    var u :| u in g.undos && u.MoveBack? && u.backup.Some? && u.path == op.destination;
    assert u.backup.value in BackupList(g.undos);
    if op.destination in g.Stirred() { StirredIsAtRisk(g, op.destination); }
  }

  lemma GoodMeansFulfilled(g: Progress)
    requires g.done == |g.all| && g.Good()
    ensures Fulfilled(g.all, g.mode, g.sourcePath, g.digestOf, g.suits, g.made, g.start, g.files, g.entries, g.entries',
                      BackupList(g.undos))
  {
    assert g.all[..g.done] == g.all;
    var n := |g.all|;
    var g1 := Progress(g.mode, g.all, n, n, g.made, g.start, g.files, g.entries, g.entries', [], g.sourcePath,
                       g.digestOf, g.suits);
    forall op <- g.all ensures g1.Achieved(op) {
      var i :| 0 <= i < |g.all| && g.all[i] == op;
      assert g.Achieved(g.all[i]);
    }
    GoodIsSettled(g);
    assert forall b <- BackupList(g.undos) :: b in BackupsOf(g.undos);
    forall op <- g.all | (op.action.Update? || op.action.Remove?) && op.destination !in AtRisk(g.all, g.mode, g.start)
      ensures KeptAside(g.start, g.files, op.destination, BackupList(g.undos))
        || op.destination in Scratch(g.all, g.mode) - g.start.Keys
    {
      GoodKeepsAside(g, op);
    }
  }

  ghost predicate AllKept(paths: set<Path>, start: map<Path, Content>, files: map<Path, Content>) {
    forall p <- paths | p in start :: Kept(files, start, p)
  }

  /** After a rollback that worked any paths are as they were if none of them was at risk
      where linking was tried, and only if none was where a link was made; so exactly then,
      where every link that was tried was made. */
  lemma SurviveRollbackIff(operations: seq<Operation>, mode: Mode, sourcePath: Id -> Path, trace: Trace,
                           start: map<Path, Content>, files: map<Path, Content>, paths: set<Path>)
    requires Settled(operations, mode, sourcePath, AtRisk(operations, mode, start) * trace.tried, start, files, {})
    requires Honest(operations, mode, trace, start, files)
    ensures paths !! AtRisk(operations, mode, start) * trace.tried ==> AllKept(paths, start, files)
    ensures AllKept(paths, start, files) ==> paths !! AtRisk(operations, mode, start) * trace.made
    ensures trace.made == trace.tried ==>
      (AllKept(paths, start, files) <==> paths !! AtRisk(operations, mode, start) * trace.made)
  {
    forall p <- paths | p in AtRisk(operations, mode, start) * trace.made ensures !AllKept(paths, start, files) {
      assert !Kept(files, start, p);
    }
  }

  function Noops(operations: seq<Operation>): set<Path> {
    set op <- operations | op.action.Noop? :: op.destination
  }

  /** The same of the destinations that a success was to leave alone. */
  lemma NoopsSurviveIff(operations: seq<Operation>, mode: Mode, sourcePath: Id -> Path,
                        digestOf: (Path, Content) -> Option<Digest>, suits: (Id, Content) -> bool, trace: Trace,
                        start: map<Path, Content>, files: map<Path, Content>,
                        entries: map<Path, Managed>, entries': map<Path, Managed>, backups: seq<Path>)
    requires Fulfilled(operations, mode, sourcePath, digestOf, suits, trace.made, start, files, entries, entries',
                       backups)
    requires Honest(operations, mode, trace, start, files)
    ensures Noops(operations) !! AtRisk(operations, mode, start) ==> AllKept(Noops(operations), start, files)
    ensures AllKept(Noops(operations), start, files) ==>
      Noops(operations) !! AtRisk(operations, mode, start) * trace.made
    ensures trace.made == Scratch(operations, mode) ==>
      (AllKept(Noops(operations), start, files) <==> Noops(operations) !! AtRisk(operations, mode, start))
  {
    var risk := AtRisk(operations, mode, start);
    forall p <- Noops(operations) | p in risk * trace.made ensures !AllKept(Noops(operations), start, files) {
      assert !Kept(files, start, p);
    }
    forall p <- Noops(operations) | p in start && p !in risk ensures Kept(files, start, p) {
      var op :| op in operations && op.action.Noop? && op.destination == p;
      assert p !in Loose(operations, mode, start);
    }
  }
}
