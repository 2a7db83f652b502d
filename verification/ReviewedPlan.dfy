/** Single use of reviewed plans (internal/reviewedplan/executor.go): any number of
    executors over one plan store, each able to crash between any two effects. */
module ReviewedPlan {
  import opened Wrappers

  type PlanId = string
  type ExecutorId = nat
  type Digest = string
  type Time = int

  /** `serial` tells one saving of a plan from another; `sealed` is the digest of the
      plan's content as the executor recomputes it. */
  datatype SavedPlan = SavedPlan(serial: nat, id: PlanId, digest: Digest, sealed: Digest, expiresAt: Time,
                                 catalogHash: Digest, inventoryHash: Digest)

  datatype Request = Request(planId: PlanId, digest: Digest, confirmed: bool)

  /** What the executor sees of the world while it checks. */
  datatype World = World(now: Time, catalogHash: Digest, inventoryHash: Option<Digest>)

  datatype Phase =
    | Leased(request: Request)
    | Loaded(request: Request, plan: SavedPlan)
    | Checked(request: Request, plan: SavedPlan, world: World)
    | Consumed(plan: SavedPlan, request: Request, world: World)
    | Installing(plan: SavedPlan)

  /** Plan files by file name, the executors holding the lease, and the installer entries
      so far, oldest first. */
  datatype System = System(
    files: map<string, SavedPlan>, running: map<ExecutorId, Phase>,
    entries: seq<Entry>, nextSerial: nat)

  datatype Entry = Entry(plan: SavedPlan, request: Request, world: World)

  datatype Action =
    | Save(plan: SavedPlan)
    | Start(e: ExecutorId, request: Request)
    | Load(e: ExecutorId)
    | Check(e: ExecutorId, world: World)
    | Consume(e: ExecutorId)
    | Install(e: ExecutorId)
    | Leave(e: ExecutorId)  // an error return, a crash, or the end of the run

  predicate Passes(request: Request, plan: SavedPlan, world: World) {
    && request.confirmed
    && plan.id == request.planId
    && request.digest != "" && request.digest == plan.digest && plan.sealed == plan.digest
    && world.now <= plan.expiresAt
    && world.catalogHash == plan.catalogHash
    && world.inventoryHash == Some(plan.inventoryHash)
  }

  /** Whether the lease excludes: with `exclusive` false every executor gets one. */
  predicate Enabled(s: System, a: Action, safeName: PlanId -> string, exclusive: bool) {
    match a
    case Save(plan) => plan.serial == s.nextSerial
    case Start(e, request) => e !in s.running && request.confirmed && (exclusive ==> s.running == map[])
    case Load(e) => e in s.running && s.running[e].Leased? && safeName(s.running[e].request.planId) in s.files
    case Check(e, world) =>
      e in s.running && s.running[e].Loaded? && Passes(s.running[e].request, s.running[e].plan, world)
    case Consume(e) => e in s.running && s.running[e].Checked?
    case Install(e) => e in s.running && s.running[e].Consumed?
    case Leave(e) => e in s.running
  }

  function Next(s: System, a: Action, safeName: PlanId -> string, exclusive: bool): System
    requires Enabled(s, a, safeName, exclusive)
  {
    match a
    case Save(plan) => s.(files := s.files[safeName(plan.id) := plan], nextSerial := s.nextSerial + 1)
    case Start(e, request) => s.(running := s.running[e := Leased(request)])
    case Load(e) =>
      var request := s.running[e].request;
      s.(running := s.running[e := Loaded(request, s.files[safeName(request.planId)])])
    case Check(e, world) => s.(running := s.running[e := Checked(s.running[e].request, s.running[e].plan, world)])
    case Consume(e) =>
      // removing a file that is already gone is not an error
      var p := s.running[e];
      s.(files := s.files - {safeName(p.request.planId)},
         running := s.running[e := Consumed(p.plan, p.request, p.world)])
    case Install(e) =>
      var p := s.running[e];
      s.(entries := s.entries + [Entry(p.plan, p.request, p.world)], running := s.running[e := Installing(p.plan)])
    case Leave(e) => s.(running := s.running - {e})
  }

  function Initial(): System {
    System(map[], map[], [], 0)
  }

  ghost predicate IsRun(states: seq<System>, actions: seq<Action>, safeName: PlanId -> string, exclusive: bool) {
    && |states| == |actions| + 1 && states[0] == Initial()
    && forall i | 0 <= i < |actions| :: Steps(states[i], actions[i], states[i + 1], safeName, exclusive)
  }

  ghost predicate Steps(s: System, a: Action, n: System, safeName: PlanId -> string, exclusive: bool) {
    Enabled(s, a, safeName, exclusive) && n == Next(s, a, safeName, exclusive)
  }

  predicate Entered(s: System, serial: nat) {
    exists entry <- s.entries :: entry.plan.serial == serial
  }

  ghost predicate PhaseOk(s: System, phase: Phase, safeName: PlanId -> string) {
    match phase
    case Leased(_) => true
    case Loaded(_, plan) => Unentered(s, plan) && OnlyUnder(s, plan, safeName)
    case Checked(request, plan, world) =>
      Unentered(s, plan) && OnlyUnder(s, plan, safeName) && Passes(request, plan, world)
    case Consumed(plan, request, world) => Unentered(s, plan) && Gone(s, plan) && Passes(request, plan, world)
    case Installing(_) => true
  }

  predicate Unentered(s: System, plan: SavedPlan) {
    plan.serial < s.nextSerial && !Entered(s, plan.serial)
  }

  predicate Gone(s: System, plan: SavedPlan) {
    forall f <- s.files :: s.files[f].serial != plan.serial
  }

  ghost predicate Inv(s: System, safeName: PlanId -> string) {
    && (forall f <- s.files :: safeName(s.files[f].id) == f && Unentered(s, s.files[f]))
    && (forall f <- s.files, g <- s.files :: s.files[f].serial == s.files[g].serial ==> f == g)
    && (forall d <- s.running, e <- s.running :: d == e)
    && (forall e <- s.running :: PhaseOk(s, s.running[e], safeName))
    && (forall entry <- s.entries :: entry.plan.serial < s.nextSerial && Passes(entry.request, entry.plan, entry.world))
    && (forall i, j | 0 <= i < j < |s.entries| :: s.entries[i].plan.serial != s.entries[j].plan.serial)
  }

  predicate OnlyUnder(s: System, plan: SavedPlan, safeName: PlanId -> string) {
    forall f <- s.files :: s.files[f].serial == plan.serial ==> f == safeName(plan.id)
  }

  lemma EntriesStep(s: System, a: Action, safeName: PlanId -> string)
    requires Inv(s, safeName) && Enabled(s, a, safeName, true)
    ensures var n := Next(s, a, safeName, true);
      && (forall serial ::
            Entered(n, serial) <==> Entered(s, serial) || (a.Install? && serial == s.running[a.e].plan.serial))
      && (forall entry <- n.entries ::
            entry.plan.serial < n.nextSerial && Passes(entry.request, entry.plan, entry.world))
      && (forall i, j | 0 <= i < j < |n.entries| :: n.entries[i].plan.serial != n.entries[j].plan.serial)
  {
    var n := Next(s, a, safeName, true);
    if a.Install? {
      assert PhaseOk(s, s.running[a.e], safeName);
      assert n.entries[|s.entries|] in n.entries;
      forall serial | Entered(s, serial) ensures Entered(n, serial) {
        var entry :| entry in s.entries && entry.plan.serial == serial;
        assert entry in n.entries;
      }
    }
  }

  lemma FilesStep(s: System, a: Action, safeName: PlanId -> string)
    requires Inv(s, safeName) && Enabled(s, a, safeName, true)
    ensures var n := Next(s, a, safeName, true);
      && (forall f <- n.files :: safeName(n.files[f].id) == f && Unentered(n, n.files[f]))
      && (forall f <- n.files, g <- n.files :: n.files[f].serial == n.files[g].serial ==> f == g)
      && (forall d <- n.running, e <- n.running :: d == e)
  {
    EntriesStep(s, a, safeName);
    if a.Install? {
      assert PhaseOk(s, s.running[a.e], safeName);
    }
  }

  lemma PhasesStep(s: System, a: Action, safeName: PlanId -> string, e: ExecutorId)
    requires Inv(s, safeName) && Enabled(s, a, safeName, true) && e in Next(s, a, safeName, true).running
    ensures PhaseOk(Next(s, a, safeName, true), Next(s, a, safeName, true).running[e], safeName)
  {
    EntriesStep(s, a, safeName);
    if e in s.running {
      assert PhaseOk(s, s.running[e], safeName);
    }
  }

  lemma StepKeepsInv(s: System, a: Action, safeName: PlanId -> string)
    requires Inv(s, safeName) && Enabled(s, a, safeName, true)
    ensures Inv(Next(s, a, safeName, true), safeName)
  {
    EntriesStep(s, a, safeName);
    FilesStep(s, a, safeName);
    forall e <- Next(s, a, safeName, true).running { PhasesStep(s, a, safeName, e); }
  }

  lemma {:induction false} RunKeepsInv(states: seq<System>, actions: seq<Action>, safeName: PlanId -> string, i: nat)
    requires IsRun(states, actions, safeName, true) && i < |states|
    ensures Inv(states[i], safeName)
  {
    if i > 0 {
      RunKeepsInv(states, actions, safeName, i - 1);
      StepKeepsInv(states[i - 1], actions[i - 1], safeName);
    }
  }

  /** While the lease excludes, the installer is entered at most once for each saving of a
      plan, and only for a plan that passed every check. */
  lemma InstalledAtMostOnce(states: seq<System>, actions: seq<Action>, safeName: PlanId -> string, i: nat, j: nat)
    requires IsRun(states, actions, safeName, true)
    requires var entries := states[|actions|].entries; i < |entries| && j < |entries|
    ensures var entries := states[|actions|].entries;
      && Passes(entries[i].request, entries[i].plan, entries[i].world)
      && (entries[i].plan.serial == entries[j].plan.serial ==> i == j)
  {
    RunKeepsInv(states, actions, safeName, |actions|);
  }

  function TwiceActions(): seq<Action> {
    var plan := SavedPlan(0, "plan-a", "d", "d", 0, "c", "i");
    var request, world := Request("plan-a", "d", true), World(0, "c", Some("i"));
    [Save(plan), Start(0, request), Start(1, request), Load(0), Load(1), Check(0, world), Check(1, world),
     Consume(0), Consume(1), Install(0), Install(1)]
  }

  function TwiceStates(f: string): seq<System> {
    var plan := SavedPlan(0, "plan-a", "d", "d", 0, "c", "i");
    var request, world := Request("plan-a", "d", true), World(0, "c", Some("i"));
    var entry := Entry(plan, request, world);
    var s := System(map[f := plan], map[], [], 1);
    var t := System(map[], map[], [], 1);
    [Initial(), s,
     s.(running := map[0 := Leased(request)]),
     s.(running := map[0 := Leased(request), 1 := Leased(request)]),
     s.(running := map[0 := Loaded(request, plan), 1 := Leased(request)]),
     s.(running := map[0 := Loaded(request, plan), 1 := Loaded(request, plan)]),
     s.(running := map[0 := Checked(request, plan, world), 1 := Loaded(request, plan)]),
     s.(running := map[0 := Checked(request, plan, world), 1 := Checked(request, plan, world)]),
     t.(running := map[0 := Consumed(plan, request, world), 1 := Checked(request, plan, world)]),
     t.(running := map[0 := Consumed(plan, request, world), 1 := Consumed(plan, request, world)]),
     t.(running := map[0 := Installing(plan), 1 := Consumed(plan, request, world)], entries := [entry]),
     t.(running := map[0 := Installing(plan), 1 := Installing(plan)], entries := [entry, entry])]
  }

  ghost predicate TwiceStep(safeName: PlanId -> string, i: nat)
    requires i < 11
  {
    var states := TwiceStates(safeName("plan-a"));
    Steps(states[i], TwiceActions()[i], states[i + 1], safeName, false)
  }

  lemma TwiceStarts(safeName: PlanId -> string)
    ensures TwiceStep(safeName, 0) && TwiceStep(safeName, 1) && TwiceStep(safeName, 2)
  {
  }

  lemma TwiceLoads(safeName: PlanId -> string)
    ensures TwiceStep(safeName, 3) && TwiceStep(safeName, 4)
  {
  }

  lemma TwiceChecks(safeName: PlanId -> string)
    ensures TwiceStep(safeName, 5) && TwiceStep(safeName, 6)
  {
  }

  lemma TwiceInstalls(safeName: PlanId -> string)
    ensures TwiceStep(safeName, 7) && TwiceStep(safeName, 8) && TwiceStep(safeName, 9) && TwiceStep(safeName, 10)
  {
  }

  /** The lease is what this rests on: consuming a plan does not notice that it was
      already consumed, so two executors without one both reach the installer. */
  lemma WithoutTheLeaseAPlanInstallsTwice(safeName: PlanId -> string)
    ensures var states := TwiceStates(safeName("plan-a"));
      && IsRun(states, TwiceActions(), safeName, false)
      && |states[11].entries| == 2 && states[11].entries[0].plan == states[11].entries[1].plan
  {
    TwiceStarts(safeName);
    TwiceLoads(safeName);
    TwiceChecks(safeName);
    TwiceInstalls(safeName);
    assert forall i | 0 <= i < 11 :: TwiceStep(safeName, i);
  }
}
