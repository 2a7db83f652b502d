/** Routine receipts and the routine store (internal/routines/manager.go:171-455): a run is
    recorded by a receipt first, and the store is brought up to date from the receipts. */
module Routines {
  import opened Wrappers
  import opened FreeNames
  import Schedules
  import Text

  type Id = string
  type RunId = string
  type Time = Schedules.Time

  const MAX_RUNS := 4096

  datatype Routine = Routine(id: Id, enabled: bool, schedule: Schedules.Schedule, lastRun: Time, nextRun: Time,
                             updatedAt: Time)
  datatype Receipt = Receipt(id: RunId, routineId: Id, finishedAt: Time)

  type Store = map<Id, Routine>

  // ----------------------------------------------------------- finishing a run

  /** nextForRoutine: None is a schedule that is not accepted. */
  function NextFor(routine: Routine, zones: Schedules.Zones, now: Time): Option<Time> {
    if !routine.enabled then Some(Schedules.ZERO) else Schedules.Next(routine.schedule, zones, now, routine.lastRun)
  }

  /** A routine whose run finished at `t`. */
  function Advance(routine: Routine, zones: Schedules.Zones, t: Time): Routine {
    var ran := routine.(lastRun := t, updatedAt := t);
    ran.(nextRun := NextFor(ran, zones, t).UnwrapOr(routine.nextRun))
  }

  // -------------------------------------------------------------- the listing

  /** The order of the listing: the latest first, and by descending id within an instant. */
  predicate Precedes(a: Receipt, b: Receipt) {
    a.finishedAt > b.finishedAt || (a.finishedAt == b.finishedAt && Text.Compare(a.id, b.id) > 0)
  }

  predicate InOrder(reports: seq<Receipt>) {
    forall i, j | 0 <= i < j < |reports| :: reports[i].finishedAt >= reports[j].finishedAt
  }

  function Insert(reports: seq<Receipt>, r: Receipt): (all: seq<Receipt>)
    ensures |all| == |reports| + 1 && forall x :: x in all <==> x == r || x in reports
  {
    if reports == [] || Precedes(r, reports[0]) then [r] + reports
    else [reports[0]] + Insert(reports[1..], r)
  }

  lemma {:induction false} InsertKeepsOrder(reports: seq<Receipt>, r: Receipt)
    requires InOrder(reports)
    ensures InOrder(Insert(reports, r))
  {
    if reports != [] && !Precedes(r, reports[0]) {
      InsertKeepsOrder(reports[1..], r);
      var rest := Insert(reports[1..], r);
      forall j | 0 <= j < |rest| ensures rest[j].finishedAt <= reports[0].finishedAt { assert rest[j] in rest; }
    }
  }

  /** What a listing of the receipts may be: all of them, or the 4096 latest. */
  ghost predicate IsListing(reports: seq<Receipt>, receipts: map<RunId, Receipt>) {
    && InOrder(reports) && |reports| == (if |receipts| > MAX_RUNS then MAX_RUNS else |receipts|)
    && (forall r <- reports :: r in receipts.Values)
    && (forall id <- receipts :: receipts[id] in reports || |receipts| > MAX_RUNS)
    && (forall id <- receipts :: receipts[id] !in reports ==> forall r <- reports ::
          r.finishedAt >= receipts[id].finishedAt)
  }

  // ------------------------------------------------------------ reconciliation

  /** The first report of the routine, which is its latest one. */
  function FirstOf(reports: seq<Receipt>, id: Id): Option<Receipt> {
    if reports == [] then None
    else if reports[0].routineId == id then Some(reports[0])
    else FirstOf(reports[1..], id)
  }

  function Caught(routine: Routine, latest: Option<Receipt>, zones: Schedules.Zones): Routine {
    if latest.Some? && latest.value.finishedAt > routine.lastRun then Advance(routine, zones, latest.value.finishedAt)
    else routine
  }

  /** Each routine as if its latest receipt had been saved with it. */
  function Reconciled(routines: Store, reports: seq<Receipt>, zones: Schedules.Zones): Store {
    map id | id in routines :: Caught(routines[id], FirstOf(reports, id), zones)
  }

  lemma {:induction false} FirstIsLatest(reports: seq<Receipt>, id: Id)
    requires InOrder(reports)
    ensures FirstOf(reports, id).Some? <==> exists r <- reports :: r.routineId == id
    ensures FirstOf(reports, id).Some? ==>
      var latest := FirstOf(reports, id).value;
      latest in reports && latest.routineId == id && forall r <- reports | r.routineId == id ::
        r.finishedAt <= latest.finishedAt
  {
    if reports != [] {
      assert reports == [reports[0]] + reports[1..];
      if reports[0].routineId != id {
        FirstIsLatest(reports[1..], id);
      }
    }
  }

  /** Each routine's last run is no older than any receipt of its. */
  ghost predicate Covers(routines: Store, receipts: set<Receipt>) {
    forall r <- receipts | r.routineId in routines :: r.finishedAt <= routines[r.routineId].lastRun
  }

  function Elements(reports: seq<Receipt>): set<Receipt> {
    set r <- reports
  }

  /** Reconciling covers every report listed. */
  lemma ReconciledCovers(routines: Store, reports: seq<Receipt>, zones: Schedules.Zones)
    requires InOrder(reports)
    ensures Covers(Reconciled(routines, reports, zones), Elements(reports))
  {
    forall r <- reports | r.routineId in routines
      ensures r.finishedAt <= Reconciled(routines, reports, zones)[r.routineId].lastRun
    {
      FirstIsLatest(reports, r.routineId);
    }
  }

  /** Routines that are covered are left as they are, to the last field. */
  lemma CoveredStaysPut(routines: Store, reports: seq<Receipt>, zones: Schedules.Zones)
    requires InOrder(reports) && Covers(routines, Elements(reports))
    ensures Reconciled(routines, reports, zones) == routines
  {
    forall id <- routines ensures Reconciled(routines, reports, zones)[id] == routines[id] {
      FirstIsLatest(reports, id);
    }
  }

  /** A receipt of a stored routine of which no receipt at all is listed. */
  ghost predicate Unlisted(stored: Store, reports: seq<Receipt>, r: Receipt) {
    r.routineId in stored && forall q <- reports :: q.routineId != r.routineId
  }

  /** However many receipts there are, after a load all of them are covered exactly when the
      routines with no receipt listed were covered before. */
  lemma LoadedCoversIff(stored: Store, receipts: map<RunId, Receipt>, reports: seq<Receipt>, zones: Schedules.Zones)
    requires IsListing(reports, receipts)
    ensures Covers(Reconciled(stored, reports, zones), receipts.Values) <==>
      forall r <- receipts.Values | Unlisted(stored, reports, r) :: r.finishedAt <= stored[r.routineId].lastRun
  {
    var loaded := Reconciled(stored, reports, zones);
    ReconciledCovers(stored, reports, zones);
    forall r <- receipts.Values | r.routineId in stored
      ensures r.finishedAt <= loaded[r.routineId].lastRun || Unlisted(stored, reports, r)
      ensures Unlisted(stored, reports, r) ==> loaded[r.routineId] == stored[r.routineId]
    {
      FirstIsLatest(reports, r.routineId);
      var id :| id in receipts && receipts[id] == r;
      if !Unlisted(stored, reports, r) {
        var q :| q in reports && q.routineId == r.routineId;
        assert q in Elements(reports) && (r in reports ==> r in Elements(reports));
      }
    }
  }

  function Decimals(n: nat): set<RunId> {
    set i | 1 <= i <= n :: Decimal(i)
  }

  /** Many receipts of one routine and one instant, listed and as files. */
  lemma {:induction false} ManyReceipts(n: nat, id: Id, t: Time)
      returns (listed: seq<Receipt>, receipts: map<RunId, Receipt>)
    ensures |listed| == |receipts| == n && receipts.Keys == Decimals(n)
    ensures forall r <- listed :: r.routineId == id && r.finishedAt == t && r.id in receipts && receipts[r.id] == r
    ensures forall k <- receipts :: receipts[k] in listed
  {
    if n == 0 {
      listed, receipts := [], map[];
    } else {
      var before, fewer := ManyReceipts(n - 1, id, t);
      DecimalsGrow(n);
      var r := Receipt(Decimal(n), id, t);
      OneMoreReceipt(fewer, r);
      listed, receipts := before + [r], fewer[r.id := r];
      forall k <- receipts ensures receipts[k] in listed {
        assert k != r.id ==> fewer[k] in before;
      }
    }
  }

  lemma DecimalsGrow(n: nat)
    requires n > 0
    ensures Decimals(n) == Decimals(n - 1) + {Decimal(n)} && Decimal(n) !in Decimals(n - 1)
  {
    forall i | 1 <= i < n ensures Decimal(i) != Decimal(n) {
      if Decimal(i) == Decimal(n) { DecimalIsInjective(i, n); }
    }
  }

  lemma OneMoreReceipt(receipts: map<RunId, Receipt>, r: Receipt)
    requires r.id !in receipts
    ensures |receipts[r.id := r]| == |receipts| + 1
  {
    assert receipts[r.id := r].Keys == receipts.Keys + {r.id};
    assert |receipts[r.id := r]| == |receipts[r.id := r].Keys| && |receipts| == |receipts.Keys|;
  }

  /** One receipt too many, of an earlier instant: its routine is not brought up to date. */
  lemma OneTooManyIsMissed(stored: Store, zones: Schedules.Zones, late: Receipt, id: Id)
      returns (receipts: map<RunId, Receipt>, reports: seq<Receipt>)
    requires late.routineId in stored && stored[late.routineId].lastRun < late.finishedAt && late.routineId != id
    requires late.id != "" && !('0' <= late.id[0] <= '9')
    ensures |receipts| == MAX_RUNS + 1 && late in receipts.Values && IsListing(reports, receipts)
    ensures !Covers(Reconciled(stored, reports, zones), receipts.Values)
  {
    var many;
    reports, many := ManyReceipts(MAX_RUNS, id, late.finishedAt + 1);
    forall i | 1 <= i <= MAX_RUNS ensures Decimal(i) != late.id {
      DecimalHasDigits(i);
      assert Decimal(i)[0] in Decimal(i);
    }
    assert late.id !in many;
    OneMoreReceipt(many, late);
    receipts := many[late.id := late];
    assert receipts[late.id] == late;
    OneTooManyIsListed(many, reports, late);
    assert Unlisted(stored, reports, late);
    LoadedCoversIff(stored, receipts, reports, zones);
  }

  lemma OneTooManyIsListed(many: map<RunId, Receipt>, reports: seq<Receipt>, late: Receipt)
    requires |reports| == |many| == MAX_RUNS && late.id !in many
    requires forall r <- reports :: r.finishedAt == late.finishedAt + 1 && r.id in many && many[r.id] == r
    requires forall k <- many :: many[k] in reports
    ensures IsListing(reports, many[late.id := late])
  {
    OneMoreReceipt(many, late);
    var receipts := many[late.id := late];
    forall r <- reports ensures r in receipts.Values { assert receipts[r.id] == r; }
  }

  lemma ReconcilingTwice(routines: Store, reports: seq<Receipt>, zones: Schedules.Zones)
    requires InOrder(reports)
    ensures var once := Reconciled(routines, reports, zones); Reconciled(once, reports, zones) == once
  {
    ReconciledCovers(routines, reports, zones);
    CoveredStaysPut(Reconciled(routines, reports, zones), reports, zones);
  }

  // -------------------------------------------------- a crash while persisting

  /** The store a finished run saves. */
  function Finished(routines: Store, r: Receipt, zones: Schedules.Zones): Store
    requires r.routineId in routines
  {
    routines[r.routineId := Advance(routines[r.routineId], zones, r.finishedAt)]
  }

  /** What may be on disk once persisting has begun: nothing new, the receipt, the receipt
      and the store, and in the end fewer receipts. */
  ghost predicate Persisting(before: Store, receipts: map<RunId, Receipt>, r: Receipt, zones: Schedules.Zones,
                             store: Store, receipts': map<RunId, Receipt>)
    requires r.routineId in before
  {
    || (store == before && receipts' == receipts)
    || (store == before && receipts' == receipts[r.id := r])
    || (store == Finished(before, r, zones) && Pruned(receipts[r.id := r], receipts'))
  }

  ghost predicate Pruned(all: map<RunId, Receipt>, some: map<RunId, Receipt>) {
    forall id <- some :: id in all && some[id] == all[id]
  }

  lemma ListedWereStored(reports: seq<Receipt>, receipts: map<RunId, Receipt>, all: map<RunId, Receipt>)
    requires IsListing(reports, receipts) && Pruned(all, receipts)
    ensures Elements(reports) <= all.Values
  {
    forall r <- reports ensures r in all.Values {
      var id :| id in receipts && receipts[id] == r;
      assert all[id] == r;
    }
  }

  lemma CoversLess(routines: Store, more: set<Receipt>, fewer: set<Receipt>)
    requires Covers(routines, more) && fewer <= more
    ensures Covers(routines, fewer)
  {
  }

  lemma NewReceiptValues(receipts: map<RunId, Receipt>, r: Receipt)
    requires r.id !in receipts
    ensures receipts[r.id := r].Values == receipts.Values + {r}
  {
    var all := receipts[r.id := r];
    forall x ensures x in all.Values <==> x in receipts.Values + {r} {
      if x in receipts.Values {
        var id :| id in receipts && receipts[id] == x;
        assert all[id] == x;
      }
      assert all[r.id] == r;
    }
  }

  /** With a clock that has moved past the stored last run, a crash anywhere while a run is
      persisted, followed by a load, gives either the routines as before the run or exactly
      those the finished run would have saved. */
  lemma CrashedPersistIsAllOrNothing(before: Store, receipts: map<RunId, Receipt>, r: Receipt, zones: Schedules.Zones,
                                     store: Store, receipts': map<RunId, Receipt>, reports: seq<Receipt>)
    requires r.routineId in before && r.finishedAt > before[r.routineId].lastRun
    requires r.id !in receipts && Covers(before, receipts.Values)
    requires Persisting(before, receipts, r, zones, store, receipts') && IsListing(reports, receipts')
    ensures Reconciled(store, reports, zones) in {before, Finished(before, r, zones)}
    ensures store != before ==> Reconciled(store, reports, zones) == Finished(before, r, zones)
  {
    var all := receipts[r.id := r];
    NewReceiptValues(receipts, r);
    if store == before && receipts' == receipts {
      ListedWereStored(reports, receipts, receipts);
      CoversLess(before, receipts.Values, Elements(reports));
      CoveredStaysPut(before, reports, zones);
    } else if store == before && receipts' == all {
      ListedWereStored(reports, all, all);
      ReceiptOnly(before, receipts, r, zones, reports);
    } else {
      ListedWereStored(reports, receipts', all);
      FinishedCovers(before, receipts, r, zones);
      CoversLess(store, all.Values, Elements(reports));
      CoveredStaysPut(store, reports, zones);
    }
  }

  lemma FinishedCovers(before: Store, receipts: map<RunId, Receipt>, r: Receipt, zones: Schedules.Zones)
    requires r.routineId in before && r.finishedAt >= before[r.routineId].lastRun
    requires r.id !in receipts && Covers(before, receipts.Values)
    ensures Covers(Finished(before, r, zones), receipts[r.id := r].Values)
  {
    NewReceiptValues(receipts, r);
  }

  /** The receipt is there and the store is not: loading catches up, if the receipt is listed. */
  lemma ReceiptOnly(before: Store, receipts: map<RunId, Receipt>, r: Receipt, zones: Schedules.Zones,
                    reports: seq<Receipt>)
    requires r.routineId in before && r.finishedAt > before[r.routineId].lastRun
    requires Covers(before, receipts.Values) && InOrder(reports) && Elements(reports) <= receipts.Values + {r}
    ensures Reconciled(before, reports, zones) == if r in reports then Finished(before, r, zones) else before
  {
    if r in reports {
      forall id <- before ensures Reconciled(before, reports, zones)[id] == Finished(before, r, zones)[id] {
        FirstIsLatest(reports, id);
        if FirstOf(reports, id).Some? {
          var q := FirstOf(reports, id).value;
          assert q in Elements(reports);
          assert q != r ==> q.finishedAt <= before[q.routineId].lastRun;
        }
      }
    } else {
      assert forall q <- reports :: q in Elements(reports);
      CoveredStaysPut(before, reports, zones);
    }
  }

  // ------------------------------------------------------------- whole histories

  datatype Disk = Disk(store: Store, receipts: map<RunId, Receipt>)

  ghost predicate Uncovered(d: Disk, id: RunId) {
    && id in d.receipts && d.receipts[id].routineId in d.store
    && d.receipts[id].finishedAt > d.store[d.receipts[id].routineId].lastRun
  }

  /** Only the newest receipt, of a run that was cut short, may be ahead of the store. */
  ghost predicate Sound(d: Disk) {
    && (forall id <- d.receipts :: d.receipts[id].id == id)
    && forall id, other | Uncovered(d, id) && other in d.receipts && other != id ::
      d.receipts[other].finishedAt < d.receipts[id].finishedAt
  }

  /** The routines that the disk stands for. */
  ghost function Effective(d: Disk, zones: Schedules.Zones): Store {
    if exists id :: Uncovered(d, id) then
      var id :| Uncovered(d, id);
      Finished(d.store, d.receipts[id], zones)
    else d.store
  }

  lemma NoneUncovered(d: Disk)
    requires forall id :: !Uncovered(d, id)
    ensures Covers(d.store, d.receipts.Values)
  {
    forall r <- d.receipts.Values | r.routineId in d.store ensures r.finishedAt <= d.store[r.routineId].lastRun {
      var id :| id in d.receipts && d.receipts[id] == r;
      assert !Uncovered(d, id);
    }
  }

  lemma CoveredIsEffective(d: Disk, zones: Schedules.Zones)
    requires Covers(d.store, d.receipts.Values) && forall id <- d.receipts :: d.receipts[id].id == id
    ensures Sound(d) && Effective(d, zones) == d.store
  {
    forall id ensures !Uncovered(d, id) {
      assert id in d.receipts ==> d.receipts[id] in d.receipts.Values;
    }
  }

  /** Apart from the one that is ahead all receipts are covered. */
  lemma RestIsCovered(d: Disk, id: RunId)
    requires Sound(d) && Uncovered(d, id)
    ensures Covers(d.store, (d.receipts - {id}).Values)
    ensures d.receipts == (d.receipts - {id})[id := d.receipts[id]]
  {
    var rest := d.receipts - {id};
    forall r <- rest.Values | r.routineId in d.store ensures r.finishedAt <= d.store[r.routineId].lastRun {
      var other :| other in rest && rest[other] == r;
      assert d.receipts[other].finishedAt < d.receipts[id].finishedAt;
      assert !Uncovered(d, other);
    }
  }

  /** What is strictly the newest is listed. */
  lemma NewestIsListed(receipts: map<RunId, Receipt>, id: RunId, reports: seq<Receipt>)
    requires IsListing(reports, receipts) && id in receipts
    requires forall other <- receipts | other != id :: receipts[other].finishedAt < receipts[id].finishedAt
    ensures receipts[id] in reports
  {
    assert |receipts| == |receipts.Keys| > 0;
    assert reports[0] in reports;
    var other :| other in receipts && receipts[other] == reports[0];
  }

  lemma LoadGivesEffective(d: Disk, reports: seq<Receipt>, zones: Schedules.Zones)
    requires Sound(d) && IsListing(reports, d.receipts)
    ensures Reconciled(d.store, reports, zones) == Effective(d, zones)
  {
    ListedWereStored(reports, d.receipts, d.receipts);
    if exists id :: Uncovered(d, id) {
      var id :| Uncovered(d, id) && Effective(d, zones) == Finished(d.store, d.receipts[id], zones);
      RestIsCovered(d, id);
      NewReceiptValues(d.receipts - {id}, d.receipts[id]);
      NewestIsListed(d.receipts, id, reports);
      ReceiptOnly(d.store, d.receipts - {id}, d.receipts[id], zones, reports);
    } else {
      NoneUncovered(d);
      CoversLess(d.store, d.receipts.Values, Elements(reports));
      CoveredStaysPut(d.store, reports, zones);
    }
  }

  lemma EffectiveCovers(d: Disk, zones: Schedules.Zones)
    requires Sound(d)
    ensures Covers(Effective(d, zones), d.receipts.Values)
  {
    if exists id :: Uncovered(d, id) {
      var id :| Uncovered(d, id) && Effective(d, zones) == Finished(d.store, d.receipts[id], zones);
      RestIsCovered(d, id);
      FinishedCovers(d.store, d.receipts - {id}, d.receipts[id], zones);
    } else {
      NoneUncovered(d);
    }
  }

  /** The clock has not been behind anything on the disk. */
  ghost predicate UpTo(d: Disk, t: Time) {
    (forall id <- d.receipts :: d.receipts[id].finishedAt <= t) && forall id <- d.store :: d.store[id].lastRun <= t
  }

  lemma EffectiveIsUpTo(d: Disk, zones: Schedules.Zones, t: Time)
    requires UpTo(d, t)
    ensures UpTo(Disk(Effective(d, zones), d.receipts), t)
  {
  }

  lemma ReceiptIsAhead(before: Store, receipts: map<RunId, Receipt>, r: Receipt, zones: Schedules.Zones)
    requires Covers(before, receipts.Values) && r.routineId in before && r.finishedAt > before[r.routineId].lastRun
    requires forall id <- receipts :: receipts[id].id == id && receipts[id].finishedAt < r.finishedAt
    requires r.id !in receipts
    ensures Sound(Disk(before, receipts[r.id := r]))
    ensures Effective(Disk(before, receipts[r.id := r]), zones) == Finished(before, r, zones)
  {
    var d := Disk(before, receipts[r.id := r]);
    assert Uncovered(d, r.id);
    assert forall id <- receipts :: receipts[id] in receipts.Values;
    assert forall id | Uncovered(d, id) :: id == r.id;
  }

  /** A run that is persisted, wherever it stops, leaves a disk that stands for the routines
      before it or after it: after it, as soon as anything was written. */
  lemma PersistingIsAtomic(before: Store, receipts: map<RunId, Receipt>, r: Receipt, zones: Schedules.Zones, d: Disk,
                           t: Time)
    requires Sound(Disk(before, receipts)) && Covers(before, receipts.Values) && UpTo(Disk(before, receipts), t)
    requires r.routineId in before && r.id !in receipts && t < r.finishedAt
    requires Persisting(before, receipts, r, zones, d.store, d.receipts)
    ensures Sound(d) && UpTo(d, r.finishedAt)
    ensures Effective(d, zones) == if d == Disk(before, receipts) then before else Finished(before, r, zones)
  {
    var all := receipts[r.id := r];
    if d == Disk(before, receipts) {
      CoveredIsEffective(d, zones);
    } else if d.store == before && d.receipts == all {
      ReceiptIsAhead(before, receipts, r, zones);
    } else {
      FinishedCovers(before, receipts, r, zones);
      forall x <- d.receipts.Values ensures x in all.Values {
        var id :| id in d.receipts && d.receipts[id] == x;
        assert all[id] == x;
      }
      CoversLess(d.store, all.Values, d.receipts.Values);
      CoveredIsEffective(d, zones);
      assert d.store != before || d.receipts != receipts;
    }
  }

  datatype Call = LoadCall(now: Time) | RunCall(id: Id, confirmed: bool, runId: RunId, started: Time, finishedAt: Time)
  datatype Answer = Loaded(routines: Option<Store>) | Ran(done: bool)

  /** Runs finish one after the other, and no run id occurs twice. */
  ghost predicate Timely(calls: seq<Call>, t: Time, used: set<RunId>) {
    && (forall i | 0 <= i < |calls| && calls[i].RunCall? :: calls[i].finishedAt > t && calls[i].runId !in used)
    && forall i, j | 0 <= i < j < |calls| && calls[i].RunCall? && calls[j].RunCall? ::
      calls[i].finishedAt < calls[j].finishedAt && calls[i].runId != calls[j].runId
  }

  /** What one call does to the routines, seen from outside. */
  ghost predicate Explained(zones: Schedules.Zones, before: Store, call: Call, answer: Answer, after: Store) {
    match call
    case LoadCall(_) => after == before && answer.Loaded? && (answer.routines.Some? ==> answer.routines.value == before)
    case RunCall(id, confirmed, runId, _, finishedAt) =>
      && answer.Ran? && (after == before || (confirmed && id in before && before[id].enabled &&
                                             after == Finished(before, Receipt(runId, id, finishedAt), zones)))
      && (answer.done ==> confirmed && id in before && before[id].enabled &&
                          after == Finished(before, Receipt(runId, id, finishedAt), zones))
  }

  /** Without a crash the finished run survives a load exactly when the routine has no later
      receipt: a clock that was set back loses it. */
  lemma FinishedRunSurvivesIff(before: Store, r: Receipt, zones: Schedules.Zones, reports: seq<Receipt>)
    requires r.routineId in before && InOrder(reports)
    requires Covers(before, set q <- reports | q.routineId != r.routineId)
    ensures Reconciled(Finished(before, r, zones), reports, zones) == Finished(before, r, zones)
      <==> forall q <- reports | q.routineId == r.routineId :: q.finishedAt <= r.finishedAt
  {
    var finished := Finished(before, r, zones);
    if forall q <- reports | q.routineId == r.routineId :: q.finishedAt <= r.finishedAt {
      CoveredStaysPut(finished, reports, zones);
    } else {
      FirstIsLatest(reports, r.routineId);
      assert Reconciled(finished, reports, zones)[r.routineId].lastRun > finished[r.routineId].lastRun;
    }
  }

  /** The sorted receipts, cut off behind the latest. */
  lemma LatestAreListed(all: seq<Receipt>, receipts: map<RunId, Receipt>)
    requires InOrder(all) && |all| == |receipts|
    requires (forall r <- all :: r.id in receipts && receipts[r.id] == r) && forall id <- receipts ::
      receipts[id] in all
    ensures IsListing(if |all| > MAX_RUNS then all[..MAX_RUNS] else all, receipts)
  {
    forall r <- all ensures r in receipts.Values { assert receipts[r.id] == r; }
    if |all| > MAX_RUNS { CutOffIsListed(all, MAX_RUNS, receipts); }
  }

  lemma CutOffIsListed(all: seq<Receipt>, limit: nat, receipts: map<RunId, Receipt>)
    requires InOrder(all) && limit < |all| == |receipts| && limit == MAX_RUNS
    requires (forall r <- all :: r in receipts.Values) && forall id <- receipts :: receipts[id] in all
    ensures IsListing(all[..limit], receipts)
  {
    var reports, rest := all[..limit], all[limit..];
    assert all == reports + rest;
    forall i, j | 0 <= i < limit && 0 <= j < |rest| ensures reports[i].finishedAt >= rest[j].finishedAt {
      assert all[i] == reports[i] && all[limit + j] == rest[j];
    }
    forall id <- receipts | receipts[id] !in reports
      ensures forall r <- reports :: r.finishedAt >= receipts[id].finishedAt
    {
      assert receipts[id] in all;
      assert receipts[id] in rest;
    }
  }

  // ------------------------------------------------------------------ the manager

  /** validatePersistedRoutines, as far as keys and schedules go. */
  predicate Loadable(store: Store, zones: Schedules.Zones, now: Time) {
    forall id <- store :: store[id].id == id && Schedules.Next(store[id].schedule, zones, now, store[id].lastRun).Some?
  }

  class Manager {
    const zones: Schedules.Zones
    /** The routine file, if there is one, and the receipt files. */
    var store: Option<Store>
    var receipts: map<RunId, Receipt>

    constructor (zones: Schedules.Zones)
      ensures this.zones == zones && store == None && receipts == map[]
    {
      this.zones, store, receipts := zones, None, map[];
    }

    method Attempt() returns (o: Outcome)
    {
      o := *;
    }

    /** ListRuns over all routines. */
    method ListRuns() returns (reports: seq<Receipt>)
      requires forall id <- receipts :: receipts[id].id == id
      ensures IsListing(reports, receipts)
    {
      var all: seq<Receipt> := [];
      var rest := receipts.Keys;
      while rest != {}
        invariant rest <= receipts.Keys && InOrder(all) && |all| + |rest| == |receipts.Keys|
        invariant forall r <- all :: r.id in receipts && receipts[r.id] == r
        invariant forall id <- receipts.Keys - rest :: receipts[id] in all
        decreases rest
      {
        var id :| id in rest;
        rest := rest - {id};
        InsertKeepsOrder(all, receipts[id]);
        all := Insert(all, receipts[id]);
      }
      reports := if |all| > MAX_RUNS then all[..MAX_RUNS] else all;
      assert |receipts| == |receipts.Keys|;
      LatestAreListed(all, receipts);
    }

    /** reconcileRuns: the first report of each routine is looked at, the others are skipped. */
    method ReconcileRuns(routines: Store, reports: seq<Receipt>) returns (r: Option<Store>, changed: bool)
      requires forall id <- routines :: routines[id].id == id
      ensures r.Some? ==> r.value == Reconciled(routines, reports, zones) && (changed <==> r.value != routines)
      ensures r.None? ==>
        exists id <- routines, t :: NextFor(routines[id].(lastRun := t, updatedAt := t), zones, t).None?
    {
      var result := routines;
      var seen: set<Id> := {};
      changed := false;
      for i := 0 to |reports|
        invariant result.Keys == routines.Keys
        invariant forall id :: id in seen <==> FirstOf(reports[..i], id).Some?
        invariant forall id <- routines :: result[id] == Caught(routines[id], FirstOf(reports[..i], id), zones)
        invariant changed <==> result != routines
      {
        var report := reports[i];
        FirstOfExtended(reports, i);
        if report.routineId in seen { continue; }
        seen := seen + {report.routineId};
        if report.routineId !in result || report.finishedAt <= result[report.routineId].lastRun { continue; }
        var routine := result[report.routineId].(lastRun := report.finishedAt, updatedAt := report.finishedAt);
        var next := NextFor(routine, zones, report.finishedAt);
        if next.None? {
          assert routine == routines[report.routineId].(lastRun := report.finishedAt, updatedAt := report.finishedAt);
          return None, false;
        }
        result := result[routine.id := routine.(nextRun := next.value)];
        changed := true;
        assert result[report.routineId] != routines[report.routineId];
      }
      assert reports[..|reports|] == reports;
      r := Some(result);
    }

    method Save(routines: Store) returns (o: Outcome)
      modifies this`store
      ensures store == if o.Done? then Some(routines) else old(store)
    {
      o := Attempt();
      if o.Done? { store := Some(routines); }
    }

    /** A load yields the stored routines brought up to date with the receipts, and leaves
        exactly those in the file. */
    method Load(now: Time) returns (r: Result<Store, Outcome>)
      requires forall id <- receipts :: receipts[id].id == id
      modifies this`store
      ensures r.Err? ==> store == old(store)
      ensures r.Ok? && old(store).None? ==> r.value == map[] && store == None
      ensures r.Ok? && old(store).Some? ==>
        && store == Some(r.value) && Loadable(old(store).value, zones, now)
        && exists reports :: IsListing(reports, receipts) && r.value == Reconciled(old(store).value, reports, zones)
    {
      var read := Attempt();
      if !read.Done? { return Err(read); }
      if store.None? { return Ok(map[]); }
      if !Loadable(store.value, zones, now) { return Err(Failed); }
      var reports := ListRuns();
      var routines, changed := ReconcileRuns(store.value, reports);
      if routines.None? { return Err(Failed); }
      if changed {
        var saved := Save(routines.value);
        if !saved.Done? { return Err(saved); }
      }
      r := Ok(routines.value);
    }

    /** Removes some receipts, of which the source takes the oldest files, until `keep` are left. */
    method Prune(keep: nat) returns (o: Outcome)
      modifies this`receipts
      ensures Pruned(old(receipts), receipts)
      ensures o.Done? ==> |receipts| <= keep
    {
      o := Attempt();
      if !o.Done? { return; }
      while |receipts| > keep
        invariant Pruned(old(receipts), receipts)
        decreases |receipts|
      {
        assert receipts.Keys != {} by { assert |receipts| == |receipts.Keys|; }
        var oldest :| oldest in receipts;
        o := Attempt();
        if !o.Done? { return; }
        ghost var before := receipts;
        receipts := receipts - {oldest};
        assert receipts.Keys == before.Keys - {oldest} && |receipts| == |receipts.Keys| && |before| == |before.Keys|;
      }
    }

    /** Receipt first, then the store, then the pruning; a failure or a crash may come
        before each of them. */
    method PersistRun(report: Receipt, routines: Store, ghost before: Store) returns (o: Outcome)
      requires store == Some(before) && report.routineId in before && routines == Finished(before, report, zones)
      modifies this
      ensures store.Some? && Persisting(before, old(receipts), report, zones, store.value, receipts)
      ensures o.Done? ==> store.value == routines && |receipts| <= MAX_RUNS
    {
      o := Attempt();
      if !o.Done? { return; }
      receipts := receipts[report.id := report];
      o := Save(routines);
      if !o.Done? { return; }
      o := Prune(MAX_RUNS);
    }

    /** A run: whatever its steps do, and wherever it stops, what is on disk is one of the
        states that a later load takes for the routines before or after it. */
    method Run(id: Id, confirmed: bool, runId: RunId, started: Time, finishedAt: Time)
        returns (o: Outcome, ghost loaded: Option<Store>)
      requires forall r <- receipts :: receipts[r].id == r
      requires runId !in receipts
      modifies this
      ensures loaded.None? ==> store == old(store) && receipts == old(receipts) && !o.Done?
      ensures loaded.Some? ==>
        store.Some? && old(store).Some? && IsLoaded(loaded.value, old(store).value, old(receipts))
      ensures loaded.Some? ==>
        if confirmed && id in loaded.value && loaded.value[id].enabled
        then
          && loaded.value[id].id == id
          && Persisting(loaded.value, old(receipts), Receipt(runId, id, finishedAt), zones, store.value, receipts)
        else !o.Done? && store.value == loaded.value && receipts == old(receipts)
      ensures o.Done? ==>
        && loaded.Some? && |receipts| <= MAX_RUNS
        && store == Some(Finished(loaded.value, Receipt(runId, id, finishedAt), zones))
    {
      loaded := None;
      o := Failed;
      if !confirmed { return; }
      var r := Load(started);
      if r.Err? { return Failed, None; }
      if store.None? { return; }
      var routines := r.value;
      loaded := Some(routines);
      if id !in routines || !routines[id].enabled { return; }
      var routine := routines[id].(lastRun := finishedAt, updatedAt := finishedAt);
      var next := NextFor(routine, zones, finishedAt);
      if next.None? { return; }
      routine := routine.(nextRun := next.value);
      o := PersistRun(Receipt(runId, id, finishedAt), routines[id := routine], routines);
    }

    ghost function OnDisk(): Disk
      reads this
      requires store.Some?
    {
      Disk(store.value, receipts)
    }

    /** A run seen from outside. */
    method ServeRun(call: Call, ghost t: Time) returns (done: bool)
      requires call.RunCall? && call.runId !in receipts && t < call.finishedAt
      requires store.Some? && Sound(OnDisk()) && UpTo(OnDisk(), t)
      modifies this
      ensures store.Some? && Sound(OnDisk()) && UpTo(OnDisk(), call.finishedAt)
      ensures receipts.Keys <= old(receipts.Keys) + {call.runId}
      ensures Explained(zones, old(Effective(OnDisk(), zones)), call, Ran(done), Effective(OnDisk(), zones))
    {
      ghost var before, routines := OnDisk(), Effective(OnDisk(), zones);
      var o; ghost var loaded;
      o, loaded := Run(call.id, call.confirmed, call.runId, call.started, call.finishedAt);
      done := o.Done?;
      if loaded.None? {
        assert OnDisk() == before;
      } else {
        LoadedIsEffective(before, loaded.value);
        EffectiveIsUpTo(before, zones, t);
        EffectiveCovers(before, zones);
        CoveredIsEffective(Disk(routines, before.receipts), zones);
        if call.confirmed && call.id in routines && routines[call.id].enabled {
          PersistingIsAtomic(routines, before.receipts, Receipt(call.runId, call.id, call.finishedAt), zones, OnDisk(),
                             t);
        } else {
          assert OnDisk() == Disk(routines, before.receipts);
        }
      }
    }

    method ServeLoad(now: Time, ghost t: Time) returns (loaded: Option<Store>)
      requires store.Some? && Sound(OnDisk()) && UpTo(OnDisk(), t)
      modifies this`store
      ensures store.Some? && Sound(OnDisk()) && UpTo(OnDisk(), t)
      ensures Effective(OnDisk(), zones) == old(Effective(OnDisk(), zones))
      ensures loaded.Some? ==> loaded.value == old(Effective(OnDisk(), zones))
    {
      ghost var before := OnDisk();
      var r := Load(now);
      if r.Err? { return None; }
      LoadedIsEffective(before, r.value);
      EffectiveIsUpTo(before, zones, t);
      EffectiveCovers(before, zones);
      CoveredIsEffective(OnDisk(), zones);
      loaded := Some(r.value);
    }

    method Serve(call: Call, ghost t: Time, ghost used: set<RunId>) returns (answer: Answer)
      requires store.Some? && Sound(OnDisk()) && UpTo(OnDisk(), t) && receipts.Keys <= used && Timely([call], t, used)
      modifies this
      ensures store.Some? && Sound(OnDisk())
      ensures UpTo(OnDisk(), if call.RunCall? then call.finishedAt else t)
      ensures receipts.Keys <= if call.RunCall? then used + {call.runId} else used
      ensures Explained(zones, old(Effective(OnDisk(), zones)), call, answer, Effective(OnDisk(), zones))
    {
      assert [call][0] == call;
      if call.LoadCall? {
        var loaded := ServeLoad(call.now, t);
        answer := Loaded(loaded);
      } else {
        var done := ServeRun(call, t);
        answer := Ran(done);
      }
    }

    lemma LoadedIsEffective(d: Disk, routines: Store)
      requires Sound(d) && IsLoaded(routines, d.store, d.receipts)
      ensures routines == Effective(d, zones)
    {
      var reports :| IsListing(reports, d.receipts) && routines == Reconciled(d.store, reports, zones);
      LoadGivesEffective(d, reports, zones);
    }

    /** Every sequence of runs and loads under a clock that does not go back, each stopped at
        any point, is one in which each run happened at once or not at all, and each load
        saw the runs that did. */
    method History(calls: seq<Call>, ghost t: Time) returns (answers: seq<Answer>, ghost states: seq<Store>)
      requires store.Some? && Sound(OnDisk()) && UpTo(OnDisk(), t) && Timely(calls, t, receipts.Keys)
      modifies this
      ensures store.Some? && Sound(OnDisk()) && |answers| == |calls| && |states| == |calls| + 1
      ensures states[0] == old(Effective(OnDisk(), zones)) && states[|calls|] == Effective(OnDisk(), zones)
      ensures forall i | 0 <= i < |calls| :: Explained(zones, states[i], calls[i], answers[i], states[i + 1])
    {
      answers, states := [], [Effective(OnDisk(), zones)];
      ghost var now, used := t, receipts.Keys;
      for i := 0 to |calls|
        invariant store.Some? && Sound(OnDisk()) && UpTo(OnDisk(), now) && receipts.Keys <= used
        invariant Timely(calls[i..], now, used)
        invariant |answers| == i && |states| == i + 1 && states[i] == Effective(OnDisk(), zones)
        invariant states[0] == old(Effective(OnDisk(), zones))
        invariant forall j | 0 <= j < i :: Explained(zones, states[j], calls[j], answers[j], states[j + 1])
      {
        var call := calls[i];
        TimelyRest(calls[i..], now, used);
        assert calls[i..][0] == call && calls[i..][1..] == calls[i + 1..];
        var answer := Serve(call, now, used);
        if call.RunCall? { now, used := call.finishedAt, used + {call.runId}; }
        answers, states := answers + [answer], states + [Effective(OnDisk(), zones)];
      }
    }

    ghost predicate IsLoaded(routines: Store, stored: Store, receipts: map<RunId, Receipt>) {
      exists reports :: IsListing(reports, receipts) && routines == Reconciled(stored, reports, zones)
    }
  }

  lemma TimelyRest(calls: seq<Call>, t: Time, used: set<RunId>)
    requires calls != [] && Timely(calls, t, used)
    ensures Timely([calls[0]], t, used)
    ensures
      if calls[0].RunCall? then Timely(calls[1..], calls[0].finishedAt, used + {calls[0].runId})
      else Timely(calls[1..], t, used)
  {
  }

  lemma FirstOfExtended(reports: seq<Receipt>, i: nat)
    requires i < |reports|
    ensures forall id :: FirstOf(reports[..i + 1], id) == OrElse(FirstOf(reports[..i], id), reports[i], id)
  {
    forall id ensures FirstOf(reports[..i + 1], id) == OrElse(FirstOf(reports[..i], id), reports[i], id) {
      assert reports[..i + 1] == reports[..i] + [reports[i]];
      FirstOfAppended(reports[..i], reports[i], id);
    }
  }

  function OrElse(found: Option<Receipt>, r: Receipt, id: Id): Option<Receipt> {
    if found.Some? then found else if r.routineId == id then Some(r) else None
  }

  lemma {:induction false} FirstOfAppended(reports: seq<Receipt>, r: Receipt, id: Id)
    ensures FirstOf(reports + [r], id) == OrElse(FirstOf(reports, id), r, id)
  {
    if reports == [] {
      assert reports + [r] == [r];
    } else {
      assert (reports + [r])[1..] == reports[1..] + [r];
      FirstOfAppended(reports[1..], r, id);
    }
  }
}
