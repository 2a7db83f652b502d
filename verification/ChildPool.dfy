/** The pool of persistent child sessions (internal/mcp/child_pool.go) as a protocol:
    each region between taking and releasing the mutex is one atomic step, and so is
    each event outside it (a start returning, a timer firing, a session closing). */
module ChildPool {
  import opened Wrappers

  type Key = string
  type WorkerId = nat
  type ThreadId = nat

  /** A worker is started once, so its session is named by the worker: `session` says
      that the field is set.  `ready` says the worker's channel field is still set and
      `started` that the channel was closed.  `key` is the key it was created under. */
  datatype Worker = Worker(
    key: Key, session: bool, ready: bool, started: bool, startFailed: bool,
    timer: Option<TimerId>, generation: nat, active: nat)

  datatype TimerId = TimerId(worker: WorkerId, generation: nat)

  /** Where a caller stands between two steps; callers that returned are not listed. */
  datatype Caller =
    | Starting(w: WorkerId)
    | Publishing(w: WorkerId, session: bool)
    | Waiting(w: WorkerId)
    | Acquiring(w: WorkerId)
    | Running(w: WorkerId)
    | Closing(w: WorkerId)

  datatype Verdict = Answered | NotStarted | Broken

  datatype Pool = Pool(workers: map<Key, WorkerId>, table: map<WorkerId, Worker>, closed: bool, armed: set<TimerId>,
                       next: nat)
  {
    predicate Current(w: WorkerId) {
      w in table && table[w].key in workers && workers[table[w].key] == w
    }

    function Put(w: WorkerId, worker: Worker): Pool {
      this.(table := table[w := worker])
    }
  }

  // --------------------------------------------------- regions under the mutex

  function Enter(p: Pool, key: Key): (Pool, Option<Caller>)
    requires key in p.workers ==> p.workers[key] in p.table
  {
    if p.closed then (p, None)
    else if key !in p.workers then
      (Pool(p.workers[key := p.next], p.table[p.next := Worker(key, false, true, false, false, None, 0, 0)], p.closed,
            p.armed, p.next + 1),
       Some(Starting(p.next)))
    else if p.table[p.workers[key]].ready then (p, Some(Waiting(p.workers[key])))
    else (p, Some(Acquiring(p.workers[key])))
  }

  function Publish(p: Pool, w: WorkerId, session: bool): (Pool, Option<Caller>)
    requires w in p.table
  {
    var failed := !session || p.closed;
    var p' := p.Put(w, p.table[w].(session := session, started := true, startFailed := failed));
    (if failed && p.Current(w) then p'.(workers := p.workers - {p.table[w].key}) else p',
     if !p.Current(w) || p.closed then (if session then Some(Closing(w)) else None)
     else if failed then None
     else Some(Acquiring(w)))
  }

  function Acquire(p: Pool, w: WorkerId): (Pool, Option<Caller>)
    requires w in p.table
  {
    var worker := p.table[w];
    if p.closed || !p.Current(w) || !worker.session then (p, None)
    else
      (p.Put(w,
             worker.(timer := None, ready := false, generation := worker.generation + 1, active := worker.active + 1))
        .(armed := if worker.timer.Some? then p.armed - {worker.timer.value} else p.armed),
       Some(Running(w)))
  }

  function Finish(p: Pool, w: WorkerId, verdict: Verdict): (Pool, Option<Caller>)
    requires w in p.table
  {
    var worker := p.table[w].(active := if p.table[w].active > 0 then p.table[w].active - 1 else 0);
    var last := if worker.active == 0 then Some(Closing(w)) else None;
    if verdict.Broken? then
      (p.Put(w, worker).(workers := if p.Current(w) then p.workers - {worker.key} else p.workers), last)
    else if !p.Current(w) then (p.Put(w, worker), last)
    else if worker.active == 0 then
      var id := TimerId(w, worker.generation);
      (p.Put(w, worker.(timer := Some(id))).(armed := p.armed + {id}), None)
    else (p.Put(w, worker), None)
  }

  function Expire(p: Pool, id: TimerId): (Pool, bool)
    requires id.worker in p.table
  {
    var worker := p.table[id.worker];
    if !p.Current(id.worker) || worker.generation != id.generation || worker.active != 0 then (p, false)
    else (p.(workers := p.workers - {worker.key}), true)
  }

  function Shutdown(p: Pool): (Pool, set<WorkerId>)
    requires p.workers.Values <= p.table.Keys
  {
    (p.(workers := map[], closed := true,
        armed := set id <- p.armed | !(id.worker in p.workers.Values && p.table[id.worker].timer == Some(id))),
     p.workers.Values)
  }

  // ------------------------------------------------------------- the system

  datatype Closer = NotCalled | Draining(victims: set<WorkerId>) | Returned

  datatype System = System(
    pool: Pool, callers: map<ThreadId, Caller>, expiring: set<TimerId>, doomed: set<WorkerId>,
    closer: Closer, open: set<WorkerId>)

  datatype Action =
    | Call(t: ThreadId, key: Key)
    | StartReturns(t: ThreadId, ok: bool)
    | PublishStart(t: ThreadId)
    | Wake(t: ThreadId)
    | GiveUp(t: ThreadId)
    | TryAcquire(t: ThreadId)
    | Complete(t: ThreadId, verdict: Verdict)
    | CallerCloses(t: ThreadId)
    | Fire(id: TimerId)
    | RunExpire(id: TimerId)
    | TimerCloses(w: WorkerId)
    | BeginClose
    | CloseWorker(w: WorkerId)
    | EndClose

  function Initial(): System {
    System(Pool(map[], map[], false, {}, 0), map[], {}, {}, NotCalled, {})
  }

  function Continue(callers: map<ThreadId, Caller>, t: ThreadId, next: Option<Caller>): map<ThreadId, Caller> {
    if next.Some? then callers[t := next.value] else callers - {t}
  }

  /** The caller's region ran: the pool is the new one and the caller goes on or returns. */
  function Resume(s: System, t: ThreadId, region: (Pool, Option<Caller>)): System {
    s.(pool := region.0, callers := Continue(s.callers, t, region.1))
  }

  predicate Enabled(s: System, a: Action) {
    match a
    case Call(t, key) => t !in s.callers && (key in s.pool.workers ==> s.pool.workers[key] in s.pool.table)
    case StartReturns(t, _) => t in s.callers && s.callers[t].Starting?
    case PublishStart(t) => t in s.callers && s.callers[t].Publishing? && s.callers[t].w in s.pool.table
    case Wake(t) =>
      && t in s.callers && s.callers[t].Waiting?
      && s.callers[t].w in s.pool.table && s.pool.table[s.callers[t].w].started
    case GiveUp(t) => t in s.callers && s.callers[t].Waiting?
    case TryAcquire(t) => t in s.callers && s.callers[t].Acquiring? && s.callers[t].w in s.pool.table
    case Complete(t, _) =>
      t in s.callers && s.callers[t].Running? && s.callers[t].w in s.pool.table
    case CallerCloses(t) => t in s.callers && s.callers[t].Closing?
    case Fire(id) => id in s.pool.armed
    case RunExpire(id) => id in s.expiring && id.worker in s.pool.table
    case TimerCloses(w) => w in s.doomed
    case BeginClose => s.closer.NotCalled? && s.pool.workers.Values <= s.pool.table.Keys
    case CloseWorker(w) =>
      && s.closer.Draining? && w in s.closer.victims && w in s.pool.table
      && (s.pool.table[w].ready ==> s.pool.table[w].started)
    case EndClose => s.closer == Draining({})
  }

  function Next(s: System, a: Action): System
    requires Enabled(s, a)
  {
    match a
    case Call(t, key) =>
      Resume(s, t, Enter(s.pool, key))
    case StartReturns(t, ok) =>
      var w := s.callers[t].w;
      Resume(s, t, (s.pool, Some(Publishing(w, ok)))).(open := if ok then s.open + {w} else s.open)
    case PublishStart(t) =>
      Resume(s, t, Publish(s.pool, s.callers[t].w, s.callers[t].session))
    case Wake(t) =>
      var w := s.callers[t].w;
      Resume(s, t, (s.pool, if s.pool.table[w].startFailed then None else Some(Acquiring(w))))
    case GiveUp(t) => Resume(s, t, (s.pool, None))
    case TryAcquire(t) =>
      Resume(s, t, Acquire(s.pool, s.callers[t].w))
    case Complete(t, verdict) =>
      Resume(s, t, Finish(s.pool, s.callers[t].w, verdict))
    case CallerCloses(t) => Resume(s, t, (s.pool, None)).(open := s.open - {s.callers[t].w})
    case Fire(id) => s.(pool := s.pool.(armed := s.pool.armed - {id}), expiring := s.expiring + {id})
    case RunExpire(id) =>
      var (pool, evicted) := Expire(s.pool, id);
      s.(pool := pool, expiring := s.expiring - {id},
         doomed := if evicted then s.doomed + {id.worker} else s.doomed)
    case TimerCloses(w) => s.(doomed := s.doomed - {w}, open := s.open - {w})
    case BeginClose =>
      var (pool, victims) := Shutdown(s.pool);
      s.(pool := pool, closer := Draining(victims))
    case CloseWorker(w) =>
      s.(closer := Draining(s.closer.victims - {w}),
         open := if s.pool.table[w].session then s.open - {w} else s.open)
    case EndClose => s.(closer := Returned)
  }

  // -------------------------------------------------------------- invariant

  function RunningOn(callers: map<ThreadId, Caller>, w: WorkerId): set<ThreadId> {
    set t <- callers | callers[t] == Running(w)
  }

  ghost predicate PoolShape(p: Pool) {
    && (forall k <- p.workers :: p.workers[k] in p.table && p.table[p.workers[k]].key == k)
    && (forall w <- p.table :: w < p.next)
    && (p.closed ==> p.workers == map[])
    && (forall w <- p.table ::
          && (p.table[w].session ==> p.table[w].started)
          && (p.table[w].generation > 0 ==> p.table[w].session)
          && (!p.table[w].ready ==> p.table[w].session)
          && (p.table[w].timer.Some? ==> p.table[w].timer.value.worker == w)
          && (p.Current(w) && p.table[w].started ==> p.table[w].session))
  }

  predicate Starts(c: Caller) {
    c.Starting? || c.Publishing?
  }

  ghost predicate CallersBelong(p: Pool, callers: map<ThreadId, Caller>) {
    && (forall t <- callers :: callers[t].w in p.table)
    && (forall t <- callers :: callers[t].Running? ==> p.table[callers[t].w].generation > 0)
    && (forall t <- callers :: Starts(callers[t]) ==> !p.table[callers[t].w].started)
  }

  ghost predicate UniqueStarters(callers: map<ThreadId, Caller>) {
    forall t <- callers, u <- callers ::
      Starts(callers[t]) && Starts(callers[u]) && callers[t].w == callers[u].w ==> t == u
  }

  ghost predicate Counted(p: Pool, callers: map<ThreadId, Caller>) {
    forall w <- p.table :: p.table[w].active == |RunningOn(callers, w)|
  }

  ghost predicate TimersBelong(p: Pool, timers: set<TimerId>) {
    forall id <- timers :: id.worker in p.table && 0 < id.generation <= p.table[id.worker].generation
  }

  ghost predicate CloserShape(s: System) {
    && (s.pool.closed <==> !s.closer.NotCalled?)
    && (s.closer.Draining? ==> s.closer.victims <= s.pool.table.Keys)
  }

  ghost predicate Stands(callers: map<ThreadId, Caller>, c: Caller) {
    exists t <- callers :: callers[t] == c
  }

  /** A caller or a timer is about to close the worker's session. */
  ghost predicate Pending(s: System, w: WorkerId) {
    w in s.doomed || Stands(s.callers, Closing(w))
  }

  ghost predicate PendingIsUnused(s: System) {
    !s.pool.closed ==>
      forall w :: Pending(s, w) ==> w in s.pool.table && !s.pool.Current(w) && s.pool.table[w].active == 0
  }

  /** Unless the pool was closed, a session in use is open, and so is every session a
      caller could still get hold of. */
  ghost predicate Safe(s: System) {
    !s.pool.closed ==>
      && (forall t <- s.callers :: s.callers[t].Running? ==> s.callers[t].w in s.open)
      && (forall w <- s.pool.table :: s.pool.Current(w) && s.pool.table[w].session ==> w in s.open)
      && (forall t <- s.callers :: Starts(s.callers[t]) ==> s.pool.Current(s.callers[t].w))
      && (forall t <- s.callers :: s.callers[t].Publishing? && s.callers[t].session ==> s.callers[t].w in s.open)
  }

  /** Someone is responsible for the worker's open session. */
  ghost predicate Held(s: System, w: WorkerId)
    requires w in s.pool.table
  {
    || s.pool.table[w].active > 0
    || (if s.pool.Current(w)
        then Stands(s.callers, Acquiring(w)) || TimerId(w, s.pool.table[w].generation) in s.pool.armed + s.expiring
        else Pending(s, w) || (s.closer.Draining? && w in s.closer.victims))
  }

  ghost predicate Accounted(s: System, w: WorkerId) {
    && w in s.pool.table
    && (Stands(s.callers, Publishing(w, true)) || (s.pool.table[w].session && Held(s, w)))
  }

  ghost predicate NoLeak(s: System) {
    forall w <- s.open :: Accounted(s, w)
  }

  ghost predicate Inv(s: System) {
    && PoolShape(s.pool)
    && CallersBelong(s.pool, s.callers)
    && UniqueStarters(s.callers)
    && Counted(s.pool, s.callers)
    && TimersBelong(s.pool, s.pool.armed + s.expiring)
    && CloserShape(s)
    && PendingIsUnused(s)
    && Safe(s)
    && NoLeak(s)
  }
  // ----------------------------------------------------------- preservation

  lemma RunningOnContinue(callers: map<ThreadId, Caller>, t: ThreadId, next: Option<Caller>, w: WorkerId)
    ensures RunningOn(Continue(callers, t, next), w)
         == (RunningOn(callers, w) - {t}) + (if next == Some(Running(w)) then {t} else {})
  {
  }

  lemma StandsContinue(callers: map<ThreadId, Caller>, t: ThreadId, next: Option<Caller>, c: Caller)
    ensures Stands(callers, c) && !(t in callers && callers[t] == c) ==> Stands(Continue(callers, t, next), c)
    ensures next == Some(c) ==> Stands(Continue(callers, t, next), c)
    ensures Stands(Continue(callers, t, next), c) ==> Stands(callers, c) || next == Some(c)
  {
    if u :| u in callers && callers[u] == c && u != t {
      assert Continue(callers, t, next)[u] == c;
    }
    if next == Some(c) {
      assert Continue(callers, t, next)[t] == c;
    }
  }

  /** What a region under the mutex may change: its own worker, that worker's timers and
      place in the map, or a worker nobody knows yet. */
  ghost predicate Local(p: Pool, p': Pool, own: WorkerId) {
    && p'.closed == p.closed
    && p.table.Keys <= p'.table.Keys <= p.table.Keys + {own}
    && (forall w <- p.table :: w != own ==> p'.table[w] == p.table[w] && p'.Current(w) == p.Current(w))
    && (forall id: TimerId :: id.worker != own ==> (id in p'.armed <==> id in p.armed))
    && (own in p.table ==>
          && p'.table[own].generation >= p.table[own].generation
          && (p'.Current(own) ==> p.Current(own)))
  }

  ghost predicate Moves(s: System, t: ThreadId, region: (Pool, Option<Caller>), own: WorkerId) {
    && Local(s.pool, region.0, own)
    && (t in s.callers ==> s.callers[t].w == own)
    && (forall u <- s.callers :: s.callers[u].w in s.pool.table)
  }

  lemma CountedResume(s: System, t: ThreadId, region: (Pool, Option<Caller>), own: WorkerId)
    requires Moves(s, t, region, own) && Counted(s.pool, s.callers)
    requires own in region.0.table ==>
      region.0.table[own].active
        == (if own in s.pool.table then s.pool.table[own].active else 0)
         - (if t in s.callers && s.callers[t] == Running(own) then 1 else 0)
         + (if region.1 == Some(Running(own)) then 1 else 0)
    requires region.1.Some? && region.1.value.Running? ==> region.1.value.w == own
    ensures Counted(region.0, Resume(s, t, region).callers)
  {
    forall w <- region.0.table
      ensures region.0.table[w].active == |RunningOn(Continue(s.callers, t, region.1), w)|
    {
      RunningOnContinue(s.callers, t, region.1, w);
      if w !in s.pool.table {
        assert RunningOn(s.callers, w) == {};
      }
    }
  }

  lemma CallersResume(s: System, t: ThreadId, region: (Pool, Option<Caller>), own: WorkerId)
    requires Moves(s, t, region, own) && CallersBelong(s.pool, s.callers) && UniqueStarters(s.callers)
    requires own in s.pool.table ==>
      region.0.table[own].started == s.pool.table[own].started || (t in s.callers && Starts(s.callers[t]))
    requires region.1.Some? ==>
      && region.1.value.w in region.0.table
      && (region.1.value.Running? ==> region.0.table[region.1.value.w].generation > 0)
      && (Starts(region.1.value) ==>
            && !region.0.table[region.1.value.w].started
            && (region.1.value.w !in s.pool.table ||
                (t in s.callers && Starts(s.callers[t]) && region.1.value.w == own)))
    ensures CallersBelong(region.0, Resume(s, t, region).callers) && UniqueStarters(Resume(s, t, region).callers)
  {
    forall u <- s.callers | u != t && Starts(s.callers[u]) ensures !region.0.table[s.callers[u].w].started {
      assert s.callers[u].w in s.pool.table;
    }
    BelongResume(s, t, region, own);
    StartersResume(s.callers, t, region.1);
  }

  lemma BelongResume(s: System, t: ThreadId, region: (Pool, Option<Caller>), own: WorkerId)
    requires Moves(s, t, region, own) && CallersBelong(s.pool, s.callers)
    requires forall u <- s.callers :: u != t && Starts(s.callers[u]) ==> !region.0.table[s.callers[u].w].started
    requires region.1.Some? ==>
      && region.1.value.w in region.0.table
      && (region.1.value.Running? ==> region.0.table[region.1.value.w].generation > 0)
      && (Starts(region.1.value) ==> !region.0.table[region.1.value.w].started)
    ensures CallersBelong(region.0, Resume(s, t, region).callers)
  {
  }

  lemma StartersResume(callers: map<ThreadId, Caller>, t: ThreadId, next: Option<Caller>)
    requires UniqueStarters(callers)
    requires next.Some? && Starts(next.value) ==>
      forall u <- callers :: u != t && Starts(callers[u]) ==> callers[u].w != next.value.w
    ensures UniqueStarters(Continue(callers, t, next))
  {
  }

  lemma TimersResume(s: System, t: ThreadId, region: (Pool, Option<Caller>), own: WorkerId)
    requires Moves(s, t, region, own) && TimersBelong(s.pool, s.pool.armed + s.expiring)
    requires own in region.0.table
    requires forall id <- region.0.armed :: id.worker == own && id !in s.pool.armed ==>
      0 < id.generation <= region.0.table[own].generation
    ensures TimersBelong(region.0, region.0.armed + s.expiring)
  {
  }

  ghost predicate Unused(p: Pool, w: WorkerId) {
    w in p.table && !p.Current(w) && p.table[w].active == 0
  }

  /** What is on its way out stays unused, and only an unused session is put there. */
  lemma PendingResume(s: System, t: ThreadId, region: (Pool, Option<Caller>), own: WorkerId)
    requires Moves(s, t, region, own) && PendingIsUnused(s)
    requires Unused(s.pool, own) ==> Unused(region.0, own)
    requires region.1.Some? && region.1.value.Closing? && !s.pool.closed ==> Unused(region.0, region.1.value.w)
    ensures PendingIsUnused(Resume(s, t, region))
  {
    forall w | Pending(Resume(s, t, region), w) && !s.pool.closed
      ensures Unused(region.0, w)
    {
      StandsContinue(s.callers, t, region.1, Closing(w));
      if Pending(s, w) { assert Unused(s.pool, w); }
    }
  }

  ghost predicate AnotherStarts(s: System, t: ThreadId, w: WorkerId) {
    exists u <- s.callers :: u != t && Starts(s.callers[u]) && s.callers[u].w == w
  }

  lemma SafeResume(s: System, t: ThreadId, region: (Pool, Option<Caller>), own: WorkerId)
    requires Moves(s, t, region, own) && Safe(s)
    requires !s.pool.closed ==>
      && (own in region.0.table && region.0.Current(own) && region.0.table[own].session ==> own in s.open)
      && (s.pool.Current(own) && AnotherStarts(s, t, own) ==> region.0.Current(own))
      && (region.1.Some? ==>
            && (region.1.value.Running? ==> region.1.value.w in s.open)
            && (Starts(region.1.value) ==> region.0.Current(region.1.value.w))
            && (region.1.value.Publishing? && region.1.value.session ==> region.1.value.w in s.open))
    ensures Safe(Resume(s, t, region))
  {
  }

  /** A caller's step leaves alone whoever answers for another worker's session. */
  lemma NoLeakResume(s: System, t: ThreadId, region: (Pool, Option<Caller>), own: WorkerId)
    requires Moves(s, t, region, own) && NoLeak(s)
    requires own in s.open ==> Accounted(Resume(s, t, region), own)
    ensures NoLeak(Resume(s, t, region))
  {
    forall w <- s.open
      ensures Accounted(Resume(s, t, region), w)
    {
      if w != own {
        AccountedResume(s, t, region, w);
      }
    }
  }

  lemma AccountedResume(s: System, t: ThreadId, region: (Pool, Option<Caller>), w: WorkerId)
    requires Accounted(s, w)
    requires t in s.callers ==> s.callers[t] !in {Publishing(w, true), Acquiring(w), Closing(w)}
    requires w in region.0.table && region.0.table[w] == s.pool.table[w]
    requires region.0.Current(w) == s.pool.Current(w)
    requires forall g :: TimerId(w, g) in s.pool.armed ==> TimerId(w, g) in region.0.armed
    ensures Accounted(Resume(s, t, region), w)
  {
    StandsContinue(s.callers, t, region.1, Publishing(w, true));
    StandsContinue(s.callers, t, region.1, Acquiring(w));
    StandsContinue(s.callers, t, region.1, Closing(w));
  }

  /** What a region must establish about its own worker for the invariant to survive. */
  ghost predicate OwnWorkerKept(s: System, t: ThreadId, region: (Pool, Option<Caller>), own: WorkerId)
    requires own in s.pool.table && own in region.0.table
  {
    var before, after, next := s.pool.table[own], region.0.table[own], region.1;
    && (next.Some? ==> next.value.w == own && next.value != Starting(own))
    && after.active == before.active
         - (if t in s.callers && s.callers[t] == Running(own) then 1 else 0)
         + (if next == Some(Running(own)) then 1 else 0)
    && (after.started == before.started || (t in s.callers && Starts(s.callers[t])))
    && (next == Some(Running(own)) ==> after.generation > 0)
    && (next.Some? && next.value.Publishing? ==> !after.started && t in s.callers && Starts(s.callers[t]))
    && (forall id <- region.0.armed ::
          id.worker == own && id !in s.pool.armed ==> 0 < id.generation <= after.generation)
    && (Unused(s.pool, own) ==> Unused(region.0, own))
  }

  ghost predicate OwnWorkerSafe(s: System, t: ThreadId, region: (Pool, Option<Caller>), own: WorkerId)
    requires own in s.pool.table && own in region.0.table
  {
    !s.pool.closed ==>
      && (region.1 == Some(Closing(own)) ==> Unused(region.0, own))
      && (region.0.Current(own) && region.0.table[own].session ==> own in s.open)
      && (region.1 == Some(Running(own)) || region.1 == Some(Publishing(own, true)) ==> own in s.open)
      && (s.pool.Current(own) && AnotherStarts(s, t, own) ==> region.0.Current(own))
      && (region.1.Some? && region.1.value.Publishing? ==> region.0.Current(own))
  }

  lemma ResumeKeepsInv(s: System, t: ThreadId, region: (Pool, Option<Caller>), own: WorkerId)
    requires Inv(s) && own in s.pool.table && PoolShape(region.0) && Moves(s, t, region, own)
    requires OwnWorkerKept(s, t, region, own) && OwnWorkerSafe(s, t, region, own)
    requires own in s.open ==> Accounted(Resume(s, t, region), own)
    ensures Inv(Resume(s, t, region))
  {
    CountedResume(s, t, region, own);
    CallersResume(s, t, region, own);
    TimersResume(s, t, region, own);
    PendingResume(s, t, region, own);
    SafeResume(s, t, region, own);
    NoLeakResume(s, t, region, own);
  }

  // the regions one by one

  /** A caller that holds nothing queues for a worker or leaves. */
  lemma QueueKeepsInv(s: System, t: ThreadId, own: WorkerId, next: Option<Caller>)
    requires Inv(s) && own in s.pool.table
    requires t in s.callers ==> s.callers[t] == Waiting(own)
    requires next == None || next == Some(Waiting(own)) || next == Some(Acquiring(own))
    ensures Inv(Resume(s, t, (s.pool, next)))
  {
    if own in s.open { AccountedResume(s, t, (s.pool, next), own); }
    ResumeKeepsInv(s, t, (s.pool, next), own);
  }

  lemma CreateKeepsShape(p: Pool, key: Key)
    requires PoolShape(p) && !p.closed && key !in p.workers
    ensures PoolShape(Enter(p, key).0) && Local(p, Enter(p, key).0, p.next)
  {
  }

  lemma CreateKeepsInv(s: System, t: ThreadId, key: Key)
    requires Inv(s) && t !in s.callers && !s.pool.closed && key !in s.pool.workers
    ensures Inv(Resume(s, t, Enter(s.pool, key)))
  {
    var own, region := s.pool.next, Enter(s.pool, key);
    CreateKeepsShape(s.pool, key);
    CreateKeepsCallers(s, t, key);
    assert PendingIsUnused(Resume(s, t, region)) by { PendingResume(s, t, region, own); }
    assert Safe(Resume(s, t, region)) by { SafeResume(s, t, region, own); }
    assert NoLeak(Resume(s, t, region)) by { NoLeakResume(s, t, region, own); }
  }

  lemma CreateKeepsCallers(s: System, t: ThreadId, key: Key)
    requires PoolShape(s.pool) && CallersBelong(s.pool, s.callers) && UniqueStarters(s.callers)
    requires Counted(s.pool, s.callers)
    requires t !in s.callers && !s.pool.closed && key !in s.pool.workers
    ensures var region := Enter(s.pool, key); var callers := Resume(s, t, region).callers;
      CallersBelong(region.0, callers) && UniqueStarters(callers) && Counted(region.0, callers)
  {
    CreateKeepsShape(s.pool, key);
    CountedResume(s, t, Enter(s.pool, key), s.pool.next);
    CallersResume(s, t, Enter(s.pool, key), s.pool.next);
  }

  lemma CallKeepsInv(s: System, t: ThreadId, key: Key)
    requires Inv(s) && Enabled(s, Call(t, key))
    ensures Inv(Next(s, Call(t, key)))
  {
    if s.pool.closed {
      assert s.callers - {t} == s.callers;
    } else if key in s.pool.workers {
      QueueKeepsInv(s, t, s.pool.workers[key], Enter(s.pool, key).1);
    } else {
      CreateKeepsInv(s, t, key);
    }
  }

  lemma StartReturnsKeepsInv(s: System, t: ThreadId, ok: bool)
    requires Inv(s) && Enabled(s, StartReturns(t, ok))
    ensures Inv(Next(s, StartReturns(t, ok)))
  {
    var own := s.callers[t].w;
    var region := (s.pool, Some(Publishing(own, ok)));
    var s' := s.(open := if ok then s.open + {own} else s.open);
    assert Next(s, StartReturns(t, ok)) == Resume(s', t, region);
    assert Safe(s');
    assert Moves(s', t, region, own);
    CountedResume(s', t, region, own);
    CallersResume(s', t, region, own);
    PendingResume(s', t, region, own);
    SafeResume(s', t, region, own);
    StartedSessionIsAccounted(s, s', t, own, ok);
  }

  lemma StartedSessionIsAccounted(s: System, s': System, t: ThreadId, own: WorkerId, ok: bool)
    requires NoLeak(s) && t in s.callers && s.callers[t] == Starting(own) && own in s.pool.table
    requires s' == s.(open := if ok then s.open + {own} else s.open)
    ensures NoLeak(Resume(s', t, (s.pool, Some(Publishing(own, ok)))))
  {
    var region := (s.pool, Some(Publishing(own, ok)));
    forall w <- s'.open
      ensures Accounted(Resume(s', t, region), w)
    {
      if w in s.open {
        assert Accounted(s, w);
        assert Accounted(s', w);
        AccountedResume(s', t, region, w);
      } else {
        StandsContinue(s.callers, t, region.1, Publishing(own, true));
      }
    }
  }

  lemma PendingHasNoCaller(s: System, w: WorkerId)
    requires Counted(s.pool, s.callers) && PendingIsUnused(s) && Pending(s, w) && !s.pool.closed
    ensures forall t <- s.callers :: s.callers[t] != Running(w)
  {
    assert RunningOn(s.callers, w) == {};
    assert forall t <- s.callers :: s.callers[t] == Running(w) ==> t in RunningOn(s.callers, w);
  }

  lemma PublishKeepsShape(p: Pool, w: WorkerId, session: bool)
    requires PoolShape(p) && w in p.table && !p.table[w].started
    ensures PoolShape(Publish(p, w, session).0)
  {
  }

  lemma PublishIsLocal(p: Pool, w: WorkerId, session: bool)
    requires w in p.table
    ensures Local(p, Publish(p, w, session).0, w)
  {
  }

  lemma PublishKeepsOwnWorker(s: System, t: ThreadId, w: WorkerId, session: bool)
    requires PoolShape(s.pool) && CallersBelong(s.pool, s.callers)
    requires t in s.callers && s.callers[t] == Publishing(w, session)
    ensures OwnWorkerKept(s, t, Publish(s.pool, w, session), w)
  {
  }

  lemma PublishKeepsOwnWorkerSafe(s: System, t: ThreadId, w: WorkerId, session: bool)
    requires PoolShape(s.pool) && CallersBelong(s.pool, s.callers) && UniqueStarters(s.callers) && Safe(s)
    requires t in s.callers && s.callers[t] == Publishing(w, session)
    ensures OwnWorkerSafe(s, t, Publish(s.pool, w, session), w)
  {
  }

  lemma PublishKeepsInv(s: System, t: ThreadId)
    requires Inv(s) && Enabled(s, PublishStart(t))
    ensures Inv(Next(s, PublishStart(t)))
  {
    var own, session := s.callers[t].w, s.callers[t].session;
    var region := Publish(s.pool, own, session);
    PublishKeepsShape(s.pool, own, session);
    PublishIsLocal(s.pool, own, session);
    PublishKeepsOwnWorker(s, t, own, session);
    PublishKeepsOwnWorkerSafe(s, t, own, session);
    if own in s.open { PublishAccounts(s, t, own, session); }
    ResumeKeepsInv(s, t, region, own);
  }

  /** The session that is published is acquired next, closed by its starter, or waited for
      by the closer. */
  lemma PublishAccounts(s: System, t: ThreadId, w: WorkerId, session: bool)
    requires PoolShape(s.pool) && CallersBelong(s.pool, s.callers) && UniqueStarters(s.callers) && NoLeak(s)
    requires t in s.callers && s.callers[t] == Publishing(w, session) && w in s.open
    ensures Accounted(Resume(s, t, Publish(s.pool, w, session)), w)
  {
    var region := Publish(s.pool, w, session);
    StandsContinue(s.callers, t, region.1, Acquiring(w));
    StandsContinue(s.callers, t, region.1, Closing(w));
    assert Accounted(s, w);
  }

  lemma AcquireKeepsShape(p: Pool, w: WorkerId)
    requires PoolShape(p) && w in p.table
    ensures PoolShape(Acquire(p, w).0)
  {
  }

  lemma AcquireIsLocal(p: Pool, w: WorkerId)
    requires w in p.table && (p.table[w].timer.Some? ==> p.table[w].timer.value.worker == w)
    ensures Local(p, Acquire(p, w).0, w)
  {
  }

  lemma AcquireKeepsOwnWorker(s: System, t: ThreadId, w: WorkerId)
    requires PoolShape(s.pool) && CallersBelong(s.pool, s.callers) && Safe(s)
    requires t in s.callers && s.callers[t] == Acquiring(w)
    ensures OwnWorkerKept(s, t, Acquire(s.pool, w), w)
  {
  }

  lemma AcquireKeepsOwnWorkerSafe(s: System, t: ThreadId, w: WorkerId)
    requires PoolShape(s.pool) && CallersBelong(s.pool, s.callers) && Safe(s)
    requires t in s.callers && s.callers[t] == Acquiring(w)
    ensures OwnWorkerSafe(s, t, Acquire(s.pool, w), w)
  {
  }

  lemma AcquireKeepsInv(s: System, t: ThreadId)
    requires Inv(s) && Enabled(s, TryAcquire(t))
    ensures Inv(Next(s, TryAcquire(t)))
  {
    var own := s.callers[t].w;
    var region := Acquire(s.pool, own);
    AcquireKeepsShape(s.pool, own);
    AcquireIsLocal(s.pool, own);
    AcquireKeepsOwnWorker(s, t, own);
    AcquireKeepsOwnWorkerSafe(s, t, own);
    if own in s.open {
      StandsContinue(s.callers, t, region.1, Publishing(own, true));
      StandsContinue(s.callers, t, region.1, Closing(own));
    }
    ResumeKeepsInv(s, t, region, own);
  }

  lemma PutKeepsShape(p: Pool, w: WorkerId, worker: Worker)
    requires PoolShape(p) && w in p.table && worker.session && worker.started && worker.key == p.table[w].key
    requires worker.timer.Some? ==> worker.timer.value.worker == w
    ensures PoolShape(p.Put(w, worker))
  {
  }

  lemma DropKeepsShape(p: Pool, key: Key)
    requires PoolShape(p)
    ensures PoolShape(p.(workers := p.workers - {key}))
  {
  }

  lemma FinishKeepsShape(p: Pool, w: WorkerId, verdict: Verdict)
    requires PoolShape(p) && w in p.table && p.table[w].session
    ensures PoolShape(Finish(p, w, verdict).0)
  {
    var worker := Finish(p, w, verdict).0.table[w];
    assert worker == p.table[w].(active := worker.active, timer := worker.timer);
    PutKeepsShape(p, w, worker);
    DropKeepsShape(p.Put(w, worker), worker.key);
  }

  lemma FinishIsLocal(p: Pool, w: WorkerId, verdict: Verdict)
    requires w in p.table
    ensures Local(p, Finish(p, w, verdict).0, w)
  {
  }

  lemma FinishKeepsOwnWorker(s: System, t: ThreadId, w: WorkerId, verdict: Verdict)
    requires PoolShape(s.pool) && CallersBelong(s.pool, s.callers) && Safe(s)
    requires t in s.callers && s.callers[t] == Running(w) && s.pool.table[w].active > 0
    ensures OwnWorkerKept(s, t, Finish(s.pool, w, verdict), w)
  {
  }

  lemma FinishKeepsOwnWorkerSafe(s: System, t: ThreadId, w: WorkerId, verdict: Verdict)
    requires PoolShape(s.pool) && CallersBelong(s.pool, s.callers) && Safe(s)
    requires t in s.callers && s.callers[t] == Running(w) && s.pool.table[w].active > 0
    ensures OwnWorkerSafe(s, t, Finish(s.pool, w, verdict), w)
  {
  }

  lemma FinishKeepsInv(s: System, t: ThreadId, verdict: Verdict)
    requires Inv(s) && Enabled(s, Complete(t, verdict))
    ensures Inv(Next(s, Complete(t, verdict)))
  {
    var own := s.callers[t].w;
    var region := Finish(s.pool, own, verdict);
    assert t in RunningOn(s.callers, own);
    FinishKeepsShape(s.pool, own, verdict);
    FinishIsLocal(s.pool, own, verdict);
    FinishKeepsOwnWorker(s, t, own, verdict);
    FinishKeepsOwnWorkerSafe(s, t, own, verdict);
    if own in s.open {
      StandsContinue(s.callers, t, region.1, Publishing(own, true));
      StandsContinue(s.callers, t, region.1, Closing(own));
    }
    ResumeKeepsInv(s, t, region, own);
  }

  lemma ClosingPendingIsSafe(s: System, w: WorkerId)
    requires Counted(s.pool, s.callers) && PendingIsUnused(s) && Safe(s) && Pending(s, w)
    ensures Safe(s.(open := s.open - {w}))
  {
    if !s.pool.closed { PendingHasNoCaller(s, w); }
  }

  lemma ClosingOneAccountsForTheRest(s: System, t: ThreadId, own: WorkerId)
    requires NoLeak(s) && t in s.callers && s.callers[t] == Closing(own)
    ensures NoLeak(Resume(s, t, (s.pool, None)).(open := s.open - {own}))
  {
    var n := Resume(s, t, (s.pool, None)).(open := s.open - {own});
    forall w <- n.open
      ensures Accounted(n, w)
    {
      assert Accounted(s, w);
      AccountedResume(s, t, (s.pool, None), w);
      assert Accounted(Resume(s, t, (s.pool, None)), w);
    }
  }

  lemma CallerClosesKeepsInv(s: System, t: ThreadId)
    requires Inv(s) && Enabled(s, CallerCloses(t))
    ensures Inv(Next(s, CallerCloses(t)))
  {
    var own, region := s.callers[t].w, (s.pool, None);
    var s' := s.(open := s.open - {own});
    assert Next(s, CallerCloses(t)) == Resume(s', t, region);
    assert Pending(s, own);
    ClosingPendingIsSafe(s, own);
    assert Moves(s', t, region, own);
    CountedResume(s', t, region, own);
    CallersResume(s', t, region, own);
    PendingResume(s', t, region, own);
    SafeResume(s', t, region, own);
    ClosingOneAccountsForTheRest(s, t, own);
  }

  lemma TimerClosesKeepsInv(s: System, w: WorkerId)
    requires Inv(s) && Enabled(s, TimerCloses(w))
    ensures Inv(Next(s, TimerCloses(w)))
  {
    ClosingPendingIsSafe(s, w);
  }

  lemma FireAccounts(s: System, id: TimerId)
    requires NoLeak(s) && id in s.pool.armed
    ensures NoLeak(Next(s, Fire(id)))
  {
    var n := Next(s, Fire(id));
    assert n.pool.armed + n.expiring == s.pool.armed + s.expiring;
    forall w <- s.open ensures Accounted(n, w) {
      assert Accounted(s, w);
      assert n.pool.Current(w) == s.pool.Current(w) && (Pending(n, w) == Pending(s, w));
    }
  }

  lemma FireKeepsInv(s: System, id: TimerId)
    requires Inv(s) && Enabled(s, Fire(id))
    ensures Inv(Next(s, Fire(id)))
  {
    var n := Next(s, Fire(id));
    assert n.pool.armed + n.expiring == s.pool.armed + s.expiring;
    assert forall w :: n.pool.Current(w) == s.pool.Current(w) && Pending(n, w) == Pending(s, w);
    FireAccounts(s, id);
  }

  lemma ExpireRegion(p: Pool, id: TimerId)
    requires PoolShape(p) && id.worker in p.table && 0 < id.generation
    ensures PoolShape(Expire(p, id).0) && Local(p, Expire(p, id).0, id.worker)
    ensures Expire(p, id).0.table == p.table && Expire(p, id).0.armed == p.armed
    ensures Expire(p, id).1 ==> Unused(Expire(p, id).0, id.worker) && p.table[id.worker].session
    ensures !Expire(p, id).1 ==>
      Expire(p,
             id).0 == p && (p.Current(id.worker) ==>
               p.table[id.worker].generation != id.generation || p.table[id.worker].active > 0)
  {
  }

  lemma RunExpireAccounts(s: System, n: System, id: TimerId, w: WorkerId)
    requires Accounted(s, w) && id.worker in s.pool.table && Local(s.pool, n.pool, id.worker)
    requires n.pool.table == s.pool.table && n.pool.armed == s.pool.armed && n.callers == s.callers
    requires n.closer == s.closer
    requires n.expiring == s.expiring - {id} && s.doomed <= n.doomed
    requires n.pool == s.pool ||
      (id.worker in n.doomed && !n.pool.Current(id.worker) && s.pool.table[id.worker].session)
    requires n.pool == s.pool && s.pool.Current(id.worker) ==>
      s.pool.table[id.worker].generation != id.generation || s.pool.table[id.worker].active > 0
    ensures Accounted(n, w)
  {
  }

  lemma RunExpirePending(s: System, id: TimerId)
    requires PoolShape(s.pool) && PendingIsUnused(s) && Enabled(s, RunExpire(id)) && 0 < id.generation
    ensures PendingIsUnused(Next(s, RunExpire(id)))
  {
    var n := Next(s, RunExpire(id));
    ExpireRegion(s.pool, id);
    forall w | Pending(n, w) && !s.pool.closed ensures Unused(n.pool, w) {
      if w != id.worker || !Expire(s.pool, id).1 { assert Pending(s, w); }
    }
  }

  lemma RunExpireSafe(s: System, id: TimerId)
    requires PoolShape(s.pool) && CallersBelong(s.pool, s.callers) && Safe(s) && Enabled(s, RunExpire(id))
    requires 0 < id.generation
    ensures Safe(Next(s, RunExpire(id)))
  {
    ExpireRegion(s.pool, id);
    assert forall t <- s.callers :: Starts(s.callers[t]) ==> !s.pool.table[s.callers[t].w].session;
  }

  lemma RunExpireKeepsInv(s: System, id: TimerId)
    requires Inv(s) && Enabled(s, RunExpire(id))
    ensures Inv(Next(s, RunExpire(id)))
  {
    var n := Next(s, RunExpire(id));
    ExpireRegion(s.pool, id);
    RunExpirePending(s, id);
    RunExpireSafe(s, id);
    forall w <- s.open ensures Accounted(n, w) {
      RunExpireAccounts(s, n, id, w);
    }
  }

  lemma BeginCloseKeepsInv(s: System)
    requires Inv(s) && Enabled(s, BeginClose)
    ensures Inv(Next(s, BeginClose))
  {
  }

  lemma CloseWorkerKeepsInv(s: System, w: WorkerId)
    requires Inv(s) && Enabled(s, CloseWorker(w))
    ensures Inv(Next(s, CloseWorker(w)))
  {
  }

  lemma EndCloseKeepsInv(s: System)
    requires Inv(s) && Enabled(s, EndClose)
    ensures Inv(Next(s, EndClose))
  {
  }

  lemma StepKeepsInv(s: System, a: Action)
    requires Inv(s) && Enabled(s, a)
    ensures Inv(Next(s, a))
  {
    match a
    case Call(t, key) => CallKeepsInv(s, t, key);
    case StartReturns(t, ok) => StartReturnsKeepsInv(s, t, ok);
    case PublishStart(t) => PublishKeepsInv(s, t);
    case Wake(t) =>
      var own := s.callers[t].w;
      QueueKeepsInv(s, t, own, if s.pool.table[own].startFailed then None else Some(Acquiring(own)));
    case GiveUp(t) => QueueKeepsInv(s, t, s.callers[t].w, None);
    case TryAcquire(t) => AcquireKeepsInv(s, t);
    case Complete(t, verdict) => FinishKeepsInv(s, t, verdict);
    case CallerCloses(t) => CallerClosesKeepsInv(s, t);
    case Fire(id) => FireKeepsInv(s, id);
    case RunExpire(id) => RunExpireKeepsInv(s, id);
    case TimerCloses(w) => TimerClosesKeepsInv(s, w);
    case BeginClose => BeginCloseKeepsInv(s);
    case CloseWorker(w) => CloseWorkerKeepsInv(s, w);
    case EndClose => EndCloseKeepsInv(s);
  }

  // ------------------------------------------------------------- whole runs

  ghost predicate IsRun(states: seq<System>, actions: seq<Action>) {
    && |states| == |actions| + 1
    && states[0] == Initial()
    && forall i | 0 <= i < |actions| :: Enabled(states[i], actions[i]) && states[i + 1] == Next(states[i], actions[i])
  }

  lemma InitialInv()
    ensures Inv(Initial())
  {
    assert forall w :: !Pending(Initial(), w);
  }

  lemma {:induction false} RunKeepsInv(states: seq<System>, actions: seq<Action>, i: nat)
    requires IsRun(states, actions) && i < |states|
    ensures Inv(states[i])
  {
    if i == 0 {
      InitialInv();
    } else {
      RunKeepsInv(states, actions, i - 1);
      StepKeepsInv(states[i - 1], actions[i - 1]);
    }
  }

  /** In every interleaving, until the pool is closed, no session is closed under a
      caller that is using it. */
  lemma NoSessionIsClosedInUse(states: seq<System>, actions: seq<Action>, i: nat, t: ThreadId)
    requires IsRun(states, actions) && i < |states|
    requires !states[i].pool.closed && t in states[i].callers && states[i].callers[t].Running?
    ensures states[i].callers[t].w in states[i].open
  {
    RunKeepsInv(states, actions, i);
  }

  /** Every open session has someone responsible for closing or reusing it. */
  lemma NoSessionIsForgotten(states: seq<System>, actions: seq<Action>, i: nat, w: WorkerId)
    requires IsRun(states, actions) && i < |states| && w in states[i].open
    ensures Accounted(states[i], w)
  {
    RunKeepsInv(states, actions, i);
  }

  // ------------------------------------------------- what outlives a close

  /** A session that a timer has taken off the map and not closed yet: nobody else will. */
  ghost predicate Evicted(s: System, w: WorkerId) {
    && w in s.open && Unused(s.pool, w) && s.pool.table[w].started
    && !Stands(s.callers, Closing(w)) && !(s.closer.Draining? && w in s.closer.victims)
  }

  ghost predicate DoomedAreEvicted(s: System) {
    forall w <- s.doomed :: Evicted(s, w)
  }

  lemma EvictedResume(s: System, t: ThreadId, region: (Pool, Option<Caller>), w: WorkerId)
    requires Evicted(s, w) && Unused(region.0, w) && region.0.table[w].started && region.1 != Some(Closing(w))
    ensures Evicted(Resume(s, t, region), w)
  {
    StandsContinue(s.callers, t, region.1, Closing(w));
  }

  /** A caller's region leaves an evicted worker alone: its own worker is another one. */
  lemma RegionKeepsEvicted(s: System, t: ThreadId, region: (Pool, Option<Caller>), own: WorkerId)
    requires DoomedAreEvicted(s) && Local(s.pool, region.0, own)
    requires own in s.doomed ==> region == (s.pool, region.1)
    requires region.1.Some? && region.1.value.Closing? ==> region.1.value.w == own && own !in s.doomed
    ensures DoomedAreEvicted(Resume(s, t, region))
  {
    forall w <- s.doomed ensures Evicted(Resume(s, t, region), w) {
      assert Evicted(s, w);
      EvictedResume(s, t, region, w);
    }
  }

  lemma CallKeepsEvicted(s: System, t: ThreadId, key: Key)
    requires Inv(s) && DoomedAreEvicted(s) && Enabled(s, Call(t, key))
    ensures DoomedAreEvicted(Next(s, Call(t, key)))
  {
    if !s.pool.closed && key !in s.pool.workers {
      CreateKeepsShape(s.pool, key);
      assert forall w <- s.doomed :: Evicted(s, w) && w in s.pool.table;
      RegionKeepsEvicted(s, t, Enter(s.pool, key), s.pool.next);
    } else {
      RegionKeepsEvicted(s, t, Enter(s.pool, key), s.pool.next);
    }
  }

  lemma PublishKeepsEvicted(s: System, t: ThreadId)
    requires Inv(s) && DoomedAreEvicted(s) && Enabled(s, PublishStart(t))
    ensures DoomedAreEvicted(Next(s, PublishStart(t)))
  {
    var own := s.callers[t].w;
    assert own in s.doomed ==> Evicted(s, own);
    PublishIsLocal(s.pool, own, s.callers[t].session);
    RegionKeepsEvicted(s, t, Publish(s.pool, own, s.callers[t].session), own);
  }

  lemma AcquireKeepsEvicted(s: System, t: ThreadId)
    requires Inv(s) && DoomedAreEvicted(s) && Enabled(s, TryAcquire(t))
    ensures DoomedAreEvicted(Next(s, TryAcquire(t)))
  {
    var own := s.callers[t].w;
    assert own in s.doomed ==> Evicted(s, own);
    AcquireIsLocal(s.pool, own);
    RegionKeepsEvicted(s, t, Acquire(s.pool, own), own);
  }

  lemma FinishKeepsEvicted(s: System, t: ThreadId, verdict: Verdict)
    requires Inv(s) && DoomedAreEvicted(s) && Enabled(s, Complete(t, verdict))
    ensures DoomedAreEvicted(Next(s, Complete(t, verdict)))
  {
    var own := s.callers[t].w;
    assert t in RunningOn(s.callers, own);
    assert own in s.doomed ==> Evicted(s, own);
    FinishIsLocal(s.pool, own, verdict);
    RegionKeepsEvicted(s, t, Finish(s.pool, own, verdict), own);
  }

  lemma CallerClosesKeepsEvicted(s: System, t: ThreadId)
    requires DoomedAreEvicted(s) && Enabled(s, CallerCloses(t))
    ensures DoomedAreEvicted(Next(s, CallerCloses(t)))
  {
    var own, n := s.callers[t].w, Next(s, CallerCloses(t));
    assert Stands(s.callers, Closing(own));
    forall w <- s.doomed ensures Evicted(n, w) {
      assert Evicted(s, w);
      EvictedResume(s, t, (s.pool, None), w);
    }
  }

  /** An eviction takes an open session of nobody off the map. */
  lemma RunExpireKeepsEvicted(s: System, id: TimerId)
    requires Inv(s) && DoomedAreEvicted(s) && Enabled(s, RunExpire(id))
    ensures DoomedAreEvicted(Next(s, RunExpire(id)))
  {
    var n := Next(s, RunExpire(id));
    ExpireRegion(s.pool, id);
    forall w <- n.doomed ensures Evicted(n, w) {
      assert w in s.doomed ==> Evicted(s, w);
      assert Pending(s, w) && !s.pool.closed ==> !s.pool.Current(w);
    }
  }

  lemma StepKeepsEvicted(s: System, a: Action)
    requires Inv(s) && DoomedAreEvicted(s) && Enabled(s, a)
    ensures DoomedAreEvicted(Next(s, a))
  {
    match a
    case Call(t, key) => CallKeepsEvicted(s, t, key);
    case PublishStart(t) => PublishKeepsEvicted(s, t);
    case TryAcquire(t) => AcquireKeepsEvicted(s, t);
    case Complete(t, verdict) => FinishKeepsEvicted(s, t, verdict);
    case CallerCloses(t) => CallerClosesKeepsEvicted(s, t);
    case RunExpire(id) => RunExpireKeepsEvicted(s, id);
    case StartReturns(t, ok) =>
      forall w <- s.doomed ensures Evicted(Next(s, a), w) {
        assert Evicted(s, w);
        EvictedResume(s, t, (s.pool, Some(Publishing(s.callers[t].w, ok))), w);
      }
    case Wake(t) =>
      var own := s.callers[t].w;
      RegionKeepsEvicted(s, t, (s.pool, if s.pool.table[own].startFailed then None else Some(Acquiring(own))), own);
    case GiveUp(t) => RegionKeepsEvicted(s, t, (s.pool, None), s.callers[t].w);
    case _ =>
      forall w <- Next(s, a).doomed ensures Evicted(Next(s, a), w) { assert Evicted(s, w); }
  }

  lemma {:induction false} RunKeepsEvicted(states: seq<System>, actions: seq<Action>, i: nat)
    requires IsRun(states, actions) && i < |states|
    ensures DoomedAreEvicted(states[i])
  {
    if i > 0 {
      RunKeepsEvicted(states, actions, i - 1);
      RunKeepsInv(states, actions, i - 1);
      StepKeepsEvicted(states[i - 1], actions[i - 1]);
    }
  }

  /** Once Close and every call have returned, the sessions still open are exactly those a
      timer has evicted but not yet closed, which Close does not wait for; so all are closed
      exactly when no eviction is pending. */
  lemma OnlyEvictionsOutliveClose(states: seq<System>, actions: seq<Action>, i: nat)
    requires IsRun(states, actions) && i < |states|
    requires states[i].closer.Returned? && states[i].callers == map[]
    ensures states[i].open == states[i].doomed
    ensures states[i].open == {} <==> states[i].doomed == {}
  {
    RunKeepsInv(states, actions, i);
    RunKeepsEvicted(states, actions, i);
    forall w ensures w in states[i].open <==> w in states[i].doomed {
      assert w in states[i].doomed ==> Evicted(states[i], w);
      if w in states[i].open {
        assert Accounted(states[i], w);
        assert RunningOn(states[i].callers, w) == {};
      }
    }
  }

  lemma NextWorkerIsNew(states: seq<System>, actions: seq<Action>, i: nat)
    requires IsRun(states, actions) && i < |states|
    ensures states[i].pool.next !in states[i].pool.table
  {
    RunKeepsInv(states, actions, i);
  }

  lemma GenerationGrows(s: System, a: Action, n: System, w: WorkerId)
    requires Enabled(s, a) && n == Next(s, a) && w in s.pool.table && s.pool.next !in s.pool.table
    ensures w in n.pool.table && n.pool.table[w].generation >= s.pool.table[w].generation
  {
  }

  lemma GenerationGrowsAt(states: seq<System>, actions: seq<Action>, i: nat, w: WorkerId)
    requires IsRun(states, actions) && i < |actions| && w in states[i].pool.table
    ensures w in states[i + 1].pool.table
    ensures states[i + 1].pool.table[w].generation >= states[i].pool.table[w].generation
  {
    NextWorkerIsNew(states, actions, i);
    GenerationGrows(states[i], actions[i], states[i + 1], w);
  }

  /** No worker is forgotten and no generation goes back. */
  ghost predicate Ages(p: Pool, p': Pool) {
    forall w <- p.table :: w in p'.table && p'.table[w].generation >= p.table[w].generation
  }

  lemma StepAges(states: seq<System>, actions: seq<Action>, i: nat)
    requires IsRun(states, actions) && i < |actions|
    ensures Ages(states[i].pool, states[i + 1].pool)
  {
    forall w <- states[i].pool.table
      ensures w in states[i + 1].pool.table
      ensures states[i + 1].pool.table[w].generation >= states[i].pool.table[w].generation
    {
      GenerationGrowsAt(states, actions, i, w);
    }
  }

  lemma {:induction false} AgesAlong(pools: seq<Pool>, i: nat, j: nat)
    requires i <= j < |pools|
    requires forall k: nat | k + 1 < |pools| :: Ages(pools[k], pools[k + 1])
    ensures Ages(pools[i], pools[j])
  {
    if i < j {
      AgesAlong(pools, i, j - 1);
      assert Ages(pools[j - 1], pools[j - 1 + 1]);
    }
  }

  lemma GenerationGrowsAlong(states: seq<System>, actions: seq<Action>, i: nat, j: nat, w: WorkerId)
    requires IsRun(states, actions) && i <= j < |states| && w in states[i].pool.table
    ensures w in states[j].pool.table && states[j].pool.table[w].generation >= states[i].pool.table[w].generation
  {
    var pools := seq(|states|, k requires 0 <= k < |states| => states[k].pool);
    forall k: nat | k + 1 < |pools| ensures Ages(pools[k], pools[k + 1]) {
      StepAges(states, actions, k);
    }
    AgesAlong(pools, i, j);
  }

  lemma OutstandingTimerIsNotAhead(states: seq<System>, actions: seq<Action>, i: nat, id: TimerId)
    requires IsRun(states, actions) && i < |states| && id in states[i].pool.armed + states[i].expiring
    ensures id.worker in states[i].pool.table && id.generation <= states[i].pool.table[id.worker].generation
  {
    RunKeepsInv(states, actions, i);
  }

  lemma AcquireAdvances(s: System, n: System, t: ThreadId, w: WorkerId)
    requires Enabled(s, TryAcquire(t)) && n == Next(s, TryAcquire(t))
    requires s.callers[t] == Acquiring(w) && t in n.callers
    ensures n.pool.table[w].generation == s.pool.table[w].generation + 1
  {
  }

  lemma LateTimerDoesNothing(s: System, n: System, id: TimerId)
    requires Enabled(s, RunExpire(id)) && n == Next(s, RunExpire(id))
    requires id.generation < s.pool.table[id.worker].generation
    ensures n.pool == s.pool && n.doomed == s.doomed
  {
  }

  /** A timer set before a worker was handed out again never evicts it, however late the
      timer runs. */
  lemma StaleTimerNeverEvicts(states: seq<System>, actions: seq<Action>, i: nat, j: nat, t: ThreadId, id: TimerId)
    requires IsRun(states, actions) && i < j < |actions|
    requires id in states[i].pool.armed + states[i].expiring
    requires actions[i] == TryAcquire(t) && states[i].callers[t] == Acquiring(id.worker)
    requires t in states[i + 1].callers
    requires actions[j] == RunExpire(id)
    ensures states[j + 1].pool == states[j].pool && states[j + 1].doomed == states[j].doomed
  {
    OutstandingTimerIsNotAhead(states, actions, i, id);
    AcquireAdvances(states[i], states[i + 1], t, id.worker);
    GenerationGrowsAt(states, actions, i, id.worker);
    GenerationGrowsAlong(states, actions, i + 1, j, id.worker);
    LateTimerDoesNothing(states[j], states[j + 1], id);
  }

  lemma ShutdownOfNothing(p: Pool)
    requires p.workers == map[] && p.armed == {}
    ensures Shutdown(p) == (p.(closed := true), {})
  {
    assert p.workers.Values == {};
    assert Shutdown(p).0.armed == {};
  }

  function EvictionActions(): seq<Action> {
    [Call(0, "k"), StartReturns(0, true), PublishStart(0), TryAcquire(0), Complete(0, Answered),
     Fire(TimerId(0, 1)), RunExpire(TimerId(0, 1)), BeginClose, EndClose]
  }

  function EvictionStates(): seq<System> {
    var id := TimerId(0, 1);
    var created := Worker("k", false, true, false, false, None, 0, 0);
    var used := Worker("k", true, false, true, false, Some(id), 1, 0);
    var s0 := Initial();
    var s1 := s0.(pool := Pool(map["k" := 0], map[0 := created], false, {}, 1), callers := map[0 := Starting(0)]);
    var s2 := s1.(callers := map[0 := Publishing(0, true)], open := {0});
    var s3 := s2.(callers := map[0 := Acquiring(0)],
                  pool := s1.pool.(table := map[0 := created.(session := true, started := true)]));
    var s4 := s3.(callers := map[0 := Running(0)],
                  pool := s1.pool.(table := map[0 := used.(timer := None, active := 1)]));
    var s5 := s4.(callers := map[], pool := s1.pool.(table := map[0 := used], armed := {id}));
    var s6 := s5.(pool := s5.pool.(armed := {}), expiring := {id});
    var s7 := s6.(pool := s6.pool.(workers := map[]), expiring := {}, doomed := {0});
    var s8 := s7.(pool := s7.pool.(closed := true), closer := Draining({}));
    [s0, s1, s2, s3, s4, s5, s6, s7, s8, s8.(closer := Returned)]
  }

  ghost predicate EvictionStep(i: nat)
    requires i < 9
  {
    && Enabled(EvictionStates()[i], EvictionActions()[i])
    && EvictionStates()[i + 1] == Next(EvictionStates()[i], EvictionActions()[i])
  }

  lemma EvictionRunStarts()
    ensures EvictionStep(0) && EvictionStep(1) && EvictionStep(2)
  {
  }

  lemma EvictionRunUses()
    ensures EvictionStep(3) && EvictionStep(4)
  {
  }

  lemma EvictionRunEnds()
    ensures EvictionStep(5) && EvictionStep(6) && EvictionStep(7) && EvictionStep(8)
  {
    ShutdownOfNothing(EvictionStates()[7].pool);
  }

  /** A run in which Close returns, no call is under way, and a session is still open. */
  lemma CloseMayReturnBeforeAnEviction()
    ensures IsRun(EvictionStates(), EvictionActions())
    ensures EvictionStates()[9].closer.Returned? && EvictionStates()[9].callers == map[]
    ensures EvictionStates()[9].open == {0}
  {
    EvictionRunStarts();
    EvictionRunUses();
    EvictionRunEnds();
    assert forall i | 0 <= i < 9 :: EvictionStep(i);
  }

  // ------------------------------------------------- what a region tells its caller

  /** The shape of the pool, and of its timers: only an unused worker has one, it bears the
      worker's generation, and none that is armed bears a later one. */
  ghost predicate Orderly(p: Pool) {
    PoolShape(p) && Timed(p)
  }

  /** A timer is set for an unused worker and its own generation, and none is ahead of it. */
  ghost predicate Timed(p: Pool) {
    && (forall w <- p.table :: p.table[w].timer.Some? ==>
          p.table[w].active == 0 && p.table[w].timer == Some(TimerId(w, p.table[w].generation)))
    && (forall w <- p.table :: p.table[w].active > 0 ==> p.table[w].generation > 0)
    && (forall id <- p.armed :: id.worker in p.table && id.generation <= p.table[id.worker].generation)
  }

  /** A caller is refused exactly on a closed pool.  Otherwise it is sent to the one worker
      that now serves the key: to start it if it is new, to wait for a start nobody has used
      yet, or to acquire a session that is there. */
  ghost predicate Admits(p: Pool, p': Pool, key: Key, caller: Option<Caller>) {
    && (caller.None? <==> p.closed)
    && (caller.None? ==> p' == p)
    && (caller.Some? ==>
          var w := caller.value.w;
          && p'.Current(w) && p'.table[w].key == key
          && (caller.value.Starting? <==> key !in p.workers)
          && (caller.value.Starting? ==> w !in p.table && p'.table - {w} == p.table && !p'.table[w].started)
          && (!caller.value.Starting? ==> p' == p)
          && (caller.value.Waiting? ==> p.table[w].ready)
          && (caller.value.Acquiring? ==> p.table[w].session))
  }

  /** The starter goes on to acquire exactly when its session can still be reached.  A
      session that cannot is its own to close, and nobody uses it.  After a failed start, or
      when the pool was closed meanwhile, the worker serves its key no more. */
  ghost predicate Announces(p: Pool, p': Pool, w: WorkerId, session: bool, caller: Option<Caller>) {
    && w in p.table && w in p'.table && p'.table[w].started && p'.table[w].session == session
    && (caller == Some(Acquiring(w)) <==> session && p.Current(w) && !p.closed)
    && (caller == Some(Closing(w)) <==> session && !p'.Current(w))
    && (caller == Some(Closing(w)) ==> p'.table[w].active == 0)
    && (caller.None? <==> !session)
    && (p'.Current(w) <==> caller == Some(Acquiring(w)))
    && (p'.table[w].startFailed <==> !session || p.closed)
    && (forall u <- p.table :: u != w ==> u in p'.table && p'.table[u] == p.table[u] && p'.Current(u) == p.Current(u))
  }

  /** An acquisition is refused exactly when the pool is closed, another worker serves the
      key, or there is no session; and after one no timer that is armed can evict. */
  ghost predicate Grants(p: Pool, p': Pool, w: WorkerId, caller: Option<Caller>) {
    && w in p.table && w in p'.table
    && caller == (if !p.closed && p.Current(w) && p.table[w].session then Some(Running(w)) else None)
    && (caller.None? ==> p' == p)
    && (caller.Some? ==>
          && p'.Current(w) && p'.table[w].active == p.table[w].active + 1 && p'.table[w].timer.None?
          && forall id <- p'.armed :: id.worker == w ==> id.generation < p'.table[w].generation)
  }

  /** A caller that finishes is uncounted.  It closes the session exactly when it leaves it
      unused on a worker off the map, where a broken session puts it; and a worker left
      unused on the map has a timer of its generation armed. */
  ghost predicate Releases(p: Pool, p': Pool, w: WorkerId, verdict: Verdict, caller: Option<Caller>) {
    && w in p.table && w in p'.table
    && p'.table[w].active == (if p.table[w].active > 0 then p.table[w].active - 1 else 0)
    && (p'.Current(w) <==> p.Current(w) && !verdict.Broken?)
    && (caller == if p'.table[w].active == 0 && !p'.Current(w) then Some(Closing(w)) else None)
    && (p'.table[w].active == 0 && p'.Current(w) ==> TimerId(w, p'.table[w].generation) in p'.armed)
    && (p'.table[w].active > 0 ==> p'.armed == p.armed)
  }

  /** A timer evicts exactly a worker that still serves its key, that nobody uses and that
      has not been handed out since the timer was set; it takes that one off the map and
      leaves everything else alone. */
  ghost predicate Evicts(p: Pool, p': Pool, id: TimerId, evicted: bool) {
    && id.worker in p.table && p' == p.(workers := p'.workers)
    && (evicted <==>
          p.Current(id.worker) && p.table[id.worker].active == 0 && p.table[id.worker].generation == id.generation)
    && p'.workers == (if evicted then p.workers - {p.table[id.worker].key} else p.workers)
    && (evicted ==> !p'.Current(id.worker) && (id.generation > 0 ==> p.table[id.worker].session))
  }

  lemma EnterAdmits(p: Pool, key: Key)
    requires Orderly(p)
    ensures Orderly(Enter(p, key).0) && Admits(p, Enter(p, key).0, key, Enter(p, key).1)
  {
    if !p.closed && key !in p.workers {
      CreateKeepsShape(p, key);
      assert Enter(p, key).0.table - {p.next} == p.table;
    }
  }

  lemma PublishAnnounces(p: Pool, w: WorkerId, session: bool)
    requires Orderly(p) && w in p.table && !p.table[w].started
    ensures Orderly(Publish(p, w, session).0)
    ensures Announces(p, Publish(p, w, session).0, w, session, Publish(p, w, session).1)
  {
    PublishKeepsShape(p, w, session);
    assert p.table[w].active == 0;
  }

  lemma AcquireGrants(p: Pool, w: WorkerId)
    requires Orderly(p) && w in p.table
    ensures Orderly(Acquire(p, w).0) && Grants(p, Acquire(p, w).0, w, Acquire(p, w).1)
  {
    AcquireKeepsShape(p, w);
  }

  lemma FinishReleases(p: Pool, w: WorkerId, verdict: Verdict)
    requires Orderly(p) && w in p.table && p.table[w].session
    ensures Orderly(Finish(p, w, verdict).0)
    ensures Releases(p, Finish(p, w, verdict).0, w, verdict, Finish(p, w, verdict).1)
  {
    FinishStaysOrderly(p, w, verdict);
  }

  lemma FinishStaysOrderly(p: Pool, w: WorkerId, verdict: Verdict)
    requires Orderly(p) && w in p.table && p.table[w].session
    ensures Orderly(Finish(p, w, verdict).0)
  {
    FinishKeepsShape(p, w, verdict);
    FinishStaysTimed(p, w, verdict);
  }

  lemma PutStaysTimed(p: Pool, w: WorkerId, worker: Worker)
    requires Timed(p) && w in p.table && worker.generation == p.table[w].generation
    requires worker.timer.Some? ==> worker.active == 0 && worker.timer == Some(TimerId(w, worker.generation))
    requires worker.active > 0 ==> worker.generation > 0
    ensures Timed(p.Put(w, worker))
  {
  }

  lemma FinishStaysTimed(p: Pool, w: WorkerId, verdict: Verdict)
    requires Timed(p) && w in p.table
    ensures Timed(Finish(p, w, verdict).0)
  {
    var worker := Finish(p, w, verdict).0.table[w];
    PutStaysTimed(p, w, worker);
    assert Finish(p, w, verdict).0.table == p.Put(w, worker).table;
  }

  lemma ExpireEvicts(p: Pool, id: TimerId)
    requires Orderly(p) && id.worker in p.table
    ensures Orderly(Expire(p, id).0) && Evicts(p, Expire(p, id).0, id, Expire(p, id).1)
  {
  }

  lemma ShutdownIsOrderly(p: Pool)
    requires Orderly(p)
    ensures Orderly(Shutdown(p).0)
    ensures forall w <- Shutdown(p).1 ::
      w in p.table && (p.table[w].timer.Some? ==> p.table[w].timer.value !in Shutdown(p).0.armed)
  {
  }

  // ---------------------------------------------------------- the pool itself

  /** The pool's fields and the bodies of its regions, each run with the mutex held. */
  class PooledChildClient {
    var workers: map<Key, WorkerId>
    var table: map<WorkerId, Worker>
    var closed: bool
    var armed: set<TimerId>
    var next: nat

    constructor ()
      ensures Valid() && View() == Initial().pool
    {
      workers, table, closed, armed, next := map[], map[], false, {}, 0;
    }

    ghost function View(): Pool
      reads this
    {
      Pool(workers, table, closed, armed, next)
    }

    ghost predicate Valid()
      reads this
    {
      Orderly(View())
    }

    /** The first region of a call; it is the protocol's step of that name, as are those below. */
    method EnterAcquire(key: Key) returns (caller: Option<Caller>)
      requires Valid()
      modifies this
      ensures Valid() && Admits(old(View()), View(), key, caller)
      ensures (View(), caller) == Enter(old(View()), key)
    {
      EnterAdmits(View(), key);
      if closed { return None; }
      if key !in workers {
        var w := next;
        table := table[w := Worker(key, false, true, false, false, None, 0, 0)];
        workers := workers[key := w];
        next := next + 1;
        return Some(Starting(w));
      }
      var w := workers[key];
      return if table[w].ready then Some(Waiting(w)) else Some(Acquiring(w));
    }

    method PublishSession(w: WorkerId, session: bool) returns (caller: Option<Caller>)
      requires Valid() && w in table && !table[w].started
      modifies this
      ensures Valid() && Announces(old(View()), View(), w, session, caller)
      ensures (View(), caller) == Publish(old(View()), w, session)
    {
      PublishAnnounces(View(), w, session);
      var key := table[w].key;
      var current := key in workers && workers[key] == w;
      var failed := !session || closed;
      table := table[w := table[w].(session := session, started := true, startFailed := failed)];
      if failed && current {
        workers := workers - {key};
      }
      if !current || closed {
        return if session then Some(Closing(w)) else None;
      }
      return if failed then None else Some(Acquiring(w));
    }

    method AcquireSession(w: WorkerId) returns (caller: Option<Caller>)
      requires Valid() && w in table
      modifies this
      ensures Valid() && Grants(old(View()), View(), w, caller)
      ensures (View(), caller) == Acquire(old(View()), w)
    {
      ghost var p := View();
      assert Orderly(Acquire(p, w).0) && Grants(p, Acquire(p, w).0, w, Acquire(p, w).1) by { AcquireGrants(p, w); }
      var worker := table[w];
      if closed || worker.key !in workers || workers[worker.key] != w || !worker.session {
        assert Acquire(p, w) == (p, None);
        return None;
      }
      if worker.timer.Some? {
        armed := armed - {worker.timer.value};
        worker := worker.(timer := None);
      }
      worker := worker.(ready := false, generation := worker.generation + 1, active := worker.active + 1);
      table := table[w := worker];
      assert (View(), Some(Running(w))) == Acquire(p, w);
      return Some(Running(w));
    }

    method FinishOperation(w: WorkerId, verdict: Verdict) returns (caller: Option<Caller>)
      requires Valid() && w in table && table[w].session
      modifies this
      ensures Valid() && Releases(old(View()), View(), w, verdict, caller)
      ensures (View(), caller) == Finish(old(View()), w, verdict)
    {
      ghost var p := View();
      var worker := table[w];
      if worker.active > 0 { worker := worker.(active := worker.active - 1); }
      var last := worker.active == 0;
      var current := worker.key in workers && workers[worker.key] == w;
      if verdict.Broken? && current { workers := workers - {worker.key}; }
      assert current == p.Current(w) && last == (worker.active == 0);
      if verdict.Broken? || !current {
        table := table[w := worker];
        caller := if last then Some(Closing(w)) else None;
        assert (View(), caller) == Finish(p, w, verdict);
        FinishReleases(p, w, verdict);
        return;
      }
      if last {
        var id := TimerId(w, worker.generation);
        worker := worker.(timer := Some(id));
        armed := armed + {id};
      }
      table := table[w := worker];
      caller := None;
      assert (View(), caller) == Finish(p, w, verdict);
      FinishReleases(p, w, verdict);
    }

    method ExpireWorker(id: TimerId) returns (evicted: bool)
      requires Valid() && id.worker in table
      modifies this`workers
      ensures Valid() && Evicts(old(View()), View(), id, evicted)
      ensures (View(), evicted) == Expire(old(View()), id)
    {
      ExpireEvicts(View(), id);
      var worker := table[id.worker];
      if worker.key !in workers || workers[worker.key] != id.worker
         || worker.generation != id.generation || worker.active != 0 {
        return false;
      }
      workers := workers - {worker.key};
      return true;
    }

    /** Afterwards the pool is empty and closed, and of the timers of its workers none is
        armed that was set for them. */
    method BeginShutdown() returns (victims: set<WorkerId>)
      requires Valid()
      modifies this
      ensures Valid() && closed && workers == map[] && victims == old(workers).Values <= table.Keys
      ensures forall w <- victims :: table[w].timer.Some? ==> table[w].timer.value !in armed
      ensures (View(), victims) == Shutdown(old(View()))
    {
      ShutdownIsOrderly(View());
      closed := true;
      victims := workers.Values;
      workers := map[];
      var rest := victims;
      ghost var before := armed;
      ghost var stopped: set<WorkerId> := {};
      while rest != {}
        invariant rest <= victims <= table.Keys && stopped == victims - rest
        invariant View() == old(View()).(workers := map[], closed := true, armed := armed)
        invariant armed == set id <- before | !(id.worker in stopped && table[id.worker].timer == Some(id))
        decreases rest
      {
        var w :| w in rest;
        rest, stopped := rest - {w}, stopped + {w};
        if table[w].timer.Some? { armed := armed - {table[w].timer.value}; }
      }
      assert stopped == victims;
      assert armed == Shutdown(old(View())).0.armed;
    }
  }
}
