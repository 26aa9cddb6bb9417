/** Cleaning up after lost workers: the watchdog, and recovery after a restart. */
module Janitor {
  import opened Database
  import opened Engine

  const WATCHDOG_ERROR := "watchdog"
  const RESTART_ERROR := "interrupted by restart"

  // ---- The watchdog ----

  /** In flight for longer than the limit; a job with a live process is spared up to twice the limit. */
  predicate Stuck(db: Db, j: nat, now: Time, limit: int, alive: set<nat>) {
    && j in db.jobs && db.jobs[j].status.Inflight() && db.jobs[j].startedAt.Some?
    && var elapsed := now - db.jobs[j].startedAt.value;
       elapsed > limit && !(j in alive && elapsed <= 2 * limit)
  }

  function StuckJobs(db: Db, now: Time, limit: int, alive: set<nat>): set<nat> {
    set j | j in db.jobs && Stuck(db, j, now, limit, alive)
  }

  /** The lock of a product that one of `gone` holds. */
  predicate LockHeldBy(db: Db, p: nat, gone: set<nat>) {
    p in db.locks && db.locks[p].job in gone && db.locks[p].job in db.jobs && db.jobs[db.locks[p].job].product == p
  }

  predicate WorkerHeldBy(db: Db, w: nat, gone: set<nat>) {
    && w in db.workers && db.workers[w].current.Some?
    && var j := db.workers[w].current.value;
       j in gone && j in db.jobs && db.jobs[j].worker == Some(w)
  }

  /** All of `gone` failed at once, their own locks and workers freed and nothing else. */
  function Reaped(db: Db, now: Time, gone: set<nat>): Db {
    db.(jobs := map j | j in db.jobs ::
                  if j in gone then db.jobs[j].(status := Failed, finishedAt := Some(now),
                      error := Some(WATCHDOG_ERROR))
                  else db.jobs[j],
        locks := map p | p in db.locks && !LockHeldBy(db, p, gone) :: db.locks[p],
        workers := map w | w in db.workers ::
                     if WorkerHeldBy(db, w, gone) then db.workers[w].(status := Idle, current := None)
                     else db.workers[w])
  }

  /** Finishing one more of them is reaping one more of them. */
  lemma ReapOneMore(db: Db, now: Time, gone: set<nat>, j: nat)
    requires j in db.jobs && !db.jobs[j].status.Terminal() && j !in gone
    ensures Finish(Reaped(db, now, gone), j, Failed, None, Some(WATCHDOG_ERROR), now) == Reaped(db, now, gone + {j})
  {
    var r, t := Reaped(db, now, gone), Reaped(db, now, gone + {j});
    var f := Finish(r, j, Failed, None, Some(WATCHDOG_ERROR), now);
    assert f.jobs == t.jobs;
    assert f.locks == t.locks;
    assert f.workers == t.workers;
  }

  lemma ReapNone(db: Db, now: Time)
    ensures Reaped(db, now, {}) == db
  {
    var r := Reaped(db, now, {});
    assert r.jobs == db.jobs && r.locks == db.locks && r.workers == db.workers;
  }

  /** `reap_stuck_jobs`, with `alive` the jobs that have a registered process. The reaped jobs are
      those whose processes are killed. */
  method ReapStuckJobs(session: Session, now: Time, limit: int, alive: set<nat>) returns (reaped: seq<nat>)
    requires session.Clean()
    modifies session
    ensures session.Clean()
    ensures var gone := StuckJobs(old(session.View()), now, limit, alive);
            Lists(reaped, gone) && session.View() == Reaped(old(session.View()), now, gone)
  {
    hide Finish;
    hide Reaped;
    ghost var s := session.View();
    reaped := [];
    var todo := session.jobs.Keys;
    while todo != {}
      invariant todo <= s.jobs.Keys && session.View() == s && session.Clean()
      invariant forall j :: j in reaped <==> j in s.jobs && j !in todo && Stuck(s, j, now, limit, alive)
      invariant forall i, k :: 0 <= i < k < |reaped| ==> reaped[i] != reaped[k]
      decreases |todo|
    {
      var j :| j in todo;
      todo := todo - {j};
      var job := session.jobs[j];
      if !job.status.Inflight() || job.startedAt.None? {
        continue;
      }
      var elapsed := now - job.startedAt.value;
      if elapsed <= limit {
        continue;
      }
      if j in alive && elapsed <= 2 * limit {
        continue;
      }
      reaped := reaped + [j];
    }
    ReapNone(s, now);
    ghost var gone: set<nat> := {};
    for k := 0 to |reaped|
      invariant session.Clean() && session.View() == Reaped(s, now, gone)
      invariant forall j :: j in gone <==> j in reaped[..k]
    {
      assert reaped[..k + 1] == reaped[..k] + [reaped[k]];
      assert reaped[k] in reaped;
      ReapOneMore(s, now, gone, reaped[k]);
      FinishJob(session, reaped[k], Failed, None, Some(WATCHDOG_ERROR), now);
      gone := gone + {reaped[k]};
    }
    assert reaped[..|reaped|] == reaped;
    assert gone == StuckJobs(s, now, limit, alive);
  }

  // ---- Restart ----

  function MarkInterrupted(db: Db, now: Time): Db {
    db.(jobs := map j | j in db.jobs ::
                  if db.jobs[j].status.Inflight()
                  then db.jobs[j].(status := Interrupted, finishedAt := Some(now), error := Some(RESTART_ERROR))
                  else db.jobs[j])
  }

  /** `mark_interrupted_jobs`. */
  method MarkInterruptedJobs(session: Session, now: Time) returns (count: nat)
    requires session.Clean()
    modifies session
    ensures session.Clean() && session.View() == MarkInterrupted(old(session.View()), now)
    ensures count == |set j | j in old(session.jobs) && old(session.jobs)[j].status.Inflight()|
  {
    ghost var s := session.View();
    count := 0;
    var todo := set j | j in session.jobs && session.jobs[j].status.Inflight();
    ghost var all := todo;
    assert InterruptedBut(s, now, todo, session.jobs);
    hide InterruptedBut;
    while todo != {}
      invariant todo <= all && count + |todo| == |all|
      invariant session.committed == s && session.View() == s.(jobs := session.jobs)
      invariant InterruptedBut(s, now, todo, session.jobs)
      decreases |todo|
    {
      var j :| j in todo;
      InterruptNext(s, now, todo, session.jobs, j);
      todo := todo - {j};
      session.jobs := session.jobs[j := session.jobs[j].(status := Interrupted, finishedAt := Some(now),
          error := Some(RESTART_ERROR))];
      count := count + 1;
    }
    InterruptedAll(s, now, session.jobs);
    assert all == set j | j in old(session.jobs) && old(session.jobs)[j].status.Inflight();
    session.Commit();
  }

  /** Only the jobs of `todo` are still to be interrupted. */
  ghost predicate InterruptedBut(db: Db, now: Time, todo: set<nat>, jobs: map<nat, Job>) {
    && jobs.Keys == db.jobs.Keys && (forall j :: j in todo ==> j in db.jobs && db.jobs[j].status.Inflight())
    && forall j :: j in db.jobs ==> jobs[j] == if j in todo then db.jobs[j] else MarkInterrupted(db, now).jobs[j]
  }

  lemma InterruptNext(db: Db, now: Time, todo: set<nat>, jobs: map<nat, Job>, j: nat)
    requires InterruptedBut(db, now, todo, jobs) && j in todo
    ensures j in jobs
    ensures InterruptedBut(db, now, todo - {j},
                jobs[j := jobs[j].(status := Interrupted, finishedAt := Some(now), error := Some(RESTART_ERROR))])
  {
  }

  lemma InterruptedAll(db: Db, now: Time, jobs: map<nat, Job>)
    requires InterruptedBut(db, now, {}, jobs)
    ensures jobs == MarkInterrupted(db, now).jobs
  {
  }

  predicate Gone(db: Db, j: nat) {
    j in db.jobs ==> db.jobs[j].status.Terminal()
  }

  predicate StaleWorker(db: Db, worker: Worker) {
    worker.status == Busy && (worker.current.None? || Gone(db, worker.current.value))
  }

  /** No lock of an ended or lost job is left, and no worker waits for one. */
  function ReleaseStale(db: Db): Db {
    db.(locks := map p | p in db.locks && !Gone(db, db.locks[p].job) :: db.locks[p],
        workers := map w | w in db.workers ::
                     if StaleWorker(db, db.workers[w]) then db.workers[w].(status := Idle, current := None)
                     else db.workers[w])
  }

  method ReleaseLocksOfGone(session: Session) returns (released: nat)
    modifies session`locks
    ensures session.locks == ReleaseStale(old(session.View())).locks
    ensures released == |old(session.locks)| - |session.locks|
  {
    ghost var s := session.View();
    released := 0;
    var todo := session.locks.Keys;
    while todo != {}
      invariant todo <= s.locks.Keys
      invariant session.View() == s.(locks := session.locks)
      invariant session.locks == map p | p in s.locks && (p in todo || !Gone(s, s.locks[p].job)) :: s.locks[p]
      invariant released == |s.locks| - |session.locks|
      decreases |todo|
    {
      var p :| p in todo;
      todo := todo - {p};
      var j := session.locks[p].job;
      if j !in session.jobs || session.jobs[j].status.Terminal() {
        RemovingOne(session.locks, p);
        session.locks := session.locks - {p};
        released := released + 1;
      }
    }
  }

  method FreeWorkersOfGone(session: Session)
    modifies session`workers
    ensures session.workers == ReleaseStale(old(session.View())).workers
  {
    ghost var s := session.View();
    var busy := set w | w in session.workers && session.workers[w].status == Busy;
    while busy != {}
      invariant session.View() == s.(workers := session.workers)
      invariant session.workers.Keys == s.workers.Keys && busy <= s.workers.Keys
      invariant forall w :: w in busy ==> session.workers[w] == s.workers[w] && s.workers[w].status == Busy
      invariant forall w :: w in s.workers && w !in busy ==> session.workers[w] == ReleaseStale(s).workers[w]
      decreases |busy|
    {
      var w :| w in busy;
      busy := busy - {w};
      var worker := session.workers[w];
      if worker.current.None? || worker.current.value !in session.jobs
          || session.jobs[worker.current.value].status.Terminal() {
        session.workers := session.workers[w := worker.(status := Idle, current := None)];
      }
    }
  }

  /** In whatever state the tables were, cleaning leaves no lock and no busy worker without a job that has not
      ended, and takes nothing from one that has not. */
  lemma CleanIsClean(db: Db)
    ensures var t := ReleaseStale(db);
            && t == db.(locks := t.locks, workers := t.workers) && t.workers.Keys == db.workers.Keys
            && (forall p :: p in t.locks ==> p in db.locks && t.locks[p] == db.locks[p])
            && (forall p :: p in db.locks ==>
                  (p in t.locks <==> db.locks[p].job in db.jobs && !db.jobs[db.locks[p].job].status.Terminal()))
            && (forall w :: w in t.workers && t.workers[w].status == Busy ==>
                  && t.workers[w] == db.workers[w]
                  && match t.workers[w].current
                     case Some(j) => j in db.jobs && !db.jobs[j].status.Terminal()
                     case None => false)
            && forall w :: w in db.workers && t.workers[w] != db.workers[w] ==>
                 && db.workers[w].status == Busy
                 && t.workers[w] == db.workers[w].(status := Idle, current := None)
                 && match db.workers[w].current
                    case Some(j) => j !in db.jobs || db.jobs[j].status.Terminal()
                    case None => true
  {
  }

  /** `release_stale_locks`. */
  method ReleaseStaleLocks(session: Session) returns (released: nat)
    requires session.Clean()
    modifies session
    ensures session.Clean() && session.View() == ReleaseStale(old(session.View()))
    ensures released == |old(session.locks)| - |session.locks|
  {
    released := ReleaseLocksOfGone(session);
    FreeWorkersOfGone(session);
    session.Commit();
  }

  lemma RemovingOne(m: map<nat, Lock>, p: nat)
    requires p in m
    ensures |m - {p}| == |m| - 1
  {
    assert (m - {p}).Keys == m.Keys - {p};
  }

  /** What `Scheduler.start` does before the first tick. */
  function Recover(db: Db, now: Time): Db {
    ReleaseStale(MarkInterrupted(db, now))
  }

  method RecoverAfterRestart(session: Session, now: Time)
    requires session.Clean()
    modifies session
    ensures session.Clean() && session.View() == Recover(old(session.View()), now)
  {
    var interrupted := MarkInterruptedJobs(session, now);
    var released := ReleaseStaleLocks(session);
  }

  /** `_sweep_tick`: stale locks first, then the watchdog. */
  function Sweep(db: Db, now: Time, limit: int, alive: set<nat>): Db {
    var released := ReleaseStale(db);
    Reaped(released, now, StuckJobs(released, now, limit, alive))
  }

  method SweepTick(session: Session, now: Time, limit: int, alive: set<nat>)
    requires session.Clean()
    modifies session
    ensures session.Clean() && session.View() == Sweep(old(session.View()), now, limit, alive)
  {
    var released := ReleaseStaleLocks(session);
    var reaped := ReapStuckJobs(session, now, limit, alive);
  }
}
