/** Operations on the tables requested from outside the scheduler. */
module Services {
  import opened Database
  import opened Engine

  const CANCEL_ALL_ERROR := "canceled in bulk"

  /** Bulk cancel touches queued jobs only; a job that was claimed in the meantime is left to its worker. */
  function CancelQueued(db: Db, p: nat, now: Time): Db {
    db.(jobs := map j | j in db.jobs ::
                  if db.jobs[j].product == p && db.jobs[j].status == Queued
                  then db.jobs[j].(status := Canceled, finishedAt := Some(now), error := Some(CANCEL_ALL_ERROR))
                  else db.jobs[j])
  }

  /** Nothing of the product waits any more; whatever waited was canceled, and no other row changes. */
  lemma CancelEmptiesQueue(db: Db, p: nat, now: Time)
    ensures var t := CancelQueued(db, p, now);
            && t.jobs.Keys == db.jobs.Keys && t == db.(jobs := t.jobs)
            && (forall j :: j in t.jobs && t.jobs[j].product == p ==> t.jobs[j].status != Queued)
            && forall j :: j in db.jobs && t.jobs[j] != db.jobs[j] ==>
                 && db.jobs[j].product == p && db.jobs[j].status == Queued && t.jobs[j].status == Canceled
                 && t.jobs[j].finishedAt == Some(now) && t.jobs[j].error.Some?
  {
  }

  function RunningJobs(db: Db, p: nat): set<nat> {
    set j | j in db.jobs && db.jobs[j].product == p && db.jobs[j].status == Running
  }

  /** `cancel_all_jobs`: returns how many queued jobs were canceled, and the running jobs for which
      a kill is to be requested. */
  method CancelAllJobs(session: Session, p: nat, now: Time) returns (canceled: nat, running: set<nat>)
    requires session.Clean()
    modifies session
    ensures session.Clean() && session.View() == CancelQueued(old(session.View()), p, now)
    ensures running == RunningJobs(old(session.View()), p)
    ensures forall j :: j in running <==>
              j in old(session.jobs) && old(session.jobs)[j].product == p && old(session.jobs)[j].status == Running
    ensures canceled == |set j | j in old(session.jobs) && old(session.jobs)[j].product == p
            && old(session.jobs)[j].status == Queued|
  {
    ghost var s := session.View();
    canceled := |set j | j in session.jobs && session.jobs[j].product == p && session.jobs[j].status == Queued|;
    session.jobs := map j | j in session.jobs ::
      if session.jobs[j].product == p && session.jobs[j].status == Queued
      then session.jobs[j].(status := Canceled, finishedAt := Some(now), error := Some(CANCEL_ALL_ERROR))
      else session.jobs[j];
    session.Commit();
    running := RunningJobs(session.View(), p);
    assert running == RunningJobs(s, p);
  }

  /** A new queued job with the inputs of an old one. */
  function Rerun(db: Db, j: nat, now: Time): Db {
    if j !in db.jobs || db.jobs[j].product !in db.products then db
    else
      var o := db.jobs[j];
      db.(jobs := db.jobs[db.nextJob := NewJob(o.product, o.kind, o.origin, o.function_, o.files, now)],
          nextJob := db.nextJob + 1)
  }

  /** The copy asks for the same thing of the same product, but is a job of its own, which waits; no other
      row changes. */
  lemma RerunAsksAgain(db: Db, j: nat, now: Time)
    requires HasKey(db, j) && IdsFresh(db)
    ensures var t, was := Rerun(db, j, now), db.jobs[j];
            && t.jobs.Keys == db.jobs.Keys + {db.nextJob} && (forall i :: i in db.jobs ==> t.jobs[i] == db.jobs[i])
            && t == db.(jobs := t.jobs, nextJob := db.nextJob + 1)
            && var copy := t.jobs[db.nextJob];
               && copy.product == was.product && copy.kind == was.kind && copy.origin == was.origin
               && copy.function_ == was.function_ && copy.files == was.files
               && copy.status == Queued && copy.submittedAt == now && copy.worker.None?
               && copy.startedAt.None? && copy.finishedAt.None? && copy.summary.None? && copy.error.None?
  {
  }

  /** `rerun_job`. */
  method RerunJob(session: Session, j: nat, now: Time) returns (id: Option<nat>)
    requires session.Clean()
    modifies session
    ensures session.Clean() && session.View() == Rerun(old(session.View()), j, now)
    ensures id == if HasKey(old(session.View()), j) then Some(old(session.nextJob)) else None
  {
    if j !in session.jobs {
      return None;
    }
    var o := session.jobs[j];
    if o.product !in session.products {
      return None;
    }
    var made := session.AddJob(NewJob(o.product, o.kind, o.origin, o.function_, o.files, now));
    session.Commit();
    return Some(made);
  }

  /** A queued GENUT job for a product that exists; no function name is better than an empty one. */
  function Submit(db: Db, p: nat, function_: Option<string>, files: seq<string>, origin: Origin, now: Time): Db {
    if p !in db.products then db
    else
      db.(jobs := db.jobs[db.nextJob := NewJob(p, Genut, origin, Given(function_), files, now)],
          nextJob := db.nextJob + 1)
  }

  /** What was asked for is queued, once, and nothing else changes; an empty function name is none. */
  lemma SubmitAsks(db: Db, p: nat, function_: Option<string>, files: seq<string>, origin: Origin, now: Time)
    requires p in db.products && IdsFresh(db)
    ensures var t := Submit(db, p, function_, files, origin, now);
            && t.jobs.Keys == db.jobs.Keys + {db.nextJob} && (forall i :: i in db.jobs ==> t.jobs[i] == db.jobs[i])
            && t == db.(jobs := t.jobs, nextJob := db.nextJob + 1)
            && var job := t.jobs[db.nextJob];
               && job.product == p && job.kind == Genut && job.origin == origin && job.files == files
               && (job.function_ == if function_ == Some("") then None else function_)
               && job.status == Queued && job.submittedAt == now
  {
  }

  /** The job part of `submit_request`. */
  method SubmitRequest(session: Session, p: nat, function_: Option<string>, files: seq<string>, now: Time)
      returns (id: Option<nat>)
    requires session.Clean()
    modifies session
    ensures session.Clean() && session.View() == Submit(old(session.View()), p, function_, files, Manual, now)
    ensures id == if p in old(session.products) then Some(old(session.nextJob)) else None
  {
    if p !in session.products {
      return None;
    }
    var made := session.AddJob(NewJob(p, Genut, Manual, Given(function_), files, now));
    session.Commit();
    return Some(made);
  }

  datatype Deletion = Deleted | NotFound | InFlight

  function DeletionOf(db: Db, j: nat): Deletion {
    if j !in db.jobs then NotFound
    else if !db.jobs[j].status.Terminal() then InFlight
    else Deleted
  }

  function DeletedJobs(db: Db, gone: set<nat>): Db {
    db.(jobs := db.jobs - gone)
  }

  /** `delete_job`. */
  method DeleteJob(session: Session, j: nat) returns (r: Deletion)
    requires session.Clean()
    modifies session
    ensures session.Clean() && r == DeletionOf(old(session.View()), j)
    ensures session.View() == if r == Deleted then DeletedJobs(old(session.View()), {j}) else old(session.View())
  {
    if j !in session.jobs {
      return NotFound;
    }
    if !session.jobs[j].status.Terminal() {
      return InFlight;
    }
    session.jobs := session.jobs - {j};
    session.Commit();
    return Deleted;
  }

  function FinishedJobs(db: Db, p: nat): set<nat> {
    set j | j in db.jobs && db.jobs[j].product == p && db.jobs[j].status.Terminal()
  }

  /** No ended job of the product is left, and every other job is. */
  lemma FinishedAreGone(db: Db, p: nat)
    ensures var t := DeletedJobs(db, FinishedJobs(db, p));
            && t == db.(jobs := t.jobs)
            && (forall j :: j in t.jobs ==> j in db.jobs && t.jobs[j] == db.jobs[j])
            && forall j :: j in db.jobs ==>
                 (j !in t.jobs <==>
                    db.jobs[j].product == p && db.jobs[j].status in {Done, Failed, Canceled, Interrupted})
  {
  }

  /** `delete_finished_jobs`. */
  method DeleteFinishedJobs(session: Session, p: nat) returns (count: nat)
    requires session.Clean()
    modifies session
    ensures session.Clean() && count == |FinishedJobs(old(session.View()), p)|
    ensures session.View() == DeletedJobs(old(session.View()), FinishedJobs(old(session.View()), p))
  {
    ghost var s := session.View();
    var all := FinishedJobs(session.View(), p);
    count := |all|;
    var todo := all;
    assert s.jobs - {} == s.jobs;
    while todo != {}
      invariant todo <= all && session.committed == s
      invariant session.View() == DeletedJobs(s, all - todo)
      decreases |todo|
    {
      var j :| j in todo;
      assert s.jobs - (all - (todo - {j})) == (s.jobs - (all - todo)) - {j};
      todo := todo - {j};
      session.jobs := session.jobs - {j};
    }
    assert all - todo == all;
    session.Commit();
  }

  predicate InUse(db: Db, w: nat) {
    exists j :: j in db.jobs && db.jobs[j].worker == Some(w) && db.jobs[j].status.Inflight()
  }

  /** The instance goes, with its marks on past jobs and its stale locks. */
  function DeletedWorker(db: Db, w: nat): Db {
    db.(jobs := map j | j in db.jobs :: if db.jobs[j].worker == Some(w)
        then db.jobs[j].(worker := None) else db.jobs[j],
        locks := map p | p in db.locks && db.locks[p].worker != w :: db.locks[p],
        workers := db.workers - {w})
  }

  /** Nothing refers to the instance any more; of jobs only the reference goes, of locks only its own. */
  lemma DeletedWorkerIsForgotten(db: Db, w: nat)
    ensures var t := DeletedWorker(db, w);
            && w !in t.workers
            && (forall v :: v in db.workers && v != w ==> v in t.workers && t.workers[v] == db.workers[v])
            && t.jobs.Keys == db.jobs.Keys && t.products == db.products
            && (forall j :: j in t.jobs ==>
                  && t.jobs[j].worker != Some(w) && t.jobs[j] == db.jobs[j].(worker := t.jobs[j].worker)
                  && (db.jobs[j].worker != Some(w) ==> t.jobs[j] == db.jobs[j]))
            && (forall p :: p in t.locks ==> p in db.locks && t.locks[p] == db.locks[p] && t.locks[p].worker != w)
            && forall p :: p in db.locks && db.locks[p].worker != w ==> p in t.locks
  {
  }

  datatype Guarded = Removed | Missing | Refused

  /** `delete_genut`. */
  method DeleteGenut(session: Session, w: nat) returns (r: Guarded)
    requires session.Clean()
    modifies session
    ensures session.Clean()
    ensures r == if w !in old(session.workers) then Missing else if InUse(old(session.View()), w)
            then Refused else Removed
    ensures session.View() == if r == Removed then DeletedWorker(old(session.View()), w) else old(session.View())
  {
    if w !in session.workers {
      return Missing;
    }
    if InUse(session.View(), w) {
      return Refused;
    }
    session.jobs := map j | j in session.jobs :: if session.jobs[j].worker == Some(w)
        then session.jobs[j].(worker := None) else session.jobs[j];
    session.locks := map p | p in session.locks && session.locks[p].worker != w :: session.locks[p];
    session.workers := session.workers - {w};
    session.Commit();
    return Removed;
  }

  predicate Active(db: Db, p: nat) {
    exists j :: j in db.jobs && db.jobs[j].product == p && (db.jobs[j].status.Inflight() || db.jobs[j].status == Queued)
  }

  /** The product goes, with its jobs and its lock. */
  function DeletedProduct(db: Db, p: nat): Db {
    db.(jobs := map j | j in db.jobs && db.jobs[j].product != p :: db.jobs[j],
        locks := db.locks - {p},
        products := db.products - {p})
  }

  /** No row of the product is left, and every other row is. */
  lemma DeletedProductIsForgotten(db: Db, p: nat)
    ensures var t := DeletedProduct(db, p);
            && p !in t.products && p !in t.locks && t.workers == db.workers
            && (forall q :: q in db.products && q != p ==> q in t.products && t.products[q] == db.products[q])
            && (forall q :: q in db.locks && q != p ==> q in t.locks && t.locks[q] == db.locks[q])
            && (forall j :: j in t.jobs ==> j in db.jobs && t.jobs[j] == db.jobs[j] && t.jobs[j].product != p)
            && forall j :: j in db.jobs && db.jobs[j].product != p ==> j in t.jobs
  {
  }

  /** What is refused, by status: deleting a job that has not ended, an instance with a job in flight on it, and
      a product with a job that has not ended. */
  lemma RefusedExactly(db: Db, j: nat, w: nat, p: nat)
    ensures DeletionOf(db, j) == Deleted <==>
            j in db.jobs && db.jobs[j].status in {Done, Failed, Canceled, Interrupted}
    ensures DeletionOf(db, j) == NotFound <==> j !in db.jobs
    ensures InUse(db, w) <==>
            exists i :: i in db.jobs && db.jobs[i].worker == Some(w)
                        && db.jobs[i].status in {Assigned, Preparing, Running, Collecting, Retrying}
    ensures Active(db, p) <==>
            exists i :: i in db.jobs && db.jobs[i].product == p
                        && db.jobs[i].status !in {Done, Failed, Canceled, Interrupted}
  {
  }

  /** `delete_product`. */
  method DeleteProduct(session: Session, p: nat) returns (r: Guarded)
    requires session.Clean()
    modifies session
    ensures session.Clean()
    ensures r == if p !in old(session.products) then Missing else if Active(old(session.View()), p)
            then Refused else Removed
    ensures session.View() == if r == Removed then DeletedProduct(old(session.View()), p) else old(session.View())
  {
    if p !in session.products {
      return Missing;
    }
    if Active(session.View(), p) {
      return Refused;
    }
    session.jobs := map j | j in session.jobs && session.jobs[j].product != p :: session.jobs[j];
    session.locks := session.locks - {p};
    session.products := session.products - {p};
    session.Commit();
    return Removed;
  }

  function RenamedProduct(db: Db, p: nat, key: Key): Db
    requires p in db.products
  {
    db.(products := db.products[p := db.products[p].(key := key)])
  }

  /** The part of `update_product` that changes project and name. */
  method UpdateProductKey(session: Session, p: nat, key: Key) returns (found: bool)
    requires session.Clean()
    modifies session
    ensures session.Clean() && found == (p in old(session.products))
    ensures session.View() == if found then RenamedProduct(old(session.View()), p, key) else old(session.View())
    ensures found ==> session.products[p] == old(session.products)[p].(key := key)
    ensures forall q :: q in old(session.products) && q != p ==> session.products[q] == old(session.products)[q]
  {
    if p !in session.products {
      return false;
    }
    session.products := session.products[p := session.products[p].(key := key)];
    session.Commit();
    return true;
  }
}
