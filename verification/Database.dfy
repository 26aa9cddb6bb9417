/** The tables the scheduler works on, and the session through which it changes them. */
module Database {

  datatype Option<+T> = None | Some(value: T)

  datatype Status =
    | Queued | Assigned | Preparing | Running | Collecting | Retrying
    | Done | Failed | Canceled | Interrupted
  {
    predicate Terminal() {
      Done? || Failed? || Canceled? || Interrupted?
    }

    predicate Inflight() {
      Assigned? || Preparing? || Running? || Collecting? || Retrying?
    }
  }

  datatype Kind = Genut | AutoScan | AutoDiff {
    predicate Prep() {
      !Genut?
    }
  }

  datatype Origin = Manual | Auto

  datatype WorkerStatus = Idle | Busy | Error | Disabled

  /** Exclusion is by project and product name. */
  datatype Key = Key(project: string, name: string)

  type Time = int

  datatype Product = Product(
    key: Key,
    autoRun: bool,
    active: bool,
    interval: Option<int>,
    lastAutoRun: Option<Time>,
    lastScanned: Option<string>)

  datatype Worker = Worker(enabled: bool, status: WorkerStatus, current: Option<nat>)

  datatype Job = Job(
    product: nat,
    kind: Kind,
    origin: Origin,
    status: Status,
    worker: Option<nat>,
    function_: Option<string>,
    files: seq<string>,
    priority: int,
    submittedAt: Time,
    startedAt: Option<Time>,
    finishedAt: Option<Time>,
    summary: Option<string>,
    error: Option<string>)

  datatype Lock = Lock(job: nat, worker: nat, acquiredAt: Time)

  /** The rows of all tables. `nextJob` is the id the next job gets. */
  datatype Db = Db(
    jobs: map<nat, Job>,
    workers: map<nat, Worker>,
    products: map<nat, Product>,
    locks: map<nat, Lock>,
    nextJob: nat)

  /** A text that is there and not empty. */
  function Given(text: Option<string>): Option<string> {
    if text == Some("") then None else text
  }

  /** The row of a job as it is created. */
  function NewJob(product: nat, kind: Kind, origin: Origin, function_: Option<string>, files: seq<string>,
      now: Time): Job {
    Job(product, kind, origin, Queued, None, function_, files, 0, now, None, None, None, None)
  }

  /** Ids are given out in order. */
  predicate IdsFresh(db: Db) {
    forall j :: j in db.jobs ==> j < db.nextJob
  }

  /** Exclusion key of a job whose product exists. */
  predicate HasKey(db: Db, j: nat) {
    j in db.jobs && db.jobs[j].product in db.products
  }

  function KeyOf(db: Db, j: nat): Key
    requires HasKey(db, j)
  {
    db.products[db.jobs[j].product].key
  }

  /** An open transaction: working rows over the committed ones. */
  class Session {
    var jobs: map<nat, Job>
    var workers: map<nat, Worker>
    var products: map<nat, Product>
    var locks: map<nat, Lock>
    var nextJob: nat
    var committed: Db

    function View(): Db
      reads this
    {
      Db(jobs, workers, products, locks, nextJob)
    }

    /** Nothing is pending. */
    predicate Clean()
      reads this
    {
      View() == committed
    }

    constructor (db: Db)
      ensures View() == db && Clean()
    {
      jobs, workers, products, locks, nextJob := db.jobs, db.workers, db.products, db.locks, db.nextJob;
      committed := db;
    }

    method Commit()
      modifies this
      ensures View() == old(View()) && Clean()
    {
      committed := View();
    }

    method Rollback()
      modifies this
      ensures View() == old(committed) && Clean()
    {
      jobs, workers, products, locks, nextJob :=
        committed.jobs, committed.workers, committed.products, committed.locks, committed.nextJob;
    }

    /** Inserts a job under a fresh id. */
    method AddJob(job: Job) returns (id: nat)
      modifies this
      ensures id == old(nextJob) && committed == old(committed)
      ensures View() == old(View()).(jobs := old(jobs)[id := job], nextJob := id + 1)
    {
      id := nextJob;
      jobs := jobs[id := job];
      nextJob := nextJob + 1;
    }
  }
}
