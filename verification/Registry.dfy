/**
The registry of running subprocesses, and how a cancel request reaches the worker. The mutex makes
each access one step; processes are killed outside of it.
*/
module Registry {
  import opened Database
  import opened Engine
  import AutoTick
  import Janitor

  type Proc = nat

  /** The registered process of each job, and the jobs whose cancellation was requested. */
  datatype Reg = Reg(procs: map<nat, Proc>, canceled: set<nat>)

  function Registered(r: Reg, j: nat, proc: Proc): Reg {
    r.(procs := r.procs[j := proc])
  }

  function Marked(r: Reg, j: nat): Reg {
    r.(canceled := r.canceled + {j})
  }

  function Unregistered(r: Reg, j: nat): Reg {
    Reg(r.procs - {j}, r.canceled - {j})
  }

  /** The registry; each method is what happens under the mutex. */
  class ProcessRegistry {
    var procs: map<nat, Proc>
    var canceled: set<nat>

    function View(): Reg
      reads this
    {
      Reg(procs, canceled)
    }

    constructor ()
      ensures View() == Reg(map[], {})
    {
      procs, canceled := map[], {};
    }

    /** The caller kills the process if told to. */
    method Register(j: nat, proc: Proc) returns (killNow: bool)
      modifies this
      ensures View() == Registered(old(View()), j, proc) && killNow == (j in old(canceled))
    {
      killNow := false;
      procs := procs[j := proc];
      if j in canceled {
        killNow := true;
      }
    }

    method Unregister(j: nat)
      modifies this
      ensures View() == Unregistered(old(View()), j)
    {
      procs := procs - {j};
      canceled := canceled - {j};
    }

    method IsCanceled(j: nat) returns (r: bool)
      ensures r == (j in canceled)
    {
      r := j in canceled;
    }

    method HasProcess(j: nat) returns (r: bool)
      ensures r == (j in procs)
    {
      r := j in procs;
    }

    /** The caller kills the process that is returned. */
    method Cancel(j: nat) returns (proc: Option<Proc>)
      modifies this
      ensures View() == Marked(old(View()), j)
      ensures proc == if j in old(procs) then Some(old(procs)[j]) else None
    {
      canceled := canceled + {j};
      proc := if j in procs then Some(procs[j]) else None;
    }
  }

  // ---- The end of a run, by one worker ----

  datatype Outcome = Raised(error: string) | Returned(success: bool, summary: Option<string>, detail: string)

  function OrDefault(text: string, otherwise: string): string {
    if text == "" then otherwise else text
  }

  const CANCELED_ERROR := "canceled by the user"

  /** How the job is finished: a cancel request counts before the outcome of the run. */
  function EndOf(db: Db, j: nat, canceled: bool, outcome: Outcome, now: Time): Db {
    if canceled then Finish(db, j, Canceled, None, Some(CANCELED_ERROR), now)
    else
      match outcome
      case Raised(error) => Finish(db, j, Failed, None, Some(error), now)
      case Returned(true, summary, _) =>
        Finish(db, j, Done, Some(if summary.None? then "ok" else OrDefault(summary.value, "ok")), None, now)
      case Returned(false, summary, detail) => Finish(db, j, Failed, summary, Some(OrDefault(detail, "failed")), now)
  }

  /** What the end of a run leaves in the row of a job that has not ended yet, and that no other row changes. */
  lemma EndWritesRow(db: Db, j: nat, canceled: bool, outcome: Outcome, now: Time)
    requires j in db.jobs && !db.jobs[j].status.Terminal()
    ensures var t := EndOf(db, j, canceled, outcome, now);
            t.jobs.Keys == db.jobs.Keys && forall i :: i in db.jobs && i != j ==> t.jobs[i] == db.jobs[i]
    ensures var was, row := db.jobs[j], EndOf(db, j, canceled, outcome, now).jobs[j];
            && (canceled ==>
                  row.status == Canceled && row.summary == was.summary && row.error == Some(CANCELED_ERROR))
            && (!canceled && outcome.Raised? ==>
                  row.status == Failed && row.summary == was.summary && row.error == Some(outcome.error))
            && (!canceled && outcome.Returned? && outcome.success ==>
                  && row.status == Done && row.error == was.error
                  && row.summary == (if outcome.summary.None? || outcome.summary == Some("") then Some("ok")
                                     else outcome.summary))
            && (!canceled && outcome.Returned? && !outcome.success ==>
                  && row.status == Failed
                  && row.error == Some(if outcome.detail == "" then "failed" else outcome.detail)
                  && row.summary == if outcome.summary.Some? then outcome.summary else was.summary)
            && row == was.(status := row.status, summary := row.summary, error := row.error, finishedAt := Some(now))
  {
    hide ReleasedLocks;
  }

  /** The end of `process_job`: the flag is read before it is taken off. */
  method EndRun(session: Session, registry: ProcessRegistry, j: nat, outcome: Outcome, now: Time)
    requires session.Clean()
    modifies session, registry
    ensures session.Clean()
            && session.View() == EndOf(old(session.View()), j, j in old(registry.canceled), outcome, now)
    ensures registry.View() == Unregistered(old(registry.View()), j)
  {
    var canceled := registry.IsCanceled(j);
    registry.Unregister(j);
    if canceled {
      FinishJob(session, j, Canceled, None, Some(CANCELED_ERROR), now);
      return;
    }
    match outcome
    case Raised(error) =>
      FinishJob(session, j, Failed, None, Some(error), now);
    case Returned(success, summary, detail) =>
      if success {
        FinishJob(session, j, Done, Some(if summary.None? then "ok" else OrDefault(summary.value, "ok")), None, now);
      } else {
        FinishJob(session, j, Failed, summary, Some(OrDefault(detail, "failed")), now);
      }
  }

  // ---- Threads ----

  /** Where a thread stands: a worker runs, has read the flag after its run came out somehow, has
      unregistered; the watchdog is about to finish a job, or to unregister it. */
  datatype Place =
    | Free
    | Working(job: nat)
    | Flagged(job: nat, canceled: bool, outcome: Outcome)
    | Ending(job: nat, canceled: bool, outcome: Outcome)
    | Reaping(job: nat)
    | Reaped(job: nat)
  {
    predicate WorksOn(j: nat) {
      (Working? || Flagged? || Ending?) && job == j
    }
  }

  /** A thread may have to kill a process before it goes on. */
  datatype Thread = Thread(place: Place, kill: Option<Proc>)

  datatype Row = Row(kind: Kind, status: Status)

  /** `reaped` are the jobs the watchdog has finished. */
  datatype State = State(
    reg: Reg,
    killed: set<Proc>,
    threads: map<nat, Thread>,
    jobs: map<nat, Row>,
    reaped: set<nat>)

  /** `finish_job` leaves an ended job alone. */
  function FinishRow(jobs: map<nat, Row>, j: nat, status: Status): map<nat, Row> {
    if j !in jobs || jobs[j].status.Terminal() then jobs else jobs[j := jobs[j].(status := status)]
  }

  /** A worker's own finish: preparation jobs are written in any case. */
  function FinishOwnRow(jobs: map<nat, Row>, j: nat, status: Status): map<nat, Row> {
    if j in jobs && jobs[j].kind.Prep() then jobs[j := jobs[j].(status := status)] else FinishRow(jobs, j, status)
  }

  /** A cancel request counts before the outcome of the run. */
  function EndStatus(canceled: bool, outcome: Outcome): Status {
    if canceled then Canceled else if outcome.Returned? && outcome.success then Done else Failed
  }

  function ProcOf(r: Reg, j: nat): Option<Proc> {
    if j in r.procs then Some(r.procs[j]) else None
  }

  function StatusRows(db: Db): map<nat, Row> {
    map j | j in db.jobs :: Row(db.jobs[j].kind, db.jobs[j].status)
  }

  lemma {:induction false} StatusOfFinish(db: Db, j: nat, status: Status, summary: Option<string>,
      error: Option<string>, now: Time)
    ensures StatusRows(Finish(db, j, status, summary, error, now)) == FinishRow(StatusRows(db), j, status)
  {
    hide ReleasedLocks;
  }

  /** These are the status columns that the finishing operations leave behind. */
  lemma FinishesAgree(db: Db, j: nat, status: Status, summary: Option<string>, error: Option<string>, now: Time)
    ensures StatusRows(Finish(db, j, status, summary, error, now)) == FinishRow(StatusRows(db), j, status)
    ensures j in db.jobs && db.jobs[j].kind.Prep() ==>
              StatusRows(AutoTick.FinishPrep(db, j, status, summary, error, now)) ==
                  FinishOwnRow(StatusRows(db), j, status)
    ensures !(j in db.jobs && db.jobs[j].kind.Prep()) ==>
              StatusRows(Finish(db, j, status, summary, error, now)) == FinishOwnRow(StatusRows(db), j, status)
  {
    assert StatusRows(Finish(db, j, status, summary, error, now)) == FinishRow(StatusRows(db), j, status) by {
      StatusOfFinish(db, j, status, summary, error, now);
    }
    hide Finish;
    if j in db.jobs && db.jobs[j].kind.Prep() {
      assert StatusRows(AutoTick.FinishPrep(db, j, status, summary, error, now)) ==
             FinishOwnRow(StatusRows(db), j, status);
    }
  }

  /** The thread's own finish leaves the status column that the end of the run leaves in the tables. */
  lemma {:induction false} EndsAgree(db: Db, j: nat, canceled: bool, outcome: Outcome, now: Time)
    requires j in db.jobs && db.jobs[j].kind == Genut
    ensures StatusRows(EndOf(db, j, canceled, outcome, now)) ==
            FinishOwnRow(StatusRows(db), j, EndStatus(canceled, outcome))
  {
    hide Finish;
    hide StatusRows;
    RowKind(db, j);
    if canceled {
      StatusOfFinish(db, j, Canceled, None, Some(CANCELED_ERROR), now);
    } else {
      match outcome
      case Raised(error) => StatusOfFinish(db, j, Failed, None, Some(error), now);
      case Returned(true, summary, _) =>
        StatusOfFinish(db, j, Done, Some(if summary.None? then "ok" else OrDefault(summary.value, "ok")), None, now);
      case Returned(false, summary, detail) =>
        StatusOfFinish(db, j, Failed, summary, Some(OrDefault(detail, "failed")), now);
    }
  }

  lemma RowKind(db: Db, j: nat)
    requires j in db.jobs
    ensures j in StatusRows(db) && StatusRows(db)[j].kind == db.jobs[j].kind
  {
  }

  datatype Action =
    | Start(job: nat, kind: Kind)
    | RegisterProcess(proc: Proc)
    | ReadFlag(outcome: Outcome)
    | UnregisterOwn
    | FinishOwn
    | Die
    | CancelJob(job: nat)
    | ReapMark(job: nat)
    | ReapFinish
    | ReapUnregister
    | Kill
    | Restart

  function Moved(s: State, th: nat, place: Place, kill: Option<Proc>): State {
    s.(threads := s.threads[th := Thread(place, kill)])
  }

  /** What thread `th` does from a place where it has nothing to kill. */
  ghost predicate Moves(s: State, th: nat, here: Place, a: Action, t: State) {
    match a
    case Start(j, kind) =>
      here.Free? && j !in s.jobs && t == Moved(s, th, Working(j), None).(jobs := s.jobs[j := Row(kind, Running)])
    case RegisterProcess(proc) =>
      && here.Working? && proc !in s.killed
      && t == Moved(s, th, here, if here.job in s.reg.canceled then Some(proc) else None)
              .(reg := Registered(s.reg, here.job, proc))
    case ReadFlag(outcome) =>
      here.Working? && t == Moved(s, th, Flagged(here.job, here.job in s.reg.canceled, outcome), None)
    case UnregisterOwn =>
      && here.Flagged?
      && t == Moved(s, th, Ending(here.job, here.canceled, here.outcome), None).(reg := Unregistered(s.reg, here.job))
    case FinishOwn =>
      && here.Ending?
      && t == Moved(s, th, Free, None)
              .(jobs := FinishOwnRow(s.jobs, here.job, EndStatus(here.canceled, here.outcome)))
    case Die =>
      here.Working? && t == Moved(s, th, Free, None)
    case CancelJob(j) =>
      here.Free? && t == Moved(s, th, Free, ProcOf(s.reg, j)).(reg := Marked(s.reg, j))
    case ReapMark(j) =>
      here.Free? && j in s.jobs && t == Moved(s, th, Reaping(j), ProcOf(s.reg, j)).(reg := Marked(s.reg, j))
    case ReapFinish =>
      && here.Reaping?
      && t == Moved(s, th, Reaped(here.job), None)
              .(jobs := FinishRow(s.jobs, here.job, Failed), reaped := s.reaped + {here.job})
    case ReapUnregister =>
      here.Reaped? && t == Moved(s, th, Free, None).(reg := Unregistered(s.reg, here.job))
    case _ => false
  }

  /** The process comes up again: no thread and no entry of the registry is left. */
  function Restarted(s: State): State {
    s.(reg := Reg(map[], {}),
       threads := map x | x in s.threads :: Thread(Free, None),
       jobs := map j | j in s.jobs ::
                 if s.jobs[j].status.Terminal() then s.jobs[j] else s.jobs[j].(status := Interrupted))
  }

  /** One step of thread `th`. */
  ghost predicate Step(s: State, th: nat, a: Action, t: State) {
    && th in s.threads
    && var x := s.threads[th];
       match a
       case Restart => t == Restarted(s)
       case Kill => x.kill.Some? && t == Moved(s, th, x.place, None).(killed := s.killed + {x.kill.value})
       case _ => x.kill.None? && Moves(s, th, x.place, a, t)
  }

  /** A restart leaves the status columns that interrupting leaves in the tables, jobs being under way here. */
  lemma RestartAgrees(db: Db, s: State, now: Time)
    requires s.jobs == StatusRows(db) && forall j :: j in db.jobs ==> db.jobs[j].status != Queued
    ensures Restarted(s).jobs == StatusRows(Janitor.MarkInterrupted(db, now))
  {
  }

  // ---- What every step keeps ----

  /** The process is dead, or some thread is just about to kill it. */
  ghost predicate Doomed(s: State, proc: Proc) {
    proc in s.killed || exists th :: th in s.threads && s.threads[th].kill == Some(proc)
  }

  ghost predicate CanceledAreDoomed(s: State) {
    forall j :: j in s.reg.canceled && j in s.reg.procs ==> Doomed(s, s.reg.procs[j])
  }

  /** While a worker has not finished its job, only the watchdog can have ended it. */
  ghost predicate EndedByWatchdog(s: State) {
    forall th, j :: th in s.threads && s.threads[th].place.WorksOn(j) ==>
      j in s.jobs && (s.jobs[j].status.Terminal() ==> j in s.reaped)
  }

  ghost predicate OneWorkerEach(s: State) {
    forall x, y, j ::
      && x in s.threads && s.threads[x].place.WorksOn(j)
      && y in s.threads && s.threads[y].place.WorksOn(j) ==>
        x == y
  }

  ghost predicate ReapedAreRecorded(s: State) {
    forall th :: th in s.threads && s.threads[th].place.Reaped? ==> s.threads[th].place.job in s.reaped
  }

  ghost predicate Inv(s: State) {
    CanceledAreDoomed(s) && EndedByWatchdog(s) && OneWorkerEach(s) && ReapedAreRecorded(s)
  }

  /** What was doomed stays doomed, until a restart. */
  lemma DoomedStays(s: State, th: nat, a: Action, t: State, proc: Proc)
    requires Step(s, th, a, t) && !a.Restart? && Doomed(s, proc)
    ensures Doomed(t, proc)
  {
    if proc !in s.killed {
      var x :| x in s.threads && s.threads[x].kill == Some(proc);
      assert x != th ==> t.threads[x] == s.threads[x];
    }
  }

  lemma StepDooms(s: State, th: nat, a: Action, t: State)
    requires CanceledAreDoomed(s) && Step(s, th, a, t)
    ensures CanceledAreDoomed(t)
  {
    if !a.Restart? {
      forall j | j in t.reg.canceled && j in t.reg.procs ensures Doomed(t, t.reg.procs[j]) {
        if j in s.reg.canceled && j in s.reg.procs && t.reg.procs[j] == s.reg.procs[j] {
          DoomedStays(s, th, a, t, s.reg.procs[j]);
        } else {
          assert t.threads[th].kill == Some(t.reg.procs[j]);
        }
      }
    }
  }

  lemma OthersStand(s: State, th: nat, a: Action, t: State)
    requires Step(s, th, a, t) && !a.Restart?
    ensures t.threads.Keys == s.threads.Keys && forall x :: x in s.threads && x != th ==> t.threads[x] == s.threads[x]
  {
  }

  lemma StepEndedByWatchdog(s: State, th: nat, a: Action, t: State)
    requires EndedByWatchdog(s) && OneWorkerEach(s) && Step(s, th, a, t)
    ensures EndedByWatchdog(t)
  {
    if !a.Restart? {
      OthersStand(s, th, a, t);
      forall x, j | x in t.threads && t.threads[x].place.WorksOn(j)
        ensures j in t.jobs && (t.jobs[j].status.Terminal() ==> j in t.reaped)
      {
        if x == th && !a.Start? {
          assert s.threads[th].place.WorksOn(j);
        }
      }
    }
  }

  lemma StepOneWorkerEach(s: State, th: nat, a: Action, t: State)
    requires EndedByWatchdog(s) && OneWorkerEach(s) && Step(s, th, a, t)
    ensures OneWorkerEach(t)
  {
    if !a.Restart? {
      OthersStand(s, th, a, t);
      forall j | t.threads[th].place.WorksOn(j) && !a.Start? ensures s.threads[th].place.WorksOn(j) {
      }
    }
  }

  lemma StepReapedAreRecorded(s: State, th: nat, a: Action, t: State)
    requires ReapedAreRecorded(s) && Step(s, th, a, t)
    ensures ReapedAreRecorded(t)
  {
  }

  lemma StepKeeps(s: State, th: nat, a: Action, t: State)
    requires Inv(s) && Step(s, th, a, t)
    ensures Inv(t)
  {
    StepDooms(s, th, a, t);
    StepEndedByWatchdog(s, th, a, t);
    StepOneWorkerEach(s, th, a, t);
    StepReapedAreRecorded(s, th, a, t);
  }

  // ---- Runs ----

  datatype Event = Event(thread: nat, action: Action, after: State)

  function StateAt(init: State, trace: seq<Event>, k: nat): State
    requires k <= |trace|
  {
    if k == 0 then init else trace[k - 1].after
  }

  predicate Fresh(s: State) {
    && s.reg == Reg(map[], {}) && s.jobs == map[] && s.reaped == {}
    && forall th :: th in s.threads ==> s.threads[th] == Thread(Free, None)
  }

  ghost predicate StepAt(init: State, trace: seq<Event>, k: nat)
    requires k < |trace|
  {
    Step(StateAt(init, trace, k), trace[k].thread, trace[k].action, StateAt(init, trace, k + 1))
  }

  ghost predicate Run(init: State, trace: seq<Event>) {
    Fresh(init) && forall k :: 0 <= k < |trace| ==> StepAt(init, trace, k)
  }

  lemma TraceStep(init: State, trace: seq<Event>, k: nat)
    requires Run(init, trace) && k < |trace|
    ensures Step(StateAt(init, trace, k), trace[k].thread, trace[k].action, StateAt(init, trace, k + 1))
  {
    hide Step;
    assert StepAt(init, trace, k);
  }

  lemma {:induction false} ReachableInv(init: State, trace: seq<Event>, k: nat)
    requires Run(init, trace) && k <= |trace|
    ensures Inv(StateAt(init, trace, k))
  {
    hide Step;
    if k > 0 {
      hide Inv;
      ReachableInv(init, trace, k - 1);
      TraceStep(init, trace, k - 1);
      StepKeeps(StateAt(init, trace, k - 1), trace[k - 1].thread, trace[k - 1].action, StateAt(init, trace, k));
    }
  }

  /** No cancel is lost: a process that is registered for a job while the job is marked canceled, in
      whichever order the two happened, is killed or just about to be, from then on. */
  lemma {:induction false} NoCancelIsLost(init: State, trace: seq<Event>, k: nat, n: nat, j: nat)
    requires Run(init, trace) && k <= n <= |trace|
    requires j in StateAt(init, trace, k).reg.canceled && j in StateAt(init, trace, k).reg.procs
    requires forall i :: k <= i < n ==> !trace[i].action.Restart?
    ensures Doomed(StateAt(init, trace, n), StateAt(init, trace, k).reg.procs[j])
    decreases n
  {
    hide Step;
    if n == k {
      ReachableInv(init, trace, k);
    } else {
      hide Doomed;
      NoCancelIsLost(init, trace, k, n - 1, j);
      TraceStep(init, trace, n - 1);
      DoomedStays(StateAt(init, trace, n - 1), trace[n - 1].thread, trace[n - 1].action, StateAt(init, trace, n),
                  StateAt(init, trace, k).reg.procs[j]);
    }
  }

  // ---- Processes registered after a cancel ----

  /** Event `k` asks for the cancellation of the job. */
  predicate Marks(trace: seq<Event>, k: nat, j: nat)
    requires k < |trace|
  {
    trace[k].action == CancelJob(j) || trace[k].action == ReapMark(j)
  }

  /** Event `k` takes the job out of the registry: its worker does at the end, the watchdog when it is
      through with the job, whether the worker lives or not, and a restart. */
  predicate TakesOut(init: State, trace: seq<Event>, k: nat, j: nat)
    requires k < |trace|
  {
    var s, e := StateAt(init, trace, k), trace[k];
    || e.action.Restart?
    || ((e.action.UnregisterOwn? || e.action.ReapUnregister?) && e.thread in s.threads
        && !s.threads[e.thread].place.Free? && s.threads[e.thread].place.job == j)
  }

  /** Cancellation was requested, and since then the job was not taken out of the registry. */
  ghost predicate StillWanted(init: State, trace: seq<Event>, n: nat, j: nat)
    requires n <= |trace|
  {
    exists k :: 0 <= k < n && Marks(trace, k, j) && forall i :: k < i < n ==> !TakesOut(init, trace, i, j)
  }

  lemma MarkStep(init: State, trace: seq<Event>, n: nat, j: nat)
    requires Run(init, trace) && n < |trace|
    ensures j in trace[n].after.reg.canceled <==>
            Marks(trace, n, j) || (j in StateAt(init, trace, n).reg.canceled && !TakesOut(init, trace, n, j))
  {
    TraceStep(init, trace, n);
    hide Run;
  }

  lemma WantedStep(init: State, trace: seq<Event>, n: nat, j: nat)
    requires n < |trace|
    ensures StillWanted(init, trace, n + 1, j) <==>
            Marks(trace, n, j) || (StillWanted(init, trace, n, j) && !TakesOut(init, trace, n, j))
  {
    hide Marks;
    hide TakesOut;
    if StillWanted(init, trace, n, j) && !TakesOut(init, trace, n, j) {
      var k :| 0 <= k < n && Marks(trace, k, j) && forall i :: k < i < n ==> !TakesOut(init, trace, i, j);
      assert forall i :: k < i < n + 1 ==> !TakesOut(init, trace, i, j);
    }
  }

  /** The mark on a job says just that. */
  lemma {:induction false} MarkedExactly(init: State, trace: seq<Event>, n: nat, j: nat)
    requires Run(init, trace) && n <= |trace|
    ensures j in StateAt(init, trace, n).reg.canceled <==> StillWanted(init, trace, n, j)
    decreases n
  {
    hide Step;
    if n > 0 {
      hide StillWanted;
      hide Marks;
      hide TakesOut;
      MarkedExactly(init, trace, n - 1, j);
      MarkStep(init, trace, n - 1, j);
      WantedStep(init, trace, n - 1, j);
    }
  }

  /** A process that a worker registers is to be killed at once exactly when a cancel request is still
      wanted, and then it stays doomed until a restart. After the watchdog has forgotten the job, a
      worker that still lives gets its next process through. */
  lemma LaterProcessIsDoomedExactly(init: State, trace: seq<Event>, n: nat, m: nat, j: nat, proc: Proc)
    requires Run(init, trace) && n < m <= |trace|
    requires trace[n].action == RegisterProcess(proc) && trace[n].thread in StateAt(init, trace, n).threads
    requires StateAt(init, trace, n).threads[trace[n].thread].place == Working(j)
    requires forall i :: n < i < m ==> !trace[i].action.Restart?
    ensures trace[n].thread in trace[n].after.threads
    ensures trace[n].after.threads[trace[n].thread].kill == Some(proc) <==> StillWanted(init, trace, n, j)
    ensures StillWanted(init, trace, n, j) ==> Doomed(StateAt(init, trace, m), proc)
  {
    TraceStep(init, trace, n);
    MarkedExactly(init, trace, n, j);
    hide Run;
    hide StillWanted;
    if StillWanted(init, trace, n, j) {
      NoCancelIsLost(init, trace, n + 1, m, j);
    }
  }

  // A run in which one gets through.

  /** Thread 0 works on job 1 when it is there, thread 1 is the API, thread 2 the watchdog. */
  function Threads(worker: Place, watchdog: Place): map<nat, Thread> {
    map[0 := Thread(worker, None), 1 := Thread(Free, None), 2 := Thread(watchdog, None)]
  }

  function Scene(reg: Reg, worker: Place, watchdog: Place, status: Option<Status>, reaped: set<nat>): State {
    State(reg, {}, Threads(worker, watchdog), if status.None? then map[] else map[1 := Row(Genut, status.value)],
          reaped)
  }

  const NONE := Reg(map[], {})
  const MARKED := Reg(map[], {1})

  lemma Extends(init: State, trace: seq<Event>, e: Event) returns (r: seq<Event>)
    requires Run(init, trace) && Step(StateAt(init, trace, |trace|), e.thread, e.action, e.after)
    ensures r == trace + [e] && Run(init, r) && StateAt(init, r, |r|) == e.after
  {
    hide Step;
    r := trace + [e];
    forall k | 0 <= k < |r| ensures StepAt(init, r, k) {
      if k < |trace| {
        TraceStep(init, trace, k);
      }
    }
  }

  /** A job is canceled before it has a process, and the watchdog gives it up and forgets it; the process
      its worker registers then is not killed by anyone. */
  lemma ProcessGetsThrough() returns (init: State, trace: seq<Event>)
    ensures Run(init, trace) && |trace| == 6
    ensures trace[1].action == CancelJob(1) && trace[5].action == RegisterProcess(7)
    ensures trace[5].thread == 0 && 0 in StateAt(init, trace, 5).threads
    ensures StateAt(init, trace, 5).threads[0].place == Working(1)
    ensures !Doomed(StateAt(init, trace, 6), 7)
  {
    init := Scene(NONE, Free, Free, None, {});
    trace := [];
    trace := Extends(init, trace, Event(0, Start(1, Genut), Scene(NONE, Working(1), Free, Some(Running), {})));
    trace := Extends(init, trace, Event(1, CancelJob(1), Scene(MARKED, Working(1), Free, Some(Running), {})));
    var marked := Scene(MARKED, Working(1), Place.Reaping(1), Some(Running), {});
    trace := Extends(init, trace, Event(2, ReapMark(1), marked));
    trace := Extends(init, trace, Event(2, ReapFinish, Scene(MARKED, Working(1), Place.Reaped(1), Some(Failed), {1})));
    trace := Extends(init, trace, Event(2, ReapUnregister, Scene(NONE, Working(1), Free, Some(Failed), {1})));
    var registered := Scene(Reg(map[1 := 7], {}), Working(1), Free, Some(Failed), {1});
    trace := Extends(init, trace, Event(0, RegisterProcess(7), registered));
  }

  // ---- Whether the worker hears of it ----

  /** A cancel request is known to the worker of the job, or the watchdog has finished the job. */
  ghost predicate Heard(s: State, j: nat) {
    && j in s.jobs
    && forall th :: th in s.threads && s.threads[th].place.WorksOn(j) ==>
         j in s.reaped || (if s.threads[th].place.Working? then j in s.reg.canceled else s.threads[th].place.canceled)
  }

  lemma StepHears(s: State, th: nat, a: Action, t: State, j: nat)
    requires Inv(s) && Step(s, th, a, t) && Heard(s, j)
    ensures Heard(t, j)
  {
    if !a.Restart? {
      OthersStand(s, th, a, t);
    }
  }

  lemma {:induction false} StaysHeard(init: State, trace: seq<Event>, k: nat, n: nat, j: nat)
    requires Run(init, trace) && k <= n <= |trace| && Heard(StateAt(init, trace, k), j)
    ensures Heard(StateAt(init, trace, n), j)
    decreases n
  {
    hide Step;
    hide Heard;
    hide Inv;
    hide Run;
    if n > k {
      StaysHeard(init, trace, k, n - 1, j);
      ReachableInv(init, trace, n - 1);
      TraceStep(init, trace, n - 1);
      StepHears(StateAt(init, trace, n - 1), trace[n - 1].thread, trace[n - 1].action, StateAt(init, trace, n), j);
    }
  }

  /** The worker of the job, if it has one, has not read the flag yet. */
  ghost predicate NotYetRead(s: State, j: nat) {
    j in s.jobs && forall th :: th in s.threads && s.threads[th].place.WorksOn(j) ==> s.threads[th].place.Working?
  }

  lemma CancelIsHeard(s: State, th: nat, j: nat, t: State)
    requires Step(s, th, CancelJob(j), t) && NotYetRead(s, j)
    ensures Heard(t, j)
  {
    OthersStand(s, th, CancelJob(j), t);
  }

  lemma HeardEndsCanceled(s: State, th: nat, a: Action, t: State, j: nat)
    requires Inv(s) && Heard(s, j) && Step(s, th, a, t) && a.FinishOwn? && s.threads[th].place.WorksOn(j)
    ensures j in t.jobs && (t.jobs[j].status == Canceled || j in s.reaped)
  {
  }

  /** A cancel request made before the worker reads the flag ends the job as canceled, unless the
      watchdog has finished the job by then. */
  lemma CanceledInTimeEndsCanceled(init: State, trace: seq<Event>, k: nat, n: nat, j: nat)
    requires Run(init, trace) && k < n < |trace|
    requires trace[k].action == CancelJob(j) && NotYetRead(StateAt(init, trace, k), j)
    requires trace[n].action.FinishOwn? && trace[n].thread in StateAt(init, trace, n).threads
    requires StateAt(init, trace, n).threads[trace[n].thread].place.WorksOn(j)
    ensures j in trace[n].after.jobs
    ensures trace[n].after.jobs[j].status == Canceled || j in StateAt(init, trace, n).reaped
  {
    hide Step;
    hide Heard;
    hide NotYetRead;
    hide Inv;
    hide Run;
    TraceStep(init, trace, k);
    TraceStep(init, trace, n);
    CancelIsHeard(StateAt(init, trace, k), trace[k].thread, j, StateAt(init, trace, k + 1));
    StaysHeard(init, trace, k + 1, n, j);
    ReachableInv(init, trace, n);
    HeardEndsCanceled(StateAt(init, trace, n), trace[n].thread, trace[n].action, StateAt(init, trace, n + 1), j);
  }

  /** The worker of the job, if it still has one, has read the flag as `f` after its run came out so. */
  ghost predicate ReadAs(s: State, j: nat, f: bool, outcome: Outcome) {
    && j in s.jobs
    && forall th :: th in s.threads && s.threads[th].place.WorksOn(j) ==>
         !s.threads[th].place.Working? && s.threads[th].place.canceled == f && s.threads[th].place.outcome == outcome
  }

  lemma FlagIsRead(s: State, th: nat, outcome: Outcome, t: State, j: nat)
    requires Inv(s) && Step(s, th, ReadFlag(outcome), t) && s.threads[th].place.WorksOn(j)
    ensures ReadAs(t, j, j in s.reg.canceled, outcome)
  {
    OthersStand(s, th, ReadFlag(outcome), t);
  }

  lemma {:induction false} StaysRead(init: State, trace: seq<Event>, k: nat, n: nat, j: nat, f: bool,
      outcome: Outcome)
    requires Run(init, trace) && k <= n <= |trace| && ReadAs(StateAt(init, trace, k), j, f, outcome)
    ensures ReadAs(StateAt(init, trace, n), j, f, outcome)
    decreases n
  {
    hide Step;
    hide ReadAs;
    hide Run;
    if n > k {
      StaysRead(init, trace, k, n - 1, j, f, outcome);
      TraceStep(init, trace, n - 1);
      StepStaysRead(StateAt(init, trace, n - 1), trace[n - 1].thread, trace[n - 1].action, StateAt(init, trace, n),
          j, f, outcome);
    }
  }

  lemma StepStaysRead(s: State, th: nat, a: Action, t: State, j: nat, f: bool, outcome: Outcome)
    requires Step(s, th, a, t) && ReadAs(s, j, f, outcome)
    ensures ReadAs(t, j, f, outcome)
  {
    if !a.Restart? {
      OthersStand(s, th, a, t);
    }
  }

  lemma ReadDecides(s: State, th: nat, t: State, j: nat, f: bool, outcome: Outcome)
    requires Inv(s) && ReadAs(s, j, f, outcome) && Step(s, th, FinishOwn, t) && s.threads[th].place.WorksOn(j)
             && j !in s.reaped
    ensures j in t.jobs
    ensures t.jobs[j].status == Canceled <==> f
    ensures t.jobs[j].status == Done <==> !f && outcome.Returned? && outcome.success
    ensures t.jobs[j].status == Failed <==> !f && (outcome.Raised? || !outcome.success)
  {
  }

  /** A GENUT job that has ended keeps its status. */
  lemma {:induction false} StaysEnded(init: State, trace: seq<Event>, k: nat, n: nat, j: nat)
    requires Run(init, trace) && k <= n <= |trace| && j in StateAt(init, trace, k).jobs
    requires StateAt(init, trace, k).jobs[j].kind == Genut && StateAt(init, trace, k).jobs[j].status.Terminal()
    ensures j in StateAt(init, trace, n).jobs && StateAt(init, trace, n).jobs[j] == StateAt(init, trace, k).jobs[j]
    decreases n
  {
    hide Run;
    if n > k {
      StaysEnded(init, trace, k, n - 1, j);
      TraceStep(init, trace, n - 1);
    }
  }

  /**
  A GENUT job that the watchdog leaves alone ends, for good, by the mark at the moment its worker read the
  flag, where a later request does not count, and else by what came out of its run: canceled exactly if it
  was marked; done exactly if it was not and the run returned success; failed exactly if it was not and the
  run raised or returned failure.
  */
  lemma EndsByMarkAndOutcome(init: State, trace: seq<Event>, k: nat, n: nat, j: nat, m: nat)
    requires Run(init, trace) && k < n < m <= |trace|
    requires trace[k].action.ReadFlag? && trace[k].thread in StateAt(init, trace, k).threads
    requires StateAt(init, trace, k).threads[trace[k].thread].place.WorksOn(j)
    requires trace[n].action.FinishOwn? && trace[n].thread in StateAt(init, trace, n).threads
    requires StateAt(init, trace, n).threads[trace[n].thread].place.WorksOn(j) && j !in StateAt(init, trace, n).reaped
    requires j in trace[n].after.jobs && trace[n].after.jobs[j].kind == Genut
    ensures j in StateAt(init, trace, m).jobs
    ensures var marked, outcome := j in StateAt(init, trace, k).reg.canceled, trace[k].action.outcome;
            var status := StateAt(init, trace, m).jobs[j].status;
            && (status == Canceled <==> marked)
            && (status == Done <==> !marked && outcome.Returned? && outcome.success)
            && (status == Failed <==> !marked && (outcome.Raised? || !outcome.success))
  {
    FinishDecides(init, trace, k, n, j);
    hide Step;
    hide Run;
    StaysEnded(init, trace, n + 1, m, j);
  }

  lemma FinishDecides(init: State, trace: seq<Event>, k: nat, n: nat, j: nat)
    requires Run(init, trace) && k < n < |trace|
    requires trace[k].action.ReadFlag? && trace[k].thread in StateAt(init, trace, k).threads
    requires StateAt(init, trace, k).threads[trace[k].thread].place.WorksOn(j)
    requires trace[n].action.FinishOwn? && trace[n].thread in StateAt(init, trace, n).threads
    requires StateAt(init, trace, n).threads[trace[n].thread].place.WorksOn(j) && j !in StateAt(init, trace, n).reaped
    ensures j in trace[n].after.jobs
    ensures var marked, outcome := j in StateAt(init, trace, k).reg.canceled, trace[k].action.outcome;
            var status := trace[n].after.jobs[j].status;
            && (status == Canceled <==> marked)
            && (status == Done <==> !marked && outcome.Returned? && outcome.success)
            && (status == Failed <==> !marked && (outcome.Raised? || !outcome.success))
            && status.Terminal()
  {
    hide Step;
    hide Inv;
    hide Run;
    hide ReadAs;
    var f, outcome := j in StateAt(init, trace, k).reg.canceled, trace[k].action.outcome;
    ReachableInv(init, trace, k);
    ReachableInv(init, trace, n);
    TraceStep(init, trace, k);
    TraceStep(init, trace, n);
    FlagIsRead(StateAt(init, trace, k), trace[k].thread, outcome, StateAt(init, trace, k + 1), j);
    StaysRead(init, trace, k + 1, n, j, f, outcome);
    ReadDecides(StateAt(init, trace, n), trace[n].thread, StateAt(init, trace, n + 1), j, f, outcome);
    assert f || (outcome.Returned? && outcome.success) || outcome.Raised? || !outcome.success;
  }
}
