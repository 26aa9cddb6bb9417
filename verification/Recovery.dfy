/** Recovery after a crash: a clean start, and a queue that drains. */
module Recovery {
  import opened Database
  import opened Engine
  import opened Janitor
  import opened Invariant
  import opened Runs
  import opened Holdings

  /** What a restart makes of one job. */
  function RestartedJob(job: Job, now: Time): Job {
    if job.status.Inflight()
    then job.(status := Interrupted, finishedAt := Some(now), error := Some(RESTART_ERROR))
    else job
  }

  /** After any run, a restart leaves no lock, no busy worker and nothing in flight, and touches
      no queued or ended job. */
  lemma RecoveryIsClean(init: Db, trace: seq<Event>, k: nat, now: Time)
    requires Run(init, trace) && k <= |trace|
    ensures var s, t := StateAt(init, trace, k), Recover(StateAt(init, trace, k), now);
            && Inv(t) && t.locks == map[]
            && (forall w :: w in t.workers ==>
                t.workers[w].status == Idle && t.workers[w].enabled == s.workers[w].enabled)
            && (forall j :: j in t.jobs ==> !t.jobs[j].status.Inflight())
            && t.jobs == (map j | j in s.jobs :: RestartedJob(s.jobs[j], now))
            && t.products == s.products && t.workers.Keys == s.workers.Keys
  {
    ReachableInv(init, trace, k);
    hide Run;
    var s := StateAt(init, trace, k);
    RecoverEffect(s, now);
  }

  lemma RecoverEffect(s: Db, now: Time)
    requires Inv(s)
    ensures var t := Recover(s, now);
            && Inv(t) && t.locks == map[]
            && (forall w :: w in t.workers ==>
                t.workers[w].status == Idle && t.workers[w].enabled == s.workers[w].enabled)
            && (forall j :: j in t.jobs ==> !t.jobs[j].status.Inflight())
            && t.jobs == (map j | j in s.jobs :: RestartedJob(s.jobs[j], now))
            && t.products == s.products && t.workers.Keys == s.workers.Keys
  {
    hide Inv;
    MarkInterruptedKeeps(s, now);
    var m := MarkInterrupted(s, now);
    ReleaseStaleKeeps(m);
    assert forall j :: !RunningGenut(m, j);
    ReleasesAll(m);
  }

  /** With nothing running, every lock is stale and every worker is freed. */
  lemma ReleasesAll(db: Db)
    requires Inv(db) && forall j :: !RunningGenut(db, j)
    ensures ReleaseStale(db).locks == map[]
    ensures forall w :: w in db.workers ==> ReleaseStale(db).workers[w].status == Idle
  {
    hide Exclusive;
    hide InOrder;
    hide Held;
    assert forall p :: p !in ReleaseStale(db).locks;
  }

  // ---- run_pending ----

  function FinishAll(db: Db, asg: seq<Assignment>, outcome: nat -> Status, now: Time): Db {
    if asg == [] then db
    else
      var last := asg[|asg| - 1];
      Finish(FinishAll(db, asg[..|asg| - 1], outcome, now), last.job, outcome(last.job), None, None, now)
  }

  /** `run_pending`: one claim, then each assigned job is run to its end. */
  method RunPending(session: Session, now: Time, outcome: nat -> Status)
      returns (processed: nat, ghost asg: seq<Assignment>)
    requires session.Clean()
    modifies session
    ensures session.Clean() && processed == |asg|
    ensures Claims(old(session.View()), asg) && Assignable(old(session.View()), asg)
    ensures session.View() == FinishAll(Assign(old(session.View()), now, asg), asg, outcome, now)
  {
    hide Claims;
    hide Assign;
    hide Finish;
    var assignments := ClaimJobs(session, now);
    ghost var t := session.View();
    for k := 0 to |assignments|
      invariant session.Clean() && session.View() == FinishAll(t, assignments[..k], outcome, now)
    {
      assert assignments[..k + 1][..k] == assignments[..k];
      FinishJob(session, assignments[k].job, outcome(assignments[k].job), None, None, now);
    }
    assert assignments[..|assignments|] == assignments;
    processed := |assignments|;
    asg := assignments;
  }

  /** The jobs of `asg` have ended in `t`; other jobs, the products and the switches on the
      workers are as in `db`. */
  ghost predicate EndsOnly(db: Db, asg: seq<Assignment>, t: Db) {
    && Inv(t) && Live(t) && t.products == db.products
    && t.jobs.Keys == db.jobs.Keys && t.workers.Keys == db.workers.Keys
    && (forall j :: j in db.jobs ==> if TakesJob(asg, j) then t.jobs[j].status.Terminal() else t.jobs[j] == db.jobs[j])
    && (forall w :: w in db.workers ==> t.workers[w].enabled == db.workers[w].enabled)
  }

  lemma FinishEffect(db: Db, j: nat, status: Status, now: Time)
    requires status.Terminal()
    ensures var t := Finish(db, j, status, None, None, now);
            && t.products == db.products && t.jobs.Keys == db.jobs.Keys && t.workers.Keys == db.workers.Keys
            && (forall i :: i in db.jobs && i != j ==> t.jobs[i] == db.jobs[i])
            && (j in db.jobs ==> t.jobs[j].status.Terminal())
            && (forall w :: w in db.workers ==> t.workers[w].enabled == db.workers[w].enabled)
            && (j in db.jobs && db.jobs[j].status.Terminal() ==> t == db)
  {
  }

  lemma TakesLast(asg: seq<Assignment>, j: nat)
    requires asg != []
    ensures TakesJob(asg, j) <==> TakesJob(asg[..|asg| - 1], j) || j == asg[|asg| - 1].job
  {
    var front := asg[..|asg| - 1];
    if TakesJob(front, j) {
      var k :| 0 <= k < |front| && front[k].job == j;
      assert asg[k].job == j;
    }
  }

  lemma {:induction false} FinishAllEffect(db: Db, asg: seq<Assignment>, outcome: nat -> Status, now: Time)
    requires Inv(db) && Live(db) && forall j :: outcome(j).Terminal()
    ensures EndsOnly(db, asg, FinishAll(db, asg, outcome, now))
    decreases |asg|
  {
    hide Inv;
    hide Live;
    hide Finish;
    if asg != [] {
      var front, last := asg[..|asg| - 1], asg[|asg| - 1];
      var f := FinishAll(db, front, outcome, now);
      FinishAllEffect(db, front, outcome, now);
      FinishKeeps(f, last.job, outcome(last.job), None, None, now);
      FinishLive(f, last.job, outcome(last.job), None, None, now);
      FinishEffect(f, last.job, outcome(last.job), now);
      forall j ensures TakesJob(asg, j) <==> TakesJob(front, j) || j == last.job {
        TakesLast(asg, j);
      }
      hide TakesJob;
    }
  }

  lemma {:induction false} AssignRuns(db: Db, now: Time, asg: seq<Assignment>)
    requires Assignable(db, asg)
    ensures forall j :: IsRunning(Assign(db, now, asg), j) <==> IsRunning(db, j) || TakesJob(asg, j)
    ensures forall w :: w in db.workers ==> Assign(db, now, asg).workers[w].enabled == db.workers[w].enabled
    decreases |asg|
  {
    if asg != [] {
      AssignRuns(db, now, asg[..|asg| - 1]);
      TakesStep(db, asg);
    }
  }

  /** Nothing runs, nothing is held. */
  ghost predicate Calm(db: Db) {
    && Inv(db) && db.locks == map[]
    && (forall j :: !IsRunning(db, j))
    && (forall w :: w in db.workers ==> db.workers[w].status == Idle)
  }

  ghost predicate HasWorker(db: Db) {
    exists w :: w in db.workers && db.workers[w].enabled
  }

  lemma {:induction false} AssignOnly(db: Db, now: Time, asg: seq<Assignment>, t: Db)
    requires Assignable(db, asg) && EndsOnly(Assign(db, now, asg), asg, t)
    ensures EndsOnly(db, asg, t)
  {
    hide Inv;
    hide Live;
    hide TakesJob;
    AssignRuns(db, now, asg);
    AssignFrame(db, now, asg);
    hide Assign;
  }

  /** One round from a calm state ends the claimed jobs and changes nothing else. */
  lemma {:induction false} RoundEndsClaims(db: Db, now: Time, asg: seq<Assignment>, outcome: nat -> Status)
    requires Calm(db) && Claims(db, asg) && Assignable(db, asg) && forall j :: outcome(j).Terminal()
    ensures EndsOnly(db, asg, FinishAll(Assign(db, now, asg), asg, outcome, now))
  {
    AssignKeeps(db, now, asg);
    AssignLive(db, now, asg);
    hide Inv;
    hide Live;
    hide Claims;
    hide EndsOnly;
    hide Assign;
    hide FinishAll;
    var r := Assign(db, now, asg);
    FinishAllEffect(r, asg, outcome, now);
    AssignOnly(db, now, asg, FinishAll(r, asg, outcome, now));
  }

  lemma CalmAgain(db: Db, asg: seq<Assignment>, t: Db)
    requires Calm(db) && EndsOnly(db, asg, t)
    ensures Calm(t) && (HasWorker(db) ==> HasWorker(t))
    ensures forall j :: Candidate(t, j) <==> Candidate(db, j) && !TakesJob(asg, j)
  {
    hide Inv;
    hide Live;
    hide TakesJob;
    forall j ensures !IsRunning(t, j) {
      assert !IsRunning(db, j);
    }
    NothingRunsNothingHeld(t);
  }

  lemma NothingRunsNothingHeld(db: Db)
    requires Inv(db) && Live(db) && forall j :: !IsRunning(db, j)
    ensures Calm(db)
  {
    forall j ensures !RunningGenut(db, j) {
      assert !IsRunning(db, j);
    }
    assert db.locks == map[];
  }

  /** A queue that is not empty loses a job in every round. */
  lemma {:induction false} RoundShrinksQueue(db: Db, now: Time, asg: seq<Assignment>, outcome: nat -> Status)
    requires Calm(db) && HasWorker(db) && Claims(db, asg) && Assignable(db, asg) && forall j :: outcome(j).Terminal()
    requires Candidates(db) != {}
    ensures |Candidates(FinishAll(Assign(db, now, asg), asg, outcome, now))| < |Candidates(db)|
  {
    hide EndsOnly;
    hide FinishAll;
    hide Assign;
    QueueIsClaimed(db, asg);
    RoundEndsClaims(db, now, asg, outcome);
    hide Calm;
    var t := FinishAll(Assign(db, now, asg), asg, outcome, now);
    CalmAgain(db, asg, t);
    var a := asg[0].job;
    assert TakesJob(asg, a) && Champion(db, a);
    assert a in Candidates(db);
    SubsetSize(Candidates(t), Candidates(db) - {a});
  }

  lemma QueueIsClaimed(db: Db, asg: seq<Assignment>)
    requires Calm(db) && HasWorker(db) && Claims(db, asg) && Candidates(db) != {}
    ensures asg != []
  {
    var w :| w in db.workers && db.workers[w].enabled;
    assert w in IdleWorkers(db);
    var j :| j in Candidates(db);
    assert forall i :: !RunningPrep(db, i) by {
      forall i ensures !RunningPrep(db, i) {
        assert !IsRunning(db, i);
      }
    }
    assert KeyOf(db, j) in FreeKeys(db);
    ClaimIsMaximal(db, asg);
  }

  /** Round `k` claims what it may and runs that to its end. */
  ghost predicate RoundAt(states: seq<Db>, claims: seq<seq<Assignment>>, outcome: nat -> Status, clock: nat -> Time,
      k: nat)
    requires k < |claims| && k + 1 < |states|
  {
    && Claims(states[k], claims[k]) && Assignable(states[k], claims[k])
    && states[k + 1] == FinishAll(Assign(states[k], clock(k), claims[k]), claims[k], outcome, clock(k))
  }

  /** Rounds of `run_pending`, with what each claimed. */
  ghost predicate Rounds(states: seq<Db>, claims: seq<seq<Assignment>>, outcome: nat -> Status, clock: nat -> Time) {
    && |states| == |claims| + 1
    && (forall j :: outcome(j).Terminal())
    && forall k :: 0 <= k < |claims| ==> RoundAt(states, claims, outcome, clock, k)
  }

  lemma {:induction false} RoundsStayCalm(states: seq<Db>, claims: seq<seq<Assignment>>, outcome: nat -> Status,
      clock: nat -> Time, k: nat)
    requires Rounds(states, claims, outcome, clock) && Calm(states[0]) && HasWorker(states[0]) && k <= |claims|
    ensures Calm(states[k]) && HasWorker(states[k])
    ensures Candidates(states[k]) == {} || |Candidates(states[k])| + k <= |Candidates(states[0])|
  {
    hide Calm;
    hide HasWorker;
    hide Claims;
    hide EndsOnly;
    hide FinishAll;
    hide Assign;
    if k > 0 {
      RoundsStayCalm(states, claims, outcome, clock, k - 1);
      assert RoundAt(states, claims, outcome, clock, k - 1);
      RoundEndsClaims(states[k - 1], clock(k - 1), claims[k - 1], outcome);
      CalmAgain(states[k - 1], claims[k - 1], states[k]);
      if Candidates(states[k - 1]) != {} {
        RoundShrinksQueue(states[k - 1], clock(k - 1), claims[k - 1], outcome);
      } else {
        assert forall j :: Candidate(states[k], j) ==> j in Candidates(states[k - 1]);
      }
    }
  }

  /** From any reachable state, after a restart and with one enabled worker, `n` queued GENUT jobs
      are gone after `n` rounds. */
  lemma QueueDrains(init: Db, trace: seq<Event>, k: nat, now: Time, states: seq<Db>, claims: seq<seq<Assignment>>,
      outcome: nat -> Status, clock: nat -> Time)
    requires Run(init, trace) && k <= |trace|
    requires Rounds(states, claims, outcome, clock) && states[0] == Recover(StateAt(init, trace, k), now)
    requires HasWorker(states[0]) && |claims| >= |Candidates(states[0])|
    ensures Candidates(states[|claims|]) == {} && Calm(states[|claims|])
  {
    RecoveryIsClean(init, trace, k, now);
    hide Run;
    hide Rounds;
    assert Calm(states[0]);
    RoundsStayCalm(states, claims, outcome, clock, |claims|);
  }
}
