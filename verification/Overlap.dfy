/**
Diff runs of one product that overlap. The watchdog may fail a diff job whose thread goes on, and the
next one starts beside it; each reads the base when it begins and writes it when it ends.
*/
module Overlap {
  import opened Database
  import Engine
  import AutoTick
  import Janitor
  import opened AutoDiff
  import opened BaseProtocol
  import opened Invariant
  import opened Runs
  import opened Holdings

  /** A diff run under way, with the base and the head it read. It goes by its job. */
  datatype Under = Under(product: nat, base: Option<string>, head: Option<string>)

  /** The tables, and the diff runs under way. */
  datatype Stage = Stage(db: Db, open: map<nat, Under>)

  /** The run of a diff job begins or ends, or there is some other step on the tables; the jobs a diff
      run queues are such steps. */
  datatype Beat =
    | Begin(run: nat, head: Option<string>)
    | End(run: nat, result: DiffResult)
    | Meanwhile(now: Time, action: Action)

  datatype Tick = Tick(beat: Beat, after: Stage)

  predicate RunningDiff(db: Db, j: nat) {
    j in db.jobs && db.jobs[j].status == Running && db.jobs[j].kind == AutoDiff
  }

  /** The step finishes the job as its own thread does. */
  predicate FinishesOwn(a: Action, j: nat) {
    (a.Finishing? || a.FinishingPrep?) && a.job == j
  }

  /** A run begins when its job has been started, and its thread finishes the job only after the run.
      The watchdog does not stop the thread; a restart leaves none. */
  ghost predicate Beats(s: Stage, b: Beat, t: Stage) {
    match b
    case Begin(r, head) =>
      && r !in s.open && RunningDiff(s.db, r) && s.db.jobs[r].product in s.db.products
      && var p := s.db.jobs[r].product;
         t == s.(open := s.open[r := Under(p, s.db.products[p].lastScanned, head)])
    case End(r, result) =>
      && r in s.open && Lawful(Attempt(s.open[r].base, s.open[r].head, result))
      && t == Stage(if result.MovesBase() && s.open[r].product in s.db.products
                    then WithBase(s.db, s.open[r].product, s.open[r].head.value)
                    else s.db,
                    s.open - {r})
    case Meanwhile(now, a) =>
      && Step(s.db, now, a, t.db) && !a.MovingBase? && (forall r :: r in s.open ==> !FinishesOwn(a, r))
      && t.open == if a.Interrupting? then map[] else s.open
  }

  function After(init: Stage, trace: seq<Tick>): Stage {
    if trace == [] then init else trace[|trace| - 1].after
  }

  ghost predicate BeatsAt(init: Stage, trace: seq<Tick>, k: nat)
    requires k < |trace|
  {
    Beats(After(init, trace[..k]), trace[k].beat, trace[k].after)
  }

  /** From tables in which nothing was queued and no product was looked at yet. */
  ghost predicate Overlapping(init: Stage, trace: seq<Tick>) {
    && Fresh(init.db) && init.open == map[]
    && (forall p :: p in init.db.products ==> init.db.products[p].lastScanned.None?)
    && forall k :: 0 <= k < |trace| ==> BeatsAt(init, trace, k)
  }

  lemma FrontOverlaps(init: Stage, trace: seq<Tick>)
    requires Overlapping(init, trace) && trace != []
    ensures var front, last := trace[..|trace| - 1], trace[|trace| - 1];
            Overlapping(init, front) && Beats(After(init, front), last.beat, last.after)
  {
    hide Beats;
    var front := trace[..|trace| - 1];
    assert BeatsAt(init, trace, |front|);
    forall k | 0 <= k < |front| ensures BeatsAt(init, front, k) {
      assert BeatsAt(init, trace, k) && front[..k] == trace[..k];
    }
  }

  /** The scheduler's invariant holds throughout. */
  lemma {:induction false} OverlapInv(init: Stage, trace: seq<Tick>)
    requires Overlapping(init, trace)
    ensures Inv(After(init, trace).db)
    decreases |trace|
  {
    if trace != [] {
      var front, last := trace[..|trace| - 1], trace[|trace| - 1];
      FrontOverlaps(init, trace);
      hide Overlapping;
      OverlapInv(init, front);
      hide Inv;
      hide Step;
      var s := After(init, front);
      match last.beat
      case Begin(r, head) =>
      case End(r, result) =>
        if result.MovesBase() && s.open[r].product in s.db.products {
          BaseKeeps(s.db, s.open[r].product, s.open[r].head.value);
        }
      case Meanwhile(now, a) => StepKeeps(s.db, now, a, last.after.db);
    }
  }

  // ---- Only the watchdog lets runs overlap ----

  /** Event `k` is the watchdog giving up the job. */
  predicate GivenUpAt(init: Stage, trace: seq<Tick>, k: nat, j: nat)
    requires k < |trace|
  {
    && trace[k].beat.Meanwhile? && trace[k].beat.action.Reaping?
    && Janitor.Stuck(After(init, trace[..k]).db, j, trace[k].beat.now, trace[k].beat.action.limit,
                     trace[k].beat.action.alive)
  }

  ghost predicate GivenUp(init: Stage, trace: seq<Tick>, j: nat) {
    exists k :: 0 <= k < |trace| && GivenUpAt(init, trace, k, j)
  }

  predicate DiffOf(db: Db, j: nat, p: nat) {
    RunningDiff(db, j) && db.jobs[j].product == p
  }

  lemma {:induction false} ClaimingLeavesDiff(db: Db, now: Time, asg: seq<Engine.Assignment>, j: nat, p: nat)
    requires Engine.Claims(db, asg) && Engine.Assignable(db, asg) && DiffOf(db, j, p)
    ensures DiffOf(Engine.Assign(db, now, asg), j, p)
  {
    if Engine.TakesJob(asg, j) {
      ClaimsAreGenut(db, asg, j);
    }
    Engine.AssignFrame(db, now, asg);
  }

  lemma OtherStepLeavesDiff(s: Db, now: Time, a: Action, t: Db, j: nat, p: nat)
    requires Inv(s) && Step(s, now, a, t) && DiffOf(s, j, p) && !FinishesOwn(a, j) && !a.Interrupting?
    requires !a.Claiming? && !a.CyclingDue? && !LeavesJobs(a)
    requires a.Reaping? ==> !Janitor.Stuck(s, j, now, a.limit, a.alive)
    ensures DiffOf(t, j, p)
  {
    hide Held;
    hide LocksOwned;
    hide WorkersOwned;
    hide Exclusive;
    hide InOrder;
    hide RowOk;
    hide AutoTick.PrepChampion;
    hide Janitor.LockHeldBy;
    hide Janitor.WorkerHeldBy;
    hide AutoTick.UnfinishedPrep;
  }

  /** A running diff job goes on running unless its thread finishes it, the watchdog gives it up, or
      there is a restart. */
  lemma StepLeavesDiff(s: Db, now: Time, a: Action, t: Db, j: nat, p: nat)
    requires Inv(s) && Step(s, now, a, t) && DiffOf(s, j, p) && !FinishesOwn(a, j) && !a.Interrupting?
    requires a.Reaping? ==> !Janitor.Stuck(s, j, now, a.limit, a.alive)
    ensures DiffOf(t, j, p)
  {
    if a.Claiming? {
      ClaimingLeavesDiff(s, now, a.assignments, j, p);
    } else if a.CyclingDue? {
      CyclesAddJobs(s, now, a.order);
    } else if LeavesJobs(a) {
      JobsAreLeft(s, now, a, t);
    } else {
      OtherStepLeavesDiff(s, now, a, t, j, p);
    }
  }

  /** The job of a run under way is still running, or the watchdog has given it up. */
  lemma {:induction false} UnderIsRunning(init: Stage, trace: seq<Tick>, j: nat)
    requires Overlapping(init, trace) && j in After(init, trace).open
    ensures DiffOf(After(init, trace).db, j, After(init, trace).open[j].product) || GivenUp(init, trace, j)
    decreases |trace|
  {
    if trace != [] {
      var front, n := trace[..|trace| - 1], |trace| - 1;
      FrontOverlaps(init, trace);
      OverlapInv(init, front);
      hide Inv;
      hide Step;
      var s, b, t := After(init, front), trace[n].beat, trace[n].after;
      if j in s.open {
        UnderIsRunning(init, front, j);
        hide Overlapping;
        if GivenUp(init, front, j) {
          var k :| 0 <= k < |front| && GivenUpAt(init, front, k, j);
          assert front[..k] == trace[..k] && GivenUpAt(init, trace, k, j);
        } else if b.Meanwhile? && !GivenUpAt(init, trace, n, j) {
          StepLeavesDiff(s.db, b.now, b.action, t.db, j, s.open[j].product);
        }
      }
    }
  }

  /** By exclusion, two diff jobs of one product do not run at a time. */
  lemma OneDiffRuns(db: Db, i: nat, j: nat, p: nat)
    requires Inv(db) && i != j
    ensures !(DiffOf(db, i, p) && DiffOf(db, j, p))
  {
    hide Held;
    hide LocksOwned;
    hide WorkersOwned;
    hide InOrder;
    assert DiffOf(db, i, p) && DiffOf(db, j, p) ==> HasKey(db, i) && HasKey(db, j) && KeyOf(db, i) == KeyOf(db, j);
  }

  /** Two runs of one product are under way at a time only if the watchdog has given up one of them. */
  lemma OnlyWatchdogOverlaps(init: Stage, trace: seq<Tick>, i: nat, j: nat)
    requires Overlapping(init, trace) && i in After(init, trace).open && j in After(init, trace).open && i != j
    requires After(init, trace).open[i].product == After(init, trace).open[j].product
    ensures GivenUp(init, trace, i) || GivenUp(init, trace, j)
  {
    UnderIsRunning(init, trace, i);
    UnderIsRunning(init, trace, j);
    OverlapInv(init, trace);
    hide *;
    OneDiffRuns(After(init, trace).db, i, j, After(init, trace).open[i].product);
  }

  // ---- What was examined ----

  /** Of one product: between which commits the changes were examined to the end, and which commits
      became the base without a look at what came before, by a first run or because the base was lost. */
  datatype Seen = Seen(windows: set<(string, string)>, roots: set<string>)

  function Examination(s: Stage, b: Beat, p: nat, before: Seen): Seen {
    if b.End? && b.run in s.open && s.open[b.run].product == p && s.open[b.run].head.Some? then
      var u := s.open[b.run];
      if b.result.Examined? && u.base.Some? then
        before.(windows := before.windows + {(u.base.value, u.head.value)})
      else if b.result.MovesBase() then before.(roots := before.roots + {u.head.value})
      else before
    else before
  }

  function SeenIn(init: Stage, trace: seq<Tick>, p: nat): Seen {
    if trace == [] then Seen({}, {})
    else
      var front := trace[..|trace| - 1];
      Examination(After(init, front), trace[|trace| - 1].beat, p, SeenIn(init, front, p))
  }

  /** A way from a root to the commit, every step of which was examined. */
  predicate Leads(seen: Seen, path: seq<string>, commit: string) {
    && path != [] && path[0] in seen.roots && path[|path| - 1] == commit
    && forall i :: 0 < i < |path| ==> (path[i - 1], path[i]) in seen.windows
  }

  ghost predicate Examined(seen: Seen, commit: Option<string>) {
    commit.Some? ==> exists path :: Leads(seen, path, commit.value)
  }

  /** The base of the product in the table, and those that its runs under way have read. */
  ghost predicate AllExamined(s: Stage, p: nat, seen: Seen) {
    && (p in s.db.products ==> Examined(seen, s.db.products[p].lastScanned))
    && (forall r :: r in s.open && s.open[r].product == p ==> Examined(seen, s.open[r].base))
  }

  lemma StaysExamined(before: Seen, seen: Seen, commit: Option<string>)
    requires Examined(before, commit) && before.windows <= seen.windows && before.roots <= seen.roots
    ensures Examined(seen, commit)
  {
    if commit.Some? {
      var path :| Leads(before, path, commit.value);
      assert Leads(seen, path, commit.value);
    }
  }

  /** The head of a run that moves the base is examined by then. */
  lemma HeadIsExamined(before: Seen, seen: Seen, u: Under, result: DiffResult)
    requires Lawful(Attempt(u.base, u.head, result)) && result.MovesBase() && Examined(before, u.base)
    requires u.head.Some? && before.windows <= seen.windows && before.roots <= seen.roots
    requires if result.Examined? then u.base.Some? && (u.base.value, u.head.value) in seen.windows
             else u.head.value in seen.roots
    ensures Examined(seen, u.head)
  {
    if result.Examined? {
      var path :| Leads(before, path, u.base.value);
      assert Leads(seen, path + [u.head.value], u.head.value);
    } else {
      assert Leads(seen, [u.head.value], u.head.value);
    }
  }

  lemma BeatKeepsExamined(s: Stage, b: Beat, t: Stage, p: nat, before: Seen)
    requires Beats(s, b, t) && AllExamined(s, p, before)
    ensures AllExamined(t, p, Examination(s, b, p, before))
  {
    var seen := Examination(s, b, p, before);
    forall c | Examined(before, c) ensures Examined(seen, c) {
      StaysExamined(before, seen, c);
    }
    match b
    case Begin(r, head) =>
      hide Examined;
    case End(r, result) =>
      if result.MovesBase() && s.open[r].product == p {
        HeadIsExamined(before, seen, s.open[r], result);
      }
      hide Examined;
    case Meanwhile(now, a) =>
      assert Examined(before, None);
      hide Examined;
      hide Step;
      if p in t.db.products {
        OtherLeavesBase(s.db, now, a, t.db, p);
      }
  }

  /**
  However the diff runs of a product overlap, and whatever else happens, no change is skipped: examined
  windows lead to its base from a commit that a first run or a lost base made the base.
  */
  lemma {:induction false} BaseIsExamined(init: Stage, trace: seq<Tick>, p: nat)
    requires Overlapping(init, trace)
    ensures AllExamined(After(init, trace), p, SeenIn(init, trace, p))
    decreases |trace|
  {
    if trace != [] {
      var front, last := trace[..|trace| - 1], trace[|trace| - 1];
      FrontOverlaps(init, trace);
      BaseIsExamined(init, front, p);
      hide Beats;
      hide AllExamined;
      BeatKeepsExamined(After(init, front), last.beat, last.after, p, SeenIn(init, front, p));
    }
  }

  // ---- When the bases chain ----

  /** The run of `p` that ends with this beat moves the base in the table. */
  predicate MovesBaseOf(s: Stage, b: Beat, p: nat) {
    b.End? && b.run in s.open && s.open[b.run].product == p && p in s.db.products && b.result.MovesBase()
  }

  /** Base and head of the runs that moved the base, in the order in which they ended. */
  function Moves(init: Stage, trace: seq<Tick>, p: nat): seq<(Option<string>, Option<string>)> {
    if trace == [] then []
    else
      var front, last := trace[..|trace| - 1], trace[|trace| - 1];
      var s := After(init, front);
      Moves(init, front, p)
      + (if MovesBaseOf(s, last.beat, p) then [(s.open[last.beat.run].base, s.open[last.beat.run].head)] else [])
  }

  function LastHead(moves: seq<(Option<string>, Option<string>)>): Option<string> {
    if moves == [] then None else moves[|moves| - 1].1
  }

  /** Run `i` started where the one before it ended, the first one from no base at all. */
  predicate Linked(moves: seq<(Option<string>, Option<string>)>, i: nat)
    requires i < |moves|
  {
    moves[i].0 == LastHead(moves[..i])
  }

  predicate Chained(moves: seq<(Option<string>, Option<string>)>) {
    forall i :: 0 <= i < |moves| ==> Linked(moves, i)
  }

  /** If event `k` moves the base, the table still has the base that the run read. */
  predicate Guarded(init: Stage, trace: seq<Tick>, k: nat, p: nat)
    requires k < |trace|
  {
    var s, b := After(init, trace[..k]), trace[k].beat;
    MovesBaseOf(s, b, p) ==> s.open[b.run].base == s.db.products[p].lastScanned
  }

  /** Once there, the product is not deleted. */
  predicate Stays(init: Stage, trace: seq<Tick>, p: nat) {
    forall k :: 0 <= k < |trace| && p in After(init, trace[..k]).db.products ==> p in trace[k].after.db.products
  }

  lemma FrontStays(init: Stage, trace: seq<Tick>, p: nat)
    requires Stays(init, trace, p) && trace != []
    ensures Stays(init, trace[..|trace| - 1], p)
    ensures p in After(init, trace[..|trace| - 1]).db.products ==> p in After(init, trace).db.products
  {
    var front := trace[..|trace| - 1];
    assert forall k :: 0 <= k <= |front| ==> front[..k] == trace[..k];
  }

  lemma ChainGrows(moves: seq<(Option<string>, Option<string>)>, base: Option<string>, head: Option<string>)
    ensures Chained(moves + [(base, head)]) <==> Chained(moves) && base == LastHead(moves)
    ensures LastHead(moves + [(base, head)]) == head
  {
    var more := moves + [(base, head)];
    assert more[..|moves|] == moves;
    forall i | 0 <= i < |moves| ensures Linked(more, i) == Linked(moves, i) {
      assert more[..i] == moves[..i];
    }
    assert Linked(more, |moves|) <==> base == LastHead(moves);
  }

  /** What one beat does to the base in the table. */
  lemma BeatBase(s: Stage, b: Beat, t: Stage, p: nat)
    requires Beats(s, b, t) && p in t.db.products
    ensures MovesBaseOf(s, b, p) ==> t.db.products[p].lastScanned == s.open[b.run].head
    ensures !MovesBaseOf(s, b, p) ==>
              t.db.products[p].lastScanned == if p in s.db.products then s.db.products[p].lastScanned else None
  {
    hide Step;
    if b.Meanwhile? {
      OtherLeavesBase(s.db, b.now, b.action, t.db, p);
    }
  }

  /** The table has the head of the last run that moved the base. */
  lemma {:induction false} BaseIsLastHead(init: Stage, trace: seq<Tick>, p: nat)
    requires Overlapping(init, trace) && Stays(init, trace, p)
    ensures if p in After(init, trace).db.products
            then After(init, trace).db.products[p].lastScanned == LastHead(Moves(init, trace, p))
            else Moves(init, trace, p) == []
    decreases |trace|
  {
    if trace != [] {
      var front, last := trace[..|trace| - 1], trace[|trace| - 1];
      FrontOverlaps(init, trace);
      FrontStays(init, trace, p);
      BaseIsLastHead(init, front, p);
      hide Beats;
      hide Overlapping;
      hide Stays;
      if p in last.after.db.products {
        BeatBase(After(init, front), last.beat, last.after, p);
      }
    }
  }

  /** Every run that moves the base finds, as it ends, the base in the table that it read. */
  predicate AllGuarded(init: Stage, trace: seq<Tick>, p: nat) {
    forall k :: 0 <= k < |trace| ==> Guarded(init, trace, k, p)
  }

  lemma GuardedFront(init: Stage, trace: seq<Tick>, p: nat)
    requires trace != []
    ensures AllGuarded(init, trace, p) <==>
            AllGuarded(init, trace[..|trace| - 1], p) && Guarded(init, trace, |trace| - 1, p)
  {
    var front := trace[..|trace| - 1];
    forall k | 0 <= k < |front| ensures Guarded(init, front, k, p) == Guarded(init, trace, k, p) {
      assert front[..k] == trace[..k];
    }
  }

  /**
  The runs that move the base of a product chain end to end, from no base to the one in the table, exactly
  when every one of them, as it ends, finds the base in the table that it read when it began.
  */
  lemma {:induction false} ChainsExactly(init: Stage, trace: seq<Tick>, p: nat)
    requires Overlapping(init, trace) && Stays(init, trace, p)
    ensures Chained(Moves(init, trace, p)) <==> AllGuarded(init, trace, p)
    decreases |trace|
  {
    hide Beats;
    hide Stays;
    if trace != [] {
      var front, last := trace[..|trace| - 1], trace[|trace| - 1];
      FrontOverlaps(init, trace);
      FrontStays(init, trace, p);
      hide Overlapping;
      hide Chained;
      hide LastHead;
      hide AllGuarded;
      ChainsExactly(init, front, p);
      BaseIsLastHead(init, front, p);
      GuardedFront(init, trace, p);
      var s := After(init, front);
      if MovesBaseOf(s, last.beat, p) {
        ChainGrows(Moves(init, front, p), s.open[last.beat.run].base, s.open[last.beat.run].head);
      } else {
        assert Moves(init, front, p) + [] == Moves(init, front, p);
      }
    }
  }
}
