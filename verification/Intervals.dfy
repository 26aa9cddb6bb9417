/** How often the preparation pair of a product is queued, over timed runs. */
module Intervals {
  import opened Database
  import opened Engine
  import opened AutoTick
  import opened Janitor
  import opened Services
  import opened Invariant
  import opened Runs
  import opened Watchdog

  /** A job of the product is new. */
  predicate AddsFor(s: Db, t: Db, p: nat) {
    exists j :: j in t.jobs && j !in s.jobs && t.jobs[j].product == p
  }

  /** When the last pair was queued does not change unless one is queued. */
  lemma CycleTouchesOwn(db: Db, p: nat, now: Time, q: nat)
    requires p in db.products && q in db.products && IdsFresh(db)
    ensures IdsFresh(Cycle(db, p, now))
    ensures AddsFor(db, Cycle(db, p, now), q) ==> p == q && Cycle(db, p, now).products[q].lastAutoRun == Some(now)
    ensures !AddsFor(db, Cycle(db, p, now), q) ==> Cycle(db, p, now).products[q] == db.products[q]
    ensures Cycle(db, p, now).products[q] == db.products[q].(lastAutoRun := Cycle(db, p, now).products[q].lastAutoRun)
  {
    hide UnfinishedPrep;
    if !UnfinishedPrep(db, p) && p == q {
      assert Cycle(db, p, now).jobs[db.nextJob].product == p;
    }
  }

  lemma {:induction false} CyclesTouchTheirs(db: Db, now: Time, order: seq<nat>, q: nat)
    requires q in db.products && IdsFresh(db) && forall p :: p in order ==> p in db.products
    ensures IdsFresh(Cycles(db, now, order)) && db.nextJob <= Cycles(db, now, order).nextJob
    ensures forall j :: j in db.jobs ==> j in Cycles(db, now, order).jobs
    ensures AddsFor(db, Cycles(db, now, order), q) ==>
              q in order && Cycles(db, now, order).products[q].lastAutoRun == Some(now)
    ensures !AddsFor(db, Cycles(db, now, order), q) ==> Cycles(db, now, order).products[q] == db.products[q]
    decreases |order|
  {
    if order != [] {
      var front, p := order[..|order| - 1], order[|order| - 1];
      CyclesTouchTheirs(db, now, front, q);
      var f, t := Cycles(db, now, front), Cycles(db, now, order);
      CycleTouchesOwn(f, p, now, q);
      CycleKeepsRows(f, p, now);
      hide Cycle;
      hide Cycles;
      if AddsFor(db, t, q) {
        var j :| j in t.jobs && j !in db.jobs && t.jobs[j].product == q;
        assert j in f.jobs || AddsFor(f, t, q);
      }
      if AddsFor(f, t, q) {
        var j :| j in t.jobs && j !in f.jobs && t.jobs[j].product == q;
        assert AddsFor(db, t, q);
      } else if AddsFor(db, f, q) {
        var j :| j in f.jobs && j !in db.jobs && f.jobs[j].product == q;
        assert t.jobs[j] == f.jobs[j];
      }
    }
  }

  lemma CycleKeepsRows(db: Db, p: nat, now: Time)
    requires p in db.products && IdsFresh(db)
    ensures var t := Cycle(db, p, now);
            db.nextJob <= t.nextJob && forall j :: j in db.jobs ==> j in t.jobs && t.jobs[j] == db.jobs[j]
  {
  }

  /** The step queues preparation jobs of the product, by the clock or by hand. */
  predicate QueuesPair(s: Db, a: Action, t: Db, p: nat) {
    (a.CyclingDue? || a.Cycling?) && AddsFor(s, t, p)
  }

  lemma OtherStepKeepsTime(s: Db, now: Time, a: Action, t: Db, p: nat)
    requires Step(s, now, a, t) && p in s.products && p in t.products && !a.CyclingDue? && !a.Cycling?
    ensures t.products[p].lastAutoRun == s.products[p].lastAutoRun
  {
    hide Claims;
    hide PrepChampion;
    hide RenameIsSafe;
    hide LockHeldBy;
    hide WorkerHeldBy;
    hide StaleWorker;
    hide RowOk;
  }

  /** Only queueing a pair moves the time of the last one, and then to now. */
  lemma StepMovesTime(s: Db, now: Time, a: Action, t: Db, p: nat)
    requires Inv(s) && Step(s, now, a, t) && p in s.products && p in t.products
    ensures t.products[p].lastAutoRun == if QueuesPair(s, a, t, p) then Some(now) else s.products[p].lastAutoRun
  {
    if a.CyclingDue? {
      CyclesTouchTheirs(s, now, a.order, p);
    } else if a.Cycling? {
      CycleTouchesOwn(s, a.product, now, p);
    } else {
      OtherStepKeepsTime(s, now, a, t, p);
    }
  }

  /** The clock queues pairs of products only that are active and in the automatic mode, with an interval
      that has passed since the last pair. */
  lemma OnlyDueAreQueued(s: Db, now: Time, a: Action, t: Db, p: nat)
    requires Inv(s) && Step(s, now, a, t) && a.CyclingDue? && p in s.products && AddsFor(s, t, p)
    ensures var product := s.products[p];
            && product.active && product.autoRun && product.interval.Some? && product.interval.value > 0
            && (product.lastAutoRun.Some? ==> product.lastAutoRun.value + product.interval.value <= now)
  {
    CyclesTouchTheirs(s, now, a.order, p);
  }

  // ---- Over runs ----

  /** The product is there all along. */
  predicate Present(init: Db, trace: seq<Event>, n: nat, m: nat, p: nat)
    requires m <= |trace|
  {
    forall k :: n <= k <= m ==> p in StateAt(init, trace, k).products
  }

  /** The last pair was queued no earlier than any that is known. */
  lemma {:induction false} TimeIsKept(init: Db, trace: seq<Event>, n: nat, m: nat, p: nat)
    requires Run(init, trace) && Timed(trace) && n < m <= |trace| && Present(init, trace, n, m, p)
    requires QueuesPair(StateAt(init, trace, n), trace[n].action, StateAt(init, trace, n + 1), p)
    ensures StateAt(init, trace, m).products[p].lastAutoRun.Some?
    ensures trace[n].now <= StateAt(init, trace, m).products[p].lastAutoRun.value
    decreases m
  {
    hide Step;
    hide Run;
    hide Inv;
    hide QueuesPair;
    TraceStep(init, trace, m - 1);
    ReachableInv(init, trace, m - 1);
    StepMovesTime(StateAt(init, trace, m - 1), trace[m - 1].now, trace[m - 1].action, StateAt(init, trace, m), p);
    if m > n + 1 {
      TimeIsKept(init, trace, n, m - 1, p);
    }
  }

  /**
  Between a pair of a product, queued by the clock or by hand, and a later one that the clock queues lies
  at least the interval that the product then has; and the clock queues none for a product that is not
  active, or not in the automatic mode.
  */
  lemma PairsAreApart(init: Db, trace: seq<Event>, n: nat, m: nat, p: nat)
    requires Run(init, trace) && Timed(trace) && n < m < |trace| && Present(init, trace, n, m, p)
    requires QueuesPair(StateAt(init, trace, n), trace[n].action, StateAt(init, trace, n + 1), p)
    requires trace[m].action.CyclingDue? && AddsFor(StateAt(init, trace, m), StateAt(init, trace, m + 1), p)
    ensures var product := StateAt(init, trace, m).products[p];
            && product.active && product.autoRun && product.interval.Some?
            && trace[n].now + product.interval.value <= trace[m].now
  {
    TimeIsKept(init, trace, n, m, p);
    TraceStep(init, trace, m);
    ReachableInv(init, trace, m);
    hide Run;
    hide Step;
    hide Inv;
    OnlyDueAreQueued(StateAt(init, trace, m), trace[m].now, trace[m].action, StateAt(init, trace, m + 1), p);
  }

  // ---- A due product gets its pair ----

  predicate IsNew(t: Db, now: Time, p: nat, j: nat, kind: Kind) {
    && j in t.jobs && t.jobs[j].product == p && t.jobs[j].kind == kind && t.jobs[j].origin == Auto
    && t.jobs[j].status == Queued && t.jobs[j].submittedAt == now
  }

  /** A diff and right behind it a scan of the product are new, and wait. */
  ghost predicate GetsPair(s: Db, now: Time, t: Db, p: nat) {
    exists j: nat ::
      j !in s.jobs && j + 1 !in s.jobs && IsNew(t, now, p, j, AutoDiff) && IsNew(t, now, p, j + 1, AutoScan)
  }

  /** No preparation job of the product waits or runs. */
  predicate Settled(db: Db, p: nat) {
    forall j :: j in db.jobs && db.jobs[j].product == p ==> db.jobs[j].kind == Genut || db.jobs[j].status.Terminal()
  }

  lemma CycleGivesPair(db: Db, p: nat, now: Time)
    requires p in db.products && IdsFresh(db) && Settled(db, p)
    ensures GetsPair(db, now, Cycle(db, p, now), p)
  {
    assert !UnfinishedPrep(db, p);
    var t := Cycle(db, p, now);
    assert IsNew(t, now, p, db.nextJob, AutoDiff) && IsNew(t, now, p, db.nextJob + 1, AutoScan);
  }

  lemma PairStays(s: Db, f: Db, t: Db, now: Time, p: nat)
    requires GetsPair(s, now, f, p) && forall j :: j in f.jobs ==> j in t.jobs && t.jobs[j] == f.jobs[j]
    ensures GetsPair(s, now, t, p)
  {
    var j: nat :| j !in s.jobs && j + 1 !in s.jobs && IsNew(f, now, p, j, AutoDiff)
                  && IsNew(f, now, p, j + 1, AutoScan);
    assert IsNew(t, now, p, j, AutoDiff) && IsNew(t, now, p, j + 1, AutoScan);
  }

  lemma PairIsNewer(s: Db, f: Db, t: Db, now: Time, p: nat)
    requires GetsPair(f, now, t, p) && forall j :: j in s.jobs ==> j in f.jobs
    ensures GetsPair(s, now, t, p)
  {
  }

  lemma OtherCycleLeavesSettled(db: Db, q: nat, now: Time, p: nat)
    requires q in db.products && q != p && Settled(db, p)
    ensures Settled(Cycle(db, q, now), p)
  {
    hide UnfinishedPrep;
  }

  lemma {:induction false} CyclesGivePair(db: Db, now: Time, order: seq<nat>, p: nat)
    requires IdsFresh(db) && (forall q :: q in order ==> q in db.products) && p in db.products && Settled(db, p)
    requires forall i, k :: 0 <= i < k < |order| ==> order[i] != order[k]
    ensures if p in order then GetsPair(db, now, Cycles(db, now, order), p) else Settled(Cycles(db, now, order), p)
    ensures IdsFresh(Cycles(db, now, order)) && forall j :: j in db.jobs ==> j in Cycles(db, now, order).jobs
    decreases |order|
  {
    if order != [] {
      var front, q := order[..|order| - 1], order[|order| - 1];
      CyclesGivePair(db, now, front, p);
      var f, t := Cycles(db, now, front), Cycles(db, now, order);
      CycleKeepsRows(f, q, now);
      CycleTouchesOwn(f, q, now, p);
      assert order == front + [q];
      hide Cycles;
      hide Cycle;
      hide Settled;
      hide GetsPair;
      hide AddsFor;
      if q == p {
        assert p !in front;
        CycleGivesPair(f, p, now);
        PairIsNewer(db, f, t, now, p);
      } else if p in front {
        PairStays(db, f, t, now, p);
      } else {
        OtherCycleLeavesSettled(f, q, now, p);
      }
    }
  }

  /** A product that is active and in the automatic mode, whose interval has passed, and which has nothing
      unfinished, gets a diff and a scan made right after it. */
  lemma DueGetsPair(s: Db, now: Time, a: Action, t: Db, p: nat)
    requires Inv(s) && Step(s, now, a, t) && a.CyclingDue? && p in s.products && Settled(s, p)
    requires var product := s.products[p];
             && product.active && product.autoRun && product.interval.Some? && product.interval.value > 0
             && (product.lastAutoRun.Some? ==> product.lastAutoRun.value + product.interval.value <= now)
    ensures GetsPair(s, now, t, p)
  {
    CyclesGivePair(s, now, a.order, p);
    assert p in DueProducts(s, now);
  }
}
