/** Runs in which something goes wrong that the program does not guard against. */
module Pitfalls {
  import opened Database
  import opened Engine
  import opened AutoTick
  import opened Services
  import opened Invariant
  import opened Runs

  const EMPTY := Db(map[], map[], map[], map[], 1)

  function Hourly(name: string, last: Option<Time>): Product {
    Product(Key("Ulysses", name), true, true, Some(3600), last, None)
  }

  function QueuedPrep(product: nat, kind: Kind): Job {
    NewJob(product, kind, Auto, None, [], 0)
  }

  /** Where nothing runs, the oldest queued preparation job of a key is started. */
  lemma OldestIsChampion(db: Db, j: nat)
    requires db.locks == map[] && forall i :: i in db.jobs ==> db.jobs[i].status != Running
    ensures PrepChampion(db, j) <==>
              PrepCandidate(db, j) &&
              forall i :: i in db.jobs && PrepCandidate(db, i) && KeyOf(db, i) == KeyOf(db, j) ==> j <= i
  {
    assert BusyKeys(db) == {};
  }

  lemma Extended(trace: seq<Event>, a: Action, t: Db) returns (r: seq<Event>)
    requires Run(EMPTY, trace) && Step(StateAt(EMPTY, trace, |trace|), 0, a, t)
    ensures r == trace + [Event(0, a, t)] && Run(EMPTY, r) && StateAt(EMPTY, r, |r|) == t
    ensures StateAt(EMPTY, r, |trace|) == StateAt(EMPTY, trace, |trace|)
  {
    hide *;
    r := trace + [Event(0, a, t)];
    RunExtends(EMPTY, trace, Event(0, a, t));
  }

  lemma Begun() returns (trace: seq<Event>)
    ensures Run(EMPTY, trace) && |trace| == 1
    ensures StateAt(EMPTY, trace, 1) == EMPTY.(products := map[1 := Hourly("P", None)])
  {
    trace := [];
    trace := Extended(trace, AddingProduct(1, Hourly("P", None)), EMPTY.(products := map[1 := Hourly("P", None)]));
  }

  // The steps taken below.

  lemma IsAdding(s: Db, p: nat, row: Product)
    requires p !in s.products && row.lastScanned.None? && row.lastAutoRun.None?
    ensures Step(s, 0, AddingProduct(p, row), s.(products := s.products[p := row]))
  {
  }

  lemma IsCycling(s: Db, p: nat)
    requires p in s.products
    ensures Step(s, 0, Cycling(p), Cycle(s, p, 0))
  {
    hide Cycle;
  }

  lemma IsStarting(s: Db)
    ensures Step(s, 0, StartingPreps, StartPrep(s, 0))
  {
    hide StartPrep;
  }

  lemma IsFinishingPrep(s: Db, j: nat)
    requires j in s.jobs && s.jobs[j].kind.Prep()
    ensures Step(s, 0, FinishingPrep(j, Done, None, None), FinishPrep(s, j, Done, None, None, 0))
  {
    hide FinishPrep;
  }

  lemma IsRerunning(s: Db, j: nat)
    ensures Step(s, 0, Rerunning(j), Rerun(s, j, 0))
  {
    hide Rerun;
  }

  // ---- A rerun that makes a second pair ----

  function Queued1(): Db {
    Db(map[1 := QueuedPrep(1, AutoDiff), 2 := QueuedPrep(1, AutoScan)], map[], map[1 := Hourly("P", Some(0))],
       map[], 3)
  }

  lemma CycleQueues()
    ensures Cycle(EMPTY.(products := map[1 := Hourly("P", None)]), 1, 0) == Queued1()
  {
  }

  function Started1(): Db {
    Queued1().(jobs := map[1 := Started(QueuedPrep(1, AutoDiff), 0), 2 := QueuedPrep(1, AutoScan)])
  }

  lemma DiffStarts()
    ensures StartPrep(Queued1(), 0) == Started1()
  {
    OldestIsChampion(Queued1(), 1);
    OldestIsChampion(Queued1(), 2);
    hide PrepChampion;
    assert KeyOf(Queued1(), 1) == KeyOf(Queued1(), 2);
    assert PrepCandidate(Queued1(), 1);
  }

  function Done1(): Db {
    Started1().(jobs := map[1 := Started(QueuedPrep(1, AutoDiff), 0).(status := Done, finishedAt := Some(0)),
                            2 := QueuedPrep(1, AutoScan)])
  }

  lemma DiffEnds()
    ensures 1 in Started1().jobs && Started1().jobs[1].kind.Prep()
    ensures FinishPrep(Started1(), 1, Done, None, None, 0) == Done1()
  {
  }

  lemma RerunQueuesDiff()
    ensures OnePair(Done1()) && !OnePair(Rerun(Done1(), 1, 0))
  {
    var t := Rerun(Done1(), 1, 0);
    assert Unfinished(t, 2) && Unfinished(t, 3);
  }

  /** Rerunning a diff that has ended while its scan is still queued queues a second diff. */
  lemma RerunBreaksPairs() returns (trace: seq<Event>)
    ensures Run(EMPTY, trace) && |trace| == 5 && trace[4].action == Rerunning(1)
    ensures OnePair(StateAt(EMPTY, trace, 4)) && !OnePair(StateAt(EMPTY, trace, 5))
  {
    CycleQueues();
    DiffStarts();
    DiffEnds();
    RerunQueuesDiff();
    hide *;
    trace := Begun();
    IsCycling(StateAt(EMPTY, trace, 1), 1);
    IsStarting(Queued1());
    IsFinishingPrep(Started1(), 1);
    IsRerunning(Done1(), 1);
    trace := Extended(trace, Cycling(1), Queued1());
    trace := Extended(trace, StartingPreps, Started1());
    trace := Extended(trace, FinishingPrep(1, Done, None, None), Done1());
    trace := Extended(trace, Rerunning(1), Rerun(Done1(), 1, 0));
  }

  // ---- A rename onto a key in use ----

  function TwoProducts(): Db {
    EMPTY.(products := map[1 := Hourly("P", None), 2 := Hourly("Q", None)])
  }

  function Queued2(): Db {
    Db(map[1 := QueuedPrep(1, AutoDiff), 2 := QueuedPrep(1, AutoScan),
           3 := QueuedPrep(2, AutoDiff), 4 := QueuedPrep(2, AutoScan)], map[],
       map[1 := Hourly("P", Some(0)), 2 := Hourly("Q", Some(0))], map[], 5)
  }

  lemma BothCyclesQueue()
    ensures 1 in TwoProducts().products && 2 in Cycle(TwoProducts(), 1, 0).products
    ensures Cycle(Cycle(TwoProducts(), 1, 0), 2, 0) == Queued2()
    ensures TwoProducts() == EMPTY.(products := map[1 := Hourly("P", None)][2 := Hourly("Q", None)])
  {
    var first := Db(map[1 := QueuedPrep(1, AutoDiff), 2 := QueuedPrep(1, AutoScan)], map[],
                    map[1 := Hourly("P", Some(0)), 2 := Hourly("Q", None)], map[], 3);
    assert Cycle(TwoProducts(), 1, 0) == first;
  }

  lemma BothDiffsStart()
    ensures PrepChampion(Queued2(), 1) && PrepChampion(Queued2(), 3)
  {
    OldestIsChampion(Queued2(), 1);
    OldestIsChampion(Queued2(), 3);
    hide PrepChampion;
    hide BusyKeys;
  }

  lemma RenameCollides()
    ensures 1 in StartPrep(Queued2(), 0).products
    ensures !Exclusive(RenamedProduct(StartPrep(Queued2(), 0), 1, Hourly("Q", None).key))
  {
    BothDiffsStart();
    hide PrepChampion;
    var t := RenamedProduct(StartPrep(Queued2(), 0), 1, Hourly("Q", None).key);
    assert IsRunning(t, 1) && IsRunning(t, 3);
    assert KeyOf(t, 1) == KeyOf(t, 3);
  }

  /** Renaming one product to the key of another while preparation jobs of both run. */
  lemma RenameBreaksExclusion() returns (trace: seq<Event>, key: Key)
    ensures Run(EMPTY, trace) && 1 in StateAt(EMPTY, trace, |trace|).products
    ensures Inv(StateAt(EMPTY, trace, |trace|))
    ensures !Exclusive(RenamedProduct(StateAt(EMPTY, trace, |trace|), 1, key))
  {
    key := Hourly("Q", None).key;
    BothCyclesQueue();
    RenameCollides();
    IsAdding(EMPTY.(products := map[1 := Hourly("P", None)]), 2, Hourly("Q", None));
    hide *;
    trace := Begun();
    IsCycling(TwoProducts(), 1);
    IsCycling(Cycle(TwoProducts(), 1, 0), 2);
    IsStarting(Queued2());
    trace := Extended(trace, AddingProduct(2, Hourly("Q", None)), TwoProducts());
    trace := Extended(trace, Cycling(1), Cycle(TwoProducts(), 1, 0));
    trace := Extended(trace, Cycling(2), Queued2());
    trace := Extended(trace, StartingPreps, StartPrep(Queued2(), 0));
    ReachableInv(EMPTY, trace, |trace|);
  }
}
