/**
A run in which the base goes back: the watchdog gives up a diff job whose thread goes on, and the next
diff run of the product, which looks further, ends before it.
*/
module Setback {
  import opened Database
  import opened AutoTick
  import opened Janitor
  import opened AutoDiff
  import BaseProtocol
  import opened Runs
  import opened Overlap
  import opened Pitfalls

  const LIMIT := 3600
  const LATER := 9000

  /** One product and its jobs. */
  function Board(jobs: map<nat, Job>, lastRun: Option<Time>, base: Option<string>, next: nat): Db {
    Db(jobs, map[], map[1 := Product(Key("Ulysses", "P"), true, true, Some(3600), lastRun, base)], map[], next)
  }

  function Waiting(kind: Kind, at: Time): Job {
    NewJob(1, kind, Auto, None, [], at)
  }

  function Ended(kind: Kind, made: Time, at: Time): Job {
    Started(Waiting(kind, made), at).(status := Done, finishedAt := Some(at))
  }

  /** The jobs as the run goes on, from one queued pair to the third diff. */
  function FirstQueued(): map<nat, Job> {
    map[1 := Waiting(AutoDiff, 0), 2 := Waiting(AutoScan, 0)]
  }

  function FirstDiffRuns(): map<nat, Job> {
    FirstQueued()[1 := Started(Waiting(AutoDiff, 0), 0)]
  }

  function FirstDiffEnded(): map<nat, Job> {
    FirstDiffRuns()[1 := Ended(AutoDiff, 0, 0)]
  }

  function FirstScanRuns(): map<nat, Job> {
    FirstDiffEnded()[2 := Started(Waiting(AutoScan, 0), 0)]
  }

  function FirstEnded(): map<nat, Job> {
    FirstScanRuns()[2 := Ended(AutoScan, 0, 0)]
  }

  function SecondQueued(): map<nat, Job> {
    FirstEnded()[3 := Waiting(AutoDiff, 0)][4 := Waiting(AutoScan, 0)]
  }

  function SecondDiffRuns(): map<nat, Job> {
    SecondQueued()[3 := Started(Waiting(AutoDiff, 0), 0)]
  }

  function SecondGivenUp(): map<nat, Job> {
    SecondDiffRuns()[3 := Started(Waiting(AutoDiff, 0), 0).(status := Failed, finishedAt := Some(LATER),
                          error := Some(WATCHDOG_ERROR))]
  }

  function SecondScanRuns(): map<nat, Job> {
    SecondGivenUp()[4 := Started(Waiting(AutoScan, 0), LATER)]
  }

  function SecondEnded(): map<nat, Job> {
    SecondScanRuns()[4 := Ended(AutoScan, 0, LATER)]
  }

  function ThirdQueued(): map<nat, Job> {
    SecondEnded()[5 := Waiting(AutoDiff, LATER)][6 := Waiting(AutoScan, LATER)]
  }

  function ThirdDiffRuns(): map<nat, Job> {
    ThirdQueued()[5 := Started(Waiting(AutoDiff, LATER), LATER)]
  }

  const START := Stage(EMPTY, map[])

  /** A run of this kind that keeps the product. */
  ghost predicate Proper(trace: seq<Tick>) {
    Overlapping(START, trace) && Stays(START, trace, 1)
  }

  lemma Going(trace: seq<Tick>, b: Beat, t: Stage) returns (r: seq<Tick>)
    requires Proper(trace) && Beats(After(START, trace), b, t) && 1 in t.db.products
    ensures r == trace + [Tick(b, t)] && Proper(r) && After(START, r) == t
  {
    hide Beats;
    r := trace + [Tick(b, t)];
    assert trace[..|trace|] == trace;
    assert forall k :: 0 <= k <= |trace| ==> r[..k] == trace[..k];
    forall k | 0 <= k < |r| ensures BeatsAt(START, r, k) {
      assert k < |trace| ==> BeatsAt(START, trace, k);
    }
  }

  /** A step on the tables that does not touch what is under way. */
  lemma Meantime(trace: seq<Tick>, now: Time, a: Action, t: Db) returns (r: seq<Tick>)
    requires Proper(trace) && Step(After(START, trace).db, now, a, t) && 1 in t.products
    requires !a.MovingBase? && !a.Interrupting? && forall j :: j in After(START, trace).open ==> !FinishesOwn(a, j)
    ensures Proper(r) && After(START, r) == After(START, trace).(db := t)
  {
    hide Step;
    hide Proper;
    r := Going(trace, Meanwhile(now, a), After(START, trace).(db := t));
  }

  /** A product with nothing unfinished gets its next pair. */
  lemma NextPair(jobs: map<nat, Job>, lastRun: Option<Time>, base: Option<string>, next: nat, now: Time)
    requires forall j :: j in jobs ==> jobs[j].status.Terminal()
    ensures var t := Board(jobs[next := Waiting(AutoDiff, now)][next + 1 := Waiting(AutoScan, now)], Some(now), base,
                           next + 2);
            Step(Board(jobs, lastRun, base, next), now, Cycling(1), t)
  {
  }

  /** The oldest queued job is started. */
  lemma OldestStarts(jobs: map<nat, Job>, lastRun: Option<Time>, base: Option<string>, next: nat, now: Time, j: nat)
    requires forall i :: i in jobs ==> jobs[i].product == 1 && jobs[i].kind.Prep() && jobs[i].status != Running
    requires j in jobs && jobs[j].status == Queued && forall i :: i in jobs && jobs[i].status == Queued ==> j <= i
    ensures Step(Board(jobs, lastRun, base, next), now, StartingPreps,
                 Board(jobs[j := Started(jobs[j], now)], lastRun, base, next))
  {
    var db := Board(jobs, lastRun, base, next);
    forall i ensures PrepChampion(db, i) <==> i == j {
      OldestIsChampion(db, i);
    }
    hide PrepChampion;
  }

  lemma RunEnds(jobs: map<nat, Job>, lastRun: Option<Time>, base: Option<string>, next: nat, now: Time, j: nat)
    requires j in jobs && jobs[j].kind.Prep() && jobs[j] == Started(Waiting(jobs[j].kind, 0), now)
    ensures Step(Board(jobs, lastRun, base, next), now, FinishingPrep(j, Done, None, None),
                 Board(jobs[j := Ended(jobs[j].kind, 0, now)], lastRun, base, next))
  {
  }

  /** The watchdog gives up a job that has run for too long, although its thread is alive. */
  lemma GivesUp(jobs: map<nat, Job>, lastRun: Option<Time>, base: Option<string>, next: nat, j: nat)
    requires j in jobs && jobs[j].status == Running && jobs[j].startedAt == Some(0)
    requires forall i :: i in jobs && i != j ==> !jobs[i].status.Inflight()
    ensures Step(Board(jobs, lastRun, base, next), LATER, Reaping(LIMIT, {j}),
                 Board(jobs[j := jobs[j].(status := Failed, finishedAt := Some(LATER), error := Some(WATCHDOG_ERROR))],
                       lastRun, base, next))
    ensures Stuck(Board(jobs, lastRun, base, next), j, LATER, LIMIT, {j})
  {
    var db := Board(jobs, lastRun, base, next);
    assert StuckJobs(db, LATER, LIMIT, {j}) == {j};
    assert Reaped(db, LATER, {j}).jobs ==
           jobs[j := jobs[j].(status := Failed, finishedAt := Some(LATER), error := Some(WATCHDOG_ERROR))];
    assert Reaped(db, LATER, {j}).workers == map[] && Reaped(db, LATER, {j}).locks == map[];
  }

  lemma Begins(trace: seq<Tick>, jobs: map<nat, Job>, lastRun: Option<Time>, base: Option<string>, next: nat, j: nat,
      head: string) returns (r: seq<Tick>)
    requires Proper(trace) && After(START, trace).db == Board(jobs, lastRun, base, next)
    requires DiffOf(Board(jobs, lastRun, base, next), j, 1) && j !in After(START, trace).open
    ensures Proper(r)
    ensures After(START, r) == After(START, trace).(open :=
              After(START, trace).open[j := Under(1, base, Some(head))])
  {
    hide Proper;
    var s := After(START, trace);
    r := Going(trace, Begin(j, Some(head)), s.(open := s.open[j := Under(1, base, Some(head))]));
  }

  lemma Ends(trace: seq<Tick>, jobs: map<nat, Job>, lastRun: Option<Time>, base: Option<string>, next: nat, j: nat,
      result: DiffResult, head: string) returns (r: seq<Tick>)
    requires Proper(trace) && After(START, trace).db == Board(jobs, lastRun, base, next)
    requires j in After(START, trace).open && After(START, trace).open[j].product == 1
    requires After(START, trace).open[j].head == Some(head) && After(START, trace).open[j].base != Some(head)
    requires if After(START, trace).open[j].base.None? then result.FirstRun? else result.Examined?
    ensures r == trace + [Tick(End(j, result), After(START, r))] && Proper(r)
    ensures After(START, r) == Stage(Board(jobs, lastRun, Some(head), next), After(START, trace).open - {j})
  {
    hide Proper;
    var s := After(START, trace);
    var t := Stage(WithBase(s.db, 1, head), s.open - {j});
    assert WithBase(s.db, 1, head).products == Board(jobs, lastRun, Some(head), next).products;
    r := Going(trace, End(j, result), t);
  }

  lemma IsFirst()
    ensures Proper([]) && After(START, []) == Stage(EMPTY, map[])
    ensures Step(EMPTY, 0, AddingProduct(1, Product(Key("Ulysses", "P"), true, true, Some(3600), None, None)),
                 Board(map[], None, None, 1))
    ensures Step(Board(map[], None, None, 1), 0, Cycling(1), Board(FirstQueued(), Some(0), None, 3))
  {
    NextPair(map[], None, None, 1, 0);
    hide Step;
    assert map[][1 := Waiting(AutoDiff, 0)][2 := Waiting(AutoScan, 0)] == FirstQueued();
  }

  lemma FirstSteps()
    ensures Step(Board(FirstQueued(), Some(0), None, 3), 0, StartingPreps, Board(FirstDiffRuns(), Some(0), None, 3))
    ensures DiffOf(Board(FirstDiffRuns(), Some(0), None, 3), 1, 1)
    ensures Step(Board(FirstDiffRuns(), Some(0), Some("A"), 3), 0, FinishingPrep(1, Done, None, None),
                 Board(FirstDiffEnded(), Some(0), Some("A"), 3))
    ensures Step(Board(FirstDiffEnded(), Some(0), Some("A"), 3), 0, StartingPreps,
                 Board(FirstScanRuns(), Some(0), Some("A"), 3))
    ensures Step(Board(FirstScanRuns(), Some(0), Some("A"), 3), 0, FinishingPrep(2, Done, None, None),
                 Board(FirstEnded(), Some(0), Some("A"), 3))
  {
    hide Step;
    OldestStarts(FirstQueued(), Some(0), None, 3, 0, 1);
    RunEnds(FirstDiffRuns(), Some(0), Some("A"), 3, 0, 1);
    OldestStarts(FirstDiffEnded(), Some(0), Some("A"), 3, 0, 2);
    RunEnds(FirstScanRuns(), Some(0), Some("A"), 3, 0, 2);
  }

  lemma SecondQueues()
    ensures Step(Board(FirstEnded(), Some(0), Some("A"), 3), 0, Cycling(1),
                 Board(SecondQueued(), Some(0), Some("A"), 5))
  {
    hide Step;
    NextPair(FirstEnded(), Some(0), Some("A"), 3, 0);
  }

  lemma SecondStarts()
    ensures Step(Board(SecondQueued(), Some(0), Some("A"), 5), 0, StartingPreps,
                 Board(SecondDiffRuns(), Some(0), Some("A"), 5))
    ensures DiffOf(Board(SecondDiffRuns(), Some(0), Some("A"), 5), 3, 1)
  {
    hide Step;
    OldestStarts(SecondQueued(), Some(0), Some("A"), 5, 0, 3);
  }

  lemma SecondStuck()
    ensures Step(Board(SecondDiffRuns(), Some(0), Some("A"), 5), LATER, Reaping(LIMIT, {3}),
                 Board(SecondGivenUp(), Some(0), Some("A"), 5))
  {
    hide Step;
    GivesUp(SecondDiffRuns(), Some(0), Some("A"), 5, 3);
  }

  lemma SecondScanSteps()
    ensures Step(Board(SecondGivenUp(), Some(0), Some("A"), 5), LATER, StartingPreps,
                 Board(SecondScanRuns(), Some(0), Some("A"), 5))
    ensures Step(Board(SecondScanRuns(), Some(0), Some("A"), 5), LATER, FinishingPrep(4, Done, None, None),
                 Board(SecondEnded(), Some(0), Some("A"), 5))
  {
    hide Step;
    OldestStarts(SecondGivenUp(), Some(0), Some("A"), 5, LATER, 4);
    RunEnds(SecondScanRuns(), Some(0), Some("A"), 5, LATER, 4);
  }

  lemma ThirdQueues()
    ensures Step(Board(SecondEnded(), Some(0), Some("A"), 5), LATER, Cycling(1),
                 Board(ThirdQueued(), Some(LATER), Some("A"), 7))
  {
    hide Step;
    NextPair(SecondEnded(), Some(0), Some("A"), 5, LATER);
  }

  lemma ThirdStarts()
    ensures Step(Board(ThirdQueued(), Some(LATER), Some("A"), 7), LATER, StartingPreps,
                 Board(ThirdDiffRuns(), Some(LATER), Some("A"), 7))
    ensures DiffOf(Board(ThirdDiffRuns(), Some(LATER), Some("A"), 7), 5, 1)
  {
    hide Step;
    OldestStarts(ThirdQueued(), Some(LATER), Some("A"), 7, LATER, 5);
  }

  /** The first diff run makes `A` the base, and the jobs of the first pair end. */
  lemma FirstPairRuns() returns (trace: seq<Tick>)
    ensures Proper(trace) && After(START, trace) == Stage(Board(FirstEnded(), Some(0), Some("A"), 3), map[])
  {
    IsFirst();
    FirstSteps();
    BoardHasProduct();
    OnlyOwnIsFinished();
    hide *;
    trace := Meantime([], 0, AddingProduct(1, Product(Key("Ulysses", "P"), true, true, Some(3600), None, None)),
                      Board(map[], None, None, 1));
    trace := Meantime(trace, 0, Cycling(1), Board(FirstQueued(), Some(0), None, 3));
    trace := Meantime(trace, 0, StartingPreps, Board(FirstDiffRuns(), Some(0), None, 3));
    trace := Begins(trace, FirstDiffRuns(), Some(0), None, 3, 1, "A");
    trace := Ends(trace, FirstDiffRuns(), Some(0), None, 3, 1, FirstRun, "A");
    trace := Meantime(trace, 0, FinishingPrep(1, Done, None, None), Board(FirstDiffEnded(), Some(0), Some("A"), 3));
    trace := Meantime(trace, 0, StartingPreps, Board(FirstScanRuns(), Some(0), Some("A"), 3));
    trace := Meantime(trace, 0, FinishingPrep(2, Done, None, None), Board(FirstEnded(), Some(0), Some("A"), 3));
  }

  lemma BoardHasProduct()
    ensures forall jobs: map<nat, Job>, lastRun, base, next :: 1 in Board(jobs, lastRun, base, next).products
  {
  }

  lemma OnlyOwnIsFinished()
    ensures forall j, status, summary, error, i ::
              FinishesOwn(FinishingPrep(j, status, summary, error), i) <==> i == j
    ensures forall a: Action, i ::
              a.StartingPreps? || a.Cycling? || a.Reaping? || a.AddingProduct? ==> !FinishesOwn(a, i)
  {
  }

  /** The second diff run looks at `B`, and is given up but goes on. */
  lemma SecondIsGivenUp() returns (trace: seq<Tick>)
    ensures Proper(trace)
    ensures After(START, trace) == Stage(Board(SecondGivenUp(), Some(0), Some("A"), 5),
                                         map[3 := Under(1, Some("A"), Some("B"))])
  {
    SecondQueues();
    SecondStarts();
    SecondStuck();
    BoardHasProduct();
    OnlyOwnIsFinished();
    hide *;
    trace := FirstPairRuns();
    trace := Meantime(trace, 0, Cycling(1), Board(SecondQueued(), Some(0), Some("A"), 5));
    trace := Meantime(trace, 0, StartingPreps, Board(SecondDiffRuns(), Some(0), Some("A"), 5));
    trace := Begins(trace, SecondDiffRuns(), Some(0), Some("A"), 5, 3, "B");
    trace := Meantime(trace, LATER, Reaping(LIMIT, {3}), Board(SecondGivenUp(), Some(0), Some("A"), 5));
  }

  /** The third one begins beside it, and looks at `C`. */
  lemma ThirdBegins() returns (trace: seq<Tick>)
    ensures Proper(trace)
    ensures After(START, trace) == Stage(Board(ThirdDiffRuns(), Some(LATER), Some("A"), 7),
                                         map[3 := Under(1, Some("A"), Some("B")), 5 := Under(1, Some("A"), Some("C"))])
  {
    SecondScanSteps();
    ThirdQueues();
    ThirdStarts();
    BoardHasProduct();
    OnlyOwnIsFinished();
    hide *;
    trace := SecondIsGivenUp();
    trace := Meantime(trace, LATER, StartingPreps, Board(SecondScanRuns(), Some(0), Some("A"), 5));
    trace := Meantime(trace, LATER, FinishingPrep(4, Done, None, None), Board(SecondEnded(), Some(0), Some("A"), 5));
    trace := Meantime(trace, LATER, Cycling(1), Board(ThirdQueued(), Some(LATER), Some("A"), 7));
    trace := Meantime(trace, LATER, StartingPreps, Board(ThirdDiffRuns(), Some(LATER), Some("A"), 7));
    trace := Begins(trace, ThirdDiffRuns(), Some(LATER), Some("A"), 7, 5, "C");
  }

  /** The third run ends first, then the second: the base goes from `A` to `C` and back to `B`. */
  lemma BaseGoesBack() returns (trace: seq<Tick>)
    ensures Overlapping(START, trace) && Stays(START, trace, 1) && |trace| >= 2
    ensures After(START, trace[..|trace| - 1]).db == Board(ThirdDiffRuns(), Some(LATER), Some("C"), 7)
    ensures After(START, trace).db == Board(ThirdDiffRuns(), Some(LATER), Some("B"), 7)
    ensures !Chained(Moves(START, trace, 1))
  {
    var before := ThirdBegins();
    var far := Ends(before, ThirdDiffRuns(), Some(LATER), Some("A"), 7, 5, DiffResult.Examined(0, 0, 0), "C");
    trace := Ends(far, ThirdDiffRuns(), Some(LATER), Some("C"), 7, 3, DiffResult.Examined(0, 0, 0), "B");
    assert trace[..|far|] == far;
    hide Board;
    assert !Guarded(START, trace, |far|, 1);
    ChainsExactly(START, trace, 1);
  }
}
