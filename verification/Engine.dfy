/** Assigning queued jobs to idle workers, and finishing them. */
module Engine {
  import opened Database

  // ---- Product locks ----

  /** The lock is taken unless the product has one already; then the transaction is rolled back. */
  method TryAcquireLock(session: Session, product: nat, job: nat, worker: nat, now: Time) returns (ok: bool)
    modifies session
    ensures ok == (product !in old(session.locks))
    ensures ok ==>
              && session.View() == old(session.View()).(locks := old(session.locks)[product := Lock(job, worker, now)])
              && session.committed == old(session.committed)
    ensures !ok ==> session.View() == old(session.committed) && session.Clean()
  {
    if product in session.locks {
      session.Rollback();
      return false;
    }
    session.locks := session.locks[product := Lock(job, worker, now)];
    return true;
  }

  function ReleasedLocks(locks: map<nat, Lock>, product: nat, job: Option<nat>): map<nat, Lock> {
    if product in locks && (job.None? || locks[product].job == job.value) then locks - {product} else locks
  }

  method ReleaseLock(session: Session, product: nat, job: Option<nat>)
    modifies session`locks
    ensures session.locks == ReleasedLocks(old(session.locks), product, job)
  {
    if product !in session.locks {
      return;
    }
    if job.Some? && session.locks[product].job != job.value {
      return;
    }
    session.locks := session.locks - {product};
  }

  // ---- What may be claimed ----

  function IdleWorkers(db: Db): set<nat> {
    set w | w in db.workers && db.workers[w].enabled && db.workers[w].status == Idle
  }

  predicate RunningPrep(db: Db, j: nat) {
    j in db.jobs && db.jobs[j].status == Running && db.jobs[j].kind.Prep()
  }

  /** Keys of locked products and of products with a running preparation job. */
  function BusyKeys(db: Db): set<Key> {
    (set p | p in db.locks && p in db.products :: db.products[p].key)
    + (set j | j in db.jobs && RunningPrep(db, j) && HasKey(db, j) :: KeyOf(db, j))
  }

  predicate Candidate(db: Db, j: nat) {
    HasKey(db, j) && db.jobs[j].status == Queued && db.jobs[j].kind == Genut
  }

  function Candidates(db: Db): set<nat> {
    set j | j in db.jobs && Candidate(db, j)
  }

  /** Queue order: priority descending, then submission time, then id. */
  predicate Before(jobs: map<nat, Job>, a: nat, b: nat) {
    && a in jobs && b in jobs
    && var x, y := jobs[a], jobs[b];
       || x.priority > y.priority
       || (x.priority == y.priority && x.submittedAt < y.submittedAt)
       || (x.priority == y.priority && x.submittedAt == y.submittedAt && a < b)
  }

  /** The first candidate of a key that is not busy. */
  ghost predicate Champion(db: Db, j: nat) {
    && Candidate(db, j)
    && KeyOf(db, j) !in BusyKeys(db)
    && forall i :: Candidate(db, i) && i != j && KeyOf(db, i) == KeyOf(db, j) ==> Before(db.jobs, j, i)
  }

  predicate Sorted(jobs: map<nat, Job>, ids: seq<nat>) {
    && (forall k :: 0 <= k < |ids| ==> ids[k] in jobs)
    && (forall i, k :: 0 <= i < k < |ids| ==> Before(jobs, ids[i], ids[k]))
  }

  /** The sequence has exactly the elements of the set. */
  ghost predicate Lists(ids: seq<nat>, s: set<nat>) {
    forall x :: x in ids <==> x in s
  }

  lemma BeforeIsTotal(jobs: map<nat, Job>, a: nat, b: nat)
    requires a in jobs && b in jobs
    ensures a == b || Before(jobs, a, b) || Before(jobs, b, a)
    ensures !(Before(jobs, a, b) && Before(jobs, b, a))
  {
  }

  lemma BeforeIsTransitive(jobs: map<nat, Job>, a: nat, b: nat, c: nat)
    requires Before(jobs, a, b) && Before(jobs, b, c)
    ensures Before(jobs, a, c)
  {
  }

  /** `ORDER BY priority DESC, submitted_at, id` by insertion. */
  method InsertInOrder(jobs: map<nat, Job>, ids: seq<nat>, j: nat) returns (r: seq<nat>)
    requires Sorted(jobs, ids) && j in jobs && j !in ids
    ensures Sorted(jobs, r) && forall x :: x in r <==> x in ids || x == j
  {
    hide Before;
    var k := 0;
    while k < |ids| && Before(jobs, ids[k], j)
      invariant k <= |ids| && forall i :: 0 <= i < k ==> Before(jobs, ids[i], j)
    {
      k := k + 1;
    }
    r := ids[..k] + [j] + ids[k..];
    assert ids == ids[..k] + ids[k..];
    if k < |ids| {
      assert ids[k] in ids;
      BeforeIsTotal(jobs, ids[k], j);
    }
    InsertedIsSorted(jobs, ids, k, j);
  }

  lemma InsertedIsSorted(jobs: map<nat, Job>, ids: seq<nat>, k: nat, j: nat)
    requires Sorted(jobs, ids) && k <= |ids| && j in jobs
    requires forall i :: 0 <= i < k ==> Before(jobs, ids[i], j)
    requires k < |ids| ==> Before(jobs, j, ids[k])
    ensures Sorted(jobs, ids[..k] + [j] + ids[k..])
    ensures forall x :: x in ids[..k] + [j] + ids[k..] <==> x in ids || x == j
  {
    hide Before;
    var r := ids[..k] + [j] + ids[k..];
    forall i | k < i < |ids| ensures Before(jobs, j, ids[i]) {
      BeforeIsTransitive(jobs, j, ids[k], ids[i]);
    }
    assert forall i :: 0 <= i < |r| ==> r[i] == if i < k then ids[i] else if i == k then j else ids[i - 1];
    assert ids == ids[..k] + ids[k..];
    assert forall x :: x in ids <==> x in ids[..k] || x in ids[k..];
  }

  /** The candidates, in queue order. */
  method QueryCandidates(db: Db) returns (ids: seq<nat>)
    ensures Sorted(db.jobs, ids) && Lists(ids, Candidates(db))
  {
    ids := [];
    var todo := Candidates(db);
    while todo != {}
      invariant todo <= Candidates(db)
      invariant Sorted(db.jobs, ids) && Lists(ids, Candidates(db) - todo)
      decreases |todo|
    {
      var j :| j in todo;
      ids := InsertInOrder(db.jobs, ids, j);
      todo := todo - {j};
    }
  }

  /** The idle workers in no particular order. */
  method QueryIdleWorkers(db: Db) returns (ids: seq<nat>)
    ensures Lists(ids, IdleWorkers(db)) && |ids| == |IdleWorkers(db)|
    ensures forall i, k :: 0 <= i < k < |ids| ==> ids[i] != ids[k]
  {
    ids := [];
    var todo := IdleWorkers(db);
    while todo != {}
      invariant todo <= IdleWorkers(db) && |ids| + |todo| == |IdleWorkers(db)|
      invariant Lists(ids, IdleWorkers(db) - todo)
      invariant forall i, k :: 0 <= i < k < |ids| ==> ids[i] != ids[k]
      decreases |todo|
    {
      var w :| w in todo;
      ids := ids + [w];
      todo := todo - {w};
    }
  }

  // ---- claim_jobs ----

  datatype Assignment = Assignment(job: nat, worker: nat)

  function AssignOne(db: Db, now: Time, a: Assignment): Db
    requires a.job in db.jobs && a.worker in db.workers
  {
    var job := db.jobs[a.job];
    db.(jobs := db.jobs[a.job := job.(status := Running, worker := Some(a.worker), startedAt := Some(now))],
        workers := db.workers[a.worker := db.workers[a.worker].(status := Busy, current := Some(a.job))],
        locks := db.locks[job.product := Lock(a.job, a.worker, now)])
  }

  predicate Assignable(db: Db, asg: seq<Assignment>) {
    forall k :: 0 <= k < |asg| ==> asg[k].job in db.jobs && asg[k].worker in db.workers
  }

  /** All assignments made, one after the other. */
  function Assign(db: Db, now: Time, asg: seq<Assignment>): (r: Db)
    requires Assignable(db, asg)
    ensures r.jobs.Keys == db.jobs.Keys && r.workers.Keys == db.workers.Keys
    ensures r.products == db.products && r.nextJob == db.nextJob
  {
    if asg == [] then db
    else AssignOne(Assign(db, now, asg[..|asg| - 1]), now, asg[|asg| - 1])
  }

  /** Distinct idle workers get the first jobs of distinct free keys, in queue order, until the
      workers or the keys run out. */
  ghost predicate Claims(db: Db, asg: seq<Assignment>) {
    && (forall k :: 0 <= k < |asg| ==> asg[k].worker in IdleWorkers(db))
    && (forall i, k :: 0 <= i < k < |asg| ==> asg[i].worker != asg[k].worker)
    && (forall k :: 0 <= k < |asg| ==> Champion(db, asg[k].job))
    && (forall i, k :: 0 <= i < k < |asg| ==> Before(db.jobs, asg[i].job, asg[k].job))
    && |asg| <= |IdleWorkers(db)|
    && (forall c :: Champion(db, c) ==>
                      || (exists k :: 0 <= k < |asg| && asg[k].job == c)
                      || (|asg| == |IdleWorkers(db)| && forall k :: 0 <= k < |asg| ==> Before(db.jobs, asg[k].job, c)))
  }

  /** The keys met so far are busy. */
  ghost predicate SeenUpTo(db: Db, candidates: seq<nat>, k: nat, seen: set<Key>)
    requires k <= |candidates| && forall i :: 0 <= i < |candidates| ==> HasKey(db, candidates[i])
  {
    seen == BusyKeys(db) + set i | 0 <= i < k :: KeyOf(db, candidates[i])
  }

  /** The champions among the first `k` candidates, in queue order. */
  ghost predicate Picked(db: Db, candidates: seq<nat>, k: nat, picked: seq<nat>)
    requires k <= |candidates|
  {
    && (forall i :: 0 <= i < |picked| ==> picked[i] in candidates[..k] && Champion(db, picked[i]))
    && (forall i, n :: 0 <= i < n < |picked| ==> Before(db.jobs, picked[i], picked[n]))
    && (forall i :: 0 <= i < k && Champion(db, candidates[i]) ==> candidates[i] in picked)
  }

  lemma CandidateIsChampion(db: Db, candidates: seq<nat>, k: nat, seen: set<Key>)
    requires k < |candidates| && Sorted(db.jobs, candidates) && Lists(candidates, Candidates(db))
    requires forall i :: 0 <= i < |candidates| ==> HasKey(db, candidates[i])
    requires SeenUpTo(db, candidates, k, seen)
    ensures KeyOf(db, candidates[k]) !in seen <==> Champion(db, candidates[k])
  {
    var j := candidates[k];
    assert j in candidates;
    if KeyOf(db, j) !in seen {
      forall i | Candidate(db, i) && i != j && KeyOf(db, i) == KeyOf(db, j)
        ensures Before(db.jobs, j, i)
      {
        assert i in candidates;
        var n :| 0 <= n < |candidates| && candidates[n] == i;
        assert n >= k;
      }
    } else if KeyOf(db, j) !in BusyKeys(db) {
      var i :| 0 <= i < k && KeyOf(db, candidates[i]) == KeyOf(db, j);
      assert candidates[i] in candidates;
      assert Before(db.jobs, candidates[i], j);
    }
  }

  lemma SeesNext(db: Db, candidates: seq<nat>, k: nat, seen: set<Key>)
    requires k < |candidates| && forall i :: 0 <= i < |candidates| ==> HasKey(db, candidates[i])
    requires SeenUpTo(db, candidates, k, seen)
    ensures SeenUpTo(db, candidates, k + 1, seen + {KeyOf(db, candidates[k])})
    ensures KeyOf(db, candidates[k]) in seen ==> SeenUpTo(db, candidates, k + 1, seen)
  {
    hide BusyKeys;
    hide HasKey;
    hide KeyOf;
    assert KeyOf(db, candidates[k]) in seen ==> seen + {KeyOf(db, candidates[k])} == seen;
  }

  lemma PicksNext(db: Db, candidates: seq<nat>, k: nat, picked: seq<nat>)
    requires k < |candidates| && Sorted(db.jobs, candidates) && Picked(db, candidates, k, picked)
    ensures Champion(db, candidates[k]) ==> Picked(db, candidates, k + 1, picked + [candidates[k]])
    ensures !Champion(db, candidates[k]) ==> Picked(db, candidates, k + 1, picked)
  {
    hide Before;
    hide Champion;
    assert candidates[..k + 1] == candidates[..k] + [candidates[k]];
  }

  /** What was not picked among the first `k` candidates comes behind all that was. */
  lemma RestIsBehind(db: Db, candidates: seq<nat>, k: nat, picked: seq<nat>, c: nat)
    requires k <= |candidates| && Sorted(db.jobs, candidates) && Lists(candidates, Candidates(db))
    requires Picked(db, candidates, k, picked) && Champion(db, c) && c !in picked
    ensures k < |candidates| && forall i :: 0 <= i < |picked| ==> Before(db.jobs, picked[i], c)
  {
    hide Before;
    hide BusyKeys;
    assert c in candidates;
    var n :| 0 <= n < |candidates| && candidates[n] == c;
    assert n >= k;
  }

  lemma PickedAreChampions(db: Db, candidates: seq<nat>, k: nat, picked: seq<nat>)
    requires k <= |candidates| && Picked(db, candidates, k, picked)
    ensures forall i :: 0 <= i < |picked| ==> Champion(db, picked[i])
    ensures forall i, n :: 0 <= i < n < |picked| ==> picked[i] != picked[n] && Before(db.jobs, picked[i], picked[n])
  {
    hide Champion;
  }

  /** The loop over the candidates: at most `limit` champions, first come first served. */
  method PickEligible(db: Db, candidates: seq<nat>, limit: nat) returns (eligible: seq<nat>)
    requires limit > 0
    requires Sorted(db.jobs, candidates) && Lists(candidates, Candidates(db))
    ensures |eligible| <= limit
    ensures forall i :: 0 <= i < |eligible| ==> Champion(db, eligible[i])
    ensures forall i, n :: 0 <= i < n < |eligible| ==>
            eligible[i] != eligible[n] && Before(db.jobs, eligible[i], eligible[n])
    ensures forall c :: Champion(db, c) ==>
              || c in eligible
              || (|eligible| == limit && forall i :: 0 <= i < |eligible| ==> Before(db.jobs, eligible[i], c))
  {
    forall i | 0 <= i < |candidates| ensures HasKey(db, candidates[i]) {
      assert candidates[i] in candidates;
    }
    hide BusyKeys;
    hide Champion;
    hide Before;
    hide Candidates;
    eligible := [];
    var seen := BusyKeys(db);
    var k := 0;
    assert SeenUpTo(db, candidates, k, seen) && Picked(db, candidates, k, eligible);
    hide Picked;
    hide Sorted;
    hide Lists;
    hide SeenUpTo;
    while k < |candidates|
      invariant 0 <= k <= |candidates| && |eligible| < limit
      invariant SeenUpTo(db, candidates, k, seen)
      invariant Picked(db, candidates, k, eligible)
    {
      var j := candidates[k];
      CandidateIsChampion(db, candidates, k, seen);
      PicksNext(db, candidates, k, eligible);
      SeesNext(db, candidates, k, seen);
      if KeyOf(db, j) in seen {
        k := k + 1;
        continue;
      }
      seen := seen + {KeyOf(db, j)};
      eligible := eligible + [j];
      k := k + 1;
      if |eligible| >= limit {
        break;
      }
    }
    PickedAreChampions(db, candidates, k, eligible);
    forall c | Champion(db, c) && c !in eligible
      ensures |eligible| == limit && forall i :: 0 <= i < |eligible| ==> Before(db.jobs, eligible[i], c)
    {
      RestIsBehind(db, candidates, k, eligible, c);
    }
  }

  ghost predicate TakesJob(asg: seq<Assignment>, j: nat) {
    exists k :: 0 <= k < |asg| && asg[k].job == j
  }

  ghost predicate TakesWorker(asg: seq<Assignment>, w: nat) {
    exists k :: 0 <= k < |asg| && asg[k].worker == w
  }

  ghost predicate TakesProduct(db: Db, asg: seq<Assignment>, p: nat)
    requires Assignable(db, asg)
  {
    exists k :: 0 <= k < |asg| && db.jobs[asg[k].job].product == p
  }

  lemma TakesStep(db: Db, asg: seq<Assignment>)
    requires Assignable(db, asg) && asg != []
    ensures var front, last := asg[..|asg| - 1], asg[|asg| - 1];
            && (forall j :: TakesJob(asg, j) <==> TakesJob(front, j) || j == last.job)
            && (forall w :: TakesWorker(asg, w) <==> TakesWorker(front, w) || w == last.worker)
            && (forall p :: TakesProduct(db, asg, p) <==> TakesProduct(db, front, p) || p == db.jobs[last.job].product)
  {
    var front := asg[..|asg| - 1];
    assert forall k :: 0 <= k < |front| ==> front[k] == asg[k];
    forall j | TakesJob(front, j) ensures TakesJob(asg, j) {
      var k :| 0 <= k < |front| && front[k].job == j;
      assert asg[k].job == j;
    }
    forall w | TakesWorker(front, w) ensures TakesWorker(asg, w) {
      var k :| 0 <= k < |front| && front[k].worker == w;
      assert asg[k].worker == w;
    }
    forall p | TakesProduct(db, front, p) ensures TakesProduct(db, asg, p) {
      var k :| 0 <= k < |front| && db.jobs[front[k].job].product == p;
      assert db.jobs[asg[k].job].product == p;
    }
  }

  /** What the assignments leave alone. */
  lemma {:induction false} AssignFrame(db: Db, now: Time, asg: seq<Assignment>)
    requires Assignable(db, asg)
    ensures var r := Assign(db, now, asg);
            && (forall j :: j in db.jobs ==> r.jobs[j].product == db.jobs[j].product)
            && (forall j :: j in db.jobs && !TakesJob(asg, j) ==> r.jobs[j] == db.jobs[j])
            && (forall w :: w in db.workers && !TakesWorker(asg, w) ==> r.workers[w] == db.workers[w])
            && (forall p :: p in r.locks <==> p in db.locks || TakesProduct(db, asg, p))
  {
    hide TakesJob;
    hide TakesWorker;
    hide TakesProduct;
    if asg != [] {
      AssignFrame(db, now, asg[..|asg| - 1]);
      TakesStep(db, asg);
    } else {
      TakesNothing(db);
    }
  }

  lemma TakesNothing(db: Db)
    ensures forall p :: !TakesProduct(db, [], p)
  {
  }

  /** Champions of one key are one job. */
  lemma ChampionsDiffer(db: Db, a: nat, b: nat)
    requires Champion(db, a) && Champion(db, b) && a != b
    ensures KeyOf(db, a) != KeyOf(db, b) && db.jobs[a].product != db.jobs[b].product
  {
  }

  /** The product of the next champion has no lock yet. */
  lemma {:induction false} LockIsFree(db: Db, now: Time, asg: seq<Assignment>, j: nat)
    requires Assignable(db, asg) && Champion(db, j)
    requires forall k :: 0 <= k < |asg| ==> Champion(db, asg[k].job) && asg[k].job != j
    ensures j in db.jobs
    ensures db.jobs[j].product !in Assign(db, now, asg).locks
    ensures Assign(db, now, asg).jobs[j] == db.jobs[j]
  {
    AssignFrame(db, now, asg);
    if TakesProduct(db, asg, db.jobs[j].product) {
      var k :| 0 <= k < |asg| && db.jobs[asg[k].job].product == db.jobs[j].product;
      ChampionsDiffer(db, asg[k].job, j);
    }
  }

  /** One round of the assignment loop; the lock attempt succeeds. */
  method AssignJob(session: Session, now: Time, j: nat, worker: nat) returns (ok: bool)
    requires j in session.jobs && session.jobs[j].product !in session.locks && worker in session.workers
    modifies session
    ensures ok && session.committed == old(session.committed)
    ensures session.View() == AssignOne(old(session.View()), now, Assignment(j, worker))
  {
    var locked := TryAcquireLock(session, session.jobs[j].product, j, worker, now);
    if !locked {
      return false;
    }
    session.jobs := session.jobs[j := session.jobs[j].(status := Running, worker := Some(worker),
        startedAt := Some(now))];
    session.workers := session.workers[worker := session.workers[worker].(status := Busy, current := Some(j))];
    return true;
  }

  /** `claim_jobs`. The rollback in the lock attempt never happens: what is returned is what was
      committed. */
  method ClaimJobs(session: Session, now: Time) returns (assignments: seq<Assignment>)
    requires session.Clean()
    modifies session
    ensures session.Clean()
    ensures Claims(old(session.View()), assignments) && Assignable(old(session.View()), assignments)
    ensures session.View() == Assign(old(session.View()), now, assignments)
  {
    hide Champion;
    hide Before;
    hide AssignOne;
    hide Assign;
    hide Claims;
    hide Sorted;
    ghost var s := session.View();
    AssignNothing(s, now);
    assignments := [];
    var idle := QueryIdleWorkers(session.View());
    if |idle| == 0 {
      return;
    }
    var candidates := QueryCandidates(session.View());
    var eligible := PickEligible(session.View(), candidates, |idle|);
    var i := 0;
    while i < |idle| && i < |eligible|
      invariant 0 <= i <= |idle| && i <= |eligible| && |assignments| == i
      invariant session.committed == s
      invariant forall k :: 0 <= k < i ==> assignments[k] == Assignment(eligible[k], idle[k])
      invariant Assignable(s, assignments) && session.View() == Assign(s, now, assignments)
    {
      var worker, j := idle[i], eligible[i];
      assert worker in idle && Champion(s, j);
      LockIsFree(s, now, assignments, j);
      var ok := AssignJob(session, now, j, worker);
      if ok {
        AssignSnoc(s, now, assignments, Assignment(j, worker));
        assignments := assignments + [Assignment(j, worker)];
      }
      i := i + 1;
    }
    PairsClaim(s, idle, eligible, assignments);
    session.Commit();
  }

  lemma {:induction false} AssignNothing(db: Db, now: Time)
    ensures Assign(db, now, []) == db
    ensures IdleWorkers(db) == {} ==> Claims(db, [])
  {
  }

  lemma {:induction false} AssignSnoc(db: Db, now: Time, asg: seq<Assignment>, a: Assignment)
    requires Assignable(db, asg) && a.job in db.jobs && a.worker in db.workers
    ensures Assignable(db, asg + [a]) && Assign(db, now, asg + [a]) == AssignOne(Assign(db, now, asg), now, a)
  {
    assert (asg + [a])[..|asg|] == asg;
  }

  /** Idle workers paired with picked jobs make a claim. */
  lemma PairsClaim(db: Db, idle: seq<nat>, eligible: seq<nat>, asg: seq<Assignment>)
    requires Lists(idle, IdleWorkers(db)) && |idle| == |IdleWorkers(db)|
    requires forall i, k :: 0 <= i < k < |idle| ==> idle[i] != idle[k]
    requires |asg| == |eligible| <= |idle|
    requires forall k :: 0 <= k < |asg| ==> asg[k] == Assignment(eligible[k], idle[k])
    requires forall i :: 0 <= i < |eligible| ==> Champion(db, eligible[i])
    requires forall i, n :: 0 <= i < n < |eligible| ==> Before(db.jobs, eligible[i], eligible[n])
    requires forall c :: Champion(db, c) ==>
                           c in eligible || (|eligible| == |idle| && forall i :: 0 <= i < |eligible| ==>
                               Before(db.jobs, eligible[i], c))
    ensures Claims(db, asg)
  {
    hide Champion;
    hide Before;
    forall c | Champion(db, c)
      ensures || (exists k :: 0 <= k < |asg| && asg[k].job == c)
              || (|asg| == |IdleWorkers(db)| && forall k :: 0 <= k < |asg| ==> Before(db.jobs, asg[k].job, c))
    {
      if c in eligible {
        var k :| 0 <= k < |eligible| && eligible[k] == c;
        assert asg[k].job == c;
      }
    }
    forall k | 0 <= k < |asg| ensures asg[k].worker in IdleWorkers(db) {
      assert idle[k] in idle;
    }
  }

  // ---- finish_job ----

  function OrElse<T>(value: Option<T>, otherwise: Option<T>): Option<T> {
    if value.Some? then value else otherwise
  }

  function Finish(db: Db, j: nat, status: Status, summary: Option<string>, error: Option<string>, now: Time): Db {
    if j !in db.jobs || db.jobs[j].status.Terminal() then db
    else
      var job := db.jobs[j];
      db.(jobs := db.jobs[j := job.(status := status, finishedAt := Some(now),
                                    summary := OrElse(summary, job.summary), error := OrElse(error, job.error))],
          locks := ReleasedLocks(db.locks, job.product, Some(j)),
          workers := match job.worker
                     case None => db.workers
                     case Some(w) =>
                       if w in db.workers && db.workers[w].current == Some(j)
                       then db.workers[w := db.workers[w].(status := Idle, current := None)]
                       else db.workers)
  }

  method FinishJob(session: Session, j: nat, status: Status, summary: Option<string>, error: Option<string>, now: Time)
    requires session.Clean()
    modifies session
    ensures session.Clean() && session.View() == Finish(old(session.View()), j, status, summary, error, now)
  {
    hide ReleasedLocks;
    if j !in session.jobs {
      return;
    }
    var job := session.jobs[j];
    if job.status.Terminal() {
      return;
    }
    job := job.(status := status, finishedAt := Some(now));
    if summary.Some? {
      job := job.(summary := summary);
    }
    if error.Some? {
      job := job.(error := error);
    }
    session.jobs := session.jobs[j := job];
    ReleaseLock(session, job.product, Some(j));
    if job.worker.Some? {
      var w := job.worker.value;
      if w in session.workers && session.workers[w].current == Some(j) {
        session.workers := session.workers[w := session.workers[w].(status := Idle, current := None)];
      }
    }
    session.Commit();
  }

  // ---- How many jobs a claim assigns ----

  /** Keys that are not busy and have a queued job. */
  ghost function FreeKeys(db: Db): set<Key> {
    (set j | j in db.jobs && Candidate(db, j) :: KeyOf(db, j)) - BusyKeys(db)
  }

  /** Every finite set of queued jobs has a first. */
  lemma {:induction false} FirstInQueue(jobs: map<nat, Job>, s: set<nat>) returns (first: nat)
    requires s != {} && forall j :: j in s ==> j in jobs
    ensures first in s && forall j :: j in s && j != first ==> Before(jobs, first, j)
    decreases |s|
  {
    var j :| j in s;
    assert s == (s - {j}) + {j};
    if s - {j} == {} {
      first := j;
    } else {
      var rest := FirstInQueue(jobs, s - {j});
      first := if Before(jobs, j, rest) then j else rest;
    }
  }

  lemma FreeKeyHasChampion(db: Db, key: Key) returns (c: nat)
    requires key in FreeKeys(db)
    ensures Champion(db, c) && KeyOf(db, c) == key
  {
    var j :| j in db.jobs && Candidate(db, j) && KeyOf(db, j) == key;
    var s := set i | i in db.jobs && Candidate(db, i) && KeyOf(db, i) == key;
    assert j in s;
    c := FirstInQueue(db.jobs, s);
  }

  ghost function AssignedKeys(db: Db, asg: seq<Assignment>): set<Key> {
    set k | 0 <= k < |asg| && HasKey(db, asg[k].job) :: KeyOf(db, asg[k].job)
  }

  lemma OtherKeys(db: Db, asg: seq<Assignment>)
    requires asg != [] && forall k :: 0 <= k < |asg| ==> Champion(db, asg[k].job)
    requires forall i, k :: 0 <= i < k < |asg| ==> asg[i].job != asg[k].job
    ensures var front, last := asg[..|asg| - 1], asg[|asg| - 1];
            && HasKey(db, last.job) && KeyOf(db, last.job) !in AssignedKeys(db, front)
            && AssignedKeys(db, asg) == AssignedKeys(db, front) + {KeyOf(db, last.job)}
  {
    hide BusyKeys;
    hide Before;
    var last := asg[|asg| - 1];
    assert Champion(db, last.job);
    forall k | 0 <= k < |asg| - 1
      ensures HasKey(db, asg[k].job) && KeyOf(db, asg[k].job) != KeyOf(db, last.job)
    {
      ChampionsDiffer(db, asg[k].job, last.job);
    }
    hide Champion;
  }

  lemma {:induction false} AssignedKeysCount(db: Db, asg: seq<Assignment>)
    requires forall k :: 0 <= k < |asg| ==> Champion(db, asg[k].job)
    requires forall i, k :: 0 <= i < k < |asg| ==> asg[i].job != asg[k].job
    ensures |AssignedKeys(db, asg)| == |asg|
    decreases |asg|
  {
    hide Champion;
    if asg != [] {
      AssignedKeysCount(db, asg[..|asg| - 1]);
      OtherKeys(db, asg);
      hide AssignedKeys;
    } else {
      assert AssignedKeys(db, asg) == {};
    }
  }

  lemma {:induction false} SubsetSize<T>(a: set<T>, b: set<T>)
    requires a <= b
    ensures |a| <= |b| && (|a| == |b| ==> a == b)
    decreases |a|
  {
    if a != {} {
      var x :| x in a;
      SubsetSize(a - {x}, b - {x});
      assert a == (a - {x}) + {x} && b == (b - {x}) + {x};
    }
  }

  /** A claim is maximal: it uses as many workers as there are, or as many keys. */
  lemma ClaimIsMaximal(db: Db, asg: seq<Assignment>)
    requires Claims(db, asg)
    ensures |asg| == if |IdleWorkers(db)| <= |FreeKeys(db)| then |IdleWorkers(db)| else |FreeKeys(db)|
    ensures |AssignedKeys(db, asg)| == |asg| && AssignedKeys(db, asg) <= FreeKeys(db)
  {
    AssignedKeysCount(db, asg);
    AssignedKeysAreFree(db, asg);
    SubsetSize(AssignedKeys(db, asg), FreeKeys(db));
    hide FreeKeys;
    hide AssignedKeys;
    if |asg| < |IdleWorkers(db)| {
      forall key | key in FreeKeys(db) ensures key in AssignedKeys(db, asg) {
        FreeKeyIsAssigned(db, asg, key);
      }
      assert AssignedKeys(db, asg) == FreeKeys(db);
    }
  }

  lemma {:induction false} AssignedKeysAreFree(db: Db, asg: seq<Assignment>)
    requires Claims(db, asg)
    ensures AssignedKeys(db, asg) <= FreeKeys(db)
  {
    hide BusyKeys;
    forall key | key in AssignedKeys(db, asg) ensures key in FreeKeys(db) {
      var k :| 0 <= k < |asg| && HasKey(db, asg[k].job) && key == KeyOf(db, asg[k].job);
      assert Champion(db, asg[k].job);
    }
  }

  lemma {:induction false} FreeKeyIsAssigned(db: Db, asg: seq<Assignment>, key: Key)
    requires Claims(db, asg) && key in FreeKeys(db) && |asg| < |IdleWorkers(db)|
    ensures key in AssignedKeys(db, asg)
  {
    var c := FreeKeyHasChampion(db, key);
    hide Before;
    hide BusyKeys;
    hide FreeKeys;
    var k :| 0 <= k < |asg| && asg[k].job == c;
    assert HasKey(db, asg[k].job);
  }

  /** A claim is fair: a job that stays queued is outranked by every assigned one, unless its key
      is busy or taken by a job in front of it. */
  lemma ClaimIsFair(db: Db, asg: seq<Assignment>, j: nat)
    requires Claims(db, asg) && Candidate(db, j)
    requires forall k :: 0 <= k < |asg| ==> asg[k].job != j
    ensures || KeyOf(db, j) in BusyKeys(db)
            || (exists k :: 0 <= k < |asg| && KeyOf(db, asg[k].job) == KeyOf(db, j) && Before(db.jobs, asg[k].job, j))
            || (|asg| == |IdleWorkers(db)| && forall k :: 0 <= k < |asg| ==> Before(db.jobs, asg[k].job, j))
  {
    if KeyOf(db, j) !in BusyKeys(db) {
      var c := FreeKeyHasChampion(db, KeyOf(db, j));
      assert c == j || Before(db.jobs, c, j);
    }
  }

  // ---- What a claim does, read off the columns ----

  /** Something of the project and name holds a lock, or a preparation job of theirs runs. */
  ghost predicate KeyInUse(db: Db, key: Key) {
    || (exists p :: p in db.locks && p in db.products && db.products[p].key == key)
    || (exists r :: HasKey(db, r) && db.jobs[r].status == Running && db.jobs[r].kind != Genut && KeyOf(db, r) == key)
  }

  lemma InUseIsBusy(db: Db, key: Key)
    ensures KeyInUse(db, key) <==> key in BusyKeys(db)
  {
    if KeyInUse(db, key) {
      if p :| p in db.locks && p in db.products && db.products[p].key == key {
      } else {
        var r :| HasKey(db, r) && db.jobs[r].status == Running && db.jobs[r].kind != Genut && KeyOf(db, r) == key;
        assert RunningPrep(db, r);
      }
    }
  }

  predicate Waits(db: Db, j: nat) {
    j in db.jobs && db.jobs[j].product in db.products && db.jobs[j].status == Queued && db.jobs[j].kind == Genut
  }

  /** A job is not overtaken: if an assigned job has the smaller priority, or came later, or has the
      greater id, then a job that still waits has a key in use, or one whose job in front was assigned. */
  lemma FirstComeFirstServed(db: Db, asg: seq<Assignment>, i: nat, k: nat)
    requires Claims(db, asg) && k < |asg| && Waits(db, i) && asg[k].job in db.jobs
    requires forall n :: 0 <= n < |asg| ==> asg[n].job != i
    requires var a, b := db.jobs[i], db.jobs[asg[k].job];
             || b.priority < a.priority
             || (b.priority == a.priority && a.submittedAt < b.submittedAt)
             || (b.priority == a.priority && a.submittedAt == b.submittedAt && i < asg[k].job)
    ensures || KeyInUse(db, KeyOf(db, i))
            || exists n :: 0 <= n < |asg| && HasKey(db, asg[n].job) && KeyOf(db, asg[n].job) == KeyOf(db, i)
                           && var a, c := db.jobs[i], db.jobs[asg[n].job];
                              && a.priority <= c.priority
                              && (a.priority == c.priority ==> c.submittedAt <= a.submittedAt)
                              && (a.priority == c.priority && c.submittedAt == a.submittedAt ==> asg[n].job < i)
  {
    InUseIsBusy(db, KeyOf(db, i));
    hide KeyInUse;
    hide BusyKeys;
    hide Claims;
    ClaimIsFair(db, asg, i);
  }

  /** Only idle workers that are enabled get jobs, each one job, and only waiting GENUT jobs are given
      to them, of keys that nothing else uses. */
  lemma ClaimedWereWaiting(db: Db, asg: seq<Assignment>, k: nat)
    requires Claims(db, asg) && k < |asg|
    ensures var w := asg[k].worker; w in db.workers && db.workers[w].enabled && db.workers[w].status == Idle
    ensures forall n :: 0 <= n < |asg| && n != k ==> asg[n].worker != asg[k].worker && asg[n].job != asg[k].job
    ensures Waits(db, asg[k].job) && !KeyInUse(db, KeyOf(db, asg[k].job))
  {
    assert Champion(db, asg[k].job);
    InUseIsBusy(db, KeyOf(db, asg[k].job));
    hide KeyInUse;
    hide BusyKeys;
    hide Champion;
    assert asg[k].worker in IdleWorkers(db);
    forall n | 0 <= n < |asg| && n != k ensures asg[n].worker != asg[k].worker && asg[n].job != asg[k].job {
    }
  }

  /** A claim leaves no enabled worker idle while a job waits whose key was not in use and of whose key
      no job was assigned. */
  lemma ClaimConservesWork(db: Db, asg: seq<Assignment>, i: nat, w: nat)
    requires Claims(db, asg) && Waits(db, i)
    requires w in db.workers && db.workers[w].enabled && db.workers[w].status == Idle
    requires forall n :: 0 <= n < |asg| ==> asg[n].worker != w
    ensures || KeyInUse(db, KeyOf(db, i))
            || exists n :: 0 <= n < |asg| && HasKey(db, asg[n].job) && KeyOf(db, asg[n].job) == KeyOf(db, i)
  {
    InUseIsBusy(db, KeyOf(db, i));
    hide KeyInUse;
    if KeyOf(db, i) !in BusyKeys(db) {
      assert KeyOf(db, i) in FreeKeys(db);
      FewerThanIdle(db, asg, w);
      FreeKeyIsAssigned(db, asg, KeyOf(db, i));
    }
  }

  ghost function UsedWorkers(asg: seq<Assignment>): set<nat> {
    set k | 0 <= k < |asg| :: asg[k].worker
  }

  lemma {:induction false} UsedWorkersCount(asg: seq<Assignment>)
    requires forall i, k :: 0 <= i < k < |asg| ==> asg[i].worker != asg[k].worker
    ensures |UsedWorkers(asg)| == |asg|
    decreases |asg|
  {
    if asg != [] {
      var front, last := asg[..|asg| - 1], asg[|asg| - 1];
      UsedWorkersCount(front);
      assert UsedWorkers(asg) == UsedWorkers(front) + {last.worker};
      assert last.worker !in UsedWorkers(front);
    }
  }

  lemma FewerThanIdle(db: Db, asg: seq<Assignment>, w: nat)
    requires Claims(db, asg) && w in IdleWorkers(db) && forall n :: 0 <= n < |asg| ==> asg[n].worker != w
    ensures |asg| < |IdleWorkers(db)|
  {
    hide Champion;
    hide Before;
    UsedWorkersCount(asg);
    SubsetSize(UsedWorkers(asg), IdleWorkers(db) - {w});
  }
}
