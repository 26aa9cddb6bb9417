/**
The base commit of a product over whole runs of the service: diff runs, of this product and of others,
interleaved with any other steps on the tables.
*/
module BaseProtocol {
  import opened Database
  import opened Enqueue
  import opened AutoDiff
  import Engine
  import AutoTick
  import AutoScan
  import Paths
  import opened Invariant
  import opened Runs

  // ---- One run ----

  /** One run of the diff job, seen from its base. */
  datatype Attempt = Attempt(base: Option<string>, head: Option<string>, result: DiffResult)

  function BaseAfter(a: Attempt): Option<string> {
    if a.result.MovesBase() then a.head else a.base
  }

  predicate Lawful(a: Attempt) {
    match a.result
    case FirstRun => a.base.None? && a.head.Some?
    case NoChange => a.base.Some? && a.head == a.base
    case DiffCrashed => true
    case _ => a.base.Some? && a.head.Some? && a.head != a.base
  }

  lemma RunIsAttempt(s: Db, p: nat, cdb: CompileDb, files: seq<string>, git: Git, now: Time, start: Pending,
      seen: seq<Change>, result: DiffResult, t: Db)
    requires p in s.products && DiffRun(s, p, cdb, files, git, now, start, seen, result, t)
    ensures var a := Attempt(s.products[p].lastScanned, git.head, result);
            && Lawful(a) && t.products == s.products[p := s.products[p].(lastScanned := BaseAfter(a))]
  {
    hide Agrees;
    hide AutoScan.Targets;
    hide DiffRequests;
    hide ChangeCrashes;
    hide Touched;
    hide Indexable;
  }

  /** The base after a run, by what git answered. */
  lemma {:induction false} BaseMovesExactly(s: Db, p: nat, cdb: CompileDb, files: seq<string>, git: Git, now: Time,
      start: Pending, seen: seq<Change>, result: DiffResult, t: Db)
    requires p in s.products && DiffRun(s, p, cdb, files, git, now, start, seen, result, t)
    ensures p in t.products
    ensures var before, after := s.products[p].lastScanned, t.products[p].lastScanned;
            if !git.updated || git.head.None? then result == DiffCrashed && after == before
            else if before.None? then result == FirstRun && after == git.head
            else if before == git.head then result == NoChange && after == before
            else if git.changes.None? then result == Rebased && after == git.head
            else if seen == git.changes.value then after == git.head <==> result.Examined?
            else after == before && (result == DiffCanceled || result == DiffCrashed)
  {
    hide Agrees;
    hide AutoScan.Targets;
    hide DiffRequests;
    hide ChangeCrashes;
    hide Touched;
    hide Indexable;
  }

  // ---- The attempts of one product ----

  /** Attempts that follow one another: each starts from the base that the one before it left. */
  predicate History(h: seq<Attempt>) {
    forall i :: 0 <= i < |h| ==> Lawful(h[i]) && h[i].base == BaseOf(h[..i])
  }

  function BaseOf(h: seq<Attempt>): Option<string> {
    if h == [] then None else BaseAfter(h[|h| - 1])
  }

  /** The pairs of commits whose changes were examined to the end. */
  function Windows(h: seq<Attempt>): seq<(string, string)> {
    if h == [] then []
    else
      var last := h[|h| - 1];
      Windows(h[..|h| - 1])
      + (if last.result.Examined? && last.base.Some? && last.head.Some?
         then [(last.base.value, last.head.value)]
         else [])
  }

  function FirstBase(h: seq<Attempt>): Option<string> {
    if h == [] then None
    else if FirstBase(h[..|h| - 1]).Some? then FirstBase(h[..|h| - 1])
    else if h[|h| - 1].result.FirstRun? then h[|h| - 1].head
    else None
  }

  predicate ChainedFrom(first: Option<string>, windows: seq<(string, string)>, last: Option<string>) {
    && (windows == [] ==> first == last)
    && (windows != [] ==> first == Some(windows[0].0) && last == Some(windows[|windows| - 1].1))
    && forall k :: 0 < k < |windows| ==> windows[k - 1].1 == windows[k].0
  }

  lemma {:induction false} FrontIsHistory(h: seq<Attempt>)
    requires History(h) && h != []
    ensures History(h[..|h| - 1]) && Lawful(h[|h| - 1]) && h[|h| - 1].base == BaseOf(h[..|h| - 1])
  {
    hide Lawful;
    hide BaseOf;
    var front := h[..|h| - 1];
    forall i | 0 <= i < |front| ensures Lawful(front[i]) && front[i].base == BaseOf(front[..i]) {
      assert h[..i] == front[..i] && h[i] == front[i];
    }
  }

  /** Without a lost base, the examined windows chain end to end, from the commit of the first run
      to the present base: no step of the history is skipped. */
  lemma {:induction false} HistoryChains(h: seq<Attempt>)
    requires History(h) && forall i :: 0 <= i < |h| ==> !h[i].result.Rebased?
    ensures ChainedFrom(FirstBase(h), Windows(h), BaseOf(h))
    decreases |h|
  {
    if h != [] {
      var front, last := h[..|h| - 1], h[|h| - 1];
      FrontIsHistory(h);
      HistoryChains(front);
      hide History;
    }
  }

  lemma {:induction false} HistoryGrows(h: seq<Attempt>, a: Attempt)
    requires History(h) && Lawful(a) && a.base == BaseOf(h)
    ensures History(h + [a]) && BaseOf(h + [a]) == BaseAfter(a)
  {
    var g := h + [a];
    forall i | 0 <= i < |g| ensures Lawful(g[i]) && g[i].base == BaseOf(g[..i]) {
      assert g[..i] == h[..i];
      assert h[..|h|] == h;
    }
  }

  // ---- Runs of the service ----

  /** A step on the tables other than by a diff run, or a whole diff run. */
  datatype Move =
    | Other(now: Time, action: Action, after: Db)
    | Diffing(product: nat, cdb: CompileDb, files: seq<string>, git: Git, now: Time, start: Pending,
        seen: seq<Change>, result: DiffResult, after: Db)

  ghost predicate Makes(s: Db, m: Move) {
    match m
    case Other(now, a, t) => Step(s, now, a, t) && !a.MovingBase?
    case Diffing(p, cdb, files, git, now, start, seen, result, t) =>
      p in s.products && DiffRun(s, p, cdb, files, git, now, start, seen, result, t)
  }

  function After(init: Db, moves: seq<Move>): Db {
    if moves == [] then init else moves[|moves| - 1].after
  }

  /** From tables in which nothing was queued and no product was looked at yet. */
  ghost predicate Served(init: Db, moves: seq<Move>) {
    && Fresh(init) && (forall p :: p in init.products ==> init.products[p].lastScanned.None?)
    && forall k :: 0 <= k < |moves| ==> MakesAt(init, moves, k)
  }

  ghost predicate MakesAt(init: Db, moves: seq<Move>, k: nat)
    requires k < |moves|
  {
    Makes(After(init, moves[..k]), moves[k])
  }

  /** The diff runs of a product since it was created. */
  function Attempts(init: Db, moves: seq<Move>, p: nat): seq<Attempt> {
    if moves == [] then []
    else
      var front, last := moves[..|moves| - 1], moves[|moves| - 1];
      var s := After(init, front);
      match last
      case Diffing(q, _, _, git, _, _, _, result, _) =>
        if q == p && p in s.products
        then Attempts(init, front, p) + [Attempt(s.products[p].lastScanned, git.head, result)]
        else Attempts(init, front, p)
      case Other(_, a, _) =>
        if a.AddingProduct? && a.product == p then [] else Attempts(init, front, p)
  }

  lemma ServedFront(init: Db, moves: seq<Move>)
    requires Served(init, moves) && moves != []
    ensures Served(init, moves[..|moves| - 1]) && Makes(After(init, moves[..|moves| - 1]), moves[|moves| - 1])
  {
    hide Makes;
    var front := moves[..|moves| - 1];
    assert MakesAt(init, moves, |front|);
    forall k | 0 <= k < |front| ensures MakesAt(init, front, k) {
      assert MakesAt(init, moves, k) && front[..k] == moves[..k];
    }
  }

  /** No other step on the tables touches the base of a product that stays; a new product has none. */
  lemma {:induction false} OtherLeavesBase(s: Db, now: Time, a: Action, t: Db, p: nat)
    requires Step(s, now, a, t) && !a.MovingBase? && p in t.products
    ensures p in s.products ==> t.products[p].lastScanned == s.products[p].lastScanned
    ensures p !in s.products ==> a.AddingProduct? && a.product == p && t.products[p].lastScanned.None?
    ensures a.AddingProduct? && a.product == p ==> p !in s.products
  {
    hide RenameIsSafe;
    hide Engine.Claims;
    if a.CyclingDue? {
      CyclesLeaveBase(s, now, a.order, p);
    }
  }

  lemma {:induction false} CyclesLeaveBase(db: Db, now: Time, order: seq<nat>, p: nat)
    requires (forall q :: q in order ==> q in db.products) && p in db.products
    ensures AutoTick.Cycles(db, now, order).products[p].lastScanned == db.products[p].lastScanned
    decreases |order|
  {
    if order != [] {
      CyclesLeaveBase(db, now, order[..|order| - 1], p);
    }
  }

  /** A diff run of another product leaves the base alone. */
  lemma {:induction false} DiffingOther(s: Db, m: Move, p: nat)
    requires m.Diffing? && Makes(s, m) && p in m.after.products && m.product != p
    ensures p in s.products && m.after.products[p] == s.products[p]
  {
    RunIsAttempt(s, m.product, m.cdb, m.files, m.git, m.now, m.start, m.seen, m.result, m.after);
  }

  /** The base in the tables is the one the attempts lead to, and they follow one another. */
  lemma {:induction false} BaseFollowsAttempts(init: Db, moves: seq<Move>, p: nat)
    requires Served(init, moves)
    ensures History(Attempts(init, moves, p))
    ensures p in After(init, moves).products ==>
              After(init, moves).products[p].lastScanned == BaseOf(Attempts(init, moves, p))
    decreases |moves|
  {
    hide History;
    hide BaseOf;
    if moves == [] {
      NoAttempts();
    } else {
      var front, last := moves[..|moves| - 1], moves[|moves| - 1];
      ServedFront(init, moves);
      BaseFollowsAttempts(init, front, p);
      AttemptFollows(init, front, last, p);
      assert front + [last] == moves;
    }
  }

  lemma NoAttempts()
    ensures History([]) && BaseOf([]).None?
  {
  }

  lemma {:induction false} AttemptFollows(init: Db, front: seq<Move>, m: Move, p: nat)
    requires Makes(After(init, front), m) && History(Attempts(init, front, p))
    requires p in After(init, front).products ==>
               After(init, front).products[p].lastScanned == BaseOf(Attempts(init, front, p))
    ensures History(Attempts(init, front + [m], p))
    ensures p in m.after.products ==> m.after.products[p].lastScanned == BaseOf(Attempts(init, front + [m], p))
  {
    assert (front + [m])[..|front|] == front;
    var s, h := After(init, front), Attempts(init, front, p);
    match m
    case Other(now, a, t) =>
      NoAttempts();
      if p in t.products {
        OtherLeavesBase(s, now, a, t, p);
      }
    case Diffing(q, cdb, files, git, now, start, seen, result, t) =>
      if q == p {
        RunIsAttempt(s, p, cdb, files, git, now, start, seen, result, t);
        HistoryGrows(h, Attempt(s.products[p].lastScanned, git.head, result));
      } else if p in t.products {
        DiffingOther(s, m, p);
      }
  }

  /** Over any run of the service in which no base of the product was lost, the windows examined chain
      end to end, from the commit of its first diff run to the base in the table. */
  lemma {:induction false} WindowsChain(init: Db, moves: seq<Move>, p: nat)
    requires Served(init, moves) && p in After(init, moves).products
    requires forall i :: 0 <= i < |Attempts(init, moves, p)| ==> !Attempts(init, moves, p)[i].result.Rebased?
    ensures var h := Attempts(init, moves, p);
            ChainedFrom(FirstBase(h), Windows(h), After(init, moves).products[p].lastScanned)
  {
    BaseFollowsAttempts(init, moves, p);
    HistoryChains(Attempts(init, moves, p));
  }

  /** The base of a product changes in the table only by a diff run of it that was its first, lost the
      base, or examined all changes; and then it becomes that run's head. */
  lemma {:induction false} BaseMovesOnlyOnSuccess(init: Db, moves: seq<Move>, k: nat, p: nat)
    requires Served(init, moves) && k < |moves|
    requires p in After(init, moves[..k]).products && p in moves[k].after.products
    ensures moves[k].after.products[p].lastScanned != After(init, moves[..k]).products[p].lastScanned ==>
              && moves[k].Diffing? && moves[k].product == p
              && (moves[k].result.FirstRun? || moves[k].result.Rebased? || moves[k].result.Examined?)
              && moves[k].git.head.Some? && moves[k].after.products[p].lastScanned == moves[k].git.head
  {
    assert MakesAt(init, moves, k);
    var s, m := After(init, moves[..k]), moves[k];
    match m
    case Other(now, a, t) => OtherLeavesBase(s, now, a, t, p);
    case Diffing(q, cdb, files, git, now, start, seen, result, t) =>
      if q == p {
        RunIsAttempt(s, p, cdb, files, git, now, start, seen, result, t);
      } else {
        DiffingOther(s, m, p);
      }
  }

  /** Move `k` is no diff run of `p` that moves its base, and does not delete `p`. */
  predicate LeavesBase(moves: seq<Move>, k: nat, p: nat)
    requires k < |moves|
  {
    p in moves[k].after.products && !(moves[k].Diffing? && moves[k].product == p && moves[k].result.MovesBase())
  }

  /** After a failed or canceled run, whatever happens in between, the next one starts from the same base. */
  lemma {:induction false} RetriedFromSameBase(init: Db, moves: seq<Move>, i: nat, j: nat, p: nat)
    requires Served(init, moves) && i <= j <= |moves| && p in After(init, moves[..i]).products
    requires forall k :: i <= k < j ==> LeavesBase(moves, k, p)
    ensures p in After(init, moves[..j]).products
    ensures After(init, moves[..j]).products[p].lastScanned == After(init, moves[..i]).products[p].lastScanned
    decreases j
  {
    hide Served;
    if i < j {
      RetriedFromSameBase(init, moves, i, j - 1, p);
      assert LeavesBase(moves, j - 1, p);
      BaseMovesOnlyOnSuccess(init, moves, j - 1, p);
    }
  }

  // ---- The scheduler's invariant in between ----

  lemma {:induction false} EnqueueKeeps(w: Work, p: nat, cdb: CompileDb, rs: seq<Request>, now: Time)
    requires Inv(w.db) && p in w.db.products && Readable(rs)
    ensures Inv(EnqueueAll(w, p, cdb, rs, now).db)
    decreases |rs|
  {
    hide Inv;
    if rs == [] {
      EnqueueNothing(w, p, cdb, now);
    } else {
      var front, r := rs[..|rs| - 1], rs[|rs| - 1];
      EnqueueKeeps(w, p, cdb, front, now);
      EnqueueSnoc(w, p, cdb, rs, now);
      EnqueuedKeeps(EnqueueAll(w, p, cdb, front, now), p, cdb, r, now);
    }
  }

  lemma EnqueuedKeeps(w: Work, p: nat, cdb: CompileDb, r: Request, now: Time)
    requires Inv(w.db) && p in w.db.products && Paths.Normalize(r.file).Some?
    ensures Inv(Enqueued(w, p, cdb, r, now).db)
  {
    hide Inv;
    hide Paths.Normalize;
    hide Skips;
    InsertKeeps(w.db, AutoJob(p, Paths.Normalize(r.file).value, r.function_, now));
  }

  lemma {:induction false} BaseKeeps(db: Db, p: nat, commit: string)
    requires Inv(db) && p in db.products
    ensures Inv(WithBase(db, p, commit))
  {
    hide Inv;
    ProductSettingsKeep(db, p, db.products[p].(lastScanned := Some(commit)));
  }

  /** A diff run keeps the invariant of the tables, however it ends. */
  lemma {:induction false} DiffRunKeeps(s: Db, p: nat, cdb: CompileDb, files: seq<string>, git: Git, now: Time,
      start: Pending, seen: seq<Change>, result: DiffResult, t: Db)
    requires Inv(s) && p in s.products && DiffRun(s, p, cdb, files, git, now, start, seen, result, t)
    ensures Inv(t)
  {
    hide Inv;
    hide WithBase;
    hide EnqueueAll;
    hide DiffRequests;
    hide Agrees;
    hide ChangeCrashes;
    hide Touched;
    hide AutoScan.Targets;
    if !Examines(s, p, git) {
      if result.MovesBase() {
        BaseKeeps(s, p, git.head.value);
      }
    } else if AutoScan.Targets(files).Some? && Indexable(s, p) {
      var w, rs := Work(s, start, 0, 0), DiffRequests(git, TargetSet(files), seen);
      EnqueueKeeps(w, p, cdb, rs, now);
      if result.Examined? {
        BaseKeeps(EnqueueAll(w, p, cdb, rs, now).db, p, git.head.value);
      }
    }
  }

  /** Diff runs included, the invariant holds in every reachable state. */
  lemma {:induction false} ServedInv(init: Db, moves: seq<Move>)
    requires Served(init, moves)
    ensures Inv(After(init, moves))
    decreases |moves|
  {
    if moves != [] {
      var front, m := moves[..|moves| - 1], moves[|moves| - 1];
      ServedFront(init, moves);
      hide Served;
      ServedInv(init, front);
      hide Inv;
      hide Step;
      hide DiffRun;
      match m
      case Other(now, a, t) => StepKeeps(After(init, front), now, a, t);
      case Diffing(p, cdb, files, git, now, start, seen, result, t) =>
        DiffRunKeeps(After(init, front), p, cdb, files, git, now, start, seen, result, t);
    }
  }
}
