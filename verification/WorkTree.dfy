/** Updating a checkout in place, with generated files kept over the update. */
module WorkTree {
  import opened Database

  type Path = seq<string>

  /** The files of a directory, by path; a directory is there if it has files. */
  type Tree = map<Path, string>

  predicate IsDir(t: Tree, p: Path) {
    exists q :: q in t && p < q
  }

  /** No file is a directory at the same time. */
  predicate Proper(t: Tree) {
    forall p, q :: p in t && q in t ==> !(p < q)
  }

  /** A file stands where a directory of the path would have to be. */
  predicate Blocked(t: Tree, p: Path) {
    exists q :: q in t && q < p
  }

  // ---- What is kept ----

  /** The file lies under one of the paths, which are not empty. */
  predicate Listed(preserve: seq<Path>, p: Path) {
    exists k :: 0 <= k < |preserve| && preserve[k] != [] && preserve[k] <= p
  }

  /** The files to be kept. */
  function Kept(t: Tree, preserve: seq<Path>): Tree {
    map p | p in t && Listed(preserve, p) :: t[p]
  }

  /** A copy of what lies under one path. */
  datatype Saved = Saved(path: Path, isDir: bool, files: Tree)

  function Under(t: Tree, path: Path): Tree {
    map p | p in t && path <= p :: t[p]
  }

  /** The copies hold exactly the files to be kept. */
  ghost predicate Holds(saved: seq<Saved>, kept: Tree) {
    && (forall k, p :: 0 <= k < |saved| && p in saved[k].files ==> p in kept && saved[k].files[p] == kept[p])
    && (forall p :: p in kept ==> InSome(saved, p))
  }

  /** Something of another kind stands where a kept file belongs. */
  predicate Clashes(t: Tree, p: Path) {
    Blocked(t, p) || IsDir(t, p)
  }

  predicate NoClash(t: Tree, kept: Tree) {
    forall p :: p in kept ==> !Clashes(t, p)
  }

  /** All kept files are there, with their contents. */
  predicate Survive(kept: Tree, t: Tree) {
    forall p :: p in kept ==> p in t && t[p] == kept[p]
  }

  // ---- Copying back ----

  /** Copying a file onto a directory puts it inside, under the name of the copy. */
  function Inside(p: Path, isDir: bool): Path {
    p + [if isDir && p != [] then p[|p| - 1] else "data"]
  }

  predicate Fails(t: Tree, p: Path, isDir: bool) {
    Blocked(t, p) || (IsDir(t, p) && IsDir(t, Inside(p, isDir)))
  }

  function Placed(t: Tree, p: Path, content: string, isDir: bool): Tree {
    if Fails(t, p, isDir) then t
    else if IsDir(t, p) then t[Inside(p, isDir) := content]
    else t[p := content]
  }

  lemma {:induction false} PlacingKeepsProper(t: Tree, p: Path, content: string, isDir: bool)
    requires Proper(t)
    ensures Proper(Placed(t, p, content, isDir))
  {
    if IsDir(t, p) && !Fails(t, p, isDir) {
      var f := Inside(p, isDir);
      var below :| below in t && p < below;
      forall q | q in t ensures !(q < f) && !(f < q) {
        assert f[..|p|] == p;
      }
    }
  }

  /** A clash never goes away by copying, and none comes up between files of one tree. */
  lemma {:induction false} PlacingKeepsClashes(t: Tree, p: Path, content: string, isDir: bool, other: Path)
    requires Proper(t) && Clashes(t, other)
    ensures Clashes(Placed(t, p, content, isDir), other)
  {
    var r := Placed(t, p, content, isDir);
    if Blocked(t, other) {
      var q :| q in t && q < other;
      assert q in r;
    } else {
      var q :| q in t && other < q;
      assert q in r;
    }
  }

  lemma {:induction false} ClashingIsNoFile(t: Tree, p: Path)
    requires Proper(t) && Clashes(t, p)
    ensures p !in t
  {
  }

  lemma {:induction false} PlacingMakesNoClash(t: Tree, p: Path, content: string, isDir: bool, other: Path)
    requires !Clashes(t, p) && !Clashes(t, other) && !(p < other) && !(other < p)
    ensures !Clashes(Placed(t, p, content, isDir), other)
  {
  }

  /** The copies hold exactly what lies under the first `n` paths. */
  ghost predicate SavedUpTo(t: Tree, preserve: seq<Path>, n: nat, saved: seq<Saved>)
    requires n <= |preserve|
  {
    && (forall i, p :: 0 <= i < |saved| && p in saved[i].files ==>
          p in t && Listed(preserve, p) && saved[i].files[p] == t[p] && p != [])
    && (forall p, k :: p in t && 0 <= k < n && preserve[k] != [] && preserve[k] <= p ==> InSome(saved, p))
  }

  ghost predicate InSome(saved: seq<Saved>, p: Path) {
    exists i :: 0 <= i < |saved| && p in saved[i].files
  }

  lemma {:induction false} SomethingThere(t: Tree, rel: Path, p: Path)
    requires p in t && rel <= p
    ensures rel in t || IsDir(t, rel)
  {
    if rel != p {
      assert rel < p;
    }
  }

  /** A path that is not there, or is empty, needs no copy. */
  lemma {:induction false} SkipsNext(t: Tree, preserve: seq<Path>, k: nat, saved: seq<Saved>)
    requires k < |preserve| && SavedUpTo(t, preserve, k, saved)
    requires preserve[k] == [] || (preserve[k] !in t && !IsDir(t, preserve[k]))
    ensures SavedUpTo(t, preserve, k + 1, saved)
  {
    hide IsDir;
    forall p, n | p in t && 0 <= n < k + 1 && preserve[n] != [] && preserve[n] <= p ensures InSome(saved, p) {
      if n == k {
        SomethingThere(t, preserve[k], p);
      }
    }
  }

  lemma {:induction false} SavesNext(t: Tree, preserve: seq<Path>, k: nat, saved: seq<Saved>)
    requires k < |preserve| && SavedUpTo(t, preserve, k, saved) && preserve[k] != []
    ensures SavedUpTo(t, preserve, k + 1, saved + [Saved(preserve[k], IsDir(t, preserve[k]), Under(t, preserve[k]))])
  {
    hide IsDir;
    var rel := preserve[k];
    var more := saved + [Saved(rel, IsDir(t, rel), Under(t, rel))];
    forall p | p in Under(t, rel) ensures Listed(preserve, p) && p != [] && InSome(more, p) {
      assert more[|saved|].files == Under(t, rel);
    }
    forall p | InSome(saved, p) ensures InSome(more, p) {
      var i :| 0 <= i < |saved| && p in saved[i].files;
      assert more[i] == saved[i];
    }
  }

  /** From the tree `was`, the files in `done` of the kept ones have been copied back. */
  ghost predicate Progress(was: Tree, t: Tree, kept: Tree, done: set<Path>) {
    && Proper(t)
    && (forall p :: p in kept && Clashes(was, p) ==> Clashes(t, p))
    && (NoClash(was, kept) ==> NoClash(t, kept) && t == was + map p | p in kept && p in done :: kept[p])
  }

  lemma {:induction false} NoProgress(was: Tree, kept: Tree)
    requires Proper(was)
    ensures Progress(was, was, kept, {})
  {
  }

  lemma {:induction false} PlacingProgresses(was: Tree, t: Tree, kept: Tree, done: set<Path>, p: Path, isDir: bool)
    requires Progress(was, t, kept, done) && Proper(kept) && p in kept
    ensures Progress(was, Placed(t, p, kept[p], isDir), kept, done + {p})
    ensures NoClash(was, kept) ==> !Fails(t, p, isDir)
  {
    PlacingKeepsProper(t, p, kept[p], isDir);
    PlacingKeepsAllClashes(was, t, kept, p, isDir);
    if NoClash(was, kept) {
      PlacingIsClean(t, kept, p, isDir);
    }
    hide Clashes;
    hide NoClash;
    hide Placed;
    hide Proper;
    hide Fails;
    OneMoreKept(was, kept, done, p);
  }

  lemma {:induction false} PlacingKeepsAllClashes(was: Tree, t: Tree, kept: Tree, p: Path, isDir: bool)
    requires Proper(t) && p in kept && forall q :: q in kept && Clashes(was, q) ==> Clashes(t, q)
    ensures forall q :: q in kept && Clashes(was, q) ==> Clashes(Placed(t, p, kept[p], isDir), q)
  {
    hide Clashes;
    hide Placed;
    hide Proper;
    forall q | q in kept && Clashes(was, q) ensures Clashes(Placed(t, p, kept[p], isDir), q) {
      PlacingKeepsClashes(t, p, kept[p], isDir, q);
    }
  }

  lemma {:induction false} OneMoreKept(was: Tree, kept: Tree, done: set<Path>, p: Path)
    requires p in kept
    ensures (was + map q | q in kept && q in done :: kept[q])[p := kept[p]] == was + map q | q in kept
            && q in done + {p} :: kept[q]
  {
  }

  lemma {:induction false} PlacingIsClean(t: Tree, kept: Tree, p: Path, isDir: bool)
    requires NoClash(t, kept) && Proper(kept) && p in kept
    ensures NoClash(Placed(t, p, kept[p], isDir), kept) && Placed(t, p, kept[p], isDir) == t[p := kept[p]]
    ensures !Fails(t, p, isDir)
  {
    assert !Clashes(t, p);
    forall q | q in kept ensures !Clashes(Placed(t, p, kept[p], isDir), q) {
      PlacingMakesNoClash(t, p, kept[p], isDir, q);
    }
  }

  /** When all is copied back, everything kept survives exactly if there was no clash. */
  lemma {:induction false} AllIsBack(was: Tree, t: Tree, kept: Tree, done: set<Path>)
    requires Progress(was, t, kept, done)
    requires NoClash(was, kept) ==> kept.Keys <= done
    ensures Survive(kept, t) <==> NoClash(was, kept)
    ensures NoClash(was, kept) ==> t == was + kept
  {
    if NoClash(was, kept) {
      assert (map p | p in kept && p in done :: kept[p]) == kept;
    } else {
      var p :| p in kept && Clashes(was, p);
      ClashingIsNoFile(t, p);
    }
  }

  class Checkout {
    var isRepo: bool
    var files: Tree

    constructor (isRepo: bool, files: Tree)
      ensures this.isRepo == isRepo && this.files == files
    {
      this.isRepo, this.files := isRepo, files;
    }

    /** `_backup_preserved`. */
    method BackupPreserved(preserve: seq<Path>) returns (saved: seq<Saved>)
      ensures Holds(saved, Kept(files, preserve))
    {
      saved := [];
      for k := 0 to |preserve|
        invariant SavedUpTo(files, preserve, k, saved)
      {
        var rel := preserve[k];
        if rel == [] || (rel !in files && !IsDir(files, rel)) {
          SkipsNext(files, preserve, k, saved);
          continue;
        }
        SavesNext(files, preserve, k, saved);
        saved := saved + [Saved(rel, IsDir(files, rel), Under(files, rel))];
      }
    }

    /** One saved path is copied back, its files in whatever order; false if one could not be. */
    method RestoreOne(saved: Saved, ghost was: Tree, ghost kept: Tree, ghost done: set<Path>) returns (ok: bool)
      requires Progress(was, files, kept, done) && Proper(kept)
      requires forall p :: p in saved.files ==> p in kept && saved.files[p] == kept[p]
      modifies this`files
      ensures Progress(was, files, kept, done + saved.files.Keys)
      ensures NoClash(was, kept) ==> ok
    {
      hide Progress;
      hide NoClash;
      hide Proper;
      hide Fails;
      ok := true;
      var todo := saved.files.Keys;
      ghost var placed := done;
      while todo != {}
        invariant todo <= saved.files.Keys && placed == done + (saved.files.Keys - todo)
        invariant Progress(was, files, kept, placed)
        invariant NoClash(was, kept) ==> ok
        decreases |todo|
      {
        var p :| p in todo;
        PlacingProgresses(was, files, kept, placed, p, saved.isDir);
        placed := placed + {p};
        todo := todo - {p};
        if Fails(files, p, saved.isDir) {
          ok := false;
        } else if IsDir(files, p) {
          files := files[Inside(p, saved.isDir) := saved.files[p]];
        } else {
          files := files[p := saved.files[p]];
        }
      }
      assert placed == done + saved.files.Keys;
    }

    /** `_restore_preserved`; the first path that fails ends it. */
    method RestorePreserved(saved: seq<Saved>, ghost kept: Tree) returns (ok: bool)
      requires Proper(files) && Proper(kept) && Holds(saved, kept)
      modifies this`files
      ensures Proper(files)
      ensures Survive(kept, files) <==> NoClash(old(files), kept)
      ensures NoClash(old(files), kept) ==> ok && files == old(files) + kept
    {
      hide NoClash;
      hide Survive;
      ok := true;
      ghost var was := files;
      ghost var done: set<Path> := {};
      NoProgress(was, kept);
      var k := 0;
      hide Progress;
      while k < |saved| && ok
        invariant 0 <= k <= |saved| && Progress(was, files, kept, done)
        invariant forall i, p :: 0 <= i < k && p in saved[i].files ==> p in done
        invariant NoClash(was, kept) ==> ok
      {
        ok := RestoreOne(saved[k], was, kept, done);
        done := done + saved[k].files.Keys;
        k := k + 1;
      }
      ProgressIsProper(was, files, kept, done);
      AllIsBack(was, files, kept, done);
    }

    /** `ensure_checkout` on a checkout that is there. `git` says how the commands went. */
    method UpdateInPlace(hasRef: bool, preserve: seq<Path>, strict: bool, rebase: bool, git: Git)
        returns (result: Result)
      requires isRepo && Proper(files) && Proper(git.after)
      modifies this`files
      ensures Proper(files)
      ensures !Updates(hasRef, strict, git) ==> files == old(files) && result == Skipped(hasRef, strict, git)
      ensures Updates(hasRef, strict, git) ==>
                var kept := Kept(old(files), preserve);
                && (Survive(kept, files) <==> NoClash(git.after, kept))
                && (NoClash(git.after, kept) ==>
                      && files == git.after + kept
                      && result == if git.updated || (!rebase && !strict) then Updated else GitFailed)
    {
      hide Listed;
      hide Clashes;
      if !git.fetched {
        return if strict then GitFailed else Updated;
      }
      if git.local.Some? && git.remote.Some? && git.local.value == git.remote.value {
        return Updated;
      }
      if git.remote.None? {
        if hasRef {
          return GitFailed;
        }
        if strict {
          return GitFailed;
        }
      }
      ghost var kept := Kept(files, preserve);
      var saved := BackupPreserved(preserve);
      files := git.after;
      var ok := RestorePreserved(saved, kept);
      if !ok {
        return RestoreFailed;
      }
      if rebase {
        return if git.updated then Updated else GitFailed;
      }
      return if strict && !git.updated then GitFailed else Updated;
    }

    /** `ensure_checkout`. */
    method EnsureCheckout(hasRef: bool, preserve: seq<Path>, strict: bool, rebase: bool, git: Git, clone: Clone)
      returns (result: Result)
      requires Proper(files) && Proper(git.after)
      modifies this
      ensures isRepo == (old(isRepo) || clone.Cloned?)
      ensures old(isRepo) && !Updates(hasRef, strict, git) ==>
              files == old(files) && result == Skipped(hasRef, strict, git)
      ensures old(isRepo) && !git.fetched ==> files == old(files) && result == if strict then GitFailed else Updated
      ensures old(isRepo) && git.fetched && git.local.Some? && git.local == git.remote ==>
                files == old(files) && result == Updated
      ensures old(isRepo) && git.fetched && git.remote.None? && (hasRef || strict) ==>
                files == old(files) && result == GitFailed
      ensures old(isRepo) && git.fetched && git.local != git.remote && git.remote.Some? ==>
                Updates(hasRef, strict, git)
      ensures old(isRepo) && Updates(hasRef, strict, git) ==>
                var kept := Kept(old(files), preserve);
                && (Survive(kept, files) <==> NoClash(git.after, kept))
                && (NoClash(git.after, kept) ==>
                      && files == git.after + kept
                      && result == if git.updated || (!rebase && !strict) then Updated else GitFailed)
      ensures !old(isRepo) ==>
                match clone
                case NotCloned => result == GitFailed
                case Cloned(tree, refFound) => files == tree && result == if hasRef
                    && !refFound then GitFailed else Updated
    {
      if isRepo {
        result := UpdateInPlace(hasRef, preserve, strict, rebase, git);
        return;
      }
      files := map[];
      match clone
      case NotCloned =>
        return GitFailed;
      case Cloned(tree, refFound) =>
        isRepo := true;
        files := tree;
        return if hasRef && !refFound then GitFailed else Updated;
    }
  }

  /** How a clone went: not at all, or well, but perhaps without the ref that was asked for. */
  datatype Clone = NotCloned | Cloned(tree: Tree, refFound: bool)

  /** What git answered: whether the fetch went well, both commits, whether the reset or the rebase
      did, and the tree it left, after the abort of a rebase that failed. */
  datatype Git = Git(fetched: bool, local: Option<string>, remote: Option<string>, updated: bool, after: Tree)

  datatype Result = Updated | GitFailed | RestoreFailed

  /** The tree is touched at all. */
  predicate Updates(hasRef: bool, strict: bool, git: Git) {
    git.fetched && !(git.local.Some? && git.local == git.remote) && (git.remote.Some? || !(hasRef || strict))
  }

  function Skipped(hasRef: bool, strict: bool, git: Git): Result {
    if !git.fetched then (if strict then GitFailed else Updated)
    else if git.local.Some? && git.local == git.remote then Updated
    else GitFailed
  }

  lemma {:induction false} ProgressIsProper(was: Tree, t: Tree, kept: Tree, done: set<Path>)
    requires Progress(was, t, kept, done)
    ensures Proper(t)
  {
  }

  // ---- A generated file that is lost ----

  const TESTS: Path := ["tests"]
  const TEST_FILE: Path := ["tests", "f_test.c"]

  /** A generated test below the directory to be preserved. */
  function Generated(): Tree {
    map[TEST_FILE := "TEST(f)"]
  }

  /** The commit fetched has a file of the name of that directory. */
  function Fetched(): Git {
    Git(true, Some("A"), Some("B"), true, map[TESTS := "a file"])
  }

  lemma FileReplacesDirectory()
    ensures Proper(Generated()) && Proper(Fetched().after) && Updates(true, true, Fetched())
    ensures Kept(Generated(), [TESTS]) == Generated() && !NoClash(Fetched().after, Generated())
  {
    assert TESTS < TEST_FILE && [TESTS][0] <= TEST_FILE;
    assert Listed([TESTS], TEST_FILE);
    assert Kept(Generated(), [TESTS]) == Generated();
    assert TESTS in Fetched().after;
    assert Clashes(Fetched().after, TEST_FILE);
  }

  /** The update goes through, and the generated test is gone. */
  method LoseGenerated(checkout: Checkout) returns (result: Result)
    requires checkout.isRepo && checkout.files == Generated()
    modifies checkout
    ensures Kept(Generated(), [TESTS]) == Generated() && !Survive(Generated(), checkout.files)
  {
    FileReplacesDirectory();
    hide *;
    result := checkout.EnsureCheckout(true, [TESTS], true, false, Fetched(), NotCloned);
  }
}
