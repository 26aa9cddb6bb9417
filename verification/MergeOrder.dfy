/** The merged status is a union: what it says, and how far it depends on the order of the variants. */
module MergeOrder {
  import opened Database
  import opened Merge

  // ---- The union ----

  /** The file was seen under the code with this target, in some variant. */
  ghost predicate Saw(occs: seq<Occurrence>, path: string, failed: bool, x: Seen) {
    exists o :: o in occs && o.item.path == path && o.code == x.code && x.file in FilesOf(o.item, failed)
  }

  lemma {:induction false} SeenExactly(occs: seq<Occurrence>, path: string, failed: bool, x: Seen)
    ensures x in SeenFiles(occs, path, failed) <==> Saw(occs, path, failed, x)
    decreases |occs|
  {
    if occs != [] {
      var front, last := occs[..|occs| - 1], occs[|occs| - 1];
      SeenExactly(front, path, failed, x);
      assert forall o :: o in occs <==> o in front || o == last by {
        assert occs == front + [last];
      }
      var files := FilesOf(last.item, failed);
      assert x in SeenIn(last.code, files) <==> x.code == last.code && x.file in files by {
        if x.code == last.code && x.file in files {
          var k :| 0 <= k < |files| && files[k] == x.file;
          assert SeenIn(last.code, files)[k] == x;
        }
      }
    }
  }

  predicate SameFiles(a: seq<FileRow>, b: seq<FileRow>) {
    |a| == |b| && forall k :: 0 <= k < |a| ==> a[k].path == b[k].path && a[k].codes == b[k].codes
  }

  /** Alike but for the names, logs and case counts, which are those of the first variant that has them. */
  predicate SameShape(a: seq<TargetRow>, b: seq<TargetRow>) {
    && |a| == |b|
    && forall k :: 0 <= k < |a| ==>
         && a[k].path == b[k].path && a[k].codes == b[k].codes
         && a[k].testCount == b[k].testCount && a[k].failCount == b[k].failCount
         && SameFiles(a[k].testFiles, b[k].testFiles) && SameFiles(a[k].failedFiles, b[k].failedFiles)
  }

  /** What the merged status says: a row for exactly the target paths of the variants; each with
      exactly the codes it came under, and exactly the test files seen with it, counted once. */
  lemma {:induction false} MergedIsUnion(occs: seq<Occurrence>, rows: seq<TargetRow>, k: nat, failed: bool)
    requires Merged(occs, rows) && k < |rows|
    ensures Ascending(RowPaths(rows)) && (forall p :: p in RowPaths(rows) <==>
            exists o :: o in occs && o.item.path == p)
    ensures var row := rows[k];
            var files := if failed then row.failedFiles else row.testFiles;
            && (forall c :: c in row.codes <==> exists o :: o in occs && o.item.path == row.path && o.code == c)
            && SortedList(FilePaths(files), PathsOf(SeenFiles(occs, row.path, failed)))
            && |files| == |PathsOf(SeenFiles(occs, row.path, failed))|
            && (if failed then row.failCount else row.testCount) == |files|
            && forall i :: 0 <= i < |files| ==>
                SortedList(files[i].codes, CodesOf(SeenFiles(occs, row.path, failed), files[i].path))
  {
    var row := rows[k];
    assert RowOf(occs, row);
    EmittedIsUnion(SeenFiles(occs, row.path, failed), if failed then row.failedFiles else row.testFiles);
    hide Bucket;
    hide SeenFiles;
    hide Less;
    forall p ensures p in ItemPaths(occs) <==> exists o :: o in occs && o.item.path == p {
    }
    forall c ensures c in ItemCodes(occs, row.path) <==>
        exists o :: o in occs && o.item.path == row.path && o.code == c {
    }
  }

  lemma {:induction false} EmittedIsUnion(seen: seq<Seen>, files: seq<FileRow>)
    requires Emitted(Bucket(seen), files)
    ensures SortedList(FilePaths(files), PathsOf(seen)) && |files| == |PathsOf(seen)|
    ensures forall i :: 0 <= i < |files| ==> SortedList(files[i].codes, CodesOf(seen, files[i].path))
  {
    forall p ensures p in Bucket(seen) <==> p in PathsOf(seen) {
      BucketIsUnion(seen, p);
    }
    assert Bucket(seen).Keys == PathsOf(seen);
    SortedSize(FilePaths(files), PathsOf(seen));
    forall i | 0 <= i < |files| ensures SortedList(files[i].codes, CodesOf(seen, files[i].path)) {
      BucketIsUnion(seen, files[i].path);
    }
  }

  lemma {:induction false} SameSeenSameFiles(a: seq<Seen>, b: seq<Seen>, x: seq<FileRow>, y: seq<FileRow>)
    requires forall s :: s in a <==> s in b
    requires Emitted(Bucket(a), x) && Emitted(Bucket(b), y)
    ensures SameFiles(x, y)
  {
    EmittedIsUnion(a, x);
    EmittedIsUnion(b, y);
    hide Bucket;
    hide SortedList;
    SeenSets(a, b);
    SortIsUnique(FilePaths(x), FilePaths(y), PathsOf(a));
    forall k | 0 <= k < |x| ensures x[k].path == y[k].path && x[k].codes == y[k].codes {
      assert FilePaths(x)[k] == FilePaths(y)[k];
      SortIsUnique(x[k].codes, y[k].codes, CodesOf(a, x[k].path));
    }
  }

  lemma SeenSets(a: seq<Seen>, b: seq<Seen>)
    requires forall s :: s in a <==> s in b
    ensures PathsOf(a) == PathsOf(b) && forall p :: CodesOf(a, p) == CodesOf(b, p)
  {
    assert forall k :: 0 <= k < |a| ==> a[k] in b;
    assert forall k :: 0 <= k < |b| ==> b[k] in a;
  }

  lemma ItemSets(a: seq<Occurrence>, b: seq<Occurrence>)
    requires forall o :: o in a <==> o in b
    ensures ItemPaths(a) == ItemPaths(b) && forall p :: ItemCodes(a, p) == ItemCodes(b, p)
  {
    assert forall k :: 0 <= k < |a| ==> a[k] in b;
    assert forall k :: 0 <= k < |b| ==> b[k] in a;
  }

  /** Variants in another order, or given twice, are merged alike. */
  lemma OrderDoesNotMatter(a: seq<Occurrence>, b: seq<Occurrence>, x: seq<TargetRow>, y: seq<TargetRow>)
    requires Merged(a, x) && Merged(b, y) && forall o :: o in a <==> o in b
    ensures SameShape(x, y)
  {
    ItemSets(a, b);
    hide Emitted;
    hide SortedList;
    hide SeenFiles;
    SortIsUnique(RowPaths(x), RowPaths(y), ItemPaths(a));
    forall k | 0 <= k < |x|
      ensures x[k].path == y[k].path && x[k].codes == y[k].codes
              && SameFiles(x[k].testFiles, y[k].testFiles) && SameFiles(x[k].failedFiles, y[k].failedFiles)
    {
      assert RowPaths(x)[k] == RowPaths(y)[k];
      assert RowOf(a, x[k]) && RowOf(b, y[k]);
      var p := x[k].path;
      SortIsUnique(x[k].codes, y[k].codes, ItemCodes(a, p));
      forall failed, s ensures s in SeenFiles(a, p, failed) <==> s in SeenFiles(b, p, failed) {
        SeenExactly(a, p, failed, s);
        SeenExactly(b, p, failed, s);
      }
      SameSeenSameFiles(SeenFiles(a, p, false), SeenFiles(b, p, false), x[k].testFiles, y[k].testFiles);
      SameSeenSameFiles(SeenFiles(a, p, true), SeenFiles(b, p, true), x[k].failedFiles, y[k].failedFiles);
    }
  }

  // ---- The first that is given ----

  /** The first value that `f` gives on the list. */
  ghost function First<T(!new)>(xs: seq<T>, f: T -> Option<nat>): Option<nat> {
    if xs == [] then None else Merge.OrElse(First(xs[..|xs| - 1], f), f(xs[|xs| - 1]))
  }

  /** All values given are the same. */
  ghost predicate Agree<T(!new)>(xs: seq<T>, f: T -> Option<nat>) {
    forall x, y :: x in xs && y in xs && f(x).Some? && f(y).Some? ==> f(x) == f(y)
  }

  lemma {:induction false} FirstIsGiven<T(!new)>(xs: seq<T>, f: T -> Option<nat>)
    ensures First(xs, f).Some? <==> exists x :: x in xs && f(x).Some?
    ensures First(xs, f).Some? ==> exists x :: x in xs && f(x) == First(xs, f)
    decreases |xs|
  {
    if xs != [] {
      var front, last := xs[..|xs| - 1], xs[|xs| - 1];
      FirstIsGiven(front, f);
      assert xs == front + [last];
    }
  }

  lemma {:induction false} FirstConcat<T(!new)>(xs: seq<T>, ys: seq<T>, f: T -> Option<nat>)
    ensures First(xs + ys, f) == Merge.OrElse(First(xs, f), First(ys, f))
    decreases |ys|
  {
    if ys == [] {
      assert xs + ys == xs;
    } else {
      FirstConcat(xs, ys[..|ys| - 1], f);
      assert (xs + ys)[..|xs + ys| - 1] == xs + ys[..|ys| - 1];
    }
  }

  lemma SameElements<T(!new)>(xs: seq<T>, ys: seq<T>)
    requires multiset(xs) == multiset(ys)
    ensures forall x :: x in xs <==> x in ys
  {
    forall x ensures x in xs <==> x in ys {
      assert x in xs <==> x in multiset(xs);
      assert x in ys <==> x in multiset(ys);
    }
  }

  lemma {:induction false} AgreedIsFirst<T(!new)>(xs: seq<T>, ys: seq<T>, f: T -> Option<nat>)
    requires Agree(xs, f) && forall x :: x in xs <==> x in ys
    ensures First(xs, f) == First(ys, f)
  {
    FirstIsGiven(xs, f);
    FirstIsGiven(ys, f);
  }

  /** Moving an element to the front makes its value the first. */
  lemma MovedToFront<T(!new)>(xs: seq<T>, x: T, f: T -> Option<nat>) returns (ys: seq<T>)
    requires x in xs && f(x).Some?
    ensures multiset(ys) == multiset(xs) && First(ys, f) == f(x)
  {
    var i :| 0 <= i < |xs| && xs[i] == x;
    ys := [x] + (xs[..i] + xs[i + 1..]);
    assert xs == xs[..i] + [x] + xs[i + 1..];
    FirstConcat([x], xs[..i] + xs[i + 1..], f);
    assert [x][..0] == [];
    assert First([x], f) == f(x);
  }

  /** The first value does not depend on the order exactly when all that are given agree. */
  lemma {:induction false} AgreeExactly<T(!new)>(xs: seq<T>, f: T -> Option<nat>)
    ensures Agree(xs, f) <==> forall ys :: multiset(ys) == multiset(xs) ==> First(ys, f) == First(xs, f)
  {
    forall ys | multiset(ys) == multiset(xs) && Agree(xs, f) ensures First(ys, f) == First(xs, f) {
      SameElements(xs, ys);
      AgreedIsFirst(xs, ys, f);
    }
    if !Agree(xs, f) {
      var x, y :| x in xs && y in xs && f(x).Some? && f(y).Some? && f(x) != f(y);
      var us := MovedToFront(xs, x, f);
      var vs := MovedToFront(xs, y, f);
    }
  }

  // ---- Case counts ----

  /** What one test file says about the cases of `path`. */
  function CountOf(x: Seen, path: string): Option<nat> {
    if x.file.path == path then x.file.caseCount else None
  }

  lemma {:induction false} FirstCountIsFirst(seen: seq<Seen>, path: string)
    ensures FirstCount(seen, path) == First(seen, x => CountOf(x, path))
    decreases |seen|
  {
    if seen != [] {
      FirstCountIsFirst(seen[..|seen| - 1], path);
    }
  }

  /** Whenever two test files of that path are counted, the counts are the same. */
  predicate CountsAgree(seen: seq<Seen>, path: string) {
    forall x, y :: x in seen && y in seen && CountOf(x, path).Some? && CountOf(y, path).Some? ==>
      CountOf(x, path) == CountOf(y, path)
  }

  /** The number of cases of a file does not depend on the order in which it is seen exactly when
      all that count it agree. */
  lemma {:induction false} CountsAgreeExactly(seen: seq<Seen>, path: string)
    ensures CountsAgree(seen, path) <==>
            forall t :: multiset(t) == multiset(seen) ==> FirstCount(t, path) == FirstCount(seen, path)
  {
    var f := x => CountOf(x, path);
    assert CountsAgree(seen, path) <==> Agree(seen, f);
    AgreeExactly(seen, f);
    hide CountOf;
    hide CountsAgree;
    FirstCountIsFirst(seen, path);
    if CountsAgree(seen, path) {
      forall t | multiset(t) == multiset(seen) ensures FirstCount(t, path) == FirstCount(seen, path) {
        FirstCountIsFirst(t, path);
      }
    } else {
      var t :| multiset(t) == multiset(seen) && First(t, f) != First(seen, f);
      FirstCountIsFirst(t, path);
    }
  }

  /** The number of cases of the test file `file` of the target `path` after merging. */
  function FileCount(variants: seq<Variant>, path: string, failed: bool, file: string): Option<nat> {
    FirstCount(SeenFiles(Occurrences(variants), path, failed), file)
  }

  /** What one variant alone says about it. */
  function CountIn(v: Variant, path: string, failed: bool, file: string): Option<nat> {
    FirstCount(SeenFiles(OccurrencesIn(v.code, v.status), path, failed), file)
  }

  /** All variants that count the cases of that test file agree. */
  ghost predicate VariantsAgree(variants: seq<Variant>, path: string, failed: bool, file: string) {
    forall v, w :: v in variants && w in variants
                   && CountIn(v, path, failed, file).Some? && CountIn(w, path, failed, file).Some? ==>
      CountIn(v, path, failed, file) == CountIn(w, path, failed, file)
  }

  lemma {:induction false} SeenFilesConcat(a: seq<Occurrence>, b: seq<Occurrence>, path: string, failed: bool)
    ensures SeenFiles(a + b, path, failed) == SeenFiles(a, path, failed) + SeenFiles(b, path, failed)
    decreases |b|
  {
    hide SeenIn;
    if b == [] {
      assert a + b == a;
    } else {
      SeenFilesConcat(a, b[..|b| - 1], path, failed);
      assert (a + b)[..|a + b| - 1] == a + b[..|b| - 1];
    }
  }

  lemma {:induction false} FirstCountConcat(a: seq<Seen>, b: seq<Seen>, path: string)
    ensures FirstCount(a + b, path) == Merge.OrElse(FirstCount(a, path), FirstCount(b, path))
  {
    FirstCountIsFirst(a, path);
    FirstCountIsFirst(b, path);
    FirstCountIsFirst(a + b, path);
    FirstConcat(a, b, x => CountOf(x, path));
  }

  /** The first variant that counts the cases decides. */
  lemma {:induction false} FileCountIsFirst(variants: seq<Variant>, path: string, failed: bool, file: string)
    ensures FileCount(variants, path, failed, file) == First(variants, v => CountIn(v, path, failed, file))
    decreases |variants|
  {
    hide SeenFiles;
    hide OccurrencesIn;
    if variants == [] {
      NothingSeen(path, failed, file);
    } else {
      var front, last := variants[..|variants| - 1], variants[|variants| - 1];
      FileCountIsFirst(front, path, failed, file);
      var more := OccurrencesIn(last.code, last.status);
      SeenFilesConcat(Occurrences(front), more, path, failed);
      FirstCountConcat(SeenFiles(Occurrences(front), path, failed), SeenFiles(more, path, failed), file);
    }
  }

  lemma {:induction false} NothingSeen(path: string, failed: bool, file: string)
    ensures FileCount([], path, failed, file) == None
  {
  }

  lemma {:induction false} FileCountExactly(variants: seq<Variant>, path: string, failed: bool, file: string)
    ensures VariantsAgree(variants, path, failed, file) <==>
            forall t :: multiset(t) == multiset(variants) ==>
              FileCount(t, path, failed, file) == FileCount(variants, path, failed, file)
  {
    var f := v => CountIn(v, path, failed, file);
    assert VariantsAgree(variants, path, failed, file) <==> Agree(variants, f);
    AgreeExactly(variants, f);
    hide CountIn;
    hide VariantsAgree;
    hide FileCount;
    FileCountIsFirst(variants, path, failed, file);
    if VariantsAgree(variants, path, failed, file) {
      forall t | multiset(t) == multiset(variants)
        ensures FileCount(t, path, failed, file) == FileCount(variants, path, failed, file)
      {
        FileCountIsFirst(t, path, failed, file);
      }
    } else {
      var t :| multiset(t) == multiset(variants) && First(t, f) != First(variants, f);
      FileCountIsFirst(t, path, failed, file);
    }
  }

  // ---- Case counts in the merged rows ----

  function FilesOfRow(row: TargetRow, failed: bool): seq<FileRow> {
    if failed then row.failedFiles else row.testFiles
  }

  lemma {:induction false} RowCounts(variants: seq<Variant>, row: TargetRow, failed: bool, i: nat)
    requires RowOf(Occurrences(variants), row) && i < |FilesOfRow(row, failed)|
    ensures var file := FilesOfRow(row, failed)[i];
            file.caseCount == FileCount(variants, row.path, failed, file.path)
  {
    BucketIsUnion(SeenFiles(Occurrences(variants), row.path, failed), FilesOfRow(row, failed)[i].path);
  }

  /** Rows alike in all numbers: also in the case counts of every file, and their sums. */
  predicate SameCounts(x: seq<TargetRow>, y: seq<TargetRow>) {
    && SameShape(x, y)
    && forall k :: 0 <= k < |x| ==>
         && x[k].caseCount == y[k].caseCount
         && SameFileCounts(x[k].testFiles, y[k].testFiles) && SameFileCounts(x[k].failedFiles, y[k].failedFiles)
  }

  predicate SameFileCounts(a: seq<FileRow>, b: seq<FileRow>) {
    |a| == |b| && forall i :: 0 <= i < |a| ==> a[i].caseCount == b[i].caseCount
  }

  lemma {:induction false} SameSum(a: seq<FileRow>, b: seq<FileRow>)
    requires SameFileCounts(a, b)
    ensures CaseSum(a) == CaseSum(b)
    decreases |a|
  {
    if a != [] {
      SameSum(a[..|a| - 1], b[..|b| - 1]);
    }
  }

  /** All variants agree on the cases of every test file of every target. */
  ghost predicate AllAgree(variants: seq<Variant>) {
    forall path, failed, file :: VariantsAgree(variants, path, failed, file)
  }

  lemma {:induction false} SameOccurrences(a: seq<Variant>, b: seq<Variant>)
    requires multiset(a) == multiset(b)
    ensures forall o :: o in Occurrences(a) <==> o in Occurrences(b)
  {
    SameElements(a, b);
    forall o ensures o in Occurrences(a) <==> o in Occurrences(b) {
      OccursIn(a, o);
      OccursIn(b, o);
    }
  }

  lemma {:induction false} OccursIn(variants: seq<Variant>, o: Occurrence)
    ensures o in Occurrences(variants) <==> exists v :: v in variants && o in OccurrencesIn(v.code, v.status)
    decreases |variants|
  {
    hide OccurrencesIn;
    if variants != [] {
      var front, last := variants[..|variants| - 1], variants[|variants| - 1];
      OccursIn(front, o);
      assert variants == front + [last];
    }
  }

  lemma {:induction false} AgreedFiles(a: seq<Variant>, b: seq<Variant>, x: TargetRow, y: TargetRow, failed: bool)
    requires AllAgree(a) && multiset(a) == multiset(b)
    requires RowOf(Occurrences(a), x) && RowOf(Occurrences(b), y) && x.path == y.path
    requires SameFiles(FilesOfRow(x, failed), FilesOfRow(y, failed))
    ensures SameFileCounts(FilesOfRow(x, failed), FilesOfRow(y, failed))
  {
    hide RowOf;
    hide VariantsAgree;
    hide FileCount;
    forall i | 0 <= i < |FilesOfRow(x, failed)|
      ensures FilesOfRow(x, failed)[i].caseCount == FilesOfRow(y, failed)[i].caseCount
    {
      RowCounts(a, x, failed, i);
      RowCounts(b, y, failed, i);
      assert VariantsAgree(a, x.path, failed, FilesOfRow(x, failed)[i].path);
      FileCountExactly(a, x.path, failed, FilesOfRow(x, failed)[i].path);
    }
  }

  /** If all agree, merging in another order gives the same numbers. */
  lemma {:induction false} AgreedRowsAreTheSame(a: seq<Variant>, b: seq<Variant>, x: seq<TargetRow>, y: seq<TargetRow>)
    requires AllAgree(a) && multiset(a) == multiset(b)
    requires Merged(Occurrences(a), x) && Merged(Occurrences(b), y)
    ensures SameCounts(x, y)
  {
    SameOccurrences(a, b);
    OrderDoesNotMatter(Occurrences(a), Occurrences(b), x, y);
    hide AllAgree;
    hide SortedList;
    hide SameFiles;
    hide SameFileCounts;
    forall k | 0 <= k < |x|
      ensures SameFileCounts(x[k].testFiles, y[k].testFiles) && SameFileCounts(x[k].failedFiles, y[k].failedFiles)
      ensures x[k].caseCount == y[k].caseCount
    {
      assert RowOf(Occurrences(a), x[k]) && RowOf(Occurrences(b), y[k]);
      AgreedFiles(a, b, x[k], y[k], false);
      AgreedFiles(a, b, x[k], y[k], true);
      SameSum(x[k].testFiles, y[k].testFiles);
    }
  }

  // Merged rows exist for every list of variants.

  lemma {:induction false} InsertSorted(ids: seq<string>, x: string) returns (r: seq<string>)
    requires Merge.Ascending(ids) && x !in ids
    ensures Merge.Ascending(r) && forall y :: y in r <==> y in ids || y == x
    decreases |ids|
  {
    hide Less;
    if ids == [] {
      r := [x];
    } else {
      LessIsTotal(x, ids[0]);
      if Less(x, ids[0]) {
        forall i | 0 <= i < |ids| ensures Less(x, ids[i]) {
          if i > 0 {
            LessIsTransitive(x, ids[0], ids[i]);
          }
        }
        r := [x] + ids;
      } else {
        var tail := InsertSorted(ids[1..], x);
        forall i | 0 <= i < |tail| ensures Less(ids[0], tail[i]) {
          assert tail[i] in tail;
        }
        r := [ids[0]] + tail;
        assert ids == [ids[0]] + ids[1..];
      }
    }
  }

  lemma {:induction false} SortExists(s: set<string>)
    ensures exists ids :: SortedList(ids, s)
    decreases |s|
  {
    hide Less;
    if s == {} {
      assert SortedList([], s);
    } else {
      var x :| x in s;
      SortExists(s - {x});
      var rest :| SortedList(rest, s - {x});
      var ids := InsertSorted(rest, x);
      assert SortedList(ids, s);
    }
  }

  ghost function Listed(s: set<string>): (ids: seq<string>)
    ensures SortedList(ids, s)
  {
    SortExists(s);
    var ids :| SortedList(ids, s);
    ids
  }

  ghost function FileRows(bucket: map<string, Entry>): (rows: seq<FileRow>)
    ensures Emitted(bucket, rows)
  {
    var paths := Listed(bucket.Keys);
    assert forall k :: 0 <= k < |paths| ==> paths[k] in paths;
    var rows := seq(|paths|, k requires 0 <= k < |paths| =>
      var e := bucket[paths[k]];
      FileRow(e.name, paths[k], Listed(e.codes), e.logPath, e.caseCount));
    assert FilePaths(rows) == paths;
    rows
  }

  ghost function RowFor(occs: seq<Occurrence>, path: string): (row: TargetRow)
    requires path in ItemPaths(occs)
    ensures row.path == path && RowOf(occs, row)
  {
    TargetCodes(occs, path);
    var tests := FileRows(Bucket(SeenFiles(occs, path, false)));
    var failures := FileRows(Bucket(SeenFiles(occs, path, true)));
    TargetRow(FirstItemName(occs, path).value, path, Listed(ItemCodes(occs, path)), |tests|, tests, CaseSum(tests),
      |failures|, failures)
  }

  ghost function MergedRows(occs: seq<Occurrence>): (rows: seq<TargetRow>)
    ensures Merged(occs, rows)
  {
    hide RowOf;
    var paths := Listed(ItemPaths(occs));
    assert forall k :: 0 <= k < |paths| ==> paths[k] in paths;
    var rows := seq(|paths|, k requires 0 <= k < |paths| => RowFor(occs, paths[k]));
    assert RowPaths(rows) == paths;
    rows
  }

  // The rows are determined.

  lemma {:induction false} EmittedIsUnique(bucket: map<string, Entry>, x: seq<FileRow>, y: seq<FileRow>)
    requires Emitted(bucket, x) && Emitted(bucket, y)
    ensures x == y
  {
    hide SortedList;
    SortIsUnique(FilePaths(x), FilePaths(y), bucket.Keys);
    forall k | 0 <= k < |x| ensures x[k] == y[k] {
      assert FilePaths(x)[k] == FilePaths(y)[k];
      SortIsUnique(x[k].codes, y[k].codes, bucket[x[k].path].codes);
    }
  }

  /** There is one way to merge. */
  lemma {:induction false} MergedIsUnique(occs: seq<Occurrence>, x: seq<TargetRow>, y: seq<TargetRow>)
    requires Merged(occs, x) && Merged(occs, y)
    ensures x == y
  {
    hide SortedList;
    hide Emitted;
    SortIsUnique(RowPaths(x), RowPaths(y), ItemPaths(occs));
    forall k | 0 <= k < |x| ensures x[k] == y[k] {
      assert RowPaths(x)[k] == RowPaths(y)[k];
      assert RowOf(occs, x[k]) && RowOf(occs, y[k]);
      SortIsUnique(x[k].codes, y[k].codes, ItemCodes(occs, x[k].path));
      EmittedIsUnique(Bucket(SeenFiles(occs, x[k].path, false)), x[k].testFiles, y[k].testFiles);
      EmittedIsUnique(Bucket(SeenFiles(occs, x[k].path, true)), x[k].failedFiles, y[k].failedFiles);
    }
  }

  /** If some disagree, the count of a file tells the order. */
  lemma {:induction false} DisagreedRowsDiffer(a: seq<Variant>, b: seq<Variant>, x: seq<TargetRow>, y: seq<TargetRow>,
      path: string, failed: bool, file: string)
    requires multiset(a) == multiset(b) && Merged(Occurrences(a), x) && Merged(Occurrences(b), y)
    requires FileCount(a, path, failed, file) != FileCount(b, path, failed, file)
    ensures !SameCounts(x, y)
  {
    SameOccurrences(a, b);
    OrderDoesNotMatter(Occurrences(a), Occurrences(b), x, y);
    var c := if FileCount(a, path, failed, file).Some? then a else b;
    var z := if FileCount(a, path, failed, file).Some? then x else y;
    var k, i := CountHasRow(c, z, path, failed, file);
    assert RowOf(Occurrences(a), x[k]) && RowOf(Occurrences(b), y[k]);
    RowCounts(a, x[k], failed, i);
    RowCounts(b, y[k], failed, i);
  }

  /** A file that is counted has a row. */
  lemma {:induction false} CountHasRow(a: seq<Variant>, x: seq<TargetRow>, path: string, failed: bool, file: string)
      returns (k: nat, i: nat)
    requires Merged(Occurrences(a), x) && FileCount(a, path, failed, file).Some?
    ensures k < |x| && x[k].path == path && i < |FilesOfRow(x[k], failed)|
    ensures FilesOfRow(x[k], failed)[i].path == file
  {
    var occs := Occurrences(a);
    CountHasTarget(occs, path, failed, file);
    TargetHasRow(occs, x, path);
    k :| 0 <= k < |x| && x[k].path == path && RowOf(occs, x[k]);
    EmittedHasRow(Bucket(SeenFiles(occs, path, failed)), FilesOfRow(x[k], failed), file);
    i :| 0 <= i < |FilesOfRow(x[k], failed)| && FilesOfRow(x[k], failed)[i].path == file;
  }

  lemma TargetHasRow(occs: seq<Occurrence>, rows: seq<TargetRow>, path: string)
    requires Merged(occs, rows) && path in ItemPaths(occs)
    ensures exists k :: 0 <= k < |rows| && rows[k].path == path && RowOf(occs, rows[k])
  {
    hide RowOf;
    var k :| 0 <= k < |rows| && RowPaths(rows)[k] == path;
    assert RowOf(occs, rows[k]);
  }

  lemma EmittedHasRow(bucket: map<string, Entry>, rows: seq<FileRow>, file: string)
    requires Emitted(bucket, rows) && file in bucket.Keys
    ensures exists i :: 0 <= i < |rows| && rows[i].path == file
  {
    var i :| 0 <= i < |rows| && FilePaths(rows)[i] == file;
    assert rows[i].path == file;
  }

  lemma {:induction false} CountHasTarget(occs: seq<Occurrence>, path: string, failed: bool, file: string)
    requires FirstCount(SeenFiles(occs, path, failed), file).Some?
    ensures path in ItemPaths(occs) && file in Bucket(SeenFiles(occs, path, failed)).Keys
  {
    TargetCodes(occs, path);
    TargetFiles(occs, path, failed);
    BucketIsUnion(SeenFiles(occs, path, failed), file);
  }

  /** The rows `y` are what merging the variants `a` gives in the order `b`. */
  ghost predicate MergedInOrder(a: seq<Variant>, b: seq<Variant>, y: seq<TargetRow>) {
    multiset(b) == multiset(a) && Merged(Occurrences(b), y)
  }

  /** If the variants do not agree on some file, another order gives another count. */
  lemma {:induction false} SomeOrderDiffers(a: seq<Variant>, x: seq<TargetRow>)
      returns (b: seq<Variant>, y: seq<TargetRow>)
    requires Merged(Occurrences(a), x) && !AllAgree(a)
    ensures MergedInOrder(a, b, y) && !SameCounts(x, y)
  {
    hide VariantsAgree;
    hide Merged;
    hide SameCounts;
    hide FileCount;
    var path, failed, file :| !VariantsAgree(a, path, failed, file);
    FileCountExactly(a, path, failed, file);
    b :| multiset(b) == multiset(a) && FileCount(b, path, failed, file) != FileCount(a, path, failed, file);
    y := MergedRows(Occurrences(b));
    DisagreedRowsDiffer(a, b, x, y, path, failed, file);
  }

  /** The case counts that are returned do not depend on the order of the variants exactly when all
      variants agree on them. Everything else never does. */
  lemma {:induction false} CountsDependOnOrderExactly(a: seq<Variant>, x: seq<TargetRow>)
    requires Merged(Occurrences(a), x)
    ensures AllAgree(a) <==> forall b, y :: MergedInOrder(a, b, y) ==> SameCounts(x, y)
  {
    if AllAgree(a) {
      forall b, y | MergedInOrder(a, b, y) ensures SameCounts(x, y) {
        AgreedRowsAreTheSame(a, b, x, y);
      }
    } else {
      hide *;
      var b, y := SomeOrderDiffers(a, x);
    }
  }
}
