/** Merging the test status of product variants: a union by path. */
module Merge {
  import opened Database

  datatype TestFile = TestFile(name: string, path: string, logPath: Option<string>, caseCount: Option<nat>)

  datatype Item = Item(name: string, path: string, passed: seq<TestFile>, failed: seq<TestFile>)

  /** The status of one variant under its product code. */
  datatype Variant = Variant(code: string, status: seq<Item>)

  // ---- Sorting ----

  predicate Less(a: string, b: string) {
    b != "" && (a == "" || a[0] < b[0] || (a[0] == b[0] && Less(a[1..], b[1..])))
  }

  lemma {:induction false} LessIsTotal(a: string, b: string)
    ensures a == b || Less(a, b) || Less(b, a)
    ensures !(Less(a, b) && Less(b, a)) && !Less(a, a)
  {
    if a != "" && b != "" {
      LessIsTotal(a[1..], b[1..]);
      assert a == [a[0]] + a[1..] && b == [b[0]] + b[1..];
    }
    if a != "" {
      LessIsTotal(a[1..], a[1..]);
    }
  }

  lemma {:induction false} LessIsTransitive(a: string, b: string, c: string)
    requires Less(a, b) && Less(b, c)
    ensures Less(a, c)
  {
    if a != "" && a[0] == b[0] == c[0] {
      LessIsTransitive(a[1..], b[1..], c[1..]);
    }
  }

  /** The order is that of a dictionary: by the first character that differs, and beginnings come first. */
  lemma {:induction false} LessIsLexicographic(a: string, b: string)
    ensures Less(a, b) <==> a < b || exists i :: 0 <= i < |a| && i < |b| && a[..i] == b[..i] && a[i] < b[i]
    decreases |a|
  {
    if a != "" && b != "" {
      if a[0] == b[0] {
        LessIsLexicographic(a[1..], b[1..]);
        SameFirst(a, b);
      } else {
        assert a[..0] == b[..0];
        assert forall i :: 0 < i < |a| && i < |b| ==> a[..i][0] == a[0] && b[..i][0] == b[0];
      }
    }
  }

  lemma SameFirst(a: string, b: string)
    requires a != "" && b != "" && a[0] == b[0]
    ensures a < b <==> a[1..] < b[1..]
    ensures (exists i :: 0 <= i < |a| && i < |b| && a[..i] == b[..i] && a[i] < b[i]) <==>
            exists i :: 0 <= i < |a| - 1 && i < |b| - 1 && a[1..][..i] == b[1..][..i] && a[1..][i] < b[1..][i]
  {
    assert a == [a[0]] + a[1..] && b == [b[0]] + b[1..];
    if i :| 0 <= i < |a| - 1 && i < |b| - 1 && a[1..][..i] == b[1..][..i] && a[1..][i] < b[1..][i] {
      assert a[..i + 1] == [a[0]] + a[1..][..i] && b[..i + 1] == [b[0]] + b[1..][..i];
      assert a[i + 1] < b[i + 1];
    }
    if i :| 0 <= i < |a| && i < |b| && a[..i] == b[..i] && a[i] < b[i] {
      assert i > 0;
      assert a[1..][..i - 1] == a[..i][1..] && b[1..][..i - 1] == b[..i][1..];
      assert a[1..][i - 1] < b[1..][i - 1];
    }
  }

  predicate Ascending(ids: seq<string>) {
    forall i, k :: 0 <= i < k < |ids| ==> Less(ids[i], ids[k])
  }

  /** The elements of the set, sorted. */
  ghost predicate SortedList(ids: seq<string>, s: set<string>) {
    Ascending(ids) && forall x :: x in ids <==> x in s
  }

  method Sort(s: set<string>) returns (ids: seq<string>)
    ensures SortedList(ids, s) && |ids| == |s|
  {
    hide Less;
    ids := [];
    var todo := s;
    while todo != {}
      invariant todo <= s && SortedList(ids, s - todo) && |ids| + |todo| == |s|
      decreases |todo|
    {
      var x :| x in todo;
      ids := Insert(ids, x);
      todo := todo - {x};
    }
  }

  method Insert(ids: seq<string>, x: string) returns (r: seq<string>)
    requires Ascending(ids) && x !in ids
    ensures Ascending(r) && |r| == |ids| + 1 && forall y :: y in r <==> y in ids || y == x
  {
    hide Less;
    var k := 0;
    while k < |ids| && Less(ids[k], x)
      invariant k <= |ids| && forall i :: 0 <= i < k ==> Less(ids[i], x)
    {
      k := k + 1;
    }
    r := ids[..k] + [x] + ids[k..];
    assert ids == ids[..k] + ids[k..];
    forall i | k <= i < |ids| ensures Less(x, ids[i]) {
      assert ids[k] in ids;
      LessIsTotal(ids[k], x);
      if i > k {
        LessIsTransitive(x, ids[k], ids[i]);
      }
    }
    forall y ensures y in r <==> y in ids || y == x {
      assert y in ids <==> y in ids[..k] || y in ids[k..];
    }
  }

  /** There is one way to sort. */
  lemma {:induction false} SortIsUnique(a: seq<string>, b: seq<string>, s: set<string>)
    requires SortedList(a, s) && SortedList(b, s)
    ensures a == b
    decreases |a|
  {
    hide Less;
    assert forall k :: 0 <= k < |a| ==> a[k] in b;
    assert forall k :: 0 <= k < |b| ==> b[k] in a;
    if a != [] {
      var i :| 0 <= i < |b| && b[i] == a[0];
      var k :| 0 <= k < |a| && a[k] == b[0];
      LessIsTotal(a[0], b[0]);
      assert a[0] == b[0];
      TailIsSorted(a, s);
      TailIsSorted(b, s);
      SortIsUnique(a[1..], b[1..], s - {a[0]});
      assert a == [a[0]] + a[1..] && b == [b[0]] + b[1..];
    }
  }

  lemma TailIsSorted(a: seq<string>, s: set<string>)
    requires a != [] && SortedList(a, s)
    ensures SortedList(a[1..], s - {a[0]})
  {
    hide Less;
    forall x ensures x in a[1..] <==> x in s - {a[0]} {
      if x in a[1..] {
        var i :| 0 <= i < |a| - 1 && a[1..][i] == x;
        LessIsTotal(a[0], x);
        assert a[i + 1] == x && x in a && Less(a[0], a[i + 1]);
      }
      if x in s - {a[0]} {
        var i :| 0 <= i < |a| && a[i] == x;
        assert a[1..][i - 1] == x;
      }
    }
  }

  lemma {:induction false} SortedSize(ids: seq<string>, s: set<string>)
    requires SortedList(ids, s)
    ensures |ids| == |s|
    decreases |ids|
  {
    hide Less;
    assert forall x :: x in s ==> x in ids;
    if ids == [] {
      assert s == {};
    } else {
      TailIsSorted(ids, s);
      SortedSize(ids[1..], s - {ids[0]});
      assert ids[0] in ids;
    }
  }

  // ---- The files of one target ----

  /** A test file of some variant. */
  datatype Seen = Seen(code: string, file: TestFile)

  datatype Entry = Entry(name: string, codes: set<string>, logPath: Option<string>, caseCount: Option<nat>)

  function OrElse<T>(first: Option<T>, second: Option<T>): Option<T> {
    if first.Some? then first else second
  }

  function AddFile(bucket: map<string, Entry>, x: Seen): map<string, Entry> {
    var f := x.file;
    var e := if f.path in bucket then bucket[f.path] else Entry(f.name, {}, None, None);
    bucket[f.path := e.(codes := e.codes + {x.code}, logPath := OrElse(e.logPath, Given(f.logPath)),
                        caseCount := OrElse(e.caseCount, f.caseCount))]
  }

  /** `_merge_test_file`. */
  method MergeTestFile(bucket: map<string, Entry>, f: TestFile, code: string) returns (r: map<string, Entry>)
    ensures r == AddFile(bucket, Seen(code, f))
  {
    r := bucket;
    if f.path !in r {
      r := r[f.path := Entry(f.name, {}, None, None)];
    }
    var e := r[f.path];
    e := e.(codes := e.codes + {code});
    if e.logPath.None? && f.logPath.Some? && f.logPath != Some("") {
      e := e.(logPath := f.logPath);
    }
    if e.caseCount.None? && f.caseCount.Some? {
      e := e.(caseCount := f.caseCount);
    }
    r := r[f.path := e];
  }

  function Bucket(seen: seq<Seen>): map<string, Entry> {
    if seen == [] then map[] else AddFile(Bucket(seen[..|seen| - 1]), seen[|seen| - 1])
  }

  function PathsOf(seen: seq<Seen>): set<string> {
    set k | 0 <= k < |seen| :: seen[k].file.path
  }

  function CodesOf(seen: seq<Seen>, path: string): set<string> {
    set k | 0 <= k < |seen| && seen[k].file.path == path :: seen[k].code
  }

  /** The log of the first variant that has one, and likewise for the number of cases. */
  function FirstLog(seen: seq<Seen>, path: string): Option<string> {
    if seen == [] then None
    else OrElse(FirstLog(seen[..|seen| - 1], path),
                if seen[|seen| - 1].file.path == path then Given(seen[|seen| - 1].file.logPath) else None)
  }

  function FirstCount(seen: seq<Seen>, path: string): Option<nat> {
    if seen == [] then None
    else OrElse(FirstCount(seen[..|seen| - 1], path),
                if seen[|seen| - 1].file.path == path then seen[|seen| - 1].file.caseCount else None)
  }

  function FirstName(seen: seq<Seen>, path: string): Option<string> {
    if seen == [] then None
    else OrElse(FirstName(seen[..|seen| - 1], path),
                if seen[|seen| - 1].file.path == path then Some(seen[|seen| - 1].file.name) else None)
  }

  /** Place `k` is the first at which the file of that path has a log. */
  predicate LogAt(seen: seq<Seen>, path: string, k: nat, v: string) {
    && k < |seen| && seen[k].file.path == path && Given(seen[k].file.logPath) == Some(v)
    && forall i :: 0 <= i < k && seen[i].file.path == path ==> Given(seen[i].file.logPath) == None
  }

  lemma {:induction false} FirstLogIsEarliest(seen: seq<Seen>, path: string) returns (k: nat)
    ensures FirstLog(seen, path).Some? ==> LogAt(seen, path, k, FirstLog(seen, path).value)
    ensures FirstLog(seen, path).None? ==>
              forall i :: 0 <= i < |seen| && seen[i].file.path == path ==> Given(seen[i].file.logPath) == None
    decreases |seen|
  {
    k := 0;
    if seen != [] {
      var front := seen[..|seen| - 1];
      k := FirstLogIsEarliest(front, path);
      assert forall i :: 0 <= i < |front| ==> front[i] == seen[i];
      if FirstLog(front, path).None? {
        k := |front|;
      }
    }
  }

  /** Place `k` is the first at which the file of that path has a number of cases. */
  predicate CountAt(seen: seq<Seen>, path: string, k: nat, v: nat) {
    && k < |seen| && seen[k].file.path == path && seen[k].file.caseCount == Some(v)
    && forall i :: 0 <= i < k && seen[i].file.path == path ==> seen[i].file.caseCount == None
  }

  lemma {:induction false} FirstCountIsEarliest(seen: seq<Seen>, path: string) returns (k: nat)
    ensures FirstCount(seen, path).Some? ==> CountAt(seen, path, k, FirstCount(seen, path).value)
    ensures FirstCount(seen, path).None? ==>
              forall i :: 0 <= i < |seen| && seen[i].file.path == path ==> seen[i].file.caseCount == None
    decreases |seen|
  {
    k := 0;
    if seen != [] {
      var front := seen[..|seen| - 1];
      k := FirstCountIsEarliest(front, path);
      assert forall i :: 0 <= i < |front| ==> front[i] == seen[i];
      if FirstCount(front, path).None? {
        k := |front|;
      }
    }
  }

  /** A file is called as where it was seen first. */
  lemma {:induction false} FirstNameIsEarliest(seen: seq<Seen>, path: string) returns (k: nat)
    ensures FirstName(seen, path).Some? ==>
              && k < |seen| && seen[k].file.path == path && FirstName(seen, path) == Some(seen[k].file.name)
              && forall i :: 0 <= i < k ==> seen[i].file.path != path
    ensures FirstName(seen, path).None? ==> forall i :: 0 <= i < |seen| ==> seen[i].file.path != path
    decreases |seen|
  {
    k := 0;
    if seen != [] {
      var front := seen[..|seen| - 1];
      k := FirstNameIsEarliest(front, path);
      assert forall i :: 0 <= i < |front| ==> front[i] == seen[i];
      if FirstName(front, path).None? {
        k := |front|;
      }
    }
  }

  /** The files of all variants, once each, each with exactly the codes it was seen under. */
  lemma {:induction false} BucketIsUnion(seen: seq<Seen>, p: string)
    ensures p in Bucket(seen) <==> p in PathsOf(seen)
    ensures p in Bucket(seen) ==>
              && Some(Bucket(seen)[p].name) == FirstName(seen, p)
              && Bucket(seen)[p].codes == CodesOf(seen, p)
              && Bucket(seen)[p].logPath == FirstLog(seen, p) && Bucket(seen)[p].caseCount == FirstCount(seen, p)
    ensures p !in Bucket(seen) ==>
            CodesOf(seen, p) == {} && FirstName(seen, p).None? && FirstLog(seen, p).None? && FirstCount(seen, p).None?
    decreases |seen|
  {
    if seen != [] {
      var front, last := seen[..|seen| - 1], seen[|seen| - 1];
      BucketIsUnion(front, p);
      assert forall k :: 0 <= k < |front| ==> front[k] == seen[k];
      assert PathsOf(seen) == PathsOf(front) + {last.file.path};
      assert CodesOf(seen, p) == CodesOf(front, p) + (if last.file.path == p then {last.code} else {});
    }
  }

  datatype FileRow = FileRow(name: string, path: string, codes: seq<string>, logPath: Option<string>,
      caseCount: Option<nat>)

  function FilePaths(rows: seq<FileRow>): seq<string> {
    seq(|rows|, k requires 0 <= k < |rows| => rows[k].path)
  }

  /** The rows of the bucket, sorted by path. */
  ghost predicate Emitted(bucket: map<string, Entry>, rows: seq<FileRow>) {
    && SortedList(FilePaths(rows), bucket.Keys)
    && forall k :: 0 <= k < |rows| ==>
         && rows[k].path in bucket
         && var e := bucket[rows[k].path];
            && rows[k].name == e.name && rows[k].logPath == e.logPath && rows[k].caseCount == e.caseCount
            && SortedList(rows[k].codes, e.codes)
  }

  /** `_emit_test_files`. */
  method EmitTestFiles(bucket: map<string, Entry>) returns (rows: seq<FileRow>)
    ensures Emitted(bucket, rows)
  {
    hide Less;
    var paths := Sort(bucket.Keys);
    rows := [];
    for k := 0 to |paths|
      invariant |rows| == k && FilePaths(rows) == paths[..k]
      invariant forall i :: 0 <= i < k ==>
        && rows[i].path in bucket
        && var e := bucket[rows[i].path];
           && rows[i].name == e.name && rows[i].logPath == e.logPath && rows[i].caseCount == e.caseCount
           && SortedList(rows[i].codes, e.codes)
    {
      var path := paths[k];
      assert path in paths;
      var codes := Sort(bucket[path].codes);
      rows := rows + [FileRow(bucket[path].name, path, codes, bucket[path].logPath, bucket[path].caseCount)];
    }
    assert paths[..|paths|] == paths;
  }

  // ---- merge_status ----

  /** A target file of some variant. */
  datatype Occurrence = Occurrence(code: string, item: Item)

  function OccurrencesIn(code: string, status: seq<Item>): seq<Occurrence> {
    seq(|status|, k requires 0 <= k < |status| => Occurrence(code, status[k]))
  }

  function Occurrences(variants: seq<Variant>): seq<Occurrence> {
    if variants == [] then []
    else
      var last := variants[|variants| - 1];
      Occurrences(variants[..|variants| - 1]) + OccurrencesIn(last.code, last.status)
  }

  datatype Target = Target(name: string, codes: set<string>, passed: map<string, Entry>, failed: map<string, Entry>)

  function SeenIn(code: string, files: seq<TestFile>): seq<Seen> {
    seq(|files|, k requires 0 <= k < |files| => Seen(code, files[k]))
  }

  function AddFiles(bucket: map<string, Entry>, code: string, files: seq<TestFile>): map<string, Entry> {
    if files == [] then bucket
    else AddFile(AddFiles(bucket, code, files[..|files| - 1]), Seen(code, files[|files| - 1]))
  }

  method MergeTestFiles(bucket: map<string, Entry>, code: string, files: seq<TestFile>) returns (r: map<string, Entry>)
    ensures r == AddFiles(bucket, code, files)
  {
    hide AddFile;
    r := bucket;
    for k := 0 to |files|
      invariant r == AddFiles(bucket, code, files[..k])
    {
      assert files[..k + 1][..k] == files[..k];
      r := MergeTestFile(r, files[k], code);
    }
    assert files[..|files|] == files;
  }

  function AddItem(targets: map<string, Target>, o: Occurrence): map<string, Target> {
    var p := o.item.path;
    var e := if p in targets then targets[p] else Target(o.item.name, {}, map[], map[]);
    targets[p := Target(e.name, e.codes + {o.code}, AddFiles(e.passed, o.code, o.item.passed),
                        AddFiles(e.failed, o.code, o.item.failed))]
  }

  function TargetsOf(occs: seq<Occurrence>): map<string, Target> {
    if occs == [] then map[] else AddItem(TargetsOf(occs[..|occs| - 1]), occs[|occs| - 1])
  }

  function ItemPaths(occs: seq<Occurrence>): set<string> {
    set k | 0 <= k < |occs| :: occs[k].item.path
  }

  function ItemCodes(occs: seq<Occurrence>, path: string): set<string> {
    set k | 0 <= k < |occs| && occs[k].item.path == path :: occs[k].code
  }

  function FirstItemName(occs: seq<Occurrence>, path: string): Option<string> {
    if occs == [] then None
    else OrElse(FirstItemName(occs[..|occs| - 1], path),
                if occs[|occs| - 1].item.path == path then Some(occs[|occs| - 1].item.name) else None)
  }

  /** A target is called as in its earliest occurrence. */
  lemma {:induction false} FirstItemNameIsEarliest(occs: seq<Occurrence>, path: string) returns (k: nat)
    ensures FirstItemName(occs, path).Some? ==>
              && k < |occs| && occs[k].item.path == path && FirstItemName(occs, path) == Some(occs[k].item.name)
              && forall i :: 0 <= i < k ==> occs[i].item.path != path
    ensures FirstItemName(occs, path).None? ==> forall i :: 0 <= i < |occs| ==> occs[i].item.path != path
    decreases |occs|
  {
    k := 0;
    if occs != [] {
      var front := occs[..|occs| - 1];
      k := FirstItemNameIsEarliest(front, path);
      assert forall i :: 0 <= i < |front| ==> front[i] == occs[i];
      if FirstItemName(front, path).None? {
        k := |front|;
      }
    }
  }

  function FilesOf(item: Item, failed: bool): seq<TestFile> {
    if failed then item.failed else item.passed
  }

  /** The test files seen with one target, passed or failed. */
  function SeenFiles(occs: seq<Occurrence>, path: string, failed: bool): seq<Seen> {
    if occs == [] then []
    else
      var last := occs[|occs| - 1];
      SeenFiles(occs[..|occs| - 1], path, failed)
      + (if last.item.path == path then SeenIn(last.code, FilesOf(last.item, failed)) else [])
  }

  lemma {:induction false} BucketGrows(seen: seq<Seen>, code: string, files: seq<TestFile>)
    ensures AddFiles(Bucket(seen), code, files) == Bucket(seen + SeenIn(code, files))
    decreases |files|
  {
    hide AddFile;
    var more := SeenIn(code, files);
    if files == [] {
      assert seen + more == seen;
    } else {
      BucketGrows(seen, code, files[..|files| - 1]);
      assert (seen + more)[..|seen + more| - 1] == seen + SeenIn(code, files[..|files| - 1]);
    }
  }

  lemma {:induction false} TargetCodes(occs: seq<Occurrence>, p: string)
    ensures p in TargetsOf(occs) <==> p in ItemPaths(occs)
    ensures p in TargetsOf(occs) ==>
              Some(TargetsOf(occs)[p].name) == FirstItemName(occs, p) && TargetsOf(occs)[p].codes == ItemCodes(occs, p)
    ensures p !in TargetsOf(occs) ==> ItemCodes(occs, p) == {} && FirstItemName(occs, p).None?
    decreases |occs|
  {
    hide AddFiles;
    if occs != [] {
      var front, last := occs[..|occs| - 1], occs[|occs| - 1];
      TargetCodes(front, p);
      assert forall k :: 0 <= k < |front| ==> front[k] == occs[k];
      assert ItemPaths(occs) == ItemPaths(front) + {last.item.path};
      assert ItemCodes(occs, p) == ItemCodes(front, p) + (if last.item.path == p then {last.code} else {});
    }
  }

  function BucketOf(t: Target, failed: bool): map<string, Entry> {
    if failed then t.failed else t.passed
  }

  lemma EmptyBucket()
    ensures Bucket([]) == map[] && TargetsOf([]) == map[]
  {
  }

  lemma {:induction false} TargetFiles(occs: seq<Occurrence>, p: string, failed: bool)
    ensures p in TargetsOf(occs) ==> BucketOf(TargetsOf(occs)[p], failed) == Bucket(SeenFiles(occs, p, failed))
    ensures p !in TargetsOf(occs) ==> SeenFiles(occs, p, failed) == []
    decreases |occs|
  {
    hide AddFiles;
    hide AddFile;
    hide SeenIn;
    hide Bucket;
    EmptyBucket();
    if occs != [] {
      var front, last := occs[..|occs| - 1], occs[|occs| - 1];
      TargetFiles(front, p, failed);
      assert SeenFiles(front, p, failed) + [] == SeenFiles(front, p, failed);
      BucketGrows(SeenFiles(front, p, failed), last.code, FilesOf(last.item, failed));
    }
  }

  datatype TargetRow = TargetRow(
    name: string,
    path: string,
    codes: seq<string>,
    testCount: nat,
    testFiles: seq<FileRow>,
    caseCount: nat,
    failCount: nat,
    failedFiles: seq<FileRow>)

  function CaseSum(rows: seq<FileRow>): nat {
    if rows == [] then 0
    else
      var last := rows[|rows| - 1];
      CaseSum(rows[..|rows| - 1]) + (if last.caseCount.Some? then last.caseCount.value else 0)
  }

  function RowPaths(rows: seq<TargetRow>): seq<string> {
    seq(|rows|, k requires 0 <= k < |rows| => rows[k].path)
  }

  /** The row of one target. */
  ghost predicate RowOf(occs: seq<Occurrence>, row: TargetRow) {
    && Some(row.name) == FirstItemName(occs, row.path)
    && SortedList(row.codes, ItemCodes(occs, row.path))
    && Emitted(Bucket(SeenFiles(occs, row.path, false)), row.testFiles)
    && Emitted(Bucket(SeenFiles(occs, row.path, true)), row.failedFiles)
    && row.testCount == |row.testFiles| && row.failCount == |row.failedFiles| && row.caseCount == CaseSum(row.testFiles)
  }

  /** One row for each target of any variant, sorted by path. */
  ghost predicate Merged(occs: seq<Occurrence>, rows: seq<TargetRow>) {
    && SortedList(RowPaths(rows), ItemPaths(occs))
    && forall k :: 0 <= k < |rows| ==> RowOf(occs, rows[k])
  }

  method SumCases(rows: seq<FileRow>) returns (sum: nat)
    ensures sum == CaseSum(rows)
  {
    sum := 0;
    for k := 0 to |rows|
      invariant sum == CaseSum(rows[..k])
    {
      assert rows[..k + 1][..k] == rows[..k];
      sum := sum + (if rows[k].caseCount.Some? then rows[k].caseCount.value else 0);
    }
    assert rows[..|rows|] == rows;
  }

  method MergeItem(targets: map<string, Target>, code: string, item: Item) returns (r: map<string, Target>)
    ensures r == AddItem(targets, Occurrence(code, item))
  {
    hide AddFiles;
    r := targets;
    if item.path !in r {
      r := r[item.path := Target(item.name, {}, map[], map[])];
    }
    var e := r[item.path];
    var passed := MergeTestFiles(e.passed, code, item.passed);
    var failed := MergeTestFiles(e.failed, code, item.failed);
    r := r[item.path := Target(e.name, e.codes + {code}, passed, failed)];
  }

  method MergeItems(targets: map<string, Target>, code: string, status: seq<Item>, ghost before: seq<Occurrence>)
    returns (r: map<string, Target>)
    requires targets == TargetsOf(before)
    ensures r == TargetsOf(before + OccurrencesIn(code, status))
  {
    hide AddItem;
    r := targets;
    assert before + OccurrencesIn(code, []) == before;
    for k := 0 to |status|
      invariant r == TargetsOf(before + OccurrencesIn(code, status[..k]))
    {
      ghost var next := before + OccurrencesIn(code, status[..k + 1]);
      assert next[..|next| - 1] == before + OccurrencesIn(code, status[..k]);
      assert next[|next| - 1] == Occurrence(code, status[k]);
      r := MergeItem(r, code, status[k]);
    }
    assert status[..|status|] == status;
  }

  method EmitTarget(path: string, e: Target, ghost occs: seq<Occurrence>) returns (row: TargetRow)
    requires path in ItemPaths(occs) && path in TargetsOf(occs) && e == TargetsOf(occs)[path]
    ensures row.path == path && RowOf(occs, row)
  {
    TargetCodes(occs, path);
    TargetFiles(occs, path, false);
    TargetFiles(occs, path, true);
    assert e.passed == BucketOf(e, false) && e.failed == BucketOf(e, true);
    hide *;
    var testFiles := EmitTestFiles(e.passed);
    var failedFiles := EmitTestFiles(e.failed);
    var codes := Sort(e.codes);
    var cases := SumCases(testFiles);
    row := TargetRow(e.name, path, codes, |testFiles|, testFiles, cases, |failedFiles|, failedFiles);
    RowIs(occs, row);
  }

  lemma {:induction false} RowIs(occs: seq<Occurrence>, row: TargetRow)
    requires Some(row.name) == FirstItemName(occs, row.path)
    requires SortedList(row.codes, ItemCodes(occs, row.path))
    requires Emitted(Bucket(SeenFiles(occs, row.path, false)), row.testFiles)
    requires Emitted(Bucket(SeenFiles(occs, row.path, true)), row.failedFiles)
    requires row.testCount == |row.testFiles| && row.failCount == |row.failedFiles|
             && row.caseCount == CaseSum(row.testFiles)
    ensures RowOf(occs, row)
  {
  }

  /** `merge_status`. */
  method MergeStatus(variants: seq<Variant>) returns (rows: seq<TargetRow>)
    ensures Merged(Occurrences(variants), rows)
  {
    hide TargetsOf;
    hide SortedList;
    hide RowOf;
    var targets: map<string, Target> := map[];
    EmptyBucket();
    for i := 0 to |variants|
      invariant targets == TargetsOf(Occurrences(variants[..i]))
    {
      assert variants[..i + 1][..i] == variants[..i];
      targets := MergeItems(targets, variants[i].code, variants[i].status, Occurrences(variants[..i]));
    }
    assert variants[..|variants|] == variants;
    ghost var occs := Occurrences(variants);
    TargetKeys(occs);
    var paths := Sort(targets.Keys);
    rows := [];
    for k := 0 to |paths|
      invariant |rows| == k && RowPaths(rows) == paths[..k]
      invariant forall i :: 0 <= i < k ==> RowOf(occs, rows[i])
    {
      PathIsTarget(paths, targets.Keys, k);
      var row := EmitTarget(paths[k], targets[paths[k]], occs);
      rows := rows + [row];
    }
    assert paths[..|paths|] == paths;
  }

  lemma {:induction false} TargetKeys(occs: seq<Occurrence>)
    ensures TargetsOf(occs).Keys == ItemPaths(occs)
  {
    forall p ensures p in TargetsOf(occs) <==> p in ItemPaths(occs) {
      TargetCodes(occs, p);
    }
  }

  lemma PathIsTarget(paths: seq<string>, s: set<string>, k: nat)
    requires SortedList(paths, s) && k < |paths|
    ensures paths[k] in s
  {
  }
}
