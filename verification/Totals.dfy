/** The totals of a summary, counted on the scans of the checkouts themselves. */
module Totals {
  import opened Database
  import opened Merge
  import opened MergeOrder
  import opened Snapshots

  /** The test files that passed, or those that failed. */
  function Kept(item: Item, failed: bool): seq<TestFile> {
    match failed
    case true => item.failed
    case false => item.passed
  }

  /** Which test files were seen with which target, in any variant. */
  function SeenPairs(variants: seq<Variant>, failed: bool): set<(string, string)> {
    set k, i, m | 0 <= k < |variants| && 0 <= i < |variants[k].status|
                  && 0 <= m < |Kept(variants[k].status[i], failed)| ::
      (variants[k].status[i].path, Kept(variants[k].status[i], failed)[m].path)
  }

  /** The targets of any variant. */
  function SeenTargets(variants: seq<Variant>): set<string> {
    set k, i | 0 <= k < |variants| && 0 <= i < |variants[k].status| :: variants[k].status[i].path
  }

  // ---- From variants to occurrences ----

  lemma {:induction false} OccurrenceIsSeen(variants: seq<Variant>, o: nat) returns (k: nat, i: nat)
    requires o < |Occurrences(variants)|
    ensures k < |variants| && i < |variants[k].status| && Occurrences(variants)[o].item == variants[k].status[i]
    decreases |variants|
  {
    var front := variants[..|variants| - 1];
    if o < |Occurrences(front)| {
      k, i := OccurrenceIsSeen(front, o);
    } else {
      k, i := |front|, o - |Occurrences(front)|;
    }
  }

  lemma {:induction false} SeenIsOccurrence(variants: seq<Variant>, k: nat, i: nat) returns (o: nat)
    requires k < |variants| && i < |variants[k].status|
    ensures o < |Occurrences(variants)| && Occurrences(variants)[o].item == variants[k].status[i]
    decreases |variants|
  {
    var front := variants[..|variants| - 1];
    if k < |front| {
      o := SeenIsOccurrence(front, k, i);
    } else {
      o := |Occurrences(front)| + i;
    }
  }

  /** A file is seen with a target exactly in some occurrence of it. */
  ghost predicate InOccurrence(occs: seq<Occurrence>, failed: bool, target: string, file: string) {
    exists o, m :: 0 <= o < |occs| && 0 <= m < |Kept(occs[o].item, failed)| && occs[o].item.path == target
                   && Kept(occs[o].item, failed)[m].path == file
  }

  lemma {:induction false} PairsOccur(variants: seq<Variant>, failed: bool, target: string, file: string)
    ensures (target, file) in SeenPairs(variants, failed) <==>
            InOccurrence(Occurrences(variants), failed, target, file)
  {
    hide Occurrences;
    if (target, file) in SeenPairs(variants, failed) {
      var k, i, m :| 0 <= k < |variants| && 0 <= i < |variants[k].status|
                     && 0 <= m < |Kept(variants[k].status[i], failed)|
                     && (variants[k].status[i].path, Kept(variants[k].status[i], failed)[m].path) == (target, file);
      var o := SeenIsOccurrence(variants, k, i);
      assert Kept(Occurrences(variants)[o].item, failed)[m].path == file;
    }
    if InOccurrence(Occurrences(variants), failed, target, file) {
      var occs := Occurrences(variants);
      var o, m :| 0 <= o < |occs| && 0 <= m < |Kept(occs[o].item, failed)| && occs[o].item.path == target
                  && Kept(occs[o].item, failed)[m].path == file;
      var k, i := OccurrenceIsSeen(variants, o);
      assert (variants[k].status[i].path, Kept(variants[k].status[i], failed)[m].path) == (target, file);
    }
  }

  lemma {:induction false} TargetsOccur(variants: seq<Variant>)
    ensures ItemPaths(Occurrences(variants)) == SeenTargets(variants)
  {
    hide Occurrences;
    var occs := Occurrences(variants);
    forall p ensures p in ItemPaths(occs) <==> p in SeenTargets(variants) {
      if p in ItemPaths(occs) {
        var o :| 0 <= o < |occs| && occs[o].item.path == p;
        var k, i := OccurrenceIsSeen(variants, o);
      }
      if p in SeenTargets(variants) {
        var k, i :| 0 <= k < |variants| && 0 <= i < |variants[k].status| && variants[k].status[i].path == p;
        var o := SeenIsOccurrence(variants, k, i);
        assert occs[o].item.path == p;
      }
    }
  }

  lemma {:induction false} SeenFilesOccur(occs: seq<Occurrence>, target: string, failed: bool, file: string)
    ensures file in PathsOf(SeenFiles(occs, target, failed)) <==> InOccurrence(occs, failed, target, file)
    decreases |occs|
  {
    if occs != [] {
      var front, last := occs[..|occs| - 1], occs[|occs| - 1];
      SeenFilesOccur(front, target, failed, file);
      var a := SeenFiles(front, target, failed);
      var b := if last.item.path == target then SeenIn(last.code, FilesOf(last.item, failed)) else [];
      assert SeenFiles(occs, target, failed) == a + b;
      hide SeenFiles;
      PathsOfConcat(a, b, file);
      LastOccurrence(occs, failed, target, file);
      hide InOccurrence;
      hide PathsOf;
      LastSeen(last, failed, file);
    }
  }

  lemma PathsOfConcat(a: seq<Seen>, b: seq<Seen>, file: string)
    ensures file in PathsOf(a + b) <==> file in PathsOf(a) || file in PathsOf(b)
  {
    if file in PathsOf(a) {
      var k :| 0 <= k < |a| && a[k].file.path == file;
      assert (a + b)[k] == a[k];
    }
    if file in PathsOf(b) {
      var k :| 0 <= k < |b| && b[k].file.path == file;
      assert (a + b)[|a| + k] == b[k];
    }
  }

  predicate HasFile(files: seq<TestFile>, file: string) {
    exists m :: 0 <= m < |files| && files[m].path == file
  }

  lemma LastOccurrence(occs: seq<Occurrence>, failed: bool, target: string, file: string)
    requires occs != []
    ensures var front, last := occs[..|occs| - 1], occs[|occs| - 1];
            InOccurrence(occs, failed, target, file) <==>
              InOccurrence(front, failed, target, file)
              || (last.item.path == target && HasFile(Kept(last.item, failed), file))
  {
    var front := occs[..|occs| - 1];
    assert forall o :: 0 <= o < |front| ==> front[o] == occs[o];
    if InOccurrence(front, failed, target, file) {
      var o, m :| 0 <= o < |front| && 0 <= m < |Kept(front[o].item, failed)| && front[o].item.path == target
                  && Kept(front[o].item, failed)[m].path == file;
      assert Kept(occs[o].item, failed)[m].path == file;
    }
  }

  lemma LastSeen(last: Occurrence, failed: bool, file: string)
    ensures file in PathsOf(SeenIn(last.code, FilesOf(last.item, failed))) <==> HasFile(Kept(last.item, failed), file)
    ensures PathsOf([]) == {}
  {
    var files, seen := Kept(last.item, failed), SeenIn(last.code, FilesOf(last.item, failed));
    assert |seen| == |files| && forall m :: 0 <= m < |files| ==> seen[m].file == files[m];
    if HasFile(files, file) {
      var m :| 0 <= m < |files| && files[m].path == file;
      assert seen[m].file.path == file;
    }
  }

  // ---- Counting row by row ----

  /** The pairs of the given targets. */
  function PairsIn(pairs: set<(string, string)>, targets: seq<string>): set<(string, string)> {
    set x | x in pairs && x.0 in targets
  }

  function Rows(rows: seq<TargetRow>, failed: bool): nat {
    if failed then Fails(rows) else Tests(rows)
  }

  lemma {:induction false} PairsOfTarget(target: string, files: set<string>)
    ensures |set f | f in files :: (target, f)| == |files|
    decreases |files|
  {
    if files != {} {
      var x :| x in files;
      PairsOfTarget(target, files - {x});
      assert (set f | f in files :: (target, f)) == (set f | f in files - {x} :: (target, f)) + {(target, x)};
    }
  }

  lemma PairsGrow(pairs: set<(string, string)>, targets: seq<string>, target: string, files: set<string>)
    requires target !in targets && forall f :: f in files <==> (target, f) in pairs
    ensures |PairsIn(pairs, targets + [target])| == |PairsIn(pairs, targets)| + |files|
  {
    var old_, new_ := PairsIn(pairs, targets), set f | f in files :: (target, f);
    PairsOfTarget(target, files);
    assert PairsIn(pairs, targets + [target]) == old_ + new_;
    assert old_ !! new_;
  }

  lemma {:induction false} RowIsCounted(variants: seq<Variant>, rows: seq<TargetRow>, failed: bool, n: nat)
    returns (files: set<string>)
    requires Merged(Occurrences(variants), rows) && n < |rows|
    ensures |files| == if failed then rows[n].failCount else rows[n].testCount
    ensures forall f :: f in files <==> (rows[n].path, f) in SeenPairs(variants, failed)
  {
    var occs := Occurrences(variants);
    files := PathsOf(SeenFiles(occs, rows[n].path, failed));
    MergedIsUnion(occs, rows, n, failed);
    hide *;
    forall f ensures f in files <==> (rows[n].path, f) in SeenPairs(variants, failed) {
      SeenFilesOccur(occs, rows[n].path, failed, f);
      PairsOccur(variants, failed, rows[n].path, f);
    }
  }

  lemma RowsSnoc(rows: seq<TargetRow>, failed: bool, n: nat)
    requires n < |rows|
    ensures Rows(rows[..n + 1], failed) ==
            Rows(rows[..n], failed) + if failed then rows[n].failCount else rows[n].testCount
    ensures RowPaths(rows[..n + 1]) == RowPaths(rows[..n]) + [rows[n].path]
    ensures Rows([], failed) == 0 && RowPaths([]) == []
  {
    assert rows[..n + 1][..n] == rows[..n];
  }

  lemma {:induction false} NothingCounted(pairs: set<(string, string)>, rows: seq<TargetRow>, failed: bool)
    ensures Rows(rows[..0], failed) == |PairsIn(pairs, RowPaths(rows[..0]))|
  {
    assert rows[..0] == [] && RowPaths([]) == [] && PairsIn(pairs, []) == {};
  }

  lemma {:induction false} CountsAdd(variants: seq<Variant>, rows: seq<TargetRow>, failed: bool, n: nat)
    requires Merged(Occurrences(variants), rows) && n <= |rows|
    ensures Rows(rows[..n], failed) == |PairsIn(SeenPairs(variants, failed), RowPaths(rows[..n]))|
    decreases n
  {
    hide *;
    var pairs := SeenPairs(variants, failed);
    if n == 0 {
      NothingCounted(pairs, rows, failed);
    } else {
      CountsAdd(variants, rows, failed, n - 1);
      var files := RowIsCounted(variants, rows, failed, n - 1);
      PathsDiffer(Occurrences(variants), rows, n - 1);
      RowsSnoc(rows, failed, n - 1);
      PairsGrow(pairs, RowPaths(rows[..n - 1]), rows[n - 1].path, files);
    }
  }

  lemma PathsDiffer(occs: seq<Occurrence>, rows: seq<TargetRow>, n: nat)
    requires Merged(occs, rows) && n < |rows|
    ensures rows[n].path !in RowPaths(rows[..n])
  {
    hide Less;
    var paths := RowPaths(rows);
    if rows[n].path in RowPaths(rows[..n]) {
      var i :| 0 <= i < n && RowPaths(rows[..n])[i] == rows[n].path;
      LessIsTotal(paths[i], paths[n]);
    }
  }

  lemma {:induction false} AllCounted(variants: seq<Variant>, rows: seq<TargetRow>, failed: bool)
    requires Merged(Occurrences(variants), rows)
    ensures Rows(rows, failed) == |SeenPairs(variants, failed)|
  {
    CountsAdd(variants, rows, failed, |rows|);
    TargetsOccur(variants);
    assert rows[..|rows|] == rows;
    var pairs := SeenPairs(variants, failed);
    forall x | x in pairs ensures x.0 in RowPaths(rows) {
      var k, i, m :| 0 <= k < |variants| && 0 <= i < |variants[k].status|
                     && 0 <= m < |Kept(variants[k].status[i], failed)|
                     && (variants[k].status[i].path, Kept(variants[k].status[i], failed)[m].path) == x;
      assert x.0 in SeenTargets(variants);
    }
    assert PairsIn(pairs, RowPaths(rows)) == pairs;
  }

  /** All passed test files of all targets, one row after the other. */
  function AllTests(rows: seq<TargetRow>): seq<FileRow> {
    if rows == [] then [] else rows[0].testFiles + AllTests(rows[1..])
  }

  lemma {:induction false} CaseSumConcat(a: seq<FileRow>, b: seq<FileRow>)
    ensures CaseSum(a + b) == CaseSum(a) + CaseSum(b)
    decreases |b|
  {
    if b == [] {
      assert a + b == a;
    } else {
      CaseSumConcat(a, b[..|b| - 1]);
      assert (a + b)[..|a + b| - 1] == a + b[..|b| - 1];
    }
  }

  lemma {:induction false} AllTestsSnoc(rows: seq<TargetRow>)
    requires rows != []
    ensures AllTests(rows) == AllTests(rows[..|rows| - 1]) + rows[|rows| - 1].testFiles
    decreases |rows|
  {
    if |rows| == 1 {
      assert rows[1..] == [] && rows[..0] == [];
    } else {
      AllTestsSnoc(rows[1..]);
      assert rows[1..][..|rows| - 2] == rows[..|rows| - 1][1..];
    }
  }

  lemma {:induction false} CasesAdd(occs: seq<Occurrence>, rows: seq<TargetRow>)
    requires forall k :: 0 <= k < |rows| ==> rows[k].caseCount == CaseSum(rows[k].testFiles)
    ensures Cases(rows) == CaseSum(AllTests(rows))
    decreases |rows|
  {
    if rows != [] {
      var front := rows[..|rows| - 1];
      CasesAdd(occs, front);
      AllTestsSnoc(rows);
      CaseSumConcat(AllTests(front), rows[|rows| - 1].testFiles);
    }
  }

  /**
  The totals of a stored summary count, over all variants of the name, each target once, each passed test file
  of each target once, and each failed one; the cases are those of the passed test files of the detail.
  */
  lemma {:induction false} SummaryCounts(products: seq<Variation>, key: Key, scan: Scan, now: Time)
    requires key in KeysOf(products)
    ensures var variants := Variants(Group(products, key), scan);
            var snapshot := Fresh(products, key, scan, now);
            && snapshot.summary.targets == |SeenTargets(variants)|
            && snapshot.summary.tests == |SeenPairs(variants, false)|
            && snapshot.summary.fails == |SeenPairs(variants, true)|
            && snapshot.summary.cases == CaseSum(AllTests(snapshot.detail))
  {
    GroupOfKey(products, key);
    var group := Group(products, key);
    var variants := Variants(group, scan);
    var rows := StatusOf(group, scan);
    TargetsOccur(variants);
    AllCounted(variants, rows, false);
    AllCounted(variants, rows, true);
    MergedSize(Occurrences(variants), rows);
    CasesAdd(Occurrences(variants), rows);
  }

  lemma {:induction false} MergedSize(occs: seq<Occurrence>, rows: seq<TargetRow>)
    requires Merged(occs, rows)
    ensures |rows| == |ItemPaths(occs)|
    ensures forall k :: 0 <= k < |rows| ==> rows[k].caseCount == CaseSum(rows[k].testFiles)
  {
    SortedSize(RowPaths(rows), ItemPaths(occs));
    forall k | 0 <= k < |rows| ensures rows[k].caseCount == CaseSum(rows[k].testFiles) {
      assert RowOf(occs, rows[k]);
    }
  }

  /** Cases are summed up, and a file that is not counted has none. */
  lemma {:induction false} CasesAreSummed(a: seq<FileRow>, f: FileRow, b: seq<FileRow>)
    ensures CaseSum(a + [f] + b) == CaseSum(a) + CaseSum(b) + match f.caseCount case Some(n) => n case None => 0
  {
    CaseSumConcat(a + [f], b);
    assert (a + [f])[..|a|] == a;
  }

  // ---- What the rest of a snapshot says ----

  lemma {:induction false} GroupHas(products: seq<Variation>, key: Key, v: Variation)
    ensures v in Group(products, key) <==> v in products && v.key == key
    decreases |products|
  {
    if products != [] {
      var front, last := products[..|products| - 1], products[|products| - 1];
      GroupHas(front, key, v);
      assert products == front + [last];
    }
  }

  lemma {:induction false} GroupStartsWith(products: seq<Variation>, key: Key) returns (k: nat)
    requires Group(products, key) != []
    ensures k < |products| && products[k].key == key && products[k] == Group(products, key)[0]
    ensures forall i :: 0 <= i < k ==> products[i].key != key
    decreases |products|
  {
    var front := products[..|products| - 1];
    if Group(front, key) != [] {
      k := GroupStartsWith(front, key);
    } else {
      k := |front|;
      forall i | 0 <= i < k ensures products[i].key != key {
        GroupHas(front, key, products[i]);
        assert front[i] == products[i];
      }
    }
  }

  /** A summary shows the codes of exactly the products of its name, and the mode of the one listed first. */
  lemma {:induction false} SummaryNames(products: seq<Variation>, key: Key, scan: Scan, now: Time) returns (k: nat)
    requires key in KeysOf(products)
    ensures var summary := Fresh(products, key, scan, now).summary;
            && summary.key == key
            && k < |products| && products[k].key == key && (forall i :: 0 <= i < k ==> products[i].key != key)
            && summary.mode == products[k].mode
            && forall code :: code in summary.codes <==> exists v :: v in products && v.key == key && v.code == code
  {
    GroupOfKey(products, key);
    k := GroupStartsWith(products, key);
    var group, codes := Group(products, key), Codes(Group(products, key));
    hide Group;
    forall code ensures code in codes <==> exists v :: v in products && v.key == key && v.code == code {
      if code in codes {
        var i :| 0 <= i < |codes| && codes[i] == code;
        GroupHas(products, key, group[i]);
      }
      if v :| v in products && v.key == key && v.code == code {
        GroupHas(products, key, v);
        var i :| 0 <= i < |group| && group[i] == v;
        assert codes[i] == code;
      }
    }
  }

  /** Fingerprints are the same exactly if the products are, one by one, and none has been updated. */
  lemma FingerprintTells(a: seq<Variation>, b: seq<Variation>)
    ensures Fingerprint(a) == Fingerprint(b) <==>
            |a| == |b| && forall k :: 0 <= k < |a| ==> a[k].id == b[k].id && a[k].updatedAt == b[k].updatedAt
  {
    if Fingerprint(a) == Fingerprint(b) {
      assert |Fingerprint(a)| == |a| && |Fingerprint(b)| == |b|;
      forall k | 0 <= k < |a| ensures a[k].id == b[k].id && a[k].updatedAt == b[k].updatedAt {
        assert Fingerprint(a)[k] == Fingerprint(b)[k];
      }
    }
  }
}
