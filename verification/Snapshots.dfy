/** Stored snapshots of the merged test status, one for each project and name. */
module Snapshots {
  import opened Database
  import opened Merge
  import opened MergeOrder

  datatype Variation = Variation(id: nat, key: Key, code: string, mode: string, updatedAt: Time)

  datatype Summary = Summary(
    key: Key,
    codes: seq<string>,
    mode: string,
    targets: nat,
    tests: nat,
    cases: nat,
    fails: nat)

  datatype Snapshot = Snapshot(fingerprint: seq<(nat, Time)>, summary: Summary, detail: seq<TargetRow>, at: Time)

  /** The variations of one product, in the order of their ids. */
  function Group(products: seq<Variation>, key: Key): seq<Variation> {
    if products == [] then []
    else
      Group(products[..|products| - 1], key)
      + (if products[|products| - 1].key == key then [products[|products| - 1]] else [])
  }

  function KeysOf(products: seq<Variation>): set<Key> {
    set k | 0 <= k < |products| :: products[k].key
  }

  function Fingerprint(group: seq<Variation>): seq<(nat, Time)> {
    seq(|group|, k requires 0 <= k < |group| => (group[k].id, group[k].updatedAt))
  }

  function Codes(group: seq<Variation>): seq<string> {
    seq(|group|, k requires 0 <= k < |group| => group[k].code)
  }

  function Tests(rows: seq<TargetRow>): nat {
    if rows == [] then 0 else Tests(rows[..|rows| - 1]) + rows[|rows| - 1].testCount
  }

  function Cases(rows: seq<TargetRow>): nat {
    if rows == [] then 0 else Cases(rows[..|rows| - 1]) + rows[|rows| - 1].caseCount
  }

  function Fails(rows: seq<TargetRow>): nat {
    if rows == [] then 0 else Fails(rows[..|rows| - 1]) + rows[|rows| - 1].failCount
  }

  function BuildSummary(key: Key, group: seq<Variation>, merged: seq<TargetRow>): Summary
    requires group != []
  {
    Summary(key, Codes(group), group[0].mode, |merged|, Tests(merged), Cases(merged), Fails(merged))
  }

  lemma {:induction false} GroupOfKey(products: seq<Variation>, key: Key)
    ensures Group(products, key) != [] <==> key in KeysOf(products)
    decreases |products|
  {
    if products != [] {
      var front := products[..|products| - 1];
      GroupOfKey(front, key);
      assert forall k :: 0 <= k < |front| ==> front[k] == products[k];
    }
  }

  // ---- Scanning a group ----

  /** What scanning the checkout of one product gives; nothing if it fails. */
  type Scan = Variation -> Option<seq<Item>>

  function VariantOf(v: Variation, scan: Scan): Variant {
    Variant(v.code, if scan(v).Some? then scan(v).value else [])
  }

  /** Each product with its status; one that cannot be scanned counts as empty. */
  function Variants(group: seq<Variation>, scan: Scan): seq<Variant> {
    seq(|group|, k requires 0 <= k < |group| => VariantOf(group[k], scan))
  }

  /** The merged status of a group. */
  ghost function StatusOf(group: seq<Variation>, scan: Scan): seq<TargetRow> {
    MergedRows(Occurrences(Variants(group, scan)))
  }

  /** `scan_group`. */
  method ScanGroup(group: seq<Variation>, scan: Scan) returns (pairs: seq<Variant>)
    ensures pairs == Variants(group, scan)
  {
    pairs := [];
    for k := 0 to |group|
      invariant |pairs| == k && forall i :: 0 <= i < k ==> pairs[i] == VariantOf(group[i], scan)
    {
      var rows := [];
      match scan(group[k])
      case Some(found) =>
        rows := found;
        pairs := pairs + [Variant(group[k].code, rows)];
      case None =>
        pairs := pairs + [Variant(group[k].code, rows)];
    }
  }

  method MergeGroup(group: seq<Variation>, scan: Scan) returns (rows: seq<TargetRow>)
    ensures rows == StatusOf(group, scan)
  {
    hide *;
    var pairs := ScanGroup(group, scan);
    rows := MergeStatus(pairs);
    IsStatus(group, scan, rows);
  }

  lemma IsStatus(group: seq<Variation>, scan: Scan, rows: seq<TargetRow>)
    requires Merged(Occurrences(Variants(group, scan)), rows)
    ensures rows == StatusOf(group, scan)
  {
    hide Merged;
    MergedIsUnique(Occurrences(Variants(group, scan)), rows, StatusOf(group, scan));
  }

  /** What a snapshot of the group holds. */
  ghost function Fresh(products: seq<Variation>, key: Key, scan: Scan, now: Time): Snapshot
    requires key in KeysOf(products)
  {
    var group := Group(products, key);
    GroupOfKey(products, key);
    Snapshot(Fingerprint(group), BuildSummary(key, group, StatusOf(group, scan)), StatusOf(group, scan), now)
  }

  class SnapshotStore {
    var rows: map<Key, Snapshot>

    constructor ()
      ensures rows == map[]
    {
      rows := map[];
    }

    method Upsert(results: map<Key, Snapshot>)
      modifies this
      ensures rows == old(rows) + results
    {
      ghost var was := rows;
      var todo := results.Keys;
      while todo != {}
        invariant todo <= results.Keys
        invariant rows == was + map key | key in results && key !in todo :: results[key]
        decreases |todo|
      {
        var key :| key in todo;
        todo := todo - {key};
        var r := results[key];
        if key !in rows {
          rows := rows[key := r];
        } else {
          rows := rows[key := rows[key].(fingerprint := r.fingerprint, summary := r.summary, detail := r.detail,
              at := r.at)];
        }
      }
    }

    method DeleteAllBut(kept: set<Key>)
      requires kept <= rows.Keys
      modifies this
      ensures rows == map key | key in old(rows) && key in kept :: old(rows)[key]
    {
      ghost var was := rows;
      var todo := rows.Keys - kept;
      while todo != {}
        invariant todo !! kept && rows == map key | key in was && (key in kept || key in todo) :: was[key]
        decreases |todo|
      {
        var key :| key in todo;
        todo := todo - {key};
        rows := rows - {key};
      }
    }

    /** `refresh_snapshots`; the products come ordered by id. */
    method RefreshSnapshots(products: seq<Variation>, scan: Scan, now: Time)
        returns (count: nat)
      modifies this
      ensures rows.Keys == KeysOf(products) && count == |KeysOf(products)|
      ensures forall key :: key in rows ==> rows[key] == Fresh(products, key, scan, now)
    {
      hide *;
      var results := TakeSnapshots(products, scan, now);
      Upsert(results);
      DeleteAllBut(results.Keys);
      count := |results.Keys|;
    }

    /** `load_summaries`. */
    method LoadSummaries(project: string) returns (r: map<string, (Summary, Time)>)
      ensures forall name :: name in r <==> Key(project, name) in rows
      ensures forall name :: name in r ==> r[name] == (rows[Key(project, name)].summary, rows[Key(project, name)].at)
    {
      r := map key | key in rows && key.project == project :: key.name := (rows[key].summary, rows[key].at);
      forall name | Key(project, name) in rows ensures name in r {
        assert Key(project, name).project == project;
      }
    }

    /** `load_detail`. */
    method LoadDetail(project: string, name: string) returns (detail: Option<seq<TargetRow>>)
      ensures detail == if Key(project, name) in rows then Some(rows[Key(project, name)].detail) else None
    {
      if Key(project, name) !in rows {
        return None;
      }
      return Some(rows[Key(project, name)].detail);
    }
  }

  method TakeSnapshots(products: seq<Variation>, scan: Scan, now: Time)
    returns (results: map<Key, Snapshot>)
    ensures results.Keys == KeysOf(products)
    ensures forall key :: key in results ==> results[key] == Fresh(products, key, scan, now)
  {
    hide BuildSummary;
    hide Group;
    hide KeysOf;
    hide StatusOf;
    var groups := GroupByKey(products);
    var todo := groups.Keys;
    results := map[];
    while todo != {}
      invariant todo <= groups.Keys && results.Keys == groups.Keys - todo
      invariant forall key :: key in results ==> results[key] == Fresh(products, key, scan, now)
      decreases |todo|
    {
      var key :| key in todo;
      todo := todo - {key};
      var group := groups[key];
      GroupOfKey(products, key);
      var merged := MergeGroup(group, scan);
      results := results[key := Snapshot(Fingerprint(group), BuildSummary(key, group, merged), merged, now)];
    }
  }

  method GroupByKey(products: seq<Variation>) returns (groups: map<Key, seq<Variation>>)
    ensures groups.Keys == KeysOf(products)
    ensures forall key :: key in groups ==> groups[key] == Group(products, key)
  {
    groups := map[];
    for k := 0 to |products|
      invariant groups.Keys == KeysOf(products[..k])
      invariant forall key :: key in groups ==> groups[key] == Group(products[..k], key)
    {
      var product := products[k];
      ghost var next := products[..k + 1];
      assert next[..k] == products[..k] && next[k] == product;
      assert forall i :: 0 <= i < k ==> next[i] == products[..k][i];
      assert KeysOf(next) == KeysOf(products[..k]) + {product.key};
      GroupOfKey(products[..k], product.key);
      groups := groups[product.key := (if product.key in groups then groups[product.key] else []) + [product]];
    }
    assert products[..|products|] == products;
  }

  // ---- The live view ----

  function OfProject(products: seq<Variation>, project: string): seq<Variation> {
    if products == [] then []
    else
      var last := products[|products| - 1];
      OfProject(products[..|products| - 1], project) + (if last.key.project == project then [last] else [])
  }

  /** What the API shows for one name: the snapshot, or a scan of its own. */
  method SummaryOf(store: SnapshotStore, products: seq<Variation>, key: Key, scan: Scan)
    returns (summary: Summary)
    requires key in KeysOf(OfProject(products, key.project))
    ensures summary == if key in store.rows then store.rows[key].summary
                       else LiveSummary(products, key, scan)
  {
    var groups := GroupByKey(OfProject(products, key.project));
    GroupOfKey(OfProject(products, key.project), key);
    var snapshots := store.LoadSummaries(key.project);
    if key.name in snapshots {
      return snapshots[key.name].0;
    }
    var group := groups[key];
    var merged := MergeGroup(group, scan);
    return Summary(key, Codes(group), group[0].mode, |merged|, Tests(merged), Cases(merged), Fails(merged));
  }

  ghost function LiveSummary(products: seq<Variation>, key: Key, scan: Scan): Summary
    requires key in KeysOf(OfProject(products, key.project))
  {
    var group := Group(OfProject(products, key.project), key);
    GroupOfKey(OfProject(products, key.project), key);
    BuildSummary(key, group, StatusOf(group, scan))
  }

  lemma {:induction false} ProjectHasGroup(products: seq<Variation>, key: Key)
    ensures Group(OfProject(products, key.project), key) == Group(products, key)
    decreases |products|
  {
    if products != [] {
      var front, last := products[..|products| - 1], products[|products| - 1];
      ProjectHasGroup(front, key);
      if last.key.project == key.project {
        var some := OfProject(front, key.project) + [last];
        assert some[..|some| - 1] == OfProject(front, key.project);
      } else {
        assert OfProject(front, key.project) + [] == OfProject(front, key.project);
        assert Group(front, key) + [] == Group(front, key);
      }
    }
  }

  /** A snapshot says what the live view would: right after a refresh there is one for every name,
      and it does not show whether a name was stored or scanned. */
  lemma {:induction false} SnapshotsAreLive(products: seq<Variation>, key: Key,
      scan: Scan, now: Time)
    ensures key in KeysOf(products) <==> key in KeysOf(OfProject(products, key.project))
    ensures key in KeysOf(products) ==> Fresh(products, key, scan, now).summary == LiveSummary(products, key, scan)
  {
    ProjectHasGroup(products, key);
    GroupOfKey(products, key);
    GroupOfKey(OfProject(products, key.project), key);
  }

  /** The detail the API shows: the one stored, or a scan of its own of the group, which the query
      returns in any order. */
  method DetailOf(store: SnapshotStore, group: seq<Variation>, key: Key, scan: Scan)
    returns (detail: Option<seq<TargetRow>>)
    ensures detail == if group == [] then None
                      else if key in store.rows then Some(store.rows[key].detail)
                      else Some(StatusOf(group, scan))
  {
    if group == [] {
      return None;
    }
    assert Key(key.project, key.name) == key;
    detail := store.LoadDetail(key.project, key.name);
    if detail.None? {
      var merged := MergeGroup(group, scan);
      return Some(merged);
    }
  }

  lemma TakenOut<T>(xs: seq<T>, i: nat)
    requires i < |xs|
    ensures multiset(xs) == multiset{xs[i]} + multiset(xs[..i] + xs[i + 1..])
    ensures multiset(xs[..i] + xs[i + 1..]) == multiset(xs) - multiset{xs[i]}
  {
    assert xs == xs[..i] + [xs[i]] + xs[i + 1..];
  }

  lemma FoundIn<T>(a: seq<T>, b: seq<T>) returns (i: nat)
    requires multiset(a) == multiset(b) && a != []
    ensures i < |b| && b[i] == a[0]
  {
    assert a[0] in multiset(b);
    i :| 0 <= i < |b| && b[i] == a[0];
  }

  lemma VariantsTakenOut(xs: seq<Variation>, i: nat, scan: Scan)
    requires i < |xs|
    ensures multiset(Variants(xs, scan)) ==
            multiset{VariantOf(xs[i], scan)} + multiset(Variants(xs[..i] + xs[i + 1..], scan))
  {
    hide VariantOf;
    var vs := Variants(xs, scan);
    TakenOut(vs, i);
    assert vs[..i] + vs[i + 1..] == Variants(xs[..i] + xs[i + 1..], scan);
  }

  lemma {:induction false} VariantsPermuted(a: seq<Variation>, b: seq<Variation>, scan: Scan)
    requires multiset(a) == multiset(b)
    ensures multiset(Variants(a, scan)) == multiset(Variants(b, scan))
    decreases |a|
  {
    hide VariantOf;
    hide Variants;
    if a == [] {
      assert |b| == |multiset(b)| == 0;
    } else {
      var i := FoundIn(a, b);
      TakenOut(a, 0);
      TakenOut(b, i);
      VariantsPermuted(a[..0] + a[1..], b[..i] + b[i + 1..], scan);
      VariantsTakenOut(a, 0, scan);
      VariantsTakenOut(b, i, scan);
    }
  }

  /** The stored detail and a live one, from the same products in whatever order, have the same
      targets, codes, files and counts; the case counts are the same, too, if the variants agree. */
  lemma {:induction false} DetailIsLive(products: seq<Variation>, key: Key, scan: Scan, now: Time,
      group: seq<Variation>)
    requires key in KeysOf(products) && multiset(group) == multiset(Group(products, key))
    ensures SameShape(Fresh(products, key, scan, now).detail, StatusOf(group, scan))
    ensures AllAgree(Variants(group, scan)) ==>
              SameCounts(Fresh(products, key, scan, now).detail, StatusOf(group, scan))
  {
    var mine := Group(products, key);
    VariantsPermuted(mine, group, scan);
    SameOccurrences(Variants(mine, scan), Variants(group, scan));
    hide Group;
    hide SameShape;
    hide SameCounts;
    hide Merged;
    hide AllAgree;
    OrderDoesNotMatter(Occurrences(Variants(mine, scan)), Occurrences(Variants(group, scan)), StatusOf(mine, scan),
        StatusOf(group, scan));
    if AllAgree(Variants(group, scan)) {
      SameElements(Variants(mine, scan), Variants(group, scan));
      AgreementIsShared(Variants(group, scan), Variants(mine, scan));
      AgreedRowsAreTheSame(Variants(mine, scan), Variants(group, scan), StatusOf(mine, scan), StatusOf(group, scan));
    }
  }

  lemma AgreementIsShared(a: seq<Variant>, b: seq<Variant>)
    requires AllAgree(a) && forall v :: v in a <==> v in b
    ensures AllAgree(b)
  {
    hide CountIn;
    forall path, failed, file ensures VariantsAgree(b, path, failed, file) {
      assert VariantsAgree(a, path, failed, file);
    }
  }
}
