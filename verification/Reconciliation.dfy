/** Reconciliation of supplier rows against hub rows by two dataframe engines. The order in which an engine
    joins and the way it sorts ties are not fixed, so an engine is a relation between inputs and outcomes. */
module Reconciliation {
  import opened Domain
  import opened Permutations

  datatype SupplierRow = SupplierRow(recordIndex: int, supplier: string, sku: string, warehouse: string, reported: int)

  datatype HubRow = HubRow(recordIndex: int, sku: string, warehouse: string, hub: int)

  datatype Key = Key(recordIndex: int, sku: string, warehouse: string)

  datatype Joined = Joined(left: SupplierRow, right: HubRow)

  datatype ReconciliationResult = ReconciliationResult(
    recordIndex: int, supplier: string, sku: string, warehouse: string,
    reported: int, hub: int, difference: int, matches: bool)

  datatype ReconciliationError = NotOneToOne | KeysDiffer

  function SupplierKey(x: SupplierRow): Key {
    Key(x.recordIndex, x.sku, x.warehouse)
  }

  function HubKey(y: HubRow): Key {
    Key(y.recordIndex, y.sku, y.warehouse)
  }

  function SupplierKeys(s: seq<SupplierRow>): seq<Key> {
    Map(s, SupplierKey)
  }

  function HubKeys(h: seq<HubRow>): seq<Key> {
    Map(h, HubKey)
  }

  predicate OneToOne(s: seq<SupplierRow>, h: seq<HubRow>) {
    Distinct(SupplierKeys(s)) && Distinct(HubKeys(h))
  }

  // -------------------------------------------------------------------------- join

  function Match(x: SupplierRow): HubRow -> seq<Joined> {
    y => if SupplierKey(x) == HubKey(y) then [Joined(x, y)] else []
  }

  function Partners(h: seq<HubRow>): SupplierRow -> seq<Joined> {
    x => Collect(h, Match(x))
  }

  /** The inner join in supplier order. */
  function NestedJoin(s: seq<SupplierRow>, h: seq<HubRow>): seq<Joined> {
    Collect(s, Partners(h))
  }

  /** Any row order is an inner join. */
  ghost predicate IsInnerJoin(s: seq<SupplierRow>, h: seq<HubRow>, joined: seq<Joined>) {
    multiset(joined) == multiset(NestedJoin(s, h))
  }

  function ResultOf(j: Joined): ReconciliationResult {
    var difference := j.left.reported - j.right.hub;
    ReconciliationResult(j.left.recordIndex, j.left.supplier, j.left.sku, j.left.warehouse,
                         j.left.reported, j.right.hub, difference, difference == 0)
  }

  function WithDifference(joined: seq<Joined>): seq<ReconciliationResult> {
    Map(joined, ResultOf)
  }

  function IndexKey(r: ReconciliationResult): real {
    r.recordIndex as real
  }

  /** A sort by record index; ties may come in any order. */
  ghost predicate IsSortOf(rows: seq<ReconciliationResult>, sorted: seq<ReconciliationResult>) {
    multiset(sorted) == multiset(rows) && Ascending(sorted, IndexKey)
  }

  type Outcome = Result<seq<ReconciliationResult>, ReconciliationError>

  /** Pandas after a validated join: size check, difference columns, sort. */
  ghost predicate PandasChain(s: seq<SupplierRow>, h: seq<HubRow>, joined: seq<Joined>, r: Outcome) {
    IsInnerJoin(s, h, joined) &&
    if |joined| != |s| || |joined| != |h| then r == Err(KeysDiffer)
    else r.Ok? && IsSortOf(WithDifference(joined), r.value)
  }

  ghost predicate PandasReconciles(s: seq<SupplierRow>, h: seq<HubRow>, r: Outcome) {
    if !OneToOne(s, h) then r == Err(NotOneToOne) else exists joined :: PandasChain(s, h, joined, r)
  }

  /** Polars after a validated join: difference columns and sort in one chain, then the size check. */
  ghost predicate PolarsChain(s: seq<SupplierRow>, h: seq<HubRow>, joined: seq<Joined>,
                              sorted: seq<ReconciliationResult>, r: Outcome) {
    IsInnerJoin(s, h, joined) && IsSortOf(WithDifference(joined), sorted) &&
    r == if |sorted| != |s| || |sorted| != |h| then Err(KeysDiffer) else Ok(sorted)
  }

  ghost predicate PolarsReconciles(s: seq<SupplierRow>, h: seq<HubRow>, r: Outcome) {
    if !OneToOne(s, h) then r == Err(NotOneToOne) else exists joined, sorted :: PolarsChain(s, h, joined, sorted, r)
  }

  // ------------------------------------------------------------ executable engines

  method ReconcileWithPandas(s: seq<SupplierRow>, h: seq<HubRow>) returns (r: Outcome)
    ensures PandasReconciles(s, h, r)
  {
    if !OneToOne(s, h) {
      return Err(NotOneToOne);
    }
    var joined := NestedJoin(s, h);
    if |joined| != |s| || |joined| != |h| {
      assert PandasChain(s, h, joined, Err(KeysDiffer));
      return Err(KeysDiffer);
    }
    var rows := WithDifference(joined);
    SortBySorts(rows, IndexKey);
    rows := SortBy(rows, IndexKey);
    assert PandasChain(s, h, joined, Ok(rows));
    r := Ok(rows);
  }

  method ReconcileWithPolars(s: seq<SupplierRow>, h: seq<HubRow>) returns (r: Outcome)
    ensures PolarsReconciles(s, h, r)
  {
    if !OneToOne(s, h) {
      return Err(NotOneToOne);
    }
    var joined := NestedJoin(s, h);
    var rows := WithDifference(joined);
    SortBySorts(rows, IndexKey);
    var sorted := SortBy(rows, IndexKey);
    r := if |sorted| != |s| || |sorted| != |h| then Err(KeysDiffer) else Ok(sorted);
    assert PolarsChain(s, h, joined, sorted, r);
  }

  // --------------------------------------------------------------- facts of the join

  lemma JoinMembers(s: seq<SupplierRow>, h: seq<HubRow>, j: Joined)
    requires j in NestedJoin(s, h)
    ensures j.left in s && j.right in h && SupplierKey(j.left) == HubKey(j.right)
  {
    CollectMembers(s, Partners(h), j);
    var i :| 0 <= i < |s| && j in Partners(h)(s[i]);
    CollectMembers(h, Match(s[i]), j);
  }

  /** With distinct hub keys a supplier row has one partner if the hub knows its key, and none otherwise. */
  lemma {:induction false} PartnerCount(x: SupplierRow, h: seq<HubRow>)
    requires Distinct(HubKeys(h))
    ensures |Collect(h, Match(x))| == if SupplierKey(x) in HubKeys(h) then 1 else 0
  {
    if h != [] {
      var before, n := h[..|h| - 1], |h| - 1;
      assert forall i :: 0 <= i < n ==> HubKeys(before)[i] == HubKeys(h)[i];
      PartnerCount(x, before);
      assert HubKeys(h) == HubKeys(before) + [HubKey(h[n])];
      assert forall i :: 0 <= i < n ==> HubKeys(h)[i] != HubKeys(h)[n];
    }
  }

  lemma {:induction false} JoinSize(s: seq<SupplierRow>, h: seq<HubRow>)
    requires Distinct(HubKeys(h))
    ensures |NestedJoin(s, h)| <= |s|
    ensures |NestedJoin(s, h)| == |s| <==> Elements(SupplierKeys(s)) <= Elements(HubKeys(h))
  {
    if s == [] {
      assert Elements(SupplierKeys(s)) == {};
    } else {
      var before, x := s[..|s| - 1], s[|s| - 1];
      JoinSize(before, h);
      PartnerCount(x, h);
      KeysOfMore(before, x);
      assert s == before + [x];
    }
  }

  lemma KeysOfMore(s: seq<SupplierRow>, x: SupplierRow)
    ensures Elements(SupplierKeys(s + [x])) == Elements(SupplierKeys(s)) + {SupplierKey(x)}
  {
    assert SupplierKeys(s + [x]) == SupplierKeys(s) + [SupplierKey(x)];
  }

  /** In a join that keeps every supplier row, the rows come in supplier order. */
  lemma {:induction false} JoinOrder(s: seq<SupplierRow>, h: seq<HubRow>)
    requires Distinct(HubKeys(h)) && |NestedJoin(s, h)| == |s|
    ensures forall i :: 0 <= i < |s| ==> NestedJoin(s, h)[i].left == s[i]
  {
    if s != [] {
      var before, x := s[..|s| - 1], s[|s| - 1];
      PartnerCount(x, h);
      JoinSize(before, h);
      JoinOrder(before, h);
      var j := Collect(h, Match(x))[0];
      CollectMembers(h, Match(x), j);
      assert NestedJoin(s, h) == NestedJoin(before, h) + [j];
    }
  }

  lemma SubsetOfSameSize<A>(a: set<A>, b: set<A>)
    requires a <= b && |a| == |b|
    ensures a == b
  {
    assert b == a + (b - a);
    assert |b| == |a| + |b - a|;
  }

  /** The pigeonhole: two one-to-one inputs pass the size check exactly when their key sets are equal. */
  lemma SizesMatchIffKeysMatch(s: seq<SupplierRow>, h: seq<HubRow>, joined: seq<Joined>)
    requires OneToOne(s, h) && IsInnerJoin(s, h, joined)
    ensures |joined| == |s| == |h| <==> Elements(SupplierKeys(s)) == Elements(HubKeys(h))
  {
    assert |joined| == |multiset(joined)| == |multiset(NestedJoin(s, h))| == |NestedJoin(s, h)|;
    JoinSize(s, h);
    DistinctIffSize(SupplierKeys(s));
    DistinctIffSize(HubKeys(h));
    if |joined| == |s| == |h| {
      SubsetOfSameSize(Elements(SupplierKeys(s)), Elements(HubKeys(h)));
    }
  }

  lemma JoinPermutes(s: seq<SupplierRow>, h: seq<HubRow>, s': seq<SupplierRow>, h': seq<HubRow>)
    requires multiset(s) == multiset(s') && multiset(h) == multiset(h')
    ensures multiset(NestedJoin(s, h)) == multiset(NestedJoin(s', h'))
  {
    CollectPermutes(s, s', Partners(h));
    forall x | x in s' ensures multiset(Partners(h)(x)) == multiset(Partners(h')(x)) {
      CollectPermutes(h, h', Match(x));
    }
    CollectPointwise(s', Partners(h), Partners(h'));
  }

  // ---------------------------------------------------------------- engine agreement

  predicate DistinctIndices(s: seq<SupplierRow>) {
    forall i, j :: 0 <= i < j < |s| ==> s[i].recordIndex != s[j].recordIndex
  }

  /** With distinct record indices, the index of a result determines the whole result. */
  lemma IndexDetermines(s: seq<SupplierRow>, h: seq<HubRow>, joined: seq<Joined>, r: seq<ReconciliationResult>)
    requires OneToOne(s, h) && DistinctIndices(s) && IsInnerJoin(s, h, joined) && IsSortOf(WithDifference(joined), r)
    ensures Determines(IndexKey, r)
  {
    forall p, q | 0 <= p < |r| && 0 <= q < |r| && IndexKey(r[p]) == IndexKey(r[q]) ensures r[p] == r[q] {
      var a := JoinedBehind(s, h, joined, r, p);
      var b := JoinedBehind(s, h, joined, r, q);
      assert a.left == b.left;
      var i :| 0 <= i < |h| && h[i] == a.right;
      var j :| 0 <= j < |h| && h[j] == b.right;
      assert HubKeys(h)[i] == HubKeys(h)[j];
    }
  }

  lemma JoinedBehind(s: seq<SupplierRow>, h: seq<HubRow>, joined: seq<Joined>, r: seq<ReconciliationResult>, p: nat)
    returns (j: Joined)
    requires IsInnerJoin(s, h, joined) && IsSortOf(WithDifference(joined), r) && p < |r|
    ensures r[p] == ResultOf(j) && j.left in s && j.right in h && SupplierKey(j.left) == HubKey(j.right)
  {
    assert r[p] in multiset(WithDifference(joined));
    var k :| 0 <= k < |joined| && WithDifference(joined)[k] == r[p];
    j := joined[k];
    assert j in multiset(NestedJoin(s, h));
    JoinMembers(s, h, j);
  }

  lemma OneToOnePermutes(s: seq<SupplierRow>, h: seq<HubRow>, s': seq<SupplierRow>, h': seq<HubRow>)
    requires multiset(s) == multiset(s') && multiset(h) == multiset(h')
    ensures OneToOne(s, h) <==> OneToOne(s', h')
  {
    MapPermutes(s, s', SupplierKey);
    MapPermutes(h, h', HubKey);
    DistinctPermutes(SupplierKeys(s), SupplierKeys(s'));
    DistinctPermutes(HubKeys(h), HubKeys(h'));
  }

  lemma SizesPermute<A>(s: seq<A>, t: seq<A>)
    requires multiset(s) == multiset(t)
    ensures |s| == |t|
  {
    assert |s| == |multiset(s)| == |multiset(t)| == |t|;
  }

  lemma ChainsAgree(s: seq<SupplierRow>, h: seq<HubRow>, s': seq<SupplierRow>, h': seq<HubRow>,
                    joined: seq<Joined>, joined': seq<Joined>, sorted: seq<ReconciliationResult>,
                    r: Outcome, r': Outcome)
    requires multiset(s) == multiset(s') && multiset(h) == multiset(h') && DistinctIndices(s) && OneToOne(s, h)
    requires PandasChain(s, h, joined, r) && PolarsChain(s', h', joined', sorted, r')
    ensures r == r'
  {
    JoinPermutes(s, h, s', h');
    SizesPermute(s, s');
    SizesPermute(h, h');
    SizesPermute(joined, joined');
    SizesPermute(sorted, WithDifference(joined'));
    if r.Ok? {
      MapPermutes(joined, joined', ResultOf);
      IndexDetermines(s, h, joined, r.value);
      SortedIsUnique(r.value, sorted, IndexKey);
    }
  }

  /** The engines agree: on inputs that are permutations of each other, with distinct record indices, whatever
      join order and sort each engine uses, Pandas and Polars return the same list or the same error. */
  lemma EnginesAgree(s: seq<SupplierRow>, h: seq<HubRow>, s': seq<SupplierRow>, h': seq<HubRow>, r: Outcome,
                     r': Outcome)
    requires multiset(s) == multiset(s') && multiset(h) == multiset(h') && DistinctIndices(s)
    requires PandasReconciles(s, h, r) && PolarsReconciles(s', h', r')
    ensures r == r'
  {
    OneToOnePermutes(s, h, s', h');
    if OneToOne(s, h) {
      var joined :| PandasChain(s, h, joined, r);
      var joined', sorted :| PolarsChain(s', h', joined', sorted, r');
      ChainsAgree(s, h, s', h', joined, joined', sorted, r, r');
    }
  }

  /** Any accepted outcome can be reordered among its ties. */
  lemma TiesMakeOutcomesDiffer(s: seq<SupplierRow>, h: seq<HubRow>, r: Outcome)
    requires PandasReconciles(s, h, r) && r.Ok? && !DistinctIndices(s)
    ensures exists r' :: PolarsReconciles(s, h, r') && r' != r
  {
    var joined :| PandasChain(s, h, joined, r);
    var p, q := TiedResults(s, h, joined, r.value);
    var rows := r.value;
    var swapped := rows[p := rows[q]][q := rows[p]];
    SwapKeepsSort(rows, p, q);
    SizesPermute(swapped, WithDifference(joined));
    assert PolarsChain(s, h, joined, swapped, Ok(swapped));
    assert swapped[p] != rows[p];
    assert PolarsReconciles(s, h, Ok(swapped));
  }

  /** On accepted inputs the two engines are bound to agree exactly when the record indices are distinct. */
  lemma AgreementExactly(s: seq<SupplierRow>, h: seq<HubRow>, r: Outcome)
    requires PandasReconciles(s, h, r) && r.Ok?
    ensures (forall r' :: PolarsReconciles(s, h, r') ==> r' == r) <==> DistinctIndices(s)
  {
    if DistinctIndices(s) {
      forall r' | PolarsReconciles(s, h, r') ensures r' == r { EnginesAgree(s, h, s, h, r, r'); }
    } else {
      TiesMakeOutcomesDiffer(s, h, r);
    }
  }

  /** Two rows on each side, paired by two different keys with the same record index. */
  ghost predicate Tied(s: seq<SupplierRow>, h: seq<HubRow>) {
    && |s| == 2 && |h| == 2 && s[0].recordIndex == s[1].recordIndex
    && SupplierKey(s[0]) == HubKey(h[0]) != SupplierKey(s[1]) == HubKey(h[1])
  }

  lemma TiedJoin(s: seq<SupplierRow>, h: seq<HubRow>)
    requires Tied(s, h)
    ensures OneToOne(s, h) && NestedJoin(s, h) == [Joined(s[0], h[0]), Joined(s[1], h[1])]
  {
    TwoPartners(h, s[0], 0);
    TwoPartners(h, s[1], 1);
    CollectOfTwo(s, Partners(h));
  }

  /** Each order of the two results is an outcome of each engine. */
  lemma TiedOutcomes(s: seq<SupplierRow>, h: seq<HubRow>, rows: seq<ReconciliationResult>)
    requires Tied(s, h) && multiset(rows) == multiset{ResultOf(Joined(s[0], h[0])), ResultOf(Joined(s[1], h[1]))}
    ensures PandasReconciles(s, h, Ok(rows)) && PolarsReconciles(s, h, Ok(rows))
  {
    TiedJoin(s, h);
    var joined := NestedJoin(s, h);
    assert WithDifference(joined) == [ResultOf(joined[0]), ResultOf(joined[1])];
    SizesPermute(rows, WithDifference(joined));
    forall i | 0 <= i < |rows| ensures rows[i].recordIndex == s[0].recordIndex {
      assert rows[i] in multiset(rows);
    }
    assert PandasChain(s, h, joined, Ok(rows));
    assert PolarsChain(s, h, joined, rows, Ok(rows));
  }

  /** Two articles under one record index: both engines accept them, in either order. */
  lemma TiedRows(supplier: string, warehouse: string, a: string, b: string, reported: int, held: int)
    requires a != b
    ensures var s := [SupplierRow(0, supplier, a, warehouse, reported),
                      SupplierRow(0, supplier, b, warehouse, reported)];
            var h := [HubRow(0, a, warehouse, held), HubRow(0, b, warehouse, held)];
            var x, y := ResultOf(Joined(s[0], h[0])), ResultOf(Joined(s[1], h[1]));
            && [x, y] != [y, x]
            && PandasReconciles(s, h, Ok([x, y])) && PandasReconciles(s, h, Ok([y, x]))
            && PolarsReconciles(s, h, Ok([x, y])) && PolarsReconciles(s, h, Ok([y, x]))
  {
    var s := [SupplierRow(0, supplier, a, warehouse, reported), SupplierRow(0, supplier, b, warehouse, reported)];
    var h := [HubRow(0, a, warehouse, held), HubRow(0, b, warehouse, held)];
    var x, y := ResultOf(Joined(s[0], h[0])), ResultOf(Joined(s[1], h[1]));
    assert [x, y][0] != [y, x][0];
    TiedOutcomes(s, h, [x, y]);
    TiedOutcomes(s, h, [y, x]);
  }

  lemma TwoPartners(h: seq<HubRow>, x: SupplierRow, i: nat)
    requires |h| == 2 && i < 2 && forall j :: 0 <= j < 2 ==> (SupplierKey(x) == HubKey(h[j]) <==> j == i)
    ensures Partners(h)(x) == [Joined(x, h[i])]
  {
    CollectOfTwo(h, Match(x));
  }

  predicate SameKey(x: SupplierRow, y: HubRow) {
    x.recordIndex == y.recordIndex && x.sku == y.sku && x.warehouse == y.warehouse
  }

  /** No two supplier rows, and no two hub rows, agree in record index, article and warehouse. */
  ghost predicate NoRepeats(s: seq<SupplierRow>, h: seq<HubRow>) {
    && (forall i, j :: 0 <= i < j < |s| ==>
          s[i].recordIndex != s[j].recordIndex || s[i].sku != s[j].sku || s[i].warehouse != s[j].warehouse)
    && (forall i, j :: 0 <= i < j < |h| ==>
          h[i].recordIndex != h[j].recordIndex || h[i].sku != h[j].sku || h[i].warehouse != h[j].warehouse)
  }

  ghost predicate InHub(x: SupplierRow, h: seq<HubRow>) {
    exists j :: 0 <= j < |h| && SameKey(x, h[j])
  }

  ghost predicate InSupplier(s: seq<SupplierRow>, y: HubRow) {
    exists i :: 0 <= i < |s| && SameKey(s[i], y)
  }

  /** Every supplier row has a hub row of its key, and every hub row a supplier row. */
  ghost predicate Matched(s: seq<SupplierRow>, h: seq<HubRow>) {
    (forall i :: 0 <= i < |s| ==> InHub(s[i], h)) && (forall j :: 0 <= j < |h| ==> InSupplier(s, h[j]))
  }

  lemma OneToOneExactly(s: seq<SupplierRow>, h: seq<HubRow>)
    ensures OneToOne(s, h) <==> NoRepeats(s, h)
  {
    var a, b := SupplierKeys(s), HubKeys(h);
    assert forall i :: 0 <= i < |s| ==> a[i] == SupplierKey(s[i]);
    assert forall i :: 0 <= i < |h| ==> b[i] == HubKey(h[i]);
    if OneToOne(s, h) {
      forall i, j | 0 <= i < j < |s| ensures SupplierKey(s[i]) != SupplierKey(s[j]) { assert a[i] != a[j]; }
      forall i, j | 0 <= i < j < |h| ensures HubKey(h[i]) != HubKey(h[j]) { assert b[i] != b[j]; }
    }
    if NoRepeats(s, h) {
      forall i, j | 0 <= i < j < |a| ensures a[i] != a[j] { assert SupplierKey(s[i]) != SupplierKey(s[j]); }
      forall i, j | 0 <= i < j < |b| ensures b[i] != b[j] { assert HubKey(h[i]) != HubKey(h[j]); }
    }
  }

  lemma InHubExactly(x: SupplierRow, h: seq<HubRow>)
    ensures InHub(x, h) <==> SupplierKey(x) in HubKeys(h)
  {
    assert forall j :: 0 <= j < |h| ==> HubKeys(h)[j] == HubKey(h[j]);
    if j :| 0 <= j < |h| && SameKey(x, h[j]) { assert HubKeys(h)[j] == HubKey(h[j]) == SupplierKey(x); }
    if j :| 0 <= j < |h| && HubKeys(h)[j] == SupplierKey(x) {
      assert HubKey(h[j]) == SupplierKey(x) && SameKey(x, h[j]);
    }
  }

  lemma InSupplierExactly(s: seq<SupplierRow>, y: HubRow)
    ensures InSupplier(s, y) <==> HubKey(y) in SupplierKeys(s)
  {
    assert forall i :: 0 <= i < |s| ==> SupplierKeys(s)[i] == SupplierKey(s[i]);
    if i :| 0 <= i < |s| && SameKey(s[i], y) { assert SupplierKeys(s)[i] == SupplierKey(s[i]) == HubKey(y); }
    if i :| 0 <= i < |s| && SupplierKeys(s)[i] == HubKey(y) {
      assert SupplierKey(s[i]) == HubKey(y) && SameKey(s[i], y);
    }
  }

  lemma AllInHub(s: seq<SupplierRow>, h: seq<HubRow>)
    ensures Elements(SupplierKeys(s)) <= Elements(HubKeys(h)) <==> forall i :: 0 <= i < |s| ==> InHub(s[i], h)
  {
    var a := SupplierKeys(s);
    forall i | 0 <= i < |s| ensures a[i] == SupplierKey(s[i]) && (InHub(s[i], h) <==> a[i] in HubKeys(h)) {
      assert a[i] == SupplierKey(s[i]);
      InHubExactly(s[i], h);
    }
    if Elements(a) <= Elements(HubKeys(h)) {
      assert forall i :: 0 <= i < |s| ==> a[i] in Elements(a);
    }
  }

  lemma AllInSupplier(s: seq<SupplierRow>, h: seq<HubRow>)
    ensures Elements(HubKeys(h)) <= Elements(SupplierKeys(s)) <==> forall j :: 0 <= j < |h| ==> InSupplier(s, h[j])
  {
    var b := HubKeys(h);
    forall j | 0 <= j < |h| ensures b[j] == HubKey(h[j]) && (InSupplier(s, h[j]) <==> b[j] in SupplierKeys(s)) {
      assert b[j] == HubKey(h[j]);
      InSupplierExactly(s, h[j]);
    }
    if Elements(b) <= Elements(SupplierKeys(s)) {
      assert forall j :: 0 <= j < |h| ==> b[j] in Elements(b);
    }
  }

  lemma MatchedExactly(s: seq<SupplierRow>, h: seq<HubRow>)
    ensures Elements(SupplierKeys(s)) == Elements(HubKeys(h)) <==> Matched(s, h)
  {
    AllInHub(s, h);
    AllInSupplier(s, h);
  }

  /** Either engine refuses repeated keys first, then inputs whose keys differ, and accepts everything else. */
  lemma AcceptedExactly(s: seq<SupplierRow>, h: seq<HubRow>, r: Outcome)
    requires PandasReconciles(s, h, r) || PolarsReconciles(s, h, r)
    ensures r.Ok? <==> NoRepeats(s, h) && Matched(s, h)
    ensures r == Err(NotOneToOne) <==> !NoRepeats(s, h)
    ensures r == Err(KeysDiffer) <==> NoRepeats(s, h) && !Matched(s, h)
  {
    OneToOneExactly(s, h);
    MatchedExactly(s, h);
    if OneToOne(s, h) {
      if PandasReconciles(s, h, r) {
        var joined :| PandasChain(s, h, joined, r);
        SizesMatchIffKeysMatch(s, h, joined);
      } else {
        var joined, sorted :| PolarsChain(s, h, joined, sorted, r);
        SizesPermute(sorted, WithDifference(joined));
        SizesMatchIffKeysMatch(s, h, joined);
      }
    }
  }

  // ------------------------------------------------------------------- result rows

  /** The result row `r` reports supplier row `x` against hub row `y`. */
  predicate RowReports(r: ReconciliationResult, x: SupplierRow, y: HubRow) {
    && r.recordIndex == x.recordIndex && r.supplier == x.supplier && r.sku == x.sku && r.warehouse == x.warehouse
    && r.reported == x.reported && r.hub == y.hub
    && r.difference == x.reported - y.hub && (r.matches <==> x.reported == y.hub)
  }

  /** Row `k` reports supplier row `from[k]` against the hub row `to[k]` of the same key. */
  ghost predicate Reported(s: seq<SupplierRow>, h: seq<HubRow>, rows: seq<ReconciliationResult>,
                           from: seq<nat>, to: seq<nat>)
  {
    && |from| == |to| == |rows|
    && forall k :: 0 <= k < |rows| ==>
         && from[k] < |s| && to[k] < |h| && SameKey(s[from[k]], h[to[k]]) && RowReports(rows[k], s[from[k]], h[to[k]])
  }

  lemma {:induction false} RowsReport(s: seq<SupplierRow>, h: seq<HubRow>, joined: seq<Joined>,
                                      rows: seq<ReconciliationResult>, n: nat) returns (from: seq<nat>, to: seq<nat>)
    requires IsInnerJoin(s, h, joined) && IsSortOf(WithDifference(joined), rows) && n <= |rows|
    ensures Reported(s, h, rows[..n], from, to)
  {
    if n == 0 {
      from, to := [], [];
    } else {
      from, to := RowsReport(s, h, joined, rows, n - 1);
      var j := JoinedBehind(s, h, joined, rows, n - 1);
      var i: nat :| i < |s| && s[i] == j.left;
      var k: nat :| k < |h| && h[k] == j.right;
      from, to := from + [i], to + [k];
    }
  }

  /** The results of a join without repeated keys are all different. */
  lemma ResultsDiffer(s: seq<SupplierRow>, h: seq<HubRow>, joined: seq<Joined>, rows: seq<ReconciliationResult>)
    requires OneToOne(s, h) && IsInnerJoin(s, h, joined) && |joined| == |s| == |h|
    requires IsSortOf(WithDifference(joined), rows)
    ensures Distinct(rows)
  {
    var nested := NestedJoin(s, h);
    SizesPermute(joined, nested);
    JoinOrder(s, h);
    var ordered := Map(nested, ResultOf);
    forall i, j | 0 <= i < j < |ordered| ensures ordered[i] != ordered[j] {
      assert SupplierKeys(s)[i] != SupplierKeys(s)[j];
    }
    MapPermutes(joined, nested, ResultOf);
    DistinctPermutes(ordered, rows);
  }

  lemma SameKeySameRows(s: seq<SupplierRow>, h: seq<HubRow>, a: nat, b: nat, c: nat, d: nat)
    requires OneToOne(s, h) && a < |s| && b < |s| && c < |h| && d < |h|
    requires SameKey(s[a], h[c]) && SameKey(s[b], h[d])
    ensures a == b <==> c == d
  {
    OneToOneExactly(s, h);
  }

  lemma ReportsDiffer(s: seq<SupplierRow>, h: seq<HubRow>, rows: seq<ReconciliationResult>,
                      from: seq<nat>, to: seq<nat>)
    requires OneToOne(s, h) && Reported(s, h, rows, from, to) && Distinct(rows)
    ensures Distinct(from) && Distinct(to)
  {
    forall k, l | 0 <= k < l < |rows| ensures from[k] != from[l] && to[k] != to[l] {
      SameKeySameRows(s, h, from[k], from[l], to[k], to[l]);
      assert rows[k] != rows[l];
    }
  }

  /** What an accepted outcome says: one row per supplier row and per hub row, each pair joined by its key, with the
      two quantities, their difference, and a match exactly where they are equal; rows ascend by record index. */
  lemma ResultsExactly(s: seq<SupplierRow>, h: seq<HubRow>, r: Outcome) returns (from: seq<nat>, to: seq<nat>)
    requires (PandasReconciles(s, h, r) || PolarsReconciles(s, h, r)) && r.Ok?
    ensures |r.value| == |s| == |h| && Reported(s, h, r.value, from, to) && Distinct(from) && Distinct(to)
    ensures forall i, j :: 0 <= i < j < |r.value| ==> r.value[i].recordIndex <= r.value[j].recordIndex
  {
    var joined: seq<Joined>;
    if PandasReconciles(s, h, r) {
      joined :| PandasChain(s, h, joined, r);
    } else {
      var sorted;
      joined, sorted :| PolarsChain(s, h, joined, sorted, r);
    }
    var rows := r.value;
    SizesPermute(rows, WithDifference(joined));
    from, to := RowsReport(s, h, joined, rows, |rows|);
    assert rows[..|rows|] == rows;
    ResultsDiffer(s, h, joined, rows);
    ReportsDiffer(s, h, rows, from, to);
    forall i, j | 0 <= i < j < |rows| ensures rows[i].recordIndex <= rows[j].recordIndex {
      assert IndexKey(rows[i]) <= IndexKey(rows[j]);
    }
  }

  lemma SwapKeepsSort(rows: seq<ReconciliationResult>, p: nat, q: nat)
    requires p < q < |rows| && Ascending(rows, IndexKey) && IndexKey(rows[p]) == IndexKey(rows[q])
    ensures var swapped := rows[p := rows[q]][q := rows[p]];
            Ascending(swapped, IndexKey) && multiset(swapped) == multiset(rows)
  {
    var swapped := rows[p := rows[q]][q := rows[p]];
    assert forall i :: 0 <= i < |rows| ==> IndexKey(swapped[i]) == IndexKey(rows[i]);
  }

  /** Two supplier rows with one record index give two different results with that index. */
  lemma TiedResults(s: seq<SupplierRow>, h: seq<HubRow>, joined: seq<Joined>, rows: seq<ReconciliationResult>)
    returns (p: nat, q: nat)
    requires OneToOne(s, h) && IsInnerJoin(s, h, joined) && |joined| == |s| == |h|
    requires IsSortOf(WithDifference(joined), rows) && !DistinctIndices(s)
    ensures p < q < |rows| && IndexKey(rows[p]) == IndexKey(rows[q]) && rows[p] != rows[q]
  {
    var i, j :| 0 <= i < j < |s| && s[i].recordIndex == s[j].recordIndex;
    SizesPermute(joined, NestedJoin(s, h));
    JoinOrder(s, h);
    var a := ResultAt(s, h, joined, rows, i);
    var b := ResultAt(s, h, joined, rows, j);
    assert SupplierKeys(s)[i] != SupplierKeys(s)[j];
    if a < b { p, q := a, b; } else { p, q := b, a; }
  }

  lemma ResultAt(s: seq<SupplierRow>, h: seq<HubRow>, joined: seq<Joined>, rows: seq<ReconciliationResult>, i: nat)
    returns (p: nat)
    requires IsInnerJoin(s, h, joined) && IsSortOf(WithDifference(joined), rows)
    requires i < |NestedJoin(s, h)| && i < |s| && NestedJoin(s, h)[i].left == s[i]
    ensures p < |rows| && rows[p].recordIndex == s[i].recordIndex && rows[p].sku == s[i].sku &&
            rows[p].warehouse == s[i].warehouse
  {
    var j := NestedJoin(s, h)[i];
    assert j in multiset(joined);
    var k :| 0 <= k < |joined| && joined[k] == j;
    assert WithDifference(joined)[k] == ResultOf(j);
    assert ResultOf(j) in multiset(rows);
    p :| 0 <= p < |rows| && rows[p] == ResultOf(j);
  }

  // ------------------------------------------------------------------- conservation

  function ReportedBy(x: SupplierRow): int { x.reported }

  function Held(y: HubRow): int { y.hub }

  function Difference(r: ReconciliationResult): int { r.difference }

  function RightOf(j: Joined): HubRow { j.right }

  /** The hub rows of an accepted join are the hub rows. */
  lemma JoinUsesEveryHubRow(s: seq<SupplierRow>, h: seq<HubRow>)
    requires OneToOne(s, h) && |NestedJoin(s, h)| == |s| == |h|
    ensures multiset(Map(NestedJoin(s, h), RightOf)) == multiset(h)
  {
    var joined := NestedJoin(s, h);
    var used := Map(joined, RightOf);
    JoinOrder(s, h);
    forall i | 0 <= i < |joined| ensures joined[i].right in h && HubKey(used[i]) == SupplierKeys(s)[i] {
      JoinMembers(s, h, joined[i]);
    }
    forall i, j | 0 <= i < j < |used| ensures used[i] != used[j] {
      assert SupplierKeys(s)[i] != SupplierKeys(s)[j];
    }
    forall i, j | 0 <= i < j < |h| ensures h[i] != h[j] {
      assert HubKeys(h)[i] != HubKeys(h)[j];
    }
    DistinctIffSize(used);
    DistinctIffSize(h);
    SubsetOfSameSize(Elements(used), Elements(h));
    DistinctSameElements(used, h);
  }

  lemma {:induction false} TotalOfDifferences(d: seq<int>, p: seq<int>, u: seq<int>)
    requires |d| == |p| == |u| && forall i :: 0 <= i < |d| ==> d[i] == p[i] - u[i]
    ensures Total(d) == Total(p) - Total(u)
  {
    if d != [] {
      var n := |d| - 1;
      TotalOfDifferences(d[..n], p[..n], u[..n]);
    }
  }

  lemma DifferencesAddUp(joined: seq<Joined>, s: seq<SupplierRow>, used: seq<HubRow>)
    requires |joined| == |s| == |used| && forall i :: 0 <= i < |s| ==> joined[i] == Joined(s[i], used[i])
    ensures Total(Map(WithDifference(joined), Difference)) == Total(Map(s, ReportedBy)) - Total(Map(used, Held))
  {
    var d, p, u := Map(WithDifference(joined), Difference), Map(s, ReportedBy), Map(used, Held);
    forall i | 0 <= i < |d| ensures d[i] == p[i] - u[i] {
      assert WithDifference(joined)[i] == ResultOf(joined[i]);
    }
    TotalOfDifferences(d, p, u);
  }

  lemma ResultsConserve(s: seq<SupplierRow>, h: seq<HubRow>, joined: seq<Joined>, rows: seq<ReconciliationResult>)
    requires OneToOne(s, h) && IsInnerJoin(s, h, joined) && |joined| == |s| == |h| &&
             IsSortOf(WithDifference(joined), rows)
    ensures Total(Map(rows, Difference)) == Total(Map(s, ReportedBy)) - Total(Map(h, Held))
  {
    var nested := NestedJoin(s, h);
    SizesPermute(joined, nested);
    MapPermutes(joined, nested, ResultOf);
    MapPermutes(rows, WithDifference(nested), Difference);
    TotalPermutes(Map(rows, Difference), Map(WithDifference(nested), Difference));
    JoinOrder(s, h);
    var used := Map(nested, RightOf);
    DifferencesAddUp(nested, s, used);
    JoinUsesEveryHubRow(s, h);
    MapPermutes(used, h, Held);
    TotalPermutes(Map(used, Held), Map(h, Held));
  }

  /** In every accepted outcome of either engine the differences add up to the total reported minus the total
      held. */
  lemma DifferencesConserve(s: seq<SupplierRow>, h: seq<HubRow>, r: Outcome)
    requires (PandasReconciles(s, h, r) || PolarsReconciles(s, h, r)) && r.Ok?
    ensures Total(Map(r.value, Difference)) == Total(Map(s, ReportedBy)) - Total(Map(h, Held))
  {
    if PandasReconciles(s, h, r) {
      var joined :| PandasChain(s, h, joined, r);
      ResultsConserve(s, h, joined, r.value);
    } else {
      var joined, sorted :| PolarsChain(s, h, joined, sorted, r);
      SizesPermute(sorted, WithDifference(joined));
      ResultsConserve(s, h, joined, sorted);
    }
  }
}
