/** Sequences up to order: collecting over a sequence, and sorting. */
module Permutations {

  /** The concatenation of `f` over a sequence: a map and a filter in one. */
  function Collect<A, B>(s: seq<A>, f: A -> seq<B>): seq<B> {
    if s == [] then [] else Collect(s[..|s| - 1], f) + f(s[|s| - 1])
  }

  lemma {:induction false} CollectOfSum<A, B>(s: seq<A>, t: seq<A>, f: A -> seq<B>)
    ensures Collect(s + t, f) == Collect(s, f) + Collect(t, f)
  {
    if t == [] {
      assert s + t == s;
    } else {
      assert (s + t)[..|s + t| - 1] == s + t[..|t| - 1];
      CollectOfSum(s, t[..|t| - 1], f);
    }
  }

  lemma SplitAround<A>(s: seq<A>, i: nat)
    requires i < |s|
    ensures s == s[..i] + [s[i]] + s[i + 1..]
  {
  }

  lemma MinusOne<A>(s: seq<A>, i: nat)
    requires i < |s|
    ensures multiset(s[..i] + s[i + 1..]) == multiset(s) - multiset{s[i]}
  {
    SplitAround(s, i);
  }

  lemma CollectNext<A, B>(s: seq<A>, x: A, f: A -> seq<B>)
    ensures Collect(s + [x], f) == Collect(s, f) + f(x)
  {
    assert (s + [x])[..|s|] == s;
  }

  lemma CollectOfTwo<A, B>(s: seq<A>, f: A -> seq<B>)
    requires |s| == 2
    ensures Collect(s, f) == f(s[0]) + f(s[1])
  {
    assert s[..1] == [s[0]] && s[..1][..0] == [];
    assert Collect(s[..1], f) == f(s[0]);
  }

  lemma CollectMiddle<A, B>(before: seq<A>, x: A, after: seq<A>, f: A -> seq<B>)
    ensures Collect(before + [x] + after, f) == Collect(before, f) + f(x) + Collect(after, f)
  {
    CollectOfSum(before + [x], after, f);
    CollectNext(before, x, f);
  }

  lemma CollectAround<A, B>(s: seq<A>, i: nat, f: A -> seq<B>)
    requires i < |s|
    ensures Collect(s, f) == Collect(s[..i], f) + f(s[i]) + Collect(s[i + 1..], f)
    ensures Collect(s[..i] + s[i + 1..], f) == Collect(s[..i], f) + Collect(s[i + 1..], f)
  {
    var before, after := s[..i], s[i + 1..];
    assert Collect(s, f) == Collect(before + [s[i]] + after, f) by { SplitAround(s, i); }
    CollectMiddle(before, s[i], after, f);
    CollectOfSum(before, after, f);
  }

  lemma SameRest<A>(s: seq<A>, i: nat, t: seq<A>, k: nat)
    requires multiset(s) == multiset(t) && i < |s| && k < |t| && s[i] == t[k]
    ensures multiset(s[..i] + s[i + 1..]) == multiset(t[..k] + t[k + 1..])
  {
    MinusOne(s, i);
    MinusOne(t, k);
  }

  lemma SumsPermute<B>(a: seq<B>, x: seq<B>, b: seq<B>, c: seq<B>, d: seq<B>)
    requires multiset(a + b) == multiset(c + d)
    ensures multiset(a + x + b) == multiset(c + x + d)
  {
    assert multiset(a + x + b) == multiset(a + b) + multiset(x);
    assert multiset(c + x + d) == multiset(c + d) + multiset(x);
  }

  /** Collecting does not depend on the order of the input, up to the order of the output. */
  lemma {:induction false} CollectPermutes<A, B>(s: seq<A>, t: seq<A>, f: A -> seq<B>)
    requires multiset(s) == multiset(t)
    ensures multiset(Collect(s, f)) == multiset(Collect(t, f))
  {
    assert |s| == |multiset(s)| == |multiset(t)| == |t|;
    if s != [] {
      var i := |s| - 1;
      assert s[i] in multiset(t);
      var k :| 0 <= k < |t| && t[k] == s[i];
      SameRest(s, i, t, k);
      CollectPermutes(s[..i] + s[i + 1..], t[..k] + t[k + 1..], f);
      CollectAround(s, i, f);
      CollectAround(t, k, f);
      SumsPermute(Collect(s[..i], f), f(s[i]), Collect(s[i + 1..], f), Collect(t[..k], f), Collect(t[k + 1..], f));
    }
  }

  /** `key` never decreases along the sequence. */
  ghost predicate Ascending<A(!new)>(s: seq<A>, key: A -> real) {
    forall i, j :: 0 <= i < j < |s| ==> key(s[i]) <= key(s[j])
  }

  /** Insert before the first element with as great a key. */
  function Insert<A>(x: A, s: seq<A>, key: A -> real): seq<A> {
    if s == [] || key(x) <= key(s[0]) then [x] + s else [s[0]] + Insert(x, s[1..], key)
  }

  function SortBy<A>(s: seq<A>, key: A -> real): seq<A> {
    if s == [] then [] else Insert(s[0], SortBy(s[1..], key), key)
  }

  lemma {:induction false} InsertAdds<A>(x: A, s: seq<A>, key: A -> real)
    ensures multiset(Insert(x, s, key)) == multiset(s) + multiset{x}
  {
    if s != [] && !(key(x) <= key(s[0])) {
      InsertAdds(x, s[1..], key);
      assert s == [s[0]] + s[1..];
    }
  }

  lemma {:induction false} InsertAscends<A(!new)>(x: A, s: seq<A>, key: A -> real)
    requires Ascending(s, key)
    ensures Ascending(Insert(x, s, key), key)
  {
    if s != [] && !(key(x) <= key(s[0])) {
      var rest := Insert(x, s[1..], key);
      InsertAscends(x, s[1..], key);
      InsertAdds(x, s[1..], key);
      forall j | 0 <= j < |rest| ensures key(s[0]) <= key(rest[j]) {
        assert rest[j] in multiset(rest);
        assert rest[j] == x || rest[j] in multiset(s[1..]);
      }
    }
  }

  lemma {:induction false} SortBySorts<A(!new)>(s: seq<A>, key: A -> real)
    ensures Ascending(SortBy(s, key), key) && multiset(SortBy(s, key)) == multiset(s)
  {
    if s != [] {
      SortBySorts(s[1..], key);
      InsertAscends(s[0], SortBy(s[1..], key), key);
      InsertAdds(s[0], SortBy(s[1..], key), key);
      assert s == [s[0]] + s[1..];
    }
  }

  lemma GreatestIsLast<A(!new)>(s: seq<A>, t: seq<A>, key: A -> real)
    requires s != [] && multiset(s) == multiset(t) && Ascending(s, key) && Ascending(t, key)
    ensures t != [] && key(s[|s| - 1]) == key(t[|t| - 1]) && t[|t| - 1] in s
  {
    assert s[|s| - 1] in multiset(t);
    var y := t[|t| - 1];
    assert y in multiset(s);
    var k :| 0 <= k < |t| && t[k] == s[|s| - 1];
    var m :| 0 <= m < |s| && s[m] == y;
  }

  ghost predicate Determines<A(!new)>(key: A -> real, s: seq<A>) {
    forall i, j :: 0 <= i < |s| && 0 <= j < |s| && key(s[i]) == key(s[j]) ==> s[i] == s[j]
  }

  /** Two sorted arrangements of the same elements are equal when the sort key determines the element. */
  lemma {:induction false} SortedIsUnique<A(!new)>(s: seq<A>, t: seq<A>, key: A -> real)
    requires multiset(s) == multiset(t) && Ascending(s, key) && Ascending(t, key) && Determines(key, s)
    ensures s == t
  {
    assert |s| == |multiset(s)| == |multiset(t)| == |t|;
    if s != [] {
      var i := |s| - 1;
      LastIsSame(s, t, key);
      SameRest(s, i, t, i);
      WithoutLast(s);
      WithoutLast(t);
      SortedIsUnique(s[..i], t[..i], key);
      assert s == s[..i] + [s[i]] && t == t[..i] + [t[i]];
    }
  }

  lemma WithoutLast<A>(s: seq<A>)
    requires s != []
    ensures s[..|s| - 1] + s[|s|..] == s[..|s| - 1]
  {
  }

  lemma LastIsSame<A(!new)>(s: seq<A>, t: seq<A>, key: A -> real)
    requires s != [] && |s| == |t| && multiset(s) == multiset(t)
    requires Ascending(s, key) && Ascending(t, key) && Determines(key, s)
    ensures s[|s| - 1] == t[|s| - 1]
  {
    GreatestIsLast(s, t, key);
    var m :| 0 <= m < |s| && s[m] == t[|s| - 1];
  }

  // -------------------------------------------------------------- members and totals

  /** Elements that yield the same multiset, whatever its order. */
  lemma {:induction false} CollectPointwise<A(!new), B>(s: seq<A>, f: A -> seq<B>, g: A -> seq<B>)
    requires forall x :: x in s ==> multiset(f(x)) == multiset(g(x))
    ensures multiset(Collect(s, f)) == multiset(Collect(s, g))
  {
    if s != [] { CollectPointwise(s[..|s| - 1], f, g); }
  }

  /** What is collected comes from an element, and every element's part is collected. */
  lemma {:induction false} CollectMembers<A, B>(s: seq<A>, f: A -> seq<B>, y: B)
    ensures y in Collect(s, f) <==> exists i :: 0 <= i < |s| && y in f(s[i])
  {
    if s != [] {
      CollectMembers(s[..|s| - 1], f, y);
      if y in Collect(s[..|s| - 1], f) {
        var i :| 0 <= i < |s| - 1 && y in f(s[..|s| - 1][i]);
        assert y in f(s[i]);
      }
      if i :| 0 <= i < |s| && y in f(s[i]) {
        if i < |s| - 1 { assert y in f(s[..|s| - 1][i]); }
      }
    }
  }

  function Total(s: seq<int>): int {
    if s == [] then 0 else Total(s[..|s| - 1]) + s[|s| - 1]
  }

  lemma {:induction false} TotalOfSum(s: seq<int>, t: seq<int>)
    ensures Total(s + t) == Total(s) + Total(t)
  {
    if t == [] {
      assert s + t == s;
    } else {
      assert (s + t)[..|s + t| - 1] == s + t[..|t| - 1];
      TotalOfSum(s, t[..|t| - 1]);
    }
  }

  lemma TotalAround(s: seq<int>, i: nat)
    requires i < |s|
    ensures Total(s) == Total(s[..i] + s[i + 1..]) + s[i]
  {
    assert Total(s[..i + 1]) == Total(s[..i]) + s[i] by { assert s[..i + 1][..i] == s[..i]; }
    assert Total(s) == Total(s[..i + 1]) + Total(s[i + 1..]) by {
      assert s == s[..i + 1] + s[i + 1..];
      TotalOfSum(s[..i + 1], s[i + 1..]);
    }
    TotalOfSum(s[..i], s[i + 1..]);
  }

  lemma {:induction false} TotalPermutes(s: seq<int>, t: seq<int>)
    requires multiset(s) == multiset(t)
    ensures Total(s) == Total(t)
  {
    assert |s| == |multiset(s)| == |multiset(t)| == |t|;
    if s != [] {
      var i := |s| - 1;
      assert s[i] in multiset(t);
      var k :| 0 <= k < |t| && t[k] == s[i];
      SameRest(s, i, t, k);
      TotalPermutes(s[..i] + s[i + 1..], t[..k] + t[k + 1..]);
      TotalAround(s, i);
      TotalAround(t, k);
    }
  }

  // ------------------------------------------------------------------ maps and sizes

  function Map<A, B>(s: seq<A>, f: A -> B): seq<B> {
    seq(|s|, i requires 0 <= i < |s| => f(s[i]))
  }

  function Single<A, B>(f: A -> B): A -> seq<B> {
    x => [f(x)]
  }

  lemma {:induction false} MapIsCollect<A, B>(s: seq<A>, f: A -> B)
    ensures Map(s, f) == Collect(s, Single(f))
  {
    if s != [] {
      MapIsCollect(s[..|s| - 1], f);
      assert Map(s, f) == Map(s[..|s| - 1], f) + [f(s[|s| - 1])];
    }
  }

  lemma MapPermutes<A, B>(s: seq<A>, t: seq<A>, f: A -> B)
    requires multiset(s) == multiset(t)
    ensures multiset(Map(s, f)) == multiset(Map(t, f))
  {
    MapIsCollect(s, f);
    MapIsCollect(t, f);
    CollectPermutes(s, t, Single(f));
  }

  predicate Distinct<A(==)>(s: seq<A>) {
    forall i, j :: 0 <= i < j < |s| ==> s[i] != s[j]
  }

  function Elements<A>(s: seq<A>): set<A> {
    set x | x in s
  }

  /** A sequence has at most as many elements as entries, and as many exactly when they are distinct. */
  lemma {:induction false} DistinctIffSize<A>(s: seq<A>)
    ensures |Elements(s)| <= |s|
    ensures Distinct(s) <==> |Elements(s)| == |s|
  {
    if s == [] {
      assert Elements(s) == {};
    } else {
      var before, x := s[..|s| - 1], s[|s| - 1];
      DistinctIffSize(before);
      assert Elements(s) == Elements(before) + {x};
      if x in Elements(before) {
        assert Elements(s) == Elements(before);
        assert !Distinct(s);
      }
    }
  }

  lemma DistinctPermutes<A>(s: seq<A>, t: seq<A>)
    requires multiset(s) == multiset(t)
    ensures Distinct(s) <==> Distinct(t)
    ensures Elements(s) == Elements(t)
  {
    assert |s| == |multiset(s)| == |multiset(t)| == |t|;
    forall x ensures x in s <==> x in t { assert x in s <==> x in multiset(s); assert x in t <==> x in multiset(t); }
    assert Elements(s) == Elements(t);
    DistinctIffSize(s);
    DistinctIffSize(t);
  }

  lemma {:induction false} DistinctIsSet<A>(s: seq<A>)
    requires Distinct(s)
    ensures multiset(s) == multiset(Elements(s))
  {
    if s != [] {
      var before, x := s[..|s| - 1], s[|s| - 1];
      DistinctIsSet(before);
      assert s == before + [x];
      assert Elements(s) == Elements(before) + {x} && x !in Elements(before);
    }
  }

  /** Distinct entries and the same elements: the same up to order. */
  lemma DistinctSameElements<A>(s: seq<A>, t: seq<A>)
    requires Distinct(s) && Distinct(t) && Elements(s) == Elements(t)
    ensures multiset(s) == multiset(t)
  {
    DistinctIsSet(s);
    DistinctIsSet(t);
  }
}
