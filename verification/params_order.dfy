/** `sorted(params.items(), key=lambda x: x[0])`: the order in which the step sends and
    logs query parameters. Python's `sorted` is a stable sort; here it is an insertion sort
    that inserts each item before the first one whose key is not smaller. */
module ParamsOrder {
  import opened Text
  import opened PyValues

  /** Keys are non-decreasing in Python's `str` order. */
  predicate SortedByKey(s: seq<Pair>)
  {
    forall i, j :: 0 <= i < j < |s| ==> StrLe(s[i].0, s[j].0)
  }

  function InsertByKey(x: Pair, s: seq<Pair>): seq<Pair>
  {
    if s == [] then [x]
    else if StrLe(x.0, s[0].0) then [x] + s
    else [s[0]] + InsertByKey(x, s[1..])
  }

  function SortByKey(s: seq<Pair>): seq<Pair>
  {
    if s == [] then [] else InsertByKey(s[0], SortByKey(s[1..]))
  }

  lemma {:induction false} InsertByKeyMembers(x: Pair, s: seq<Pair>)
    ensures multiset(InsertByKey(x, s)) == multiset(s) + multiset{x}
  {
    if s != [] && !StrLe(x.0, s[0].0) {
      InsertByKeyMembers(x, s[1..]);
      assert s == [s[0]] + s[1..];
    }
  }

  lemma {:induction false} InsertByKeySorted(x: Pair, s: seq<Pair>)
    requires SortedByKey(s)
    ensures SortedByKey(InsertByKey(x, s))
  {
    if s == [] {
    } else if StrLe(x.0, s[0].0) {
      forall j | 0 < j < |s| ensures StrLe(x.0, s[j].0) {
        StrLeTransitive(x.0, s[0].0, s[j].0);
      }
    } else {
      var t := InsertByKey(x, s[1..]);
      InsertByKeySorted(x, s[1..]);
      InsertByKeyMembers(x, s[1..]);
      StrLeTotal(x.0, s[0].0);
      forall j | 0 <= j < |t| ensures StrLe(s[0].0, t[j].0) {
        assert t[j] in multiset(t);
        if t[j] != x {
          assert t[j] in multiset(s[1..]);
          var k :| 0 <= k < |s[1..]| && s[1..][k] == t[j];
          assert s[k + 1] == t[j];
        }
      }
    }
  }

  /** The params actually sent are the given items, reordered so that keys never decrease. */
  lemma {:induction false} SortByKeyCorrect(s: seq<Pair>)
    ensures SortedByKey(SortByKey(s))
    ensures multiset(SortByKey(s)) == multiset(s)
  {
    if s != [] {
      SortByKeyCorrect(s[1..]);
      InsertByKeySorted(s[0], SortByKey(s[1..]));
      InsertByKeyMembers(s[0], SortByKey(s[1..]));
      assert s == [s[0]] + s[1..];
    }
  }

  lemma {:induction false} InsertByKeyDistinct(x: Pair, s: seq<Pair>)
    requires DistinctKeys(s)
    requires forall y :: y in s ==> y.0 != x.0
    ensures DistinctKeys(InsertByKey(x, s))
  {
    if s != [] && !StrLe(x.0, s[0].0) {
      var t := InsertByKey(x, s[1..]);
      InsertByKeyDistinct(x, s[1..]);
      InsertByKeyMembers(x, s[1..]);
      forall j | 0 <= j < |t| ensures s[0].0 != t[j].0 {
        assert t[j] in multiset(t);
        if t[j] != x {
          assert t[j] in multiset(s[1..]);
          var k :| 0 <= k < |s[1..]| && s[1..][k] == t[j];
          assert s[k + 1] == t[j];
        }
      }
    }
  }

  lemma {:induction false} SortByKeyDistinct(s: seq<Pair>)
    requires DistinctKeys(s)
    ensures DistinctKeys(SortByKey(s))
  {
    if s != [] {
      var t := SortByKey(s[1..]);
      SortByKeyDistinct(s[1..]);
      SortByKeyCorrect(s[1..]);
      forall y | y in t ensures y.0 != s[0].0 {
        assert y in multiset(t);
        assert y in multiset(s[1..]);
        var k :| 0 <= k < |s[1..]| && s[1..][k] == y;
        assert s[k + 1] == y;
      }
      InsertByKeyDistinct(s[0], t);
    }
  }

  /** The items of a dict (distinct keys) come out in strictly ascending key order. */
  lemma SortByKeyStrictlyAscending(s: seq<Pair>)
    requires DistinctKeys(s)
    ensures forall i, j :: 0 <= i < j < |SortByKey(s)| ==>
      StrLe(SortByKey(s)[i].0, SortByKey(s)[j].0) && SortByKey(s)[i].0 != SortByKey(s)[j].0
  {
    SortByKeyCorrect(s);
    SortByKeyDistinct(s);
  }

  /** A dict's items already in key order are left as they are. */
  lemma {:induction false} SortByKeyKeepsSorted(s: seq<Pair>)
    requires SortedByKey(s)
    ensures SortByKey(s) == s
  {
    if s != [] {
      SortByKeyKeepsSorted(s[1..]);
      assert s[1..] == [] || StrLe(s[0].0, s[1..][0].0);
    }
  }

  /** Items with distinct keys have exactly one arrangement sorted by key. */
  lemma {:induction false} SortedArrangementUnique(a: seq<Pair>, b: seq<Pair>)
    requires SortedByKey(a) && SortedByKey(b) && DistinctKeys(a)
    requires multiset(a) == multiset(b)
    ensures a == b
    decreases |a|
  {
    if a == [] {
      assert |b| == |multiset(b)| == 0;
    } else {
      assert |b| == |multiset(b)| == |a|;
      SortedHeadsAgree(a, b);
      SameHeadSameTail(a, b);
      SortedArrangementUnique(a[1..], b[1..]);
      assert a == [a[0]] + a[1..] && b == [b[0]] + b[1..];
    }
  }

  lemma SortedHeadsAgree(a: seq<Pair>, b: seq<Pair>)
    requires SortedByKey(a) && SortedByKey(b) && DistinctKeys(a)
    requires multiset(a) == multiset(b) && a != [] && b != []
    ensures a[0] == b[0]
  {
    assert b[0] in multiset(a);
    var j :| 0 <= j < |a| && a[j] == b[0];
    assert a[0] in multiset(b);
    var k :| 0 <= k < |b| && b[k] == a[0];
    if j != 0 {
      if k == 0 {
        assert false;
      }
      StrLeAntisymmetric(a[0].0, b[0].0);
      assert false;
    }
  }

  lemma SameHeadSameTail(a: seq<Pair>, b: seq<Pair>)
    requires multiset(a) == multiset(b) && a != [] && b != [] && a[0] == b[0]
    ensures multiset(a[1..]) == multiset(b[1..])
  {
    assert a == [a[0]] + a[1..] && b == [b[0]] + b[1..];
    var x := multiset{a[0]};
    assert multiset(a) == x + multiset(a[1..]);
    assert multiset(b) == x + multiset(b[1..]);
    assert (x + multiset(a[1..])) - x == multiset(a[1..]);
    assert (x + multiset(b[1..])) - x == multiset(b[1..]);
  }

  /** For a dict's items, the sorted order is the only one sorted by key: any sort by key,
      Python's `sorted` among them, gives the same sequence. */
  lemma SortByKeyIsTheSortedOrder(s: seq<Pair>, other: seq<Pair>)
    requires DistinctKeys(s)
    requires SortedByKey(other) && multiset(other) == multiset(s)
    ensures SortByKey(s) == other
  {
    SortByKeyCorrect(s);
    SortByKeyDistinct(s);
    SortedArrangementUnique(SortByKey(s), other);
  }
}
