/** Group-by over the rows of a table, as pandas does it: rows whose key is missing are
    dropped, groups appear once each, in ascending key order, and each group is either
    counted (`.size()`, `.value_counts()`) or summed (`.sum()`). */
module Grouping {
  import opened Wrappers
  import opened Order
  import opened Records

  /** The rows whose key is `k`, in their original order (`GroupMultiplicity` counts
      them). */
  function Group<K(==,!new)>(rows: seq<Record>, key: Record -> Option<K>, k: K): (g: seq<Record>)
    ensures |g| <= |rows|
    ensures forall r :: r in g <==> r in rows && key(r) == Some(k)
  {
    if rows == [] then []
    else (if key(rows[0]) == Some(k) then [rows[0]] else []) + Group(rows[1..], key, k)
  }

  /** The rows that have a key at all (pandas' `dropna` on the key). */
  function WithKey<K(==,!new)>(rows: seq<Record>, key: Record -> Option<K>): (w: seq<Record>)
    ensures |w| <= |rows|
    ensures forall r :: r in w <==> r in rows && key(r).Some?
  {
    if rows == [] then []
    else (if key(rows[0]).Some? then [rows[0]] else []) + WithKey(rows[1..], key)
  }

  /** A group holds each row with its key exactly as often as the rows do, and no
      other row: duplicates are counted, as pandas counts them. */
  lemma {:induction false} GroupMultiplicity<K(!new)>(rows: seq<Record>, key: Record -> Option<K>, k: K)
    ensures forall r :: multiset(Group(rows, key, k))[r] == if key(r) == Some(k) then multiset(rows)[r] else 0
  {
    if rows != [] {
      GroupMultiplicity(rows[1..], key, k);
      assert rows == [rows[0]] + rows[1..];
    }
  }

  /** Dropping the keyless rows keeps each keyed row exactly as often as it occurs. */
  lemma {:induction false} WithKeyMultiplicity<K(!new)>(rows: seq<Record>, key: Record -> Option<K>)
    ensures forall r :: multiset(WithKey(rows, key))[r] == if key(r).Some? then multiset(rows)[r] else 0
  {
    if rows != [] {
      WithKeyMultiplicity(rows[1..], key);
      assert rows == [rows[0]] + rows[1..];
    }
  }

  /** The rows whose key is one of `ks`. */
  function Covered<K(==,!new)>(rows: seq<Record>, key: Record -> Option<K>, ks: seq<K>): (c: seq<Record>)
    ensures |c| <= |rows|
    ensures forall r :: r in c <==> r in rows && key(r).Some? && key(r).value in ks
  {
    if rows == [] then []
    else
      var first := if key(rows[0]).Some? && key(rows[0]).value in ks then [rows[0]] else [];
      first + Covered(rows[1..], key, ks)
  }

  /** The distinct keys of the rows, ascending: the option lists of the sidebar and the
      group keys of a `groupby`. */
  function Keys<K(==,!new)>(rows: seq<Record>, key: Record -> Option<K>, lt: (K, K) -> bool): (ks: seq<K>)
    ensures forall k :: k in ks <==> Group(rows, key, k) != []
  {
    if rows == [] then []
    else
      var rest := Keys(rows[1..], key, lt);
      match key(rows[0])
      case None => rest
      case Some(k) => Insert(k, rest, lt)
  }

  /** The keys are exactly the values the rows hold. */
  lemma KeysAreValues<K(!new)>(rows: seq<Record>, key: Record -> Option<K>, lt: (K, K) -> bool)
    ensures forall k :: k in Keys(rows, key, lt) <==> exists r :: r in rows && key(r) == Some(k)
  {
    forall k | k in Keys(rows, key, lt) ensures exists r :: r in rows && key(r) == Some(k) {
      var g := Group(rows, key, k);
      assert g[0] in g;
    }
  }

  lemma {:induction false} KeysAscending<K(!new)>(rows: seq<Record>, key: Record -> Option<K>, lt: (K, K) -> bool)
    requires IsStrictTotalOrder(lt)
    ensures Ascending(Keys(rows, key, lt), lt)
  {
    if rows != [] {
      KeysAscending(rows[1..], key, lt);
      if key(rows[0]).Some? {
        InsertAscending(key(rows[0]).value, Keys(rows[1..], key, lt), lt);
      }
    }
  }

  /** Every row with a key is covered by the sorted key list. */
  lemma {:induction false} CoveredByKeys<K(!new)>(rows: seq<Record>, key: Record -> Option<K>, ks: seq<K>)
    requires forall k :: Group(rows, key, k) != [] ==> k in ks
    ensures Covered(rows, key, ks) == WithKey(rows, key)
  {
    if rows != [] {
      var r := rows[0];
      if key(r).Some? {
        assert r in Group(rows, key, key(r).value);
      }
      forall k | Group(rows[1..], key, k) != [] ensures k in ks {
        var g := Group(rows[1..], key, k);
        assert g[0] in g;
        assert g[0] in Group(rows, key, k);
      }
      CoveredByKeys(rows[1..], key, ks);
    }
  }

  /** Every row has a key: dropping the keyless rows drops nothing. */
  lemma {:induction false} WithKeyAll<K(!new)>(rows: seq<Record>, key: Record -> Option<K>)
    requires forall r :: r in rows ==> key(r).Some?
    ensures WithKey(rows, key) == rows
  {
    if rows != [] {
      assert rows[0] in rows;
      WithKeyAll(rows[1..], key);
    }
  }

  // ---------------------------------------------------------------- counts

  /** `(k, size of group k)` for each key of `ks`, in the order of `ks`. */
  function CountsFor<K(==,!new)>(ks: seq<K>, rows: seq<Record>, key: Record -> Option<K>): (ps: seq<(K, nat)>)
    ensures |ps| == |ks|
    ensures forall i :: 0 <= i < |ks| ==> ps[i] == (ks[i], |Group(rows, key, ks[i])|)
  {
    if ks == [] then [] else [(ks[0], |Group(rows, key, ks[0])|)] + CountsFor(ks[1..], rows, key)
  }

  function SumCounts<K>(ps: seq<(K, nat)>): nat {
    if ps == [] then 0 else ps[0].1 + SumCounts(ps[1..])
  }

  /** How often the key `o` occurs in `ks` (never, for a missing key). */
  function Occurrences<K(==)>(ks: seq<K>, o: Option<K>): nat {
    if ks == [] then 0 else (if o == Some(ks[0]) then 1 else 0) + Occurrences(ks[1..], o)
  }

  lemma {:induction false} OccurrencesOfDistinct<K>(ks: seq<K>, o: Option<K>)
    requires Distinct(ks)
    ensures Occurrences(ks, o) == if o.Some? && o.value in ks then 1 else 0
  {
    if ks != [] {
      OccurrencesOfDistinct(ks[1..], o);
      if o == Some(ks[0]) {
        assert ks[0] !in ks[1..];
      }
    }
  }

  /** Taking off the first row lowers the counts by how often its key is among `ks`. */
  lemma {:induction false} SumCountsStep<K(!new)>(ks: seq<K>, rows: seq<Record>, key: Record -> Option<K>)
    requires rows != []
    ensures SumCounts(CountsFor(ks, rows, key))
         == Occurrences(ks, key(rows[0])) + SumCounts(CountsFor(ks, rows[1..], key))
  {
    if ks != [] {
      assert CountsFor(ks, rows, key)[1..] == CountsFor(ks[1..], rows, key);
      assert CountsFor(ks, rows[1..], key)[1..] == CountsFor(ks[1..], rows[1..], key);
      SumCountsStep(ks[1..], rows, key);
    }
  }

  /** Group sizes over distinct keys add up to the number of rows with one of those keys. */
  lemma {:induction false} SumCountsCovered<K(!new)>(ks: seq<K>, rows: seq<Record>, key: Record -> Option<K>)
    requires Distinct(ks)
    ensures SumCounts(CountsFor(ks, rows, key)) == |Covered(rows, key, ks)|
  {
    if rows == [] {
      SumCountsEmptyRows(ks, key);
    } else {
      SumCountsStep(ks, rows, key);
      OccurrencesOfDistinct(ks, key(rows[0]));
      SumCountsCovered(ks, rows[1..], key);
    }
  }

  lemma {:induction false} SumCountsEmptyRows<K(!new)>(ks: seq<K>, key: Record -> Option<K>)
    ensures SumCounts(CountsFor(ks, [], key)) == 0
  {
    if ks != [] {
      assert CountsFor(ks, [], key)[1..] == CountsFor(ks[1..], [], key);
      SumCountsEmptyRows(ks[1..], key);
    }
  }

  /** The counts of every group: `groupby(key).size()`. Keys ascend, every count is at
      least one, and a pair is present exactly when it names a group and its size. */
  function GroupCounts<K(==,!new)>(rows: seq<Record>, key: Record -> Option<K>, lt: (K, K) -> bool): (ps: seq<(K, nat)>)
    ensures forall p :: p in ps <==> Group(rows, key, p.0) != [] && p.1 == |Group(rows, key, p.0)|
    ensures forall i :: 0 <= i < |ps| ==> ps[i].1 >= 1
  {
    var ks := Keys(rows, key, lt);
    var ps := CountsFor(ks, rows, key);
    assert forall i :: 0 <= i < |ps| ==> ks[i] in ks;
    assert forall p :: p in ps ==> exists i :: 0 <= i < |ks| && p == ps[i];
    assert forall k :: k in ks ==> exists i :: 0 <= i < |ks| && ks[i] == k;
    ps
  }

  lemma GroupCountsSpec<K(!new)>(rows: seq<Record>, key: Record -> Option<K>, lt: (K, K) -> bool)
    requires IsStrictTotalOrder(lt)
    ensures var ps := GroupCounts(rows, key, lt);
      && (forall i, j :: 0 <= i < j < |ps| ==> lt(ps[i].0, ps[j].0))
      && SumCounts(ps) == |WithKey(rows, key)|
  {
    var ks := Keys(rows, key, lt);
    KeysAscending(rows, key, lt);
    AscendingIsDistinct(ks, lt);
    SumCountsCovered(ks, rows, key);
    CoveredByKeys(rows, key, ks);
  }

  // ---------------------------------------------------------------- sums

  /** The sum of `val` over the rows. */
  function Total(rows: seq<Record>, val: Record -> real): real {
    if rows == [] then 0.0 else val(rows[0]) + Total(rows[1..], val)
  }

  /** `(k, sum of val over group k)` for each key of `ks`, in the order of `ks`. */
  function TotalsFor<K(==,!new)>(ks: seq<K>, rows: seq<Record>, key: Record -> Option<K>, val: Record -> real): (ps: seq<(K, real)>)
    ensures |ps| == |ks|
    ensures forall i :: 0 <= i < |ks| ==> ps[i] == (ks[i], Total(Group(rows, key, ks[i]), val))
  {
    if ks == [] then []
    else [(ks[0], Total(Group(rows, key, ks[0]), val))] + TotalsFor(ks[1..], rows, key, val)
  }

  function SumTotals<K>(ps: seq<(K, real)>): real {
    if ps == [] then 0.0 else ps[0].1 + SumTotals(ps[1..])
  }

  lemma TotalCons(x: Record, s: seq<Record>, val: Record -> real)
    ensures Total([x] + s, val) == val(x) + Total(s, val)
  {
    assert ([x] + s)[1..] == s;
  }

  /** `v` once for every occurrence of the key `o` in `ks`. */
  function Repeated<K(==)>(ks: seq<K>, o: Option<K>, v: real): real {
    if ks == [] then 0.0 else (if o == Some(ks[0]) then v else 0.0) + Repeated(ks[1..], o, v)
  }

  lemma {:induction false} RepeatedOfDistinct<K>(ks: seq<K>, o: Option<K>, v: real)
    requires Distinct(ks)
    ensures Repeated(ks, o, v) == if o.Some? && o.value in ks then v else 0.0
  {
    if ks != [] {
      RepeatedOfDistinct(ks[1..], o, v);
      if o == Some(ks[0]) {
        assert ks[0] !in ks[1..];
      }
    }
  }

  lemma SumTotalsCons<K>(p: (K, real), t: seq<(K, real)>)
    ensures SumTotals([p] + t) == p.1 + SumTotals(t)
  {
    assert ([p] + t)[1..] == t;
  }

  lemma {:induction false} SumTotalsStep<K(!new)>(ks: seq<K>, rows: seq<Record>, key: Record -> Option<K>, val: Record -> real)
    requires rows != []
    ensures SumTotals(TotalsFor(ks, rows, key, val))
         == Repeated(ks, key(rows[0]), val(rows[0])) + SumTotals(TotalsFor(ks, rows[1..], key, val))
  {
    if ks != [] {
      var x := rows[0];
      var k := ks[0];
      var whole := TotalsFor(ks, rows, key, val);
      var tail := TotalsFor(ks, rows[1..], key, val);
      assert whole == [whole[0]] + TotalsFor(ks[1..], rows, key, val);
      assert tail == [tail[0]] + TotalsFor(ks[1..], rows[1..], key, val);
      SumTotalsCons(whole[0], TotalsFor(ks[1..], rows, key, val));
      SumTotalsCons(tail[0], TotalsFor(ks[1..], rows[1..], key, val));
      SumTotalsStep(ks[1..], rows, key, val);
      if key(x) == Some(k) {
        assert Group(rows, key, k) == [x] + Group(rows[1..], key, k);
        TotalCons(x, Group(rows[1..], key, k), val);
      } else {
        assert Group(rows, key, k) == Group(rows[1..], key, k);
      }
    }
  }

  lemma {:induction false} SumTotalsEmptyRows<K(!new)>(ks: seq<K>, key: Record -> Option<K>, val: Record -> real)
    ensures SumTotals(TotalsFor(ks, [], key, val)) == 0.0
  {
    if ks != [] {
      assert TotalsFor(ks, [], key, val)[1..] == TotalsFor(ks[1..], [], key, val);
      SumTotalsEmptyRows(ks[1..], key, val);
    }
  }

  /** Group sums over distinct keys add up to the sum over the rows with one of those keys. */
  lemma {:induction false} SumTotalsCovered<K(!new)>(ks: seq<K>, rows: seq<Record>, key: Record -> Option<K>, val: Record -> real)
    requires Distinct(ks)
    ensures SumTotals(TotalsFor(ks, rows, key, val)) == Total(Covered(rows, key, ks), val)
  {
    if rows == [] {
      SumTotalsEmptyRows(ks, key, val);
    } else {
      var x := rows[0];
      SumTotalsStep(ks, rows, key, val);
      RepeatedOfDistinct(ks, key(x), val(x));
      SumTotalsCovered(ks, rows[1..], key, val);
      if key(x).Some? && key(x).value in ks {
        assert Covered(rows, key, ks) == [x] + Covered(rows[1..], key, ks);
        TotalCons(x, Covered(rows[1..], key, ks), val);
      } else {
        assert Covered(rows, key, ks) == Covered(rows[1..], key, ks);
      }
    }
  }

  /** The sums of every group: `groupby(key)[val].sum()`. A pair is present exactly
      when it names a group and that group's sum. */
  function GroupTotals<K(==,!new)>(rows: seq<Record>, key: Record -> Option<K>, lt: (K, K) -> bool, val: Record -> real): (ps: seq<(K, real)>)
    ensures forall p :: p in ps <==> Group(rows, key, p.0) != [] && p.1 == Total(Group(rows, key, p.0), val)
  {
    var ks := Keys(rows, key, lt);
    var ps := TotalsFor(ks, rows, key, val);
    assert forall i :: 0 <= i < |ps| ==> ks[i] in ks;
    assert forall p :: p in ps ==> exists i :: 0 <= i < |ks| && p == ps[i];
    assert forall k :: k in ks ==> exists i :: 0 <= i < |ks| && ks[i] == k;
    ps
  }

  lemma GroupTotalsSpec<K(!new)>(rows: seq<Record>, key: Record -> Option<K>, lt: (K, K) -> bool, val: Record -> real)
    requires IsStrictTotalOrder(lt)
    ensures var ps := GroupTotals(rows, key, lt, val);
      && (forall i, j :: 0 <= i < j < |ps| ==> lt(ps[i].0, ps[j].0))
      && SumTotals(ps) == Total(WithKey(rows, key), val)
  {
    var ks := Keys(rows, key, lt);
    KeysAscending(rows, key, lt);
    AscendingIsDistinct(ks, lt);
    SumTotalsCovered(ks, rows, key, val);
    CoveredByKeys(rows, key, ks);
  }

  // ---------------------------------------------------------------- value_counts order

  /** Places a pair after every pair with a count at least as large. */
  function InsertByCount<K(!new)>(p: (K, nat), s: seq<(K, nat)>): (r: seq<(K, nat)>)
    ensures multiset(r) == multiset(s) + multiset{p}
    ensures forall q :: q in r <==> q == p || q in s
    ensures SumCounts(r) == p.1 + SumCounts(s)
  {
    if s == [] then [p]
    else if s[0].1 < p.1 then [p] + s
    else
      var t := InsertByCount(p, s[1..]);
      assert s == [s[0]] + s[1..];
      SumCountsCons(s[0], t);
      [s[0]] + t
  }

  lemma SumCountsCons<K>(p: (K, nat), t: seq<(K, nat)>)
    ensures SumCounts([p] + t) == p.1 + SumCounts(t)
  {
    assert ([p] + t)[1..] == t;
  }

  predicate CountsDescending<K>(s: seq<(K, nat)>) {
    forall i, j :: 0 <= i < j < |s| ==> s[i].1 >= s[j].1
  }

  /** A pair whose count is at least every count of a descending sequence can lead it. */
  lemma ConsDescending<K>(x: (K, nat), t: seq<(K, nat)>)
    requires CountsDescending(t)
    requires forall j :: 0 <= j < |t| ==> x.1 >= t[j].1
    ensures CountsDescending([x] + t)
  {
    var r := [x] + t;
    forall i, j | 0 <= i < j < |r| ensures r[i].1 >= r[j].1 {
      assert r[j] == t[j - 1];
      if i > 0 {
        assert r[i] == t[i - 1];
      }
    }
  }

  lemma {:induction false} InsertByCountDescending<K(!new)>(p: (K, nat), s: seq<(K, nat)>)
    requires CountsDescending(s)
    ensures CountsDescending(InsertByCount(p, s))
  {
    if s != [] && s[0].1 >= p.1 {
      InsertByCountDescending(p, s[1..]);
      var t := InsertByCount(p, s[1..]);
      forall j | 0 <= j < |t| ensures s[0].1 >= t[j].1 {
        assert t[j] in t;
        if t[j] != p {
          var k :| 0 <= k < |s[1..]| && s[1..][k] == t[j];
          assert s[1 + k] == t[j];
        }
      }
      ConsDescending(s[0], t);
    } else if s != [] {
      ConsDescending(p, s);
    }
  }

  /** Orders the pairs by count, largest first, as `value_counts()` does. */
  function SortByCount<K(!new)>(ps: seq<(K, nat)>): (r: seq<(K, nat)>)
    ensures multiset(r) == multiset(ps)
    ensures SumCounts(r) == SumCounts(ps)
    ensures CountsDescending(r)
  {
    if ps == [] then []
    else
      var t := SortByCount(ps[1..]);
      InsertByCountDescending(ps[0], t);
      assert ps == [ps[0]] + ps[1..];
      SumCountsCons(ps[0], ps[1..]);
      InsertByCount(ps[0], t)
  }
}
