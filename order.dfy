/** Strict total orders and the sorted, duplicate-free sequences built with them:
    the key order of `sorted(...)` and of `groupby(...)` with its default `sort=True`. */
module Order {

  /** `lt` is irreflexive, transitive and relates any two distinct values. */
  ghost predicate IsStrictTotalOrder<K(!new)>(lt: (K, K) -> bool) {
    && (forall a :: !lt(a, a))
    && (forall a, b, c :: lt(a, b) && lt(b, c) ==> lt(a, c))
    && (forall a, b :: a != b ==> lt(a, b) || lt(b, a))
  }

  /** Strictly ascending under `lt`. */
  predicate Ascending<K>(s: seq<K>, lt: (K, K) -> bool) {
    forall i, j :: 0 <= i < j < |s| ==> lt(s[i], s[j])
  }

  /** No value occurs twice. */
  predicate Distinct<K(==)>(s: seq<K>) {
    forall i, j :: 0 <= i < j < |s| ==> s[i] != s[j]
  }

  lemma AscendingIsDistinct<K(!new)>(s: seq<K>, lt: (K, K) -> bool)
    requires IsStrictTotalOrder(lt)
    requires Ascending(s, lt)
    ensures Distinct(s)
  {
  }

  /** Adds `x` to an ascending sequence at its place, unless it is already there. */
  function Insert<K(==,!new)>(x: K, s: seq<K>, lt: (K, K) -> bool): (r: seq<K>)
    ensures forall y :: y in r <==> y == x || y in s
  {
    if s == [] then [x]
    else if x == s[0] then s
    else if lt(x, s[0]) then [x] + s
    else [s[0]] + Insert(x, s[1..], lt)
  }

  lemma {:induction false} InsertAscending<K(!new)>(x: K, s: seq<K>, lt: (K, K) -> bool)
    requires IsStrictTotalOrder(lt)
    requires Ascending(s, lt)
    ensures Ascending(Insert(x, s, lt), lt)
  {
    if s == [] || x == s[0] {
    } else if lt(x, s[0]) {
      var r := [x] + s;
      forall i, j | 0 <= i < j < |r| ensures lt(r[i], r[j]) {
        if i == 0 && j > 1 {
          assert lt(s[0], s[j - 1]);
        }
      }
    } else {
      assert lt(s[0], x);
      var t := Insert(x, s[1..], lt);
      InsertAscending(x, s[1..], lt);
      var r := [s[0]] + t;
      assert r == Insert(x, s, lt);
      forall i, j | 0 <= i < j < |r| ensures lt(r[i], r[j]) {
        if i == 0 {
          assert r[j] == t[j - 1] && t[j - 1] in t;
          if t[j - 1] != x {
            assert t[j - 1] in s[1..];
            var k :| 0 <= k < |s[1..]| && s[1..][k] == t[j - 1];
            assert s[k + 1] == t[j - 1];
          }
        } else {
          assert r[i] == t[i - 1] && r[j] == t[j - 1];
        }
      }
    }
  }
}
