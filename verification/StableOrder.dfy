/**
 * The order a stable descending sort gives the positions of a list: larger key first, equal keys
 * in list order. Python's sorted(range(n), key=lambda i: (-key[i], i)) and
 * sorted(xs, key=key, reverse=True) both yield it.
 */
module StableOrder {

  predicate Before(keys: seq<real>, i: nat, j: nat)
    requires i < |keys| && j < |keys|
  {
    keys[i] > keys[j] || (keys[i] == keys[j] && i < j)
  }

  /** `order` lists every position below `n` once, each before all those it precedes. */
  ghost predicate IsOrder(keys: seq<real>, n: nat, order: seq<nat>)
    requires n <= |keys|
  {
    && |order| == n
    && (forall k :: 0 <= k < |order| ==> order[k] < n)
    && (forall i: nat :: i < n ==> i in order)
    && (forall a, b :: 0 <= a < b < |order| ==>
        order[a] < |keys| && order[b] < |keys| && Before(keys, order[a], order[b]))
  }

  function Insert(keys: seq<real>, i: nat, order: seq<nat>): seq<nat>
    requires i < |keys|
    requires forall k :: 0 <= k < |order| ==> order[k] < |keys|
  {
    if order == [] then [i]
    else if Before(keys, i, order[0]) then [i] + order
    else [order[0]] + Insert(keys, i, order[1..])
  }

  function Order(keys: seq<real>, n: nat): (order: seq<nat>)
    requires n <= |keys|
    ensures |order| == n && forall k :: 0 <= k < |order| ==> order[k] < n
  {
    if n == 0 then []
    else
      var rest := Order(keys, n - 1);
      InsertMembers(keys, n - 1, rest);
      InsertBounded(keys, n - 1, rest);
      Insert(keys, n - 1, rest)
  }

  lemma {:induction false} OrderIs(keys: seq<real>, n: nat)
    requires n <= |keys|
    ensures IsOrder(keys, n, Order(keys, n))
  {
    if n > 0 {
      OrderIs(keys, n - 1);
      InsertKeeps(keys, n - 1, Order(keys, n - 1));
    }
  }

  lemma InsertBounded(keys: seq<real>, n: nat, order: seq<nat>)
    requires n < |keys| && forall k :: 0 <= k < |order| ==> order[k] < n
    ensures forall k :: 0 <= k < |Insert(keys, n, order)| ==> Insert(keys, n, order)[k] < n + 1
  {}

  /** A strictly ordered list of positions. */
  ghost predicate Ordered(keys: seq<real>, order: seq<nat>) {
    && (forall k :: 0 <= k < |order| ==> order[k] < |keys|)
    && (forall a, b :: 0 <= a < b < |order| ==> Before(keys, order[a], order[b]))
  }

  lemma {:induction false} InsertMembers(keys: seq<real>, i: nat, order: seq<nat>)
    requires i < |keys| && forall k :: 0 <= k < |order| ==> order[k] < |keys|
    ensures |Insert(keys, i, order)| == |order| + 1
    ensures forall x: nat :: x in Insert(keys, i, order) <==> x == i || x in order
  {
    if order != [] && !Before(keys, i, order[0]) {
      InsertMembers(keys, i, order[1..]);
      assert order == [order[0]] + order[1..];
    }
  }

  lemma {:induction false} InsertOrdered(keys: seq<real>, i: nat, order: seq<nat>)
    requires i < |keys| && Ordered(keys, order) && i !in order
    ensures Ordered(keys, Insert(keys, i, order))
  {
    if order != [] && !Before(keys, i, order[0]) {
      InsertOrdered(keys, i, order[1..]);
      InsertMembers(keys, i, order[1..]);
      var rest := Insert(keys, i, order[1..]);
      forall b | 0 <= b < |rest| ensures Before(keys, order[0], rest[b]) {
        assert rest[b] in rest;
      }
    }
  }

  lemma InsertKeeps(keys: seq<real>, n: nat, order: seq<nat>)
    requires n < |keys| && IsOrder(keys, n, order)
    ensures IsOrder(keys, n + 1, Insert(keys, n, order))
  {
    InsertOrdered(keys, n, order);
    InsertMembers(keys, n, order);
    var r := Insert(keys, n, order);
    forall k | 0 <= k < |r| ensures r[k] < n + 1 { assert r[k] in r; }
  }

  /** A prefix of the order is closed under Before: whoever precedes a chosen position is chosen. */
  lemma PrefixClosed(keys: seq<real>, n: nat, order: seq<nat>, m: nat, i: nat, j: nat)
    requires n <= |keys| && IsOrder(keys, n, order) && m <= |order|
    requires i < n && j < n && i in order[..m] && j !in order[..m]
    ensures Before(keys, i, j)
  {
    var a :| 0 <= a < m && order[a] == i;
    assert j in order;
    var b :| 0 <= b < |order| && order[b] == j;
    assert forall k :: 0 <= k < m ==> order[..m][k] == order[k];
  }

  /** The order is unique, so any correct stable sort returns this very list. */
  lemma {:induction false} OrderUnique(keys: seq<real>, n: nat, s: seq<nat>, t: seq<nat>)
    requires n <= |keys| && IsOrder(keys, n, s) && IsOrder(keys, n, t)
    ensures s == t
  {
    if s != t {
      var k :| 0 <= k < n && s[k] != t[k] && s[..k] == t[..k] by { FirstDifference(s, t); }
      // s[k] sits somewhere in t, and not among the first k; likewise t[k] in s.
      var p := PositionAfter(keys, n, s, t, k);
      var q := PositionAfter(keys, n, t, s, k);
      assert false;
    }
  }

  lemma {:induction false} FirstDifference(s: seq<nat>, t: seq<nat>)
    requires |s| == |t| && s != t
    ensures exists k :: 0 <= k < |s| && s[k] != t[k] && s[..k] == t[..k]
  {
    if s[0] != t[0] {
      assert s[..0] == t[..0];
    } else {
      assert s == [s[0]] + s[1..] && t == [t[0]] + t[1..];
      FirstDifference(s[1..], t[1..]);
      var k :| 0 <= k < |s| - 1 && s[1..][k] != t[1..][k] && s[1..][..k] == t[1..][..k];
      assert s[..k + 1] == [s[0]] + s[1..][..k] && t[..k + 1] == [t[0]] + t[1..][..k];
    }
  }

  lemma PositionAfter(keys: seq<real>, n: nat, s: seq<nat>, t: seq<nat>, k: nat) returns (p: nat)
    requires n <= |keys| && IsOrder(keys, n, s) && IsOrder(keys, n, t)
    requires k < n && s[k] != t[k] && s[..k] == t[..k]
    ensures k < p < n && t[p] == s[k]
  {
    assert s[k] in t;
    p :| 0 <= p < n && t[p] == s[k];
    assert forall a :: 0 <= a < k ==> s[a] == s[..k][a] == t[..k][a] == t[a];
  }
}
