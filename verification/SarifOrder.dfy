/** Stable sorting of indices by string keys, as Python's `sorted(enumerate(..))` does. */
module SarifOrder {

  /** Strings compare code point by code point. */
  predicate Less(a: string, b: string) {
    b != [] && (a == [] || a[0] < b[0] || (a[0] == b[0] && Less(a[1..], b[1..])))
  }

  lemma {:induction false} LessIsTotal(a: string, b: string)
    ensures a == b || Less(a, b) || Less(b, a)
    ensures !(Less(a, b) && Less(b, a)) && !Less(a, a)
  {
    if a != [] && b != [] && a[0] == b[0] {
      LessIsTotal(a[1..], b[1..]);
      assert a == [a[0]] + a[1..] && b == [b[0]] + b[1..];
    }
    if a != [] {
      LessIsTotal(a[1..], a[1..]);
    }
  }

  lemma {:induction false} LessIsTransitive(a: string, b: string, c: string)
    requires Less(a, b) && Less(b, c)
    ensures Less(a, c)
  {
    if a != [] && a[0] == b[0] && b[0] == c[0] {
      LessIsTransitive(a[1..], b[1..], c[1..]);
    }
  }

  /** Index `x` sorts before index `y`: a smaller key, or the same key and an earlier place. */
  predicate Before(keys: seq<string>, x: nat, y: nat)
    requires x < |keys| && y < |keys|
  {
    Less(keys[x], keys[y]) || (keys[x] == keys[y] && x < y)
  }

  lemma BeforeIsTotal(keys: seq<string>, x: nat, y: nat)
    requires x < |keys| && y < |keys|
    ensures x == y || Before(keys, x, y) || Before(keys, y, x)
    ensures !(Before(keys, x, y) && Before(keys, y, x))
  {
    LessIsTotal(keys[x], keys[y]);
  }

  lemma BeforeIsTransitive(keys: seq<string>, x: nat, y: nat, z: nat)
    requires x < |keys| && y < |keys| && z < |keys| && Before(keys, x, y) && Before(keys, y, z)
    ensures Before(keys, x, z)
  {
    if Less(keys[x], keys[y]) && Less(keys[y], keys[z]) {
      LessIsTransitive(keys[x], keys[y], keys[z]);
    }
  }

  ghost predicate InRange(keys: seq<string>, order: seq<nat>) {
    forall a :: 0 <= a < |order| ==> order[a] < |keys|
  }

  ghost predicate Ascending(keys: seq<string>, order: seq<nat>)
    requires InRange(keys, order)
  {
    forall a, b :: 0 <= a < b < |order| ==> Before(keys, order[a], order[b])
  }

  /** `order` lists the first `n` indices, each once, in sorted order; position is the new index. */
  ghost predicate Sorts(keys: seq<string>, order: seq<nat>, n: nat) {
    && |order| == n <= |keys| && InRange(keys, order) && Ascending(keys, order)
    && forall i: nat :: i in order <==> i < n
  }

  /** There is only one stable sorted order. */
  lemma {:induction false} SortedOrderIsUnique(keys: seq<string>, order: seq<nat>, other: seq<nat>, k: nat)
    requires Sorts(keys, order, |keys|) && Sorts(keys, other, |keys|) && k <= |keys|
    ensures order[..k] == other[..k]
  {
    if k > 0 {
      SortedOrderIsUnique(keys, order, other, k - 1);
      var x, y := order[k - 1], other[k - 1];
      assert forall a :: 0 <= a < k - 1 ==> order[a] == order[..k - 1][a] == other[..k - 1][a] == other[a];
      if x != y {
        assert x in order && x in other && y in other && y in order;
        var a :| 0 <= a < |other| && other[a] == x;
        var b :| 0 <= b < |order| && order[b] == y;
        NotInPrefix(keys, order, k - 1, a);
        NotInPrefix(keys, other, k - 1, b);
        BeforeIsTotal(keys, x, y);
      }
      assert order[..k] == order[..k - 1] + [x] && other[..k] == other[..k - 1] + [y];
    }
  }

  /** A sorted order repeats nothing. */
  lemma NotInPrefix(keys: seq<string>, order: seq<nat>, at: nat, a: nat)
    requires InRange(keys, order) && Ascending(keys, order) && at < |order|
    ensures a < at ==> order[a] != order[at]
  {
    if a < at {
      BeforeIsTotal(keys, order[a], order[at]);
    }
  }

  /** Insertion sort, from the front; equal keys keep their order. */
  method SortedOrder(keys: seq<string>) returns (order: seq<nat>)
    ensures Sorts(keys, order, |keys|)
  {
    order := [];
    for i := 0 to |keys|
      invariant Sorts(keys, order, i)
    {
      var at := 0;
      while at < |order| && !Less(keys[i], keys[order[at]])
        invariant 0 <= at <= |order|
        invariant forall a :: 0 <= a < at ==> !Less(keys[i], keys[order[a]])
      {
        at := at + 1;
      }
      InsertKeepsSorted(keys, order, i, at);
      order := order[..at] + [i] + order[at..];
    }
  }

  /** The new index sorts after the entries before its place and before the others. */
  lemma PlaceSplitsOrder(keys: seq<string>, order: seq<nat>, i: nat, at: nat, a: nat)
    requires Sorts(keys, order, i) && i < |keys| && at <= |order| && a < |order|
    requires forall b :: 0 <= b < at ==> !Less(keys[i], keys[order[b]])
    requires at < |order| ==> Less(keys[i], keys[order[at]])
    ensures if a < at then Before(keys, order[a], i) else Before(keys, i, order[a])
  {
    assert order[a] in order;
    LessIsTotal(keys[i], keys[order[a]]);
    if a > at {
      BeforeIsTransitive(keys, i, order[at], order[a]);
    }
  }

  lemma InsertMembers(order: seq<nat>, i: nat, at: nat, j: nat)
    requires at <= |order|
    ensures j in order[..at] + [i] + order[at..] <==> j in order || j == i
  {
    assert order == order[..at] + order[at..];
  }

  lemma InsertKeepsSorted(keys: seq<string>, order: seq<nat>, i: nat, at: nat)
    requires Sorts(keys, order, i) && i < |keys| && at <= |order|
    requires forall a :: 0 <= a < at ==> !Less(keys[i], keys[order[a]])
    requires at < |order| ==> Less(keys[i], keys[order[at]])
    ensures Sorts(keys, order[..at] + [i] + order[at..], i + 1)
  {
    var r := order[..at] + [i] + order[at..];
    assert forall a :: 0 <= a < |r| ==> r[a] == if a < at then order[a] else if a == at then i else order[a - 1];
    forall a, b | 0 <= a < b < |r|
      ensures r[a] < |keys| && r[b] < |keys| && Before(keys, r[a], r[b])
    {
      if a == at {
        PlaceSplitsOrder(keys, order, i, at, b - 1);
      } else if b == at {
        PlaceSplitsOrder(keys, order, i, at, a);
      }
    }
    forall j: nat
      ensures j in r <==> j < i + 1
    {
      InsertMembers(order, i, at, j);
    }
  }
}
