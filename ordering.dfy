/**
 * Listing a finite set of row ids in a fixed order: ascending by a sort key,
 * ties broken by the smaller id. The store's queries return sequences of rows;
 * this is how the model turns a set of matching rows into one.
 */
module Ordering {

  /** Row `a` may come before row `b`. */
  predicate Before(key: map<int, int>, a: int, b: int)
    requires a in key && b in key
  {
    key[a] < key[b] || (key[a] == key[b] && a <= b)
  }

  /** Every non-empty set of keyed ids has a first element. */
  lemma {:induction false} FirstExists(key: map<int, int>, ids: set<int>)
    requires ids != {} && ids <= key.Keys
    ensures exists m :: m in ids && forall x :: x in ids ==> Before(key, m, x)
    decreases ids
  {
    assert exists y :: y in ids by {
      if forall y :: y !in ids {
        assert false;
      }
    }
    var y :| y in ids;
    var rest := ids - {y};
    if rest == {} {
      forall x | x in ids
        ensures Before(key, y, x)
      {
        assert x !in rest;
      }
    } else {
      FirstExists(key, rest);
      var m :| m in rest && forall x :: x in rest ==> Before(key, m, x);
      var first := if Before(key, y, m) then y else m;
      forall x | x in ids
        ensures Before(key, first, x)
      {
        if x == y {
          assert Before(key, first, y);
        } else {
          assert x in rest && Before(key, m, x);
        }
      }
    }
  }

  /** The ids of `ids`, each exactly once, in `Before` order. */
  function SortedByKey(key: map<int, int>, ids: set<int>): (r: seq<int>)
    requires ids <= key.Keys
    ensures |r| == |ids|
    ensures forall i :: 0 <= i < |r| ==> r[i] in ids
    ensures forall x :: x in ids ==> x in r
    ensures forall i, j :: 0 <= i < j < |r| ==> r[i] != r[j] && Before(key, r[i], r[j])
    decreases ids
  {
    if ids == {} then []
    else
      FirstExists(key, ids);
      var m :| m in ids && forall x :: x in ids ==> Before(key, m, x);
      var tail := SortedByKey(key, ids - {m});
      PrependFirst(key, ids, m, tail);
      [m] + tail
  }

  /** Putting the first id in front of a sorted listing of the others lists all of them sorted. */
  lemma PrependFirst(key: map<int, int>, ids: set<int>, m: int, tail: seq<int>)
    requires ids <= key.Keys
    requires m in ids && forall x :: x in ids ==> Before(key, m, x)
    requires |tail| == |ids - {m}|
    requires forall i :: 0 <= i < |tail| ==> tail[i] in ids - {m}
    requires forall x :: x in ids - {m} ==> x in tail
    requires forall i, j :: 0 <= i < j < |tail| ==> tail[i] != tail[j] && Before(key, tail[i], tail[j])
    ensures var r := [m] + tail;
      && |r| == |ids|
      && (forall i :: 0 <= i < |r| ==> r[i] in ids)
      && (forall x :: x in ids ==> x in r)
      && (forall i, j :: 0 <= i < j < |r| ==> r[i] != r[j] && Before(key, r[i], r[j]))
  {
    var r := [m] + tail;
    forall i, j | 0 <= i < j < |r|
      ensures r[i] != r[j] && Before(key, r[i], r[j])
    {
      if i == 0 {
        assert r[j] == tail[j - 1] && r[j] in ids - {m};
      } else {
        assert r[i] == tail[i - 1] && r[j] == tail[j - 1];
      }
    }
    forall x | x in ids
      ensures x in r
    {
      if x != m {
        assert x in tail;
      }
    }
  }
}
