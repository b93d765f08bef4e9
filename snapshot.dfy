/** Reading a snapshot of the store. `snap.forEach`, `Object.keys(snap.val())`
    and the `members`/`pendingRequests` key sets all enumerate children in
    ascending key order; a handler walks that enumeration once, pushing a row
    for the children it keeps or bumping a counter. */
module Snapshot {
  import opened Ordering

  /** The enumeration order of a set of child keys. */
  ghost function Ascending(keys: set<nat>): seq<nat>
    decreases |keys|
  {
    if keys == {} then [] else [Least(keys)] + Ascending(keys - {Least(keys)})
  }

  /** The enumeration visits every child exactly once, in ascending order. */
  lemma {:induction false} AscendingEnumerates(keys: set<nat>)
    ensures |Ascending(keys)| == |keys|
    ensures forall k :: k in keys <==> k in Ascending(keys)
    ensures forall i, j :: 0 <= i < j < |Ascending(keys)| ==> Ascending(keys)[i] < Ascending(keys)[j]
    decreases |keys|
  {
    if keys != {} {
      var m := Least(keys);
      var t := Ascending(keys - {m});
      AscendingEnumerates(keys - {m});
      assert Ascending(keys) == [m] + t;
      forall i, j | 0 <= i < j < |Ascending(keys)| ensures Ascending(keys)[i] < Ascending(keys)[j] {
        assert Ascending(keys)[j] == t[j - 1];
        if i == 0 {
          assert t[j - 1] in keys - {m};
        } else {
          assert Ascending(keys)[i] == t[i - 1];
        }
      }
    }
  }

  /** Every key the ascending listing of a map's keys yields is a key of it. */
  lemma KeysPresent<V>(m: map<nat, V>)
    ensures forall k :: k in Ascending(m.Keys) ==> k in m
  {
    AscendingEnumerates(m.Keys);
  }

  /** The first child enumerated is the least key, the last the greatest. */
  lemma AscendingEnds(keys: set<nat>)
    requires keys != {}
    ensures Ascending(keys)[0] == Least(keys)
    ensures Ascending(keys)[|Ascending(keys)| - 1] == Greatest(keys)
  {
    AscendingEnumerates(keys);
    var ks := Ascending(keys);
    var g := Greatest(keys);
    assert g in ks;
    var i :| 0 <= i < |ks| && ks[i] == g;
    assert ks[|ks| - 1] in keys;
    assert i == |ks| - 1;
  }

  /** Finding the least of a non-empty set of keys by one pass over it. */
  method PickLeast(s: set<nat>) returns (m: nat)
    requires s != {}
    ensures m == Least(s)
  {
    m :| m in s;
    var rest := s - {m};
    while rest != {}
      invariant rest <= s && m in s
      invariant forall y :: y in s && y !in rest ==> m <= y
      decreases |rest|
    {
      var y :| y in rest;
      if y < m {
        m := y;
      }
      rest := rest - {y};
    }
    assert m <= Least(s);
  }

  /** The keys of a snapshot, in the order `forEach` visits them. */
  method SnapshotKeys(keys: set<nat>) returns (ks: seq<nat>)
    ensures ks == Ascending(keys)
  {
    ks := [];
    var rest := keys;
    while rest != {}
      invariant ks + Ascending(rest) == Ascending(keys)
      decreases |rest|
    {
      var k := PickLeast(rest);
      assert Ascending(rest) == [k] + Ascending(rest - {k});
      ks := ks + [k];
      rest := rest - {k};
    }
  }

  /** The rows a `forEach` push loop produces over the children `ks` of a
      node `m`: in enumeration order, one row for each child that exists and
      passes the filter. */
  function Collect<V, R>(ks: seq<nat>, m: map<nat, V>, keep: (nat, V) -> bool, row: (nat, V) -> R): seq<R>
  {
    if ks == [] then []
    else
      var k := ks[|ks| - 1];
      Collect(ks[..|ks| - 1], m, keep, row) + (if k in m && keep(k, m[k]) then [row(k, m[k])] else [])
  }

  /** A row is produced exactly for the children that exist and pass the
      filter. */
  lemma {:induction false} CollectMembers<V, R>(ks: seq<nat>, m: map<nat, V>, keep: (nat, V) -> bool, row: (nat, V) -> R)
    ensures |Collect(ks, m, keep, row)| <= |ks|
    ensures forall r :: r in Collect(ks, m, keep, row) ==> exists k :: k in ks && k in m && keep(k, m[k]) && r == row(k, m[k])
    ensures forall k :: k in ks && k in m && keep(k, m[k]) ==> row(k, m[k]) in Collect(ks, m, keep, row)
  {
    if ks != [] {
      var init := ks[..|ks| - 1];
      var last := ks[|ks| - 1];
      CollectMembers(init, m, keep, row);
      forall k | k in ks && k in m && keep(k, m[k]) ensures row(k, m[k]) in Collect(ks, m, keep, row) {
        if k != last {
          var i :| 0 <= i < |ks| && ks[i] == k;
          assert init[i] == k;
        }
      }
      forall r | r in Collect(ks, m, keep, row)
        ensures exists k :: k in ks && k in m && keep(k, m[k]) && r == row(k, m[k])
      {
        if r in Collect(init, m, keep, row) {
          var k :| k in init && k in m && keep(k, m[k]) && r == row(k, m[k]);
          assert k in ks;
        } else {
          assert last in ks && r == row(last, m[last]);
        }
      }
    }
  }

  /** When every child exists and passes, the rows are the children mapped
      one to one. */
  lemma {:induction false} CollectAll<V, R>(ks: seq<nat>, m: map<nat, V>, keep: (nat, V) -> bool, row: (nat, V) -> R)
    requires forall k :: k in ks ==> k in m && keep(k, m[k])
    ensures |Collect(ks, m, keep, row)| == |ks|
    ensures forall i :: 0 <= i < |ks| ==> Collect(ks, m, keep, row)[i] == row(ks[i], m[ks[i]])
  {
    if ks != [] {
      var init := ks[..|ks| - 1];
      assert forall k :: k in init ==> k in ks;
      CollectAll(init, m, keep, row);
    }
  }

  /** Rows that carry their child's key keep the enumeration's ascending
      order. */
  lemma {:induction false} CollectAscending<V, R>(ks: seq<nat>, m: map<nat, V>, keep: (nat, V) -> bool,
                                                  row: (nat, V) -> R, id: R -> nat)
    requires forall k, v :: id(row(k, v)) == k
    requires forall i, j :: 0 <= i < j < |ks| ==> ks[i] < ks[j]
    ensures forall i, j :: 0 <= i < j < |Collect(ks, m, keep, row)| ==>
              id(Collect(ks, m, keep, row)[i]) < id(Collect(ks, m, keep, row)[j])
  {
    if ks != [] {
      var init := ks[..|ks| - 1];
      var last := ks[|ks| - 1];
      CollectAscending(init, m, keep, row, id);
      CollectMembers(init, m, keep, row);
      var c := Collect(init, m, keep, row);
      forall i, j | 0 <= i < j < |Collect(ks, m, keep, row)|
        ensures id(Collect(ks, m, keep, row)[i]) < id(Collect(ks, m, keep, row)[j])
      {
        if j >= |c| {
          assert Collect(ks, m, keep, row)[j] == row(last, m[last]);
          assert Collect(ks, m, keep, row)[i] == c[i];
          assert c[i] in c;
          var k :| k in init && k in m && keep(k, m[k]) && c[i] == row(k, m[k]);
          var n :| 0 <= n < |init| && init[n] == k;
          assert ks[n] == k;
        }
      }
    }
  }

  /** Over a whole snapshot, rows that carry their child's key are exactly
      one row per kept child, in ascending key order. */
  lemma CollectExact<V, R>(keys: set<nat>, m: map<nat, V>, keep: (nat, V) -> bool, row: (nat, V) -> R, id: R -> nat)
    requires forall k, v :: id(row(k, v)) == k
    ensures var rs := Collect(Ascending(keys), m, keep, row);
            && (forall r :: r in rs ==> id(r) in keys && id(r) in m && keep(id(r), m[id(r)]) && r == row(id(r), m[id(r)]))
            && (forall k :: k in keys && k in m && keep(k, m[k]) ==> row(k, m[k]) in rs)
            && (forall i, j :: 0 <= i < j < |rs| ==> id(rs[i]) < id(rs[j]))
  {
    var ks := Ascending(keys);
    AscendingEnumerates(keys);
    CollectMembers(ks, m, keep, row);
    CollectAscending(ks, m, keep, row, id);
  }

  /** Sorting such rows by a key whose second half is the child key (a
      stable sort of the enumeration breaks ties by key) orders them
      strictly and drops none. */
  lemma SortedCollectOrder<V, R>(keys: set<nat>, m: map<nat, V>, keep: (nat, V) -> bool, row: (nat, V) -> R,
                                 id: R -> nat, key: R -> SortKey)
    requires forall k, v :: id(row(k, v)) == k
    requires forall r :: key(r).1 == id(r)
    ensures StrictlySorted(SortBy(Collect(Ascending(keys), m, keep, row), key), key)
    ensures |SortBy(Collect(Ascending(keys), m, keep, row), key)| == |Collect(Ascending(keys), m, keep, row)|
  {
    var rows := Collect(Ascending(keys), m, keep, row);
    CollectExact(keys, m, keep, row, id);
    IdsDistinguish(rows, id, key);
    SortBySorted(rows, key);
  }

  /** After sorting there is still one row per kept child, and no other. */
  lemma SortedCollectMembers<V, R>(keys: set<nat>, m: map<nat, V>, keep: (nat, V) -> bool, row: (nat, V) -> R,
                                   id: R -> nat, key: R -> SortKey)
    requires forall k, v :: id(row(k, v)) == k
    ensures forall r :: r in SortBy(Collect(Ascending(keys), m, keep, row), key) ==>
              id(r) in keys && id(r) in m && keep(id(r), m[id(r)]) && r == row(id(r), m[id(r)])
    ensures forall k :: k in keys && k in m && keep(k, m[k]) ==>
              row(k, m[k]) in SortBy(Collect(Ascending(keys), m, keep, row), key)
  {
    var rows := Collect(Ascending(keys), m, keep, row);
    var s := SortBy(rows, key);
    CollectExact(keys, m, keep, row, id);
    forall r | r in s
      ensures id(r) in keys && id(r) in m && keep(id(r), m[id(r)]) && r == row(id(r), m[id(r)])
    {
      SortKeepsMember(rows, key, r);
    }
    forall k | k in keys && k in m && keep(k, m[k]) ensures row(k, m[k]) in s {
      SortKeepsMember(rows, key, row(k, m[k]));
    }
  }

  lemma IdsDistinguish<R>(rows: seq<R>, id: R -> nat, key: R -> SortKey)
    requires forall r :: key(r).1 == id(r)
    requires forall i, j :: 0 <= i < j < |rows| ==> id(rows[i]) < id(rows[j])
    ensures DistinctKeys(rows, key)
  {
    forall i, j | 0 <= i < j < |rows| ensures key(rows[i]) != key(rows[j]) {
      assert id(rows[i]) < id(rows[j]);
    }
  }

  lemma SortKeepsMember<T>(rows: seq<T>, key: T -> SortKey, r: T)
    ensures r in SortBy(rows, key) <==> r in rows
  {
    assert r in SortBy(rows, key) <==> r in multiset(SortBy(rows, key));
    assert r in rows <==> r in multiset(rows);
  }

  /** The number of children of `m` that satisfy a predicate, counted the
      way a `forEach` bumps a counter. */
  function Count<V>(ks: seq<nat>, m: map<nat, V>, p: V -> bool): nat
  {
    if ks == [] then 0
    else
      var k := ks[|ks| - 1];
      Count(ks[..|ks| - 1], m, p) + (if k in m && p(m[k]) then 1 else 0)
  }

  /** The children among `ks` that satisfy `p`. */
  ghost function Satisfying<V>(ks: seq<nat>, m: map<nat, V>, p: V -> bool): set<nat> {
    set k | k in ks && k in m && p(m[k])
  }

  lemma SatisfyingSnoc<V>(init: seq<nat>, last: nat, m: map<nat, V>, p: V -> bool)
    ensures Satisfying(init + [last], m, p)
         == Satisfying(init, m, p) + (if last in m && p(m[last]) then {last} else {})
  {
    var lhs := Satisfying(init + [last], m, p);
    var rhs := Satisfying(init, m, p) + (if last in m && p(m[last]) then {last} else {});
    forall k ensures k in lhs <==> k in rhs {
      assert k in init + [last] <==> k in init || k == last;
    }
  }

  /** Over an enumeration without repeats, the counter ends at the size of
      the set of children that satisfy the predicate. */
  lemma {:induction false} CountIsCardinality<V>(ks: seq<nat>, m: map<nat, V>, p: V -> bool)
    requires forall i, j :: 0 <= i < j < |ks| ==> ks[i] != ks[j]
    ensures Count(ks, m, p) == |Satisfying(ks, m, p)|
  {
    if ks == [] {
      assert Satisfying(ks, m, p) == {};
    } else {
      var init := ks[..|ks| - 1];
      var last := ks[|ks| - 1];
      CountIsCardinality(init, m, p);
      assert ks == init + [last];
      SatisfyingSnoc(init, last, m, p);
      assert forall i :: 0 <= i < |init| ==> init[i] == ks[i] != last;
      assert last !in Satisfying(init, m, p);
    }
  }

  /** The children of `m` that satisfy `p`. */
  ghost function Where<V>(m: map<nat, V>, p: V -> bool): set<nat> {
    set k | k in m && p(m[k])
  }

  /** Counting over a whole snapshot gives the number of children that
      satisfy the predicate. */
  lemma CountSnapshot<V>(m: map<nat, V>, p: V -> bool)
    ensures Count(Ascending(m.Keys), m, p) == |Where(m, p)|
  {
    var ks := Ascending(m.Keys);
    AscendingEnumerates(m.Keys);
    CountIsCardinality(ks, m, p);
    assert Satisfying(ks, m, p) == Where(m, p);
  }
}
