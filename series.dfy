/** Keyed count tables: the group-by-and-sum, the tally of events per key and the running
    total that turn a list of dated events into a metric series. Keys are days for the
    series built from parsed timestamps and date texts for the series keyed by strings. */
module Series {
  import opened Orders

  /** Keys strictly increase along `t`, so each key occurs in one row only. */
  predicate Ascending<K>(t: seq<(K, nat)>, less: (K, K) -> bool) {
    forall i, j :: 0 <= i < j < |t| ==> less(t[i].0, t[j].0)
  }

  /** The values never decrease along `t`. */
  predicate NonDecreasing<K>(t: seq<(K, nat)>) {
    forall i, j :: 0 <= i < j < |t| ==> t[i].1 <= t[j].1
  }

  /** The keys occurring in `t`. */
  function KeySet<K>(t: seq<(K, nat)>): set<K> {
    set i | 0 <= i < |t| :: t[i].0
  }

  /** The sum of all values of `t`. */
  function Total<K>(t: seq<(K, nat)>): nat {
    if |t| == 0 then 0 else t[0].1 + Total(t[1..])
  }

  /** The sum of the values that `t` carries under key `k`. */
  function Weight<K(==)>(t: seq<(K, nat)>, k: K): nat {
    if |t| == 0 then 0 else (if t[0].0 == k then t[0].1 else 0) + Weight(t[1..], k)
  }

  /** The sum of the values that `t` carries under keys not greater than `d`. */
  function WeightUpTo<K>(t: seq<(K, nat)>, d: K, less: (K, K) -> bool): nat {
    if |t| == 0 then 0 else (if !less(d, t[0].0) then t[0].1 else 0) + WeightUpTo(t[1..], d, less)
  }

  lemma KeySetCons<K>(x: (K, nat), t: seq<(K, nat)>)
    ensures KeySet([x] + t) == {x.0} + KeySet(t)
  {
    var r := [x] + t;
    assert r[0] == x;
    forall k | k in KeySet(r) ensures k in {x.0} + KeySet(t) {
      var i :| 0 <= i < |r| && r[i].0 == k;
      if i > 0 {
        assert r[i] == t[i - 1];
      }
    }
    forall k | k in KeySet(t) ensures k in KeySet(r) {
      var i :| 0 <= i < |t| && t[i].0 == k;
      assert r[i + 1] == t[i];
    }
  }

  /** Adds `w` under key `k` to the table `t`, opening a row for `k` where the order puts it
      when `t` has none. */
  function AddEvent<K(==,!new)>(t: seq<(K, nat)>, k: K, w: nat, less: (K, K) -> bool): (r: seq<(K, nat)>)
    ensures KeySet(r) == KeySet(t) + {k}
    ensures Total(r) == Total(t) + w
    ensures forall j :: Weight(r, j) == Weight(t, j) + (if j == k then w else 0)
    ensures forall d :: WeightUpTo(r, d, less) == WeightUpTo(t, d, less) + (if !less(d, k) then w else 0)
  {
    if |t| == 0 then
      assert KeySet(t) == {};
      KeySetCons((k, w), t);
      assert [(k, w)] + t == [(k, w)];
      [(k, w)]
    else if t[0].0 == k then
      assert t == [t[0]] + t[1..];
      KeySetCons(t[0], t[1..]);
      var r := [(k, t[0].1 + w)] + t[1..];
      assert r[1..] == t[1..];
      KeySetCons((k, t[0].1 + w), t[1..]);
      r
    else if less(k, t[0].0) then
      var r := [(k, w)] + t;
      assert r[1..] == t;
      KeySetCons((k, w), t);
      r
    else
      var rest := AddEvent(t[1..], k, w, less);
      var r := [t[0]] + rest;
      assert r[1..] == rest;
      assert t == [t[0]] + t[1..];
      KeySetCons(t[0], t[1..]);
      KeySetCons(t[0], rest);
      r
  }

  /** Every key of `t` is greater than `x`'s, and `t` ascends: then `[x] + t` ascends. */
  lemma AscendingCons<K(!new)>(x: (K, nat), t: seq<(K, nat)>, less: (K, K) -> bool)
    requires Ascending(t, less)
    requires forall k :: k in KeySet(t) ==> less(x.0, k)
    ensures Ascending([x] + t, less)
  {
    var r := [x] + t;
    forall i, j | 0 <= i < j < |r| ensures less(r[i].0, r[j].0) {
      if i == 0 {
        assert r[j].0 == t[j - 1].0 && t[j - 1].0 in KeySet(t);
      } else {
        assert r[i] == t[i - 1] && r[j] == t[j - 1];
      }
    }
  }

  lemma {:induction false} AddEventAscending<K(!new)>(t: seq<(K, nat)>, k: K, w: nat, less: (K, K) -> bool)
    requires StrictTotal(less) && Ascending(t, less)
    ensures Ascending(AddEvent(t, k, w, less), less)
  {
    if |t| == 0 {
    } else if t[0].0 == k {
      var r := AddEvent(t, k, w, less);
      forall i, j | 0 <= i < j < |r| ensures less(r[i].0, r[j].0) {
        assert r[i].0 == t[i].0 && r[j].0 == t[j].0;
      }
    } else if less(k, t[0].0) {
      forall key | key in KeySet(t) ensures less(k, key) {
        var i :| 0 <= i < |t| && t[i].0 == key;
        if i > 0 {
          assert less(t[0].0, t[i].0);
        }
      }
      AscendingCons((k, w), t, less);
    } else {
      var tail := t[1..];
      assert Ascending(tail, less) by {
        forall i, j | 0 <= i < j < |tail| ensures less(tail[i].0, tail[j].0) {
          assert tail[i] == t[i + 1] && tail[j] == t[j + 1];
        }
      }
      AddEventAscending(tail, k, w, less);
      var rest := AddEvent(tail, k, w, less);
      forall key | key in KeySet(rest) ensures less(t[0].0, key) {
        if key == k {
          assert less(t[0].0, k);
        } else {
          assert key in KeySet(tail);
          var i :| 0 <= i < |tail| && tail[i].0 == key;
          assert tail[i] == t[i + 1];
        }
      }
      AscendingCons(t[0], rest, less);
    }
  }

  /** In an ascending table the weight under a row's key is that row's value. */
  lemma {:induction false} WeightAtKey<K(!new)>(t: seq<(K, nat)>, i: nat, less: (K, K) -> bool)
    requires StrictTotal(less) && Ascending(t, less) && i < |t|
    ensures Weight(t, t[i].0) == t[i].1
  {
    var tail := t[1..];
    assert Ascending(tail, less) by {
      forall a, b | 0 <= a < b < |tail| ensures less(tail[a].0, tail[b].0) {
        assert tail[a] == t[a + 1] && tail[b] == t[b + 1];
      }
    }
    if i == 0 {
      WeightAbsent(tail, t[0].0, less);
    } else {
      assert less(t[0].0, t[i].0);
      assert tail[i - 1] == t[i];
      WeightAtKey(tail, i - 1, less);
    }
  }

  /** Nothing is carried under a key smaller than all keys of an ascending table. */
  lemma {:induction false} WeightAbsent<K(!new)>(t: seq<(K, nat)>, k: K, less: (K, K) -> bool)
    requires StrictTotal(less) && forall key :: key in KeySet(t) ==> less(k, key)
    ensures Weight(t, k) == 0
  {
    if |t| > 0 {
      assert t[0].0 in KeySet(t);
      assert KeySet(t[1..]) <= KeySet(t) by {
        forall key | key in KeySet(t[1..]) ensures key in KeySet(t) {
          var i :| 0 <= i < |t[1..]| && t[1..][i].0 == key;
          assert t[i + 1].0 == key;
        }
      }
      WeightAbsent(t[1..], k, less);
    }
  }

  /** Nothing is carried under a key the table does not have. */
  lemma {:induction false} WeightOutside<K>(t: seq<(K, nat)>, k: K)
    requires k !in KeySet(t)
    ensures Weight(t, k) == 0
  {
    if |t| > 0 {
      assert t[0].0 in KeySet(t);
      assert KeySet(t[1..]) <= KeySet(t) by {
        forall key | key in KeySet(t[1..]) ensures key in KeySet(t) {
          var i :| 0 <= i < |t[1..]| && t[1..][i].0 == key;
          assert t[i + 1].0 == key;
        }
      }
      WeightOutside(t[1..], k);
    }
  }

  /** Groups the weighted events by key and sums each group: one row per key, in key order. */
  function GroupSum<K(==,!new)>(events: seq<(K, nat)>, less: (K, K) -> bool): (r: seq<(K, nat)>)
    ensures KeySet(r) == KeySet(events)
    ensures Total(r) == Total(events)
    ensures forall j :: Weight(r, j) == Weight(events, j)
    ensures forall d :: WeightUpTo(r, d, less) == WeightUpTo(events, d, less)
  {
    if |events| == 0 then []
    else
      assert events == [events[0]] + events[1..];
      KeySetCons(events[0], events[1..]);
      AddEvent(GroupSum(events[1..], less), events[0].0, events[0].1, less)
  }

  lemma {:induction false} GroupSumAscending<K(!new)>(events: seq<(K, nat)>, less: (K, K) -> bool)
    requires StrictTotal(less)
    ensures Ascending(GroupSum(events, less), less)
  {
    if |events| > 0 {
      GroupSumAscending(events[1..], less);
      AddEventAscending(GroupSum(events[1..], less), events[0].0, events[0].1, less);
    }
  }

  /** The group-by-sum: keys ascend, every key of the events has exactly its row, and each
      row holds the total weight of its key's events. */
  lemma GroupSumSpec<K(!new)>(events: seq<(K, nat)>, less: (K, K) -> bool)
    requires StrictTotal(less)
    ensures var r := GroupSum(events, less);
      && Ascending(r, less)
      && KeySet(r) == KeySet(events)
      && (forall i :: 0 <= i < |r| ==> r[i].1 == Weight(events, r[i].0))
      && Total(r) == Total(events)
  {
    var r := GroupSum(events, less);
    GroupSumAscending(events, less);
    forall i | 0 <= i < |r| ensures r[i].1 == Weight(events, r[i].0) {
      WeightAtKey(r, i, less);
    }
  }

  /** One event of weight 1 per key. */
  function Ones<K>(keys: seq<K>): (e: seq<(K, nat)>)
    ensures |e| == |keys| && forall i :: 0 <= i < |keys| ==> e[i] == (keys[i], 1)
  {
    seq(|keys|, i requires 0 <= i < |keys| => (keys[i], 1))
  }

  lemma {:induction false} OnesFacts<K>(keys: seq<K>)
    ensures KeySet(Ones(keys)) == set k | k in keys
    ensures Total(Ones(keys)) == |keys|
    ensures forall j :: Weight(Ones(keys), j) == multiset(keys)[j]
  {
    if |keys| > 0 {
      OnesFacts(keys[1..]);
      assert Ones(keys)[1..] == Ones(keys[1..]);
      assert keys == [keys[0]] + keys[1..];
      assert multiset(keys) == multiset{keys[0]} + multiset(keys[1..]);
      var e := Ones(keys);
      assert e == [e[0]] + e[1..];
      KeySetCons(e[0], e[1..]);
    }
  }

  /** Counts how often each key occurs: the group-by-count of a list of keys. */
  function Tally<K(==,!new)>(keys: seq<K>, less: (K, K) -> bool): seq<(K, nat)> {
    GroupSum(Ones(keys), less)
  }

  /** The tally has one row per distinct key, in ascending order, and each row holds the
      number of occurrences of its key; the counts add up to the number of keys. */
  lemma TallySpec<K(!new)>(keys: seq<K>, less: (K, K) -> bool)
    requires StrictTotal(less)
    ensures var r := Tally(keys, less);
      && Ascending(r, less)
      && KeySet(r) == (set k | k in keys)
      && (forall i :: 0 <= i < |r| ==> r[i].1 == multiset(keys)[r[i].0])
      && Total(r) == |keys|
  {
    GroupSumSpec(Ones(keys), less);
    OnesFacts(keys);
  }

  /** The running sum of the values, added up from `acc` on; keys stay where they are. */
  function Accumulate<K>(t: seq<(K, nat)>, acc: nat): (r: seq<(K, nat)>)
    ensures |r| == |t|
    ensures forall i :: 0 <= i < |t| ==> r[i].0 == t[i].0
  {
    if |t| == 0 then [] else [(t[0].0, acc + t[0].1)] + Accumulate(t[1..], acc + t[0].1)
  }

  /** pandas' `cumsum` over the value column. */
  function RunningTotals<K>(t: seq<(K, nat)>): seq<(K, nat)> {
    Accumulate(t, 0)
  }

  lemma {:induction false} AccumulateValues<K>(t: seq<(K, nat)>, acc: nat)
    ensures forall i :: 0 <= i < |t| ==> Accumulate(t, acc)[i].1 == acc + Total(t[..i + 1])
    ensures NonDecreasing(Accumulate(t, acc))
    ensures forall i :: 0 <= i < |t| ==> acc <= Accumulate(t, acc)[i].1
  {
    if |t| > 0 {
      var rest := Accumulate(t[1..], acc + t[0].1);
      AccumulateValues(t[1..], acc + t[0].1);
      var r := Accumulate(t, acc);
      assert r == [(t[0].0, acc + t[0].1)] + rest;
      forall i | 0 <= i < |t| ensures r[i].1 == acc + Total(t[..i + 1]) {
        assert t[..i + 1] == [t[0]] + t[1..][..i];
        assert Total(t[..i + 1]) == t[0].1 + Total(t[1..][..i]);
        if i > 0 {
          assert r[i] == rest[i - 1];
        }
      }
    }
  }

  /** The running totals keep the keys, never decrease, and end at the total; the value in
      row `i` is the sum of the first `i + 1` values. */
  lemma RunningTotalsSpec<K>(t: seq<(K, nat)>)
    ensures var r := RunningTotals(t);
      && |r| == |t|
      && (forall i :: 0 <= i < |t| ==> r[i].0 == t[i].0 && r[i].1 == Total(t[..i + 1]))
      && NonDecreasing(r)
      && (|t| > 0 ==> r[|t| - 1].1 == Total(t))
  {
    AccumulateValues(t, 0);
    if |t| > 0 {
      assert t[..|t|] == t;
    }
  }

  /** In an ascending table, the first `i + 1` values are exactly the ones under keys not
      greater than row `i`'s key. */
  lemma {:induction false} PrefixIsWeightUpTo<K(!new)>(t: seq<(K, nat)>, i: nat, less: (K, K) -> bool)
    requires StrictTotal(less) && Ascending(t, less) && i < |t|
    ensures Total(t[..i + 1]) == WeightUpTo(t, t[i].0, less)
  {
    var tail := t[1..];
    assert Ascending(tail, less) by {
      forall a, b | 0 <= a < b < |tail| ensures less(tail[a].0, tail[b].0) {
        assert tail[a] == t[a + 1] && tail[b] == t[b + 1];
      }
    }
    assert t[..i + 1] == [t[0]] + tail[..i];
    if i == 0 {
      NothingUpTo(tail, t[0].0, less);
    } else {
      assert tail[i - 1] == t[i];
      assert less(t[0].0, t[i].0);
      PrefixIsWeightUpTo(tail, i - 1, less);
    }
  }

  lemma {:induction false} NothingUpTo<K(!new)>(t: seq<(K, nat)>, d: K, less: (K, K) -> bool)
    requires forall i :: 0 <= i < |t| ==> less(d, t[i].0)
    ensures WeightUpTo(t, d, less) == 0
  {
    if |t| > 0 {
      NothingUpTo(t[1..], d, less);
    }
  }

  /** The cumulative series of weighted events: group by key, sum, then running-total. */
  function Cumulative<K(==,!new)>(events: seq<(K, nat)>, less: (K, K) -> bool): seq<(K, nat)> {
    RunningTotals(GroupSum(events, less))
  }

  /** The cumulative series has one row per event key, in ascending order; the value at key
      `d` is the total weight of the events on or before `d`, so it never decreases and the
      last value is the total weight of all events. */
  lemma CumulativeSpec<K(!new)>(events: seq<(K, nat)>, less: (K, K) -> bool)
    requires StrictTotal(less)
    ensures var r := Cumulative(events, less);
      && Ascending(r, less)
      && KeySet(r) == KeySet(events)
      && (forall i :: 0 <= i < |r| ==> r[i].1 == WeightUpTo(events, r[i].0, less))
      && NonDecreasing(r)
      && (|r| > 0 ==> r[|r| - 1].1 == Total(events))
  {
    var g := GroupSum(events, less);
    var r := Cumulative(events, less);
    GroupSumSpec(events, less);
    RunningTotalsSpec(g);
    SameKeys(g, r, less);
    forall i | 0 <= i < |r| ensures r[i].1 == WeightUpTo(events, r[i].0, less) {
      PrefixIsWeightUpTo(g, i, less);
    }
  }

  /** A table with the keys of another, row by row, has its key set and its order. */
  lemma SameKeys<K>(t: seq<(K, nat)>, u: seq<(K, nat)>, less: (K, K) -> bool)
    requires |u| == |t| && forall i :: 0 <= i < |t| ==> u[i].0 == t[i].0
    ensures KeySet(u) == KeySet(t)
    ensures Ascending(t, less) ==> Ascending(u, less)
  {
    forall k ensures k in KeySet(u) <==> k in KeySet(t) {
      if k in KeySet(t) {
        var i :| 0 <= i < |t| && t[i].0 == k;
        assert u[i].0 == k;
      }
    }
  }

  /** The tail of a non-empty ascending table ascends and lacks the head's key. */
  lemma AscendingTail<K(!new)>(t: seq<(K, nat)>, less: (K, K) -> bool)
    requires StrictTotal(less) && Ascending(t, less) && |t| > 0
    ensures Ascending(t[1..], less)
    ensures t[0].0 !in KeySet(t[1..])
    ensures KeySet(t) == {t[0].0} + KeySet(t[1..])
  {
    var tail := t[1..];
    forall a, b | 0 <= a < b < |tail| ensures less(tail[a].0, tail[b].0) {
      assert tail[a] == t[a + 1] && tail[b] == t[b + 1];
    }
    forall key | key in KeySet(tail) ensures key != t[0].0 {
      var a :| 0 <= a < |tail| && tail[a].0 == key;
      assert tail[a] == t[a + 1];
      assert less(t[0].0, key);
    }
    assert t == [t[0]] + tail;
    KeySetCons(t[0], tail);
  }

  lemma KeySetEmpty<K>(t: seq<(K, nat)>)
    ensures KeySet(t) == {} <==> |t| == 0
  {
    if |t| > 0 {
      assert t[0].0 in KeySet(t);
    }
  }

  /** The first key of an ascending table is not greater than any of its keys. */
  lemma FirstKeyLeast<K(!new)>(t: seq<(K, nat)>, less: (K, K) -> bool)
    requires Ascending(t, less) && |t| > 0
    ensures forall key :: key in KeySet(t) ==> key == t[0].0 || less(t[0].0, key)
  {
  }

  /** Two non-empty ascending tables with the same keys start with the same key. */
  lemma SameFirstKey<K(!new)>(t: seq<(K, nat)>, u: seq<(K, nat)>, less: (K, K) -> bool)
    requires StrictTotal(less) && Ascending(t, less) && Ascending(u, less)
    requires KeySet(t) == KeySet(u) && |t| > 0
    ensures |u| > 0 && u[0].0 == t[0].0
  {
    assert t[0].0 in KeySet(t);
    FirstKeyLeast(t, less);
    FirstKeyLeast(u, less);
    assert u[0].0 in KeySet(u);
  }

  /** An ascending table is determined by its keys and the weight under each key: two
      ascending tables that agree on both are the same table. */
  lemma {:induction false} AscendingUnique<K(!new)>(t: seq<(K, nat)>, u: seq<(K, nat)>, less: (K, K) -> bool)
    requires StrictTotal(less) && Ascending(t, less) && Ascending(u, less)
    requires KeySet(t) == KeySet(u)
    requires forall j :: Weight(t, j) == Weight(u, j)
    ensures t == u
    decreases |t|
  {
    KeySetEmpty(t);
    KeySetEmpty(u);
    if |t| > 0 {
      SameFirstKey(t, u, less);
      WeightAtKey(t, 0, less);
      WeightAtKey(u, 0, less);
      AscendingTail(t, less);
      AscendingTail(u, less);
      forall j ensures Weight(t[1..], j) == Weight(u[1..], j) {
        assert Weight(t, j) == (if t[0].0 == j then t[0].1 else 0) + Weight(t[1..], j);
        assert Weight(u, j) == (if u[0].0 == j then u[0].1 else 0) + Weight(u[1..], j);
      }
      AscendingUnique(t[1..], u[1..], less);
      assert t == [t[0]] + t[1..] && u == [u[0]] + u[1..];
    }
  }

  /** The number of `keys` not greater than `d`. */
  function CountUpTo<K>(keys: seq<K>, d: K, less: (K, K) -> bool): (n: nat)
    ensures n <= |keys|
  {
    if |keys| == 0 then 0 else (if !less(d, keys[0]) then 1 else 0) + CountUpTo(keys[1..], d, less)
  }

  lemma {:induction false} OnesUpTo<K>(keys: seq<K>, d: K, less: (K, K) -> bool)
    ensures WeightUpTo(Ones(keys), d, less) == CountUpTo(keys, d, less)
  {
    if |keys| > 0 {
      assert Ones(keys)[1..] == Ones(keys[1..]);
      OnesUpTo(keys[1..], d, less);
    }
  }

  /** The cumulative count of a list of event keys: one row per distinct key, ascending,
      holding the number of events on or before that key; it never decreases and ends at
      the number of events. */
  lemma CumulativeCountSpec<K(!new)>(keys: seq<K>, less: (K, K) -> bool)
    requires StrictTotal(less)
    ensures var r := Cumulative(Ones(keys), less);
      && Ascending(r, less)
      && KeySet(r) == (set k | k in keys)
      && (forall i :: 0 <= i < |r| ==> r[i].1 == CountUpTo(keys, r[i].0, less))
      && NonDecreasing(r)
      && (|r| > 0 ==> r[|r| - 1].1 == |keys|)
      && (|keys| > 0 ==> |r| > 0)
  {
    var r := Cumulative(Ones(keys), less);
    CumulativeSpec(Ones(keys), less);
    OnesFacts(keys);
    forall i | 0 <= i < |r| ensures r[i].1 == CountUpTo(keys, r[i].0, less) {
      OnesUpTo(keys, r[i].0, less);
    }
    if |keys| > 0 {
      assert keys[0] in KeySet(r);
    }
  }

  lemma {:induction false} TotalAppend<K>(a: seq<(K, nat)>, b: seq<(K, nat)>)
    ensures Total(a + b) == Total(a) + Total(b)
  {
    if |a| > 0 {
      assert (a + b)[1..] == a[1..] + b;
      assert (a + b)[0] == a[0];
      TotalAppend(a[1..], b);
    } else {
      assert a + b == b;
    }
  }

  /** Reordering the rows keeps the sum of the values. */
  lemma {:induction false} TotalPermutation<K>(a: seq<(K, nat)>, b: seq<(K, nat)>)
    requires multiset(a) == multiset(b)
    ensures Total(a) == Total(b)
    decreases |a|
  {
    if |a| == 0 {
      assert |b| == |multiset(b)| == 0;
    } else {
      assert a[0] in multiset(b);
      var i :| 0 <= i < |b| && b[i] == a[0];
      assert a == [a[0]] + a[1..];
      assert multiset(a[1..]) == multiset(a) - multiset{a[0]};
      RemoveAt(b, i);
      TotalPermutation(a[1..], b[..i] + b[i + 1..]);
    }
  }

  /** Taking out the row at `i` takes its value out of the sum and the row out of the
      multiset. */
  lemma {:induction false} RemoveAt<K>(b: seq<(K, nat)>, i: nat)
    requires i < |b|
    ensures Total(b) == b[i].1 + Total(b[..i] + b[i + 1..])
    ensures multiset(b[..i] + b[i + 1..]) == multiset(b) - multiset{b[i]}
  {
    assert b == b[..i] + [b[i]] + b[i + 1..];
    assert multiset(b) == multiset(b[..i]) + multiset{b[i]} + multiset(b[i + 1..]);
    TotalAppend(b[..i] + [b[i]], b[i + 1..]);
    TotalAppend(b[..i], [b[i]]);
    TotalAppend(b[..i], b[i + 1..]);
  }

  /** Two tables whose rows carry the same values in the same order have the same sum,
      whatever their keys. */
  lemma {:induction false} TotalOfValues<K, L>(a: seq<(K, nat)>, b: seq<(L, nat)>)
    requires |a| == |b| && forall i :: 0 <= i < |a| ==> a[i].1 == b[i].1
    ensures Total(a) == Total(b)
  {
    if |a| > 0 {
      TotalOfValues(a[1..], b[1..]);
    }
  }
}
