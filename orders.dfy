/** Orders on keys and a stable sort, shared by every table the system builds. */
module Orders {

  /** `less` is a strict total order on K. */
  ghost predicate StrictTotal<K(!new)>(less: (K, K) -> bool) {
    && (forall a :: !less(a, a))
    && (forall a, b, c :: less(a, b) && less(b, c) ==> less(a, c))
    && (forall a, b :: a != b ==> less(a, b) || less(b, a))
  }

  /** `le` is a total preorder on T: every two elements compare, and comparison chains. */
  ghost predicate TotalPreorder<T(!new)>(le: (T, T) -> bool) {
    && (forall a, b :: le(a, b) || le(b, a))
    && (forall a, b, c :: le(a, b) && le(b, c) ==> le(a, c))
  }

  /** The order of day numbers. */
  function IntLess(a: int, b: int): bool {
    a < b
  }

  lemma IntLessIsStrictTotal()
    ensures StrictTotal(IntLess)
  {
  }

  /** Python's `<` on `str`: lexicographic by code point, a proper prefix coming first. */
  function TextLess(a: string, b: string): bool {
    if |b| == 0 then false
    else if |a| == 0 then true
    else if a[0] != b[0] then a[0] < b[0]
    else TextLess(a[1..], b[1..])
  }

  lemma {:induction false} TextLessIrreflexive(a: string)
    ensures !TextLess(a, a)
  {
    if |a| > 0 {
      TextLessIrreflexive(a[1..]);
    }
  }

  lemma {:induction false} TextLessTransitive(a: string, b: string, c: string)
    requires TextLess(a, b) && TextLess(b, c)
    ensures TextLess(a, c)
  {
    if |a| > 0 && a[0] == b[0] && b[0] == c[0] {
      TextLessTransitive(a[1..], b[1..], c[1..]);
    }
  }

  lemma {:induction false} TextLessTotal(a: string, b: string)
    requires a != b
    ensures TextLess(a, b) || TextLess(b, a)
  {
    if |a| > 0 && |b| > 0 && a[0] == b[0] {
      assert a == [a[0]] + a[1..] && b == [b[0]] + b[1..];
      TextLessTotal(a[1..], b[1..]);
    }
  }

  lemma TextLessIsStrictTotal()
    ensures StrictTotal(TextLess)
  {
    forall a: string ensures !TextLess(a, a) {
      TextLessIrreflexive(a);
    }
    forall a: string, b: string, c: string | TextLess(a, b) && TextLess(b, c)
      ensures TextLess(a, c)
    {
      TextLessTransitive(a, b, c);
    }
    forall a: string, b: string | a != b ensures TextLess(a, b) || TextLess(b, a) {
      TextLessTotal(a, b);
    }
  }

  /** Concatenation regroups: a step the loops that append batches take. */
  lemma AppendAssoc<T>(a: seq<T>, b: seq<T>, c: seq<T>)
    ensures (a + b) + c == a + (b + c)
  {
  }

  /** Every element of `s` is `le` every later one. */
  predicate SortedBy<T>(s: seq<T>, le: (T, T) -> bool) {
    forall i, j :: 0 <= i < j < |s| ==> le(s[i], s[j])
  }

  /** Puts `x` into the sorted `t` after every element `e` with `le(e, x)`, so that equal
      elements keep their order of arrival. */
  function Insert<T(!new)>(t: seq<T>, x: T, le: (T, T) -> bool): (r: seq<T>)
    ensures multiset(r) == multiset(t) + multiset{x}
    ensures |r| == |t| + 1
  {
    if |t| == 0 then [x]
    else if le(t[|t| - 1], x) then t + [x]
    else
      assert t == t[..|t| - 1] + [t[|t| - 1]];
      Insert(t[..|t| - 1], x, le) + [t[|t| - 1]]
  }

  lemma {:induction false} InsertSorted<T(!new)>(t: seq<T>, x: T, le: (T, T) -> bool)
    requires TotalPreorder(le) && SortedBy(t, le)
    ensures SortedBy(Insert(t, x, le), le)
  {
    if |t| == 0 {
    } else if le(t[|t| - 1], x) {
      forall i | 0 <= i < |t| ensures le(t[i], x) {
        if i < |t| - 1 {
          assert le(t[i], t[|t| - 1]);
        }
      }
    } else {
      var init, last := t[..|t| - 1], t[|t| - 1];
      assert SortedBy(init, le) by {
        forall i, j | 0 <= i < j < |init| ensures le(init[i], init[j]) {
          assert init[i] == t[i] && init[j] == t[j];
        }
      }
      InsertSorted(init, x, le);
      var r := Insert(init, x, le);
      assert le(x, last);
      forall i | 0 <= i < |r| ensures le(r[i], last) {
        assert r[i] in multiset(r);
        if r[i] != x {
          assert r[i] in multiset(init);
          var k :| 0 <= k < |init| && init[k] == r[i];
          assert t[k] == init[k];
        }
      }
      assert Insert(t, x, le) == r + [last];
    }
  }

  /** A stable insertion sort by `le`: the result holds the same elements, in `le` order. */
  function SortBy<T(!new)>(s: seq<T>, le: (T, T) -> bool): (r: seq<T>)
    ensures multiset(r) == multiset(s)
    ensures |r| == |s|
  {
    if |s| == 0 then []
    else
      assert s == s[..|s| - 1] + [s[|s| - 1]];
      Insert(SortBy(s[..|s| - 1], le), s[|s| - 1], le)
  }

  /** Sorting keeps exactly the elements it was given. */
  lemma {:induction false} SortByMembers<T(!new)>(s: seq<T>, le: (T, T) -> bool)
    ensures forall x :: x in SortBy(s, le) <==> x in s
  {
    var r := SortBy(s, le);
    forall x ensures x in r <==> x in s {
      assert x in r <==> x in multiset(r);
      assert x in s <==> x in multiset(s);
    }
  }

  lemma {:induction false} SortBySorted<T(!new)>(s: seq<T>, le: (T, T) -> bool)
    requires TotalPreorder(le)
    ensures SortedBy(SortBy(s, le), le)
  {
    if |s| > 0 {
      SortBySorted(s[..|s| - 1], le);
      InsertSorted(SortBy(s[..|s| - 1], le), s[|s| - 1], le);
    }
  }

  /** The front of a sorted sequence is sorted, and its last element precedes the last one. */
  lemma SortedInit<T>(s: seq<T>, le: (T, T) -> bool)
    requires SortedBy(s, le) && |s| > 0
    ensures SortedBy(s[..|s| - 1], le)
    ensures |s| > 1 ==> le(s[..|s| - 1][|s| - 2], s[|s| - 1])
  {
    var init := s[..|s| - 1];
    forall i, j | 0 <= i < j < |init| ensures le(init[i], init[j]) {
      assert init[i] == s[i] && init[j] == s[j];
    }
  }

  /** An element not preceded by the last one of `t` is inserted at the end. */
  lemma InsertAtEnd<T(!new)>(t: seq<T>, x: T, le: (T, T) -> bool)
    requires |t| == 0 || le(t[|t| - 1], x)
    ensures Insert(t, x, le) == t + [x]
  {
  }

  /** Sorting what is already sorted changes nothing. */
  lemma {:induction false} SortByOfSorted<T(!new)>(s: seq<T>, le: (T, T) -> bool)
    requires SortedBy(s, le)
    ensures SortBy(s, le) == s
  {
    if |s| > 0 {
      var init, last := s[..|s| - 1], s[|s| - 1];
      SortedInit(s, le);
      SortByOfSorted(init, le);
      InsertAtEnd(init, last, le);
      assert init + [last] == s;
    }
  }
}
