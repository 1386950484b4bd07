/** The optional value used for SQL rows that may be absent and for nullable columns. */
module Optional {

  datatype Option<+T> = None | Some(value: T)
}

/**
  Sequence helpers standing in for the SQL the handlers run: the first
  matching row (`one=True`), a WHERE filter, and ORDER BY ... DESC.
 */
module Seqs {
  import opened Optional

  /** Index of the first element satisfying `p`, the row a `one=True` query returns. */
  function FirstIndex<T>(s: seq<T>, p: T -> bool): (r: Option<nat>)
    ensures r.Some? ==> r.value < |s| && p(s[r.value])
    ensures r.Some? ==> forall j :: 0 <= j < r.value ==> !p(s[j])
    ensures r.None? ==> forall j :: 0 <= j < |s| ==> !p(s[j])
  {
    if |s| == 0 then None
    else if p(s[0]) then Some(0)
    else match FirstIndex(s[1..], p)
      case None => None
      case Some(k) => Some(k + 1)
  }

  /**
    The elements of `s` satisfying `p`, in their original order: each kept
    element occurs as often as in `s`, and `FilterAppend` fixes the order.
   */
  function Filter<T(!new)>(s: seq<T>, p: T -> bool): (r: seq<T>)
    ensures |r| <= |s|
    ensures forall x :: x in r <==> x in s && p(x)
    ensures forall x {:trigger multiset(r)[x]} :: multiset(r)[x] == if p(x) then multiset(s)[x] else 0
  {
    if |s| == 0 then []
    else
      var rest := Filter(s[1..], p);
      assert s == [s[0]] + s[1..];
      assert forall x :: x in s <==> x == s[0] || x in s[1..];
      if p(s[0]) then [s[0]] + rest else rest
  }

  /** Filtering a concatenation filters each part and keeps them in order. */
  lemma {:induction false} FilterAppend<T(!new)>(a: seq<T>, b: seq<T>, p: T -> bool)
    ensures Filter(a + b, p) == Filter(a, p) + Filter(b, p)
  {
    if |a| == 0 {
      assert a + b == b;
    } else {
      var ab := a + b;
      assert ab[0] == a[0] && ab[1..] == a[1..] + b;
      FilterAppend(a[1..], b, p);
      if p(a[0]) {
        calc {
          Filter(ab, p);
          [a[0]] + Filter(a[1..] + b, p);
          [a[0]] + (Filter(a[1..], p) + Filter(b, p));
          ([a[0]] + Filter(a[1..], p)) + Filter(b, p);
        }
      }
    }
  }

  /**
    An inner join seen from its driving table: each row `x` of `s` becomes the
    joined row `f(x)`, or is dropped when `f(x)` is None, in table order. `back`
    recovers the driving row from a joined one.
   */
  function Join<A(!new), B(!new)>(s: seq<A>, f: A -> Option<B>, back: B -> A): (r: seq<B>)
    requires forall x :: f(x).Some? ==> back(f(x).value) == x
    ensures forall y {:trigger multiset(r)[y]} :: multiset(r)[y] == if f(back(y)) == Some(y) then multiset(s)[back(y)] else 0
    ensures forall y :: y in r <==> back(y) in s && f(back(y)) == Some(y)
  {
    if |s| == 0 then []
    else
      var rest := Join(s[1..], f, back);
      assert s == [s[0]] + s[1..];
      assert forall x :: multiset(s)[x] == (if x == s[0] then 1 else 0) + multiset(s[1..])[x];
      match f(s[0])
      case None => rest
      case Some(y) =>
        assert forall z :: multiset([y] + rest)[z] == (if z == y then 1 else 0) + multiset(rest)[z];
        [y] + rest
  }

  /** Non-increasing by `key`: the order of an ORDER BY key DESC result. */
  predicate SortedDesc<T>(s: seq<T>, key: T -> int)
  {
    forall i, j :: 0 <= i < j < |s| ==> key(s[i]) >= key(s[j])
  }

  /** Places `x` into a sequence already sorted by descending key. */
  function Insert<T(!new)>(x: T, s: seq<T>, key: T -> int): (r: seq<T>)
    requires SortedDesc(s, key)
    ensures SortedDesc(r, key)
    ensures multiset(r) == multiset(s) + multiset{x}
  {
    if |s| == 0 || key(x) >= key(s[0]) then [x] + s
    else
      var rest := Insert(x, s[1..], key);
      assert s == [s[0]] + s[1..];
      BoundedByHead(s, key);
      PrependSorted(s[0], rest, key, multiset(s[1..]) + multiset{x});
      [s[0]] + rest
  }

  /** In a descending sequence no later key exceeds the first. */
  lemma BoundedByHead<T>(s: seq<T>, key: T -> int)
    requires SortedDesc(s, key) && |s| > 0
    ensures forall y :: y in multiset(s[1..]) ==> key(y) <= key(s[0])
  {
    forall y | y in multiset(s[1..]) ensures key(y) <= key(s[0]) {
      var k :| 0 <= k < |s[1..]| && s[1..][k] == y;
      assert s[k + 1] == y;
    }
  }

  /** Putting a head in front keeps the order when no key behind it exceeds it. */
  lemma PrependSorted<T>(h: T, rest: seq<T>, key: T -> int, m: multiset<T>)
    requires SortedDesc(rest, key)
    requires multiset(rest) == m
    requires forall y :: y in m ==> key(y) <= key(h)
    ensures SortedDesc([h] + rest, key)
  {
    forall j | 0 <= j < |rest| ensures key(rest[j]) <= key(h) {
      assert rest[j] in multiset(rest);
    }
  }

  /** ORDER BY key DESC: a descending permutation of `s`. */
  function SortDesc<T(!new)>(s: seq<T>, key: T -> int): (r: seq<T>)
    ensures SortedDesc(r, key)
    ensures multiset(r) == multiset(s)
  {
    if |s| == 0 then []
    else
      assert s == [s[0]] + s[1..];
      Insert(s[0], SortDesc(s[1..], key), key)
  }

  /** In a descending sequence, an element with a strictly larger key comes before one with a smaller key. */
  lemma LargerKeyFirst<T>(s: seq<T>, key: T -> int, a: T, b: T)
    requires SortedDesc(s, key)
    requires a in s && b in s && key(a) > key(b)
    ensures exists i, j :: 0 <= i < j < |s| && s[i] == a && s[j] == b
  {
    var i :| 0 <= i < |s| && s[i] == a;
    var j :| 0 <= j < |s| && s[j] == b;
    if j <= i {
      assert false;
    }
  }

  /** In a sequence without repeats every element occurs at most once. */
  lemma {:induction false} DistinctAtMostOnce<T>(s: seq<T>)
    requires forall i, j :: 0 <= i < j < |s| ==> s[i] != s[j]
    ensures forall x :: multiset(s)[x] <= 1
  {
    if |s| > 0 {
      DistinctAtMostOnce(s[1..]);
      assert s == [s[0]] + s[1..];
      forall k | 0 <= k < |s[1..]| ensures s[1..][k] != s[0] {
        assert s[1..][k] == s[k + 1];
      }
    }
  }

  /** A sequence in which every element occurs at most once has no repeats. */
  lemma OnceIsDistinct<T>(s: seq<T>)
    requires forall x :: multiset(s)[x] <= 1
    ensures forall i, j :: 0 <= i < j < |s| ==> s[i] != s[j]
  {
    forall i, j | 0 <= i < j < |s| ensures s[i] != s[j] {
      assert s == s[..j] + s[j..];
      assert s[..j][i] == s[i] && s[j..][0] == s[j];
      assert multiset(s)[s[i]] == multiset(s[..j])[s[i]] + multiset(s[j..])[s[i]];
    }
  }

  /** A descending permutation has exactly the elements of its input. */
  lemma SortDescMembers<T(!new)>(s: seq<T>, key: T -> int)
    ensures forall x :: x in SortDesc(s, key) <==> x in s
  {
    var r := SortDesc(s, key);
    forall x ensures x in r <==> x in s {
      calc {
        x in r;
        x in multiset(r);
        x in multiset(s);
        x in s;
      }
    }
  }
}
