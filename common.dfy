/** Small value-level building blocks shared by the model: an optional value,
    filtering a sequence by a predicate (a `find` with a query document), taking
    a prefix (a cursor `limit`) and sorting by an integer key (a cursor `sort`). */
module Common {

  datatype Option<+T> = None | Some(value: T)

  /** The elements of `s` that satisfy `p`, in their original order. */
  function Filter<T>(s: seq<T>, p: T -> bool): (r: seq<T>)
    ensures |r| <= |s|
    ensures forall i :: 0 <= i < |r| ==> p(r[i])
  {
    if s == [] then [] else (if p(s[0]) then [s[0]] else []) + Filter(s[1..], p)
  }

  /** Number of elements of `s` that satisfy `p`. */
  function Count<T>(s: seq<T>, p: T -> bool): nat
  {
    |Filter(s, p)|
  }

  lemma {:induction false} FilterMembership<T>(s: seq<T>, p: T -> bool, x: T)
    ensures x in Filter(s, p) <==> x in s && p(x)
  {
    if s != [] {
      FilterMembership(s[1..], p, x);
      assert s == [s[0]] + s[1..];
    }
  }

  lemma {:induction false} FilterMultiset<T>(s: seq<T>, p: T -> bool, x: T)
    ensures multiset(Filter(s, p))[x] == if p(x) then multiset(s)[x] else 0
  {
    if s != [] {
      FilterMultiset(s[1..], p, x);
      assert s == [s[0]] + s[1..];
    }
  }

  lemma {:induction false} FilterAppend<T>(a: seq<T>, b: seq<T>, p: T -> bool)
    ensures Filter(a + b, p) == Filter(a, p) + Filter(b, p)
  {
    if a == [] {
      assert a + b == b;
    } else {
      var head := if p(a[0]) then [a[0]] else [];
      assert (a + b)[0] == a[0];
      assert (a + b)[1..] == a[1..] + b;
      FilterAppend(a[1..], b, p);
      calc {
        Filter(a + b, p);
        head + Filter(a[1..] + b, p);
        head + (Filter(a[1..], p) + Filter(b, p));
        (head + Filter(a[1..], p)) + Filter(b, p);
      }
    }
  }

  lemma FilterSingleton<T>(x: T, p: T -> bool)
    ensures Filter([x], p) == if p(x) then [x] else []
  {
    assert [x][1..] == [];
  }

  /** Filtering twice by the same predicate removes nothing more. */
  lemma {:induction false} FilterIdempotent<T>(s: seq<T>, p: T -> bool)
    ensures Filter(Filter(s, p), p) == Filter(s, p)
  {
    if s != [] {
      var head := if p(s[0]) then [s[0]] else [];
      FilterIdempotent(s[1..], p);
      FilterAppend(head, Filter(s[1..], p), p);
      if p(s[0]) { FilterSingleton(s[0], p); }
    }
  }

  /** Every element satisfies exactly one of `p` and its complement `np`. */
  lemma {:induction false} FilterComplement<T>(s: seq<T>, p: T -> bool, np: T -> bool)
    requires forall x :: np(x) == !p(x)
    ensures |Filter(s, p)| + |Filter(s, np)| == |s|
  {
    if s != [] {
      FilterComplement(s[1..], p, np);
    }
  }

  /** A predicate no element satisfies selects nothing. */
  lemma {:induction false} FilterNone<T>(s: seq<T>, p: T -> bool)
    requires forall i :: 0 <= i < |s| ==> !p(s[i])
    ensures Filter(s, p) == []
  {
    if s != [] {
      FilterNone(s[1..], p);
    }
  }

  /** A predicate every element satisfies selects everything. */
  lemma {:induction false} FilterAll<T>(s: seq<T>, p: T -> bool)
    requires forall i :: 0 <= i < |s| ==> p(s[i])
    ensures Filter(s, p) == s
  {
    if s != [] {
      FilterAll(s[1..], p);
      assert s == [s[0]] + s[1..];
    }
  }

  /** The cursor `limit(n)` of the driver: 0 means no limit, a negative limit
      is taken by its absolute value. */
  function Take<T>(s: seq<T>, limit: int): (r: seq<T>)
    ensures limit == 0 ==> r == s
    ensures limit != 0 ==> |r| == if |s| <= Abs(limit) then |s| else Abs(limit)
    ensures r == s[..|r|]
  {
    if limit == 0 || |s| <= Abs(limit) then s else s[..Abs(limit)]
  }

  /** A cursor limit returns each element at most as often as the input has it. */
  lemma TakeSubMultiset<T>(s: seq<T>, limit: int)
    ensures multiset(Take(s, limit)) <= multiset(s)
  {
    var r := Take(s, limit);
    assert s == r + s[|r|..];
  }

  function Abs(n: int): nat
  {
    if n < 0 then -n else n
  }

  /** `s` is ordered by non-decreasing `key`. */
  predicate SortedBy<T>(s: seq<T>, key: T -> int)
  {
    forall i, j :: 0 <= i < j < |s| ==> key(s[i]) <= key(s[j])
  }

  /** Inserts `x` before the first element whose key is not smaller. */
  function InsertBy<T>(x: T, s: seq<T>, key: T -> int): (r: seq<T>)
    ensures |r| == |s| + 1
  {
    if s == [] then [x]
    else if key(x) <= key(s[0]) then [x] + s
    else [s[0]] + InsertBy(x, s[1..], key)
  }

  /** Insertion sort by `key`. */
  function SortBy<T>(s: seq<T>, key: T -> int): (r: seq<T>)
    ensures |r| == |s|
  {
    if s == [] then [] else InsertBy(s[0], SortBy(s[1..], key), key)
  }

  lemma {:induction false} InsertByElements<T>(x: T, s: seq<T>, key: T -> int, k: int)
    requires forall i :: 0 <= i < |s| ==> key(s[i]) >= k
    requires key(x) >= k
    ensures forall i :: 0 <= i < |s| + 1 ==> key(InsertBy(x, s, key)[i]) >= k
  {
    if s != [] && key(x) > key(s[0]) {
      InsertByElements(x, s[1..], key, k);
    }
  }

  lemma {:induction false} InsertBySorted<T>(x: T, s: seq<T>, key: T -> int)
    requires SortedBy(s, key)
    ensures SortedBy(InsertBy(x, s, key), key)
  {
    if s != [] && key(x) > key(s[0]) {
      InsertBySorted(x, s[1..], key);
      InsertByElements(x, s[1..], key, key(s[0]));
    }
  }

  lemma {:induction false} InsertByMultiset<T>(x: T, s: seq<T>, key: T -> int)
    ensures multiset(InsertBy(x, s, key)) == multiset(s) + multiset{x}
  {
    if s != [] && key(x) > key(s[0]) {
      InsertByMultiset(x, s[1..], key);
      assert s == [s[0]] + s[1..];
    }
  }

  /** SortBy yields a sorted permutation of its input. */
  lemma {:induction false} SortByCorrect<T>(s: seq<T>, key: T -> int)
    ensures SortedBy(SortBy(s, key), key)
    ensures multiset(SortBy(s, key)) == multiset(s)
  {
    if s != [] {
      SortByCorrect(s[1..], key);
      InsertBySorted(s[0], SortBy(s[1..], key), key);
      InsertByMultiset(s[0], SortBy(s[1..], key), key);
      assert s == [s[0]] + s[1..];
    }
  }

  /** Selecting with `p` and sorting by `key` gives a sorted sequence holding
      each selected element as often as the input does. */
  lemma SelectSorted<T>(s: seq<T>, p: T -> bool, key: T -> int)
    ensures SortedBy(SortBy(Filter(s, p), key), key)
    ensures forall x :: multiset(SortBy(Filter(s, p), key))[x] == if p(x) then multiset(s)[x] else 0
  {
    SortByCorrect(Filter(s, p), key);
    forall x ensures multiset(SortBy(Filter(s, p), key))[x] == if p(x) then multiset(s)[x] else 0 {
      FilterMultiset(s, p, x);
    }
  }

  /** In a sorted sequence, an element left out of the first `n` has a key no
      smaller than any of theirs. */
  lemma TopK<T>(s: seq<T>, key: T -> int, n: nat, x: T)
    requires SortedBy(s, key) && n <= |s|
    requires x in s && x !in s[..n]
    ensures forall i :: 0 <= i < n ==> key(s[i]) <= key(x)
  {
    assert s == s[..n] + s[n..];
    assert x in s[n..];
    var j :| 0 <= j < |s| - n && s[n..][j] == x;
    assert s[n + j] == x;
  }
}
