/** The byte order of ids and the contract of the library sort. */
module Ordering {

  /** Lexicographic order on ids; a proper prefix comes first. */
  predicate LexLess(a: string, b: string)
  {
    if b == "" then false
    else if a == "" then true
    else a[0] < b[0] || (a[0] == b[0] && LexLess(a[1..], b[1..]))
  }

  lemma {:induction false} LexIrreflexive(a: string)
    ensures !LexLess(a, a)
  {
    if a != "" {
      LexIrreflexive(a[1..]);
    }
  }

  lemma {:induction false} LexTransitive(a: string, b: string, c: string)
    requires LexLess(a, b) && LexLess(b, c)
    ensures LexLess(a, c)
  {
    if a != "" && a[0] == b[0] == c[0] {
      LexTransitive(a[1..], b[1..], c[1..]);
    }
  }

  lemma {:induction false} LexTotal(a: string, b: string)
    requires a != b
    ensures LexLess(a, b) || LexLess(b, a)
  {
    if a != "" && b != "" && a[0] == b[0] {
      assert a == [a[0]] + a[1..] && b == [b[0]] + b[1..];
      LexTotal(a[1..], b[1..]);
    }
  }

  /** What decides is the first position where the two differ, or that the first one ends there. */
  lemma {:induction false} LexLessIsFirstDifference(a: string, b: string)
    ensures LexLess(a, b) <==> exists n: nat :: DifferAt(a, b, n)
  {
    if a != "" && b != "" && a[0] == b[0] {
      LexLessIsFirstDifference(a[1..], b[1..]);
      forall n: nat | DifferAt(a, b, n)
        ensures n > 0 && DifferAt(a[1..], b[1..], n - 1)
      {
        assert a[1..][..n - 1] == a[..n][1..] && b[1..][..n - 1] == b[..n][1..];
      }
      forall n: nat | DifferAt(a[1..], b[1..], n)
        ensures DifferAt(a, b, n + 1)
      {
        assert a[..n + 1] == [a[0]] + a[1..][..n] && b[..n + 1] == [b[0]] + b[1..][..n];
      }
    } else {
      assert LexLess(a, b) ==> DifferAt(a, b, 0);
    }
  }

  predicate DifferAt(a: string, b: string, n: nat)
  {
    n <= |a| && n < |b| && a[..n] == b[..n] && (n < |a| ==> a[n] < b[n])
  }

  /** `less` is a strict total order on the elements of `s`. */
  ghost predicate Orders<T(!new)>(less: (T, T) -> bool, s: seq<T>)
  {
    && (forall x | x in s :: !less(x, x))
    && (forall x, y | x in s && y in s && x != y :: less(x, y) || less(y, x))
    && (forall x, y, z | x in s && y in s && z in s && less(x, y) && less(y, z) :: less(x, z))
  }

  ghost predicate Distinct<T>(s: seq<T>)
  {
    forall i, j :: 0 <= i < j < |s| ==> s[i] != s[j]
  }

  ghost predicate SortedBy<T>(less: (T, T) -> bool, s: seq<T>)
  {
    forall i, j :: 0 <= i < j < |s| ==> less(s[i], s[j])
  }

  function Insert<T>(less: (T, T) -> bool, s: seq<T>, x: T): (r: seq<T>)
    ensures multiset(r) == multiset(s) + multiset{x}
  {
    if s == [] then [x]
    else if less(x, s[0]) then [x] + s
    else
      assert s == [s[0]] + s[1..];
      [s[0]] + Insert(less, s[1..], x)
  }

  lemma CountsWithLast<T>(s: seq<T>, last: T, x: T)
    ensures multiset(s + [last])[x] == multiset(s)[x] + (if last == x then 1 else 0)
  {
  }

  /** The sequence after its element `i` was erased. */
  function Without<T>(s: seq<T>, i: nat): seq<T>
    requires i < |s|
  {
    s[..i] + s[i + 1..]
  }

  /** The others keep their order. */
  lemma WithoutLeavesTheOthers<T>(s: seq<T>, i: nat)
    requires i < |s|
    ensures |Without(s, i)| == |s| - 1
    ensures forall k :: 0 <= k < |s| && k != i ==> Without(s, i)[if k < i then k else k - 1] == s[k]
  {
  }

  /** What the library sort returns when `less` orders distinct elements. */
  function Sort<T>(less: (T, T) -> bool, s: seq<T>): (r: seq<T>)
    ensures multiset(r) == multiset(s)
  {
    if s == [] then []
    else
      assert s == [s[0]] + s[1..];
      Insert(less, Sort(less, s[1..]), s[0])
  }

  lemma SameElements<T>(s: seq<T>, t: seq<T>)
    requires multiset(s) == multiset(t)
    ensures |s| == |t|
    ensures forall x :: x in s <==> x in t
  {
    assert |multiset(s)| == |s| && |multiset(t)| == |t|;
    forall x
      ensures x in s <==> x in t
    {
      assert x in s <==> x in multiset(s);
      assert x in t <==> x in multiset(t);
    }
  }

  lemma SortedWithFirst<T(!new)>(less: (T, T) -> bool, x: T, s: seq<T>)
    requires SortedBy(less, s) && forall y :: y in s ==> less(x, y)
    ensures SortedBy(less, [x] + s)
  {
  }

  lemma {:induction false} InsertSorts<T(!new)>(less: (T, T) -> bool, s: seq<T>, x: T)
    requires SortedBy(less, s) && Orders(less, s + [x]) && x !in s
    ensures SortedBy(less, Insert(less, s, x))
  {
    if s != [] && !less(x, s[0]) {
      assert s[0] in s + [x] && x in s + [x];
      assert less(s[0], x);
      OrdersOnFewer(less, s + [x], s[1..] + [x]);
      InsertSorts(less, s[1..], x);
      var rest := Insert(less, s[1..], x);
      SameElements(rest, s[1..] + [x]);
      SortedWithFirst(less, s[0], rest);
    } else if s != [] {
      forall j | 0 <= j < |s|
        ensures less(x, s[j])
      {
        assert s[0] in s + [x] && s[j] in s + [x] && x in s + [x];
      }
    }
  }

  /** The sorted sequence is strictly increasing. */
  lemma {:induction false} SortSorts<T(!new)>(less: (T, T) -> bool, s: seq<T>)
    requires Orders(less, s) && Distinct(s)
    ensures SortedBy(less, Sort(less, s))
  {
    if s != [] {
      OrdersOnFewer(less, s, s[1..]);
      SortSorts(less, s[1..]);
      var t := Sort(less, s[1..]);
      SameElements(t, s[1..]);
      OrdersOnFewer(less, s, t + [s[0]]);
      InsertSorts(less, t, s[0]);
    }
  }

  lemma OrdersOnFewer<T(!new)>(less: (T, T) -> bool, s: seq<T>, t: seq<T>)
    requires Orders(less, s) && forall x :: x in t ==> x in s
    ensures Orders(less, t)
  {
  }

  lemma LeastFirst<T(!new)>(less: (T, T) -> bool, s: seq<T>, x: T)
    requires SortedBy(less, s) && x in s
    ensures x == s[0] || less(s[0], x)
  {
  }

  lemma SameLeast<T(!new)>(less: (T, T) -> bool, s: seq<T>, t: seq<T>)
    requires Orders(less, s) && SortedBy(less, s) && SortedBy(less, t)
    requires s != [] && t != [] && s[0] in t && t[0] in s
    ensures s[0] == t[0]
  {
    LeastFirst(less, s, t[0]);
    LeastFirst(less, t, s[0]);
    assert !less(s[0], s[0]);
  }

  lemma SameRest<T>(s: seq<T>, t: seq<T>)
    requires multiset(s) == multiset(t) && s != [] && t != [] && s[0] == t[0]
    ensures multiset(s[1..]) == multiset(t[1..])
  {
    assert s == [s[0]] + s[1..] && t == [t[0]] + t[1..];
    assert multiset(s[1..]) == multiset(s) - multiset{s[0]};
    assert multiset(t[1..]) == multiset(t) - multiset{t[0]};
  }

  /** There is only one sorted permutation. */
  lemma {:induction false} SortedUnique<T(!new)>(less: (T, T) -> bool, s: seq<T>, t: seq<T>)
    requires Orders(less, s) && SortedBy(less, s) && SortedBy(less, t)
    requires multiset(s) == multiset(t)
    ensures s == t
  {
    SameElements(s, t);
    if s != [] {
      assert s[0] in s && t[0] in t;
      SameLeast(less, s, t);
      assert s == [s[0]] + s[1..] && t == [t[0]] + t[1..];
      SameRest(s, t);
      OrdersOnFewer(less, s, s[1..]);
      SortedUnique(less, s[1..], t[1..]);
    }
  }

  /** Sorting forgets the order of its input. */
  lemma SortIsCanonical<T(!new)>(less: (T, T) -> bool, s: seq<T>, t: seq<T>)
    requires Orders(less, s) && Distinct(s) && Distinct(t)
    requires multiset(s) == multiset(t)
    ensures Sort(less, s) == Sort(less, t)
  {
    SameElements(s, t);
    SortSorts(less, s);
    SortSorts(less, t);
    SameElements(Sort(less, s), s);
    SortedUnique(less, Sort(less, s), Sort(less, t));
  }

  /** What `std::min_element` selects: the first element that no other one precedes. */
  function Least<T>(less: (T, T) -> bool, s: seq<T>): (m: T)
    requires s != []
    ensures m in s
  {
    var last := |s| - 1;
    if last == 0 then s[0]
    else
      var m := Least(less, s[..last]);
      if less(s[last], m) then s[last] else m
  }

  lemma {:induction false} LeastPrecedesTheRest<T(!new)>(less: (T, T) -> bool, s: seq<T>, x: T)
    requires s != [] && Orders(less, s) && x in s
    ensures x == Least(less, s) || less(Least(less, s), x)
  {
    var last := |s| - 1;
    if last > 0 {
      OrdersOnFewer(less, s, s[..last]);
      assert x == s[last] || x in s[..last];
      if x in s[..last] {
        LeastPrecedesTheRest(less, s[..last], x);
      }
    }
  }

  lemma NeverBothWays<T(!new)>(less: (T, T) -> bool, s: seq<T>, x: T, y: T)
    requires Orders(less, s) && x in s && y in s && less(x, y)
    ensures !less(y, x)
  {
  }
}
