/** Ordering by a comparator, the way `std::sort` uses one: the comparator
    is a "less than" relation, and a sequence is sorted when no element is
    less than one that comes before it. `std::sort` promises a sorted
    permutation and nothing about the order of equivalent elements; the
    insertion sort below is one such permutation, and any two of them carry
    the same key at every position when the key is totally ordered. */
module Sorting {
  import Text

  /** The comparator relates no element to itself. */
  ghost predicate Irreflexive<T(!new)>(less: (T, T) -> bool) {
    forall a :: !less(a, a)
  }

  ghost predicate Transitive<T(!new)>(less: (T, T) -> bool) {
    forall a, b, c :: less(a, b) && less(b, c) ==> less(a, c)
  }

  /** Neither of a and b is less than the other. */
  predicate Equivalent<T>(less: (T, T) -> bool, a: T, b: T) {
    !less(a, b) && !less(b, a)
  }

  ghost predicate EquivalenceTransitive<T(!new)>(less: (T, T) -> bool) {
    forall a, b, c :: Equivalent(less, a, b) && Equivalent(less, b, c) ==> Equivalent(less, a, c)
  }

  /** The requirement `std::sort` places on its comparator. */
  ghost predicate StrictWeakOrder<T(!new)>(less: (T, T) -> bool) {
    Irreflexive(less) && Transitive(less) && EquivalenceTransitive(less)
  }

  /** No element is less than an element before it. */
  predicate Sorted<T>(less: (T, T) -> bool, s: seq<T>) {
    forall i, j :: 0 <= i < j < |s| ==> !less(s[j], s[i])
  }

  /** Under a strict weak order "not less than" is transitive as well. */
  lemma {:induction false} NotLessTransitive<T(!new)>(less: (T, T) -> bool, a: T, b: T, c: T)
    requires StrictWeakOrder(less)
    requires !less(a, b) && !less(b, c)
    ensures !less(a, c)
  {
    if less(a, c) {
      assert !less(c, b);
      assert !less(b, a);
      assert Equivalent(less, a, b) && Equivalent(less, b, c);
      assert false;
    }
  }

  /** x placed in front of the first element that is not less than x, so
      that it follows the elements less than it and precedes its
      equivalents. */
  function Insert<T>(less: (T, T) -> bool, x: T, s: seq<T>): (r: seq<T>)
    ensures multiset(r) == multiset(s) + multiset{x}
    ensures |r| == |s| + 1
  {
    if |s| == 0 || !less(s[0], x) then [x] + s
    else
      assert s == [s[0]] + s[1..];
      [s[0]] + Insert(less, x, s[1..])
  }

  /** Inserting into a sorted sequence keeps it sorted. */
  lemma {:induction false} InsertSorted<T(!new)>(less: (T, T) -> bool, x: T, s: seq<T>)
    requires StrictWeakOrder(less) && Sorted(less, s)
    ensures Sorted(less, Insert(less, x, s))
    decreases |s|
  {
    if |s| == 0 {
    } else if !less(s[0], x) {
      InsertFront(less, x, s);
    } else {
      var tail := s[1..];
      SortedTail(less, s, tail);
      InsertSorted(less, x, tail);
      InsertBehind(less, x, s, tail, Insert(less, x, tail));
    }
  }

  lemma {:induction false} SortedTail<T>(less: (T, T) -> bool, s: seq<T>, tail: seq<T>)
    requires Sorted(less, s) && |s| > 0 && tail == s[1..]
    ensures Sorted(less, tail)
  {
    forall i, j | 0 <= i < j < |tail|
      ensures !less(tail[j], tail[i])
    {
      assert tail[j] == s[j + 1] && tail[i] == s[i + 1];
    }
  }

  /** x in front of a sorted sequence whose first element is not less than
      x. */
  lemma {:induction false} InsertFront<T(!new)>(less: (T, T) -> bool, x: T, s: seq<T>)
    requires StrictWeakOrder(less) && Sorted(less, s)
    requires |s| > 0 && !less(s[0], x)
    ensures Sorted(less, [x] + s)
  {
    var r := [x] + s;
    forall i, j | 0 <= i < j < |r|
      ensures !less(r[j], r[i])
    {
      if i == 0 {
        assert r[j] == s[j - 1];
        if j > 1 {
          NotLessTransitive(less, s[j - 1], s[0], x);
        }
      } else {
        assert r[j] == s[j - 1] && r[i] == s[i - 1];
      }
    }
  }

  /** The first element of a sorted sequence in front of the sorted
      insertion into the rest, when that element is less than x. */
  lemma {:induction false} InsertBehind<T(!new)>(less: (T, T) -> bool, x: T, s: seq<T>, tail: seq<T>, inserted: seq<T>)
    requires StrictWeakOrder(less) && Sorted(less, s) && |s| > 0 && less(s[0], x)
    requires tail == s[1..] && inserted == Insert(less, x, tail) && Sorted(less, inserted)
    ensures Sorted(less, [s[0]] + inserted)
  {
    var r := [s[0]] + inserted;
    assert multiset(inserted) == multiset(tail) + multiset{x};
    assert !less(x, s[0]);
    forall i, j | 0 <= i < j < |r|
      ensures !less(r[j], r[i])
    {
      if i == 0 {
        assert r[j] in multiset(inserted);
        if r[j] != x {
          assert r[j] in multiset(tail);
          var k :| 0 <= k < |tail| && tail[k] == r[j];
          assert s[k + 1] == r[j];
        }
      } else {
        assert r[j] == inserted[j - 1] && r[i] == inserted[i - 1];
      }
    }
  }

  /** Insertion sort: the elements of s, each inserted into the sorted
      rest. */
  function Sort<T>(less: (T, T) -> bool, s: seq<T>): (r: seq<T>)
    ensures multiset(r) == multiset(s)
    ensures |r| == |s|
  {
    if |s| == 0 then [] else
      assert s == [s[0]] + s[1..];
      Insert(less, s[0], Sort(less, s[1..]))
  }

  /** Under a strict weak order the result is sorted. */
  lemma {:induction false} SortSorted<T(!new)>(less: (T, T) -> bool, s: seq<T>)
    requires StrictWeakOrder(less)
    ensures Sorted(less, Sort(less, s))
    decreases |s|
  {
    if |s| > 0 {
      var tail := s[1..];
      SortSorted(less, tail);
      InsertSorted(less, s[0], Sort(less, tail));
    }
  }

  /** Any two elements are related one way or the other, or are equal. */
  ghost predicate Total<T(!new)>(less: (T, T) -> bool) {
    forall a, b :: less(a, b) || less(b, a) || a == b
  }

  /** Under a total comparator a sorted sequence is fixed by its elements:
      two sorted arrangements of the same multiset are the same sequence. */
  lemma {:induction false} SortedUnique<T(!new)>(less: (T, T) -> bool, x: seq<T>, y: seq<T>)
    requires Total(less) && Sorted(less, x) && Sorted(less, y)
    requires multiset(x) == multiset(y)
    ensures x == y
    decreases |x|
  {
    assert |x| == |multiset(x)| == |multiset(y)| == |y|;
    if |x| > 0 {
      SortedHeads(less, x, y);
      RemoveOne(x, y, 0);
      assert y[..0] + y[1..] == y[1..];
      SortedTail(less, x, x[1..]);
      SortedTail(less, y, y[1..]);
      SortedUnique(less, x[1..], y[1..]);
    }
  }

  /** Each sorted arrangement starts with an element the other one has at
      or after its start, so neither first element is less than the other. */
  lemma {:induction false} SortedHeads<T(!new)>(less: (T, T) -> bool, x: seq<T>, y: seq<T>)
    requires Total(less) && Sorted(less, x) && Sorted(less, y)
    requires multiset(x) == multiset(y) && |x| > 0 && |y| > 0
    ensures x[0] == y[0]
  {
    assert x[0] in multiset(y);
    var k :| 0 <= k < |y| && y[k] == x[0];
    assert y[0] in multiset(x);
    var j :| 0 <= j < |x| && x[j] == y[0];
    if k > 0 && j > 0 {
      assert !less(y[k], y[0]) && !less(x[j], x[0]);
    }
  }

  /** The key f gives each element of s, in order. */
  function Keys<T, K>(f: T -> K, s: seq<T>): (ks: seq<K>)
    ensures |ks| == |s| && forall i :: 0 <= i < |s| ==> ks[i] == f(s[i])
  {
    seq(|s|, i requires 0 <= i < |s| => f(s[i]))
  }

  /** Rearranging the elements rearranges their keys. */
  lemma {:induction false} KeysMultiset<T, K>(f: T -> K, x: seq<T>, y: seq<T>)
    requires multiset(x) == multiset(y)
    ensures multiset(Keys(f, x)) == multiset(Keys(f, y))
    decreases |x|
  {
    if |x| > 0 {
      assert x[0] in multiset(y);
      var k :| 0 <= k < |y| && y[k] == x[0];
      var before, after := y[..k], y[k + 1..];
      RemoveOne(x, y, k);
      KeysMultiset(f, x[1..], before + after);
      var kx, kb, ka := Keys(f, x[1..]), Keys(f, before), Keys(f, after);
      KeysSplit(f, x, [], x[1..]);
      KeysSplit(f, y, before, after);
      KeysAppend(f, before, after);
      assert multiset(Keys(f, x)) == multiset{f(x[0])} + multiset(kx);
      assert multiset(Keys(f, y)) == multiset(kb) + multiset{f(x[0])} + multiset(ka);
    }
  }

  /** The keys of a concatenation are the concatenated keys. */
  lemma {:induction false} KeysAppend<T, K>(f: T -> K, a: seq<T>, b: seq<T>)
    ensures Keys(f, a + b) == Keys(f, a) + Keys(f, b)
  {
  }

  /** The keys of a sequence split around one element. */
  lemma {:induction false} KeysSplit<T, K>(f: T -> K, s: seq<T>, before: seq<T>, after: seq<T>)
    requires |before| < |s| && before == s[..|before|] && after == s[|before| + 1..]
    ensures Keys(f, s) == Keys(f, before) + [f(s[|before|])] + Keys(f, after)
  {
  }

  /** Taking the first element from x and the same element from y leaves
      arrangements of the same elements. */
  lemma {:induction false} RemoveOne<T>(x: seq<T>, y: seq<T>, k: nat)
    requires multiset(x) == multiset(y) && |x| > 0 && k < |y| && y[k] == x[0]
    ensures multiset(x[1..]) == multiset(y[..k] + y[k + 1..])
  {
    assert x == [x[0]] + x[1..];
    assert y == y[..k] + [y[k]] + y[k + 1..];
    assert multiset(x[1..]) == multiset(x) - multiset{x[0]};
    assert multiset(y[..k] + y[k + 1..]) == multiset(y) - multiset{y[k]};
  }

  /** Two arrangements of the same elements, each ordered by a total order
      on a key, carry the same key at every position, however they order
      elements whose keys are equal. */
  lemma {:induction false} SameKeys<T, K(!new)>(f: T -> K, less: (K, K) -> bool, x: seq<T>, y: seq<T>)
    requires Total(less) && multiset(x) == multiset(y)
    requires forall i, j :: 0 <= i < j < |x| ==> !less(f(x[j]), f(x[i]))
    requires forall i, j :: 0 <= i < j < |y| ==> !less(f(y[j]), f(y[i]))
    ensures |x| == |y| && forall i :: 0 <= i < |x| ==> f(x[i]) == f(y[i])
  {
    KeysMultiset(f, x, y);
    SortedUnique(less, Keys(f, x), Keys(f, y));
  }

  /** `std::string`'s `<`: the first differing character decides, and a
      proper prefix comes first. */
  predicate LexLess(a: string, b: string)
    decreases |a|
  {
    |b| > 0 && (|a| == 0 || a[0] < b[0] || (a[0] == b[0] && LexLess(a[1..], b[1..])))
  }

  lemma {:induction false} LexIrreflexive(a: string)
    ensures !LexLess(a, a)
    decreases |a|
  {
    if |a| > 0 {
      LexIrreflexive(a[1..]);
    }
  }

  lemma {:induction false} LexTransitive(a: string, b: string, c: string)
    requires LexLess(a, b) && LexLess(b, c)
    ensures LexLess(a, c)
    decreases |a|
  {
    if |a| > 0 && a[0] == b[0] && b[0] == c[0] {
      LexTransitive(a[1..], b[1..], c[1..]);
    }
  }

  /** Two strings neither of which is less than the other are equal. */
  lemma {:induction false} LexTotal(a: string, b: string)
    ensures LexLess(a, b) || LexLess(b, a) || a == b
    decreases |a|
  {
    if |a| > 0 && |b| > 0 && a[0] == b[0] {
      LexTotal(a[1..], b[1..]);
      if a[1..] == b[1..] {
        Text.ConsTail(a);
        Text.ConsTail(b);
      }
    }
  }
}
