/** Stable sorting by an order given as a function, as `Array.prototype.sort` and `sort_by_key` do it. */
module Sorting {
  ghost predicate Total<T(!new)>(leq: (T, T) -> bool) {
    && (forall x, y :: leq(x, y) || leq(y, x))
    && (forall x, y, z :: leq(x, y) && leq(y, z) ==> leq(x, z))
  }

  ghost predicate Antisymmetric<T(!new)>(leq: (T, T) -> bool) {
    forall x, y :: leq(x, y) && leq(y, x) ==> x == y
  }

  predicate Sorted<T>(s: seq<T>, leq: (T, T) -> bool) {
    forall i, j | 0 <= i < j < |s| :: leq(s[i], s[j])
  }

  /** `x` goes before the elements it is not greater than. */
  function Insert<T>(x: T, s: seq<T>, leq: (T, T) -> bool): seq<T> {
    if s == [] || leq(x, s[0]) then [x] + s else [s[0]] + Insert(x, s[1..], leq)
  }

  function Sort<T>(s: seq<T>, leq: (T, T) -> bool): seq<T> {
    if s == [] then [] else Insert(s[0], Sort(s[1..], leq), leq)
  }

  lemma {:induction false} InsertCounts<T>(x: T, s: seq<T>, leq: (T, T) -> bool)
    ensures multiset(Insert(x, s, leq)) == multiset{x} + multiset(s)
  {
    if !(s == [] || leq(x, s[0])) {
      InsertCounts(x, s[1..], leq);
      assert s == [s[0]] + s[1..];
    }
  }

  lemma {:induction false} SortCounts<T>(s: seq<T>, leq: (T, T) -> bool)
    ensures multiset(Sort(s, leq)) == multiset(s)
  {
    if s != [] {
      SortCounts(s[1..], leq);
      InsertCounts(s[0], Sort(s[1..], leq), leq);
      assert s == [s[0]] + s[1..];
    }
  }

  lemma SortMembers<T>(s: seq<T>, leq: (T, T) -> bool)
    ensures |Sort(s, leq)| == |s| && forall x :: x in Sort(s, leq) <==> x in s
  {
    SortCounts(s, leq);
    assert |multiset(s)| == |s| && |multiset(Sort(s, leq))| == |Sort(s, leq)|;
    forall x ensures x in Sort(s, leq) <==> x in s {
      assert x in Sort(s, leq) <==> x in multiset(Sort(s, leq));
      assert x in s <==> x in multiset(s);
    }
  }

  lemma {:induction false} InsertSorted<T(!new)>(x: T, s: seq<T>, leq: (T, T) -> bool)
    requires Total(leq) && Sorted(s, leq)
    ensures Sorted(Insert(x, s, leq), leq)
  {
    if s != [] && !leq(x, s[0]) {
      var t := Insert(x, s[1..], leq);
      InsertSorted(x, s[1..], leq);
      InsertCounts(x, s[1..], leq);
      forall j | 0 <= j < |t| ensures leq(s[0], t[j]) {
        assert t[j] in multiset(t);
        if t[j] != x {
          assert t[j] in s[1..];
        }
      }
    } else if s != [] {
      forall j | 0 <= j < |s| ensures leq(x, s[j]) {
        assert leq(x, s[0]) && (j == 0 || leq(s[0], s[j]));
      }
    }
  }

  lemma {:induction false} SortSorts<T(!new)>(s: seq<T>, leq: (T, T) -> bool)
    requires Total(leq)
    ensures Sorted(Sort(s, leq), leq)
  {
    if s != [] {
      SortSorts(s[1..], leq);
      InsertSorted(s[0], Sort(s[1..], leq), leq);
    }
  }

  /** Sorting what is sorted changes nothing. */
  lemma {:induction false} SortFixed<T>(s: seq<T>, leq: (T, T) -> bool)
    requires Sorted(s, leq)
    ensures Sort(s, leq) == s
  {
    if s != [] {
      SortFixed(s[1..], leq);
      assert s == [s[0]] + s[1..];
    }
  }

  /** No two different elements of `s` tie. */
  ghost predicate NoTies<T>(s: seq<T>, leq: (T, T) -> bool) {
    forall i, j | 0 <= i < |s| && 0 <= j < |s| && leq(s[i], s[j]) && leq(s[j], s[i]) :: s[i] == s[j]
  }

  lemma SameLength<T>(a: seq<T>, b: seq<T>)
    requires multiset(a) == multiset(b)
    ensures |a| == |b|
  {
    assert |multiset(a)| == |a| && |multiset(b)| == |b|;
  }

  lemma TailsCount<T>(a: seq<T>, b: seq<T>)
    requires multiset(a) == multiset(b) && a != [] && b != [] && a[0] == b[0]
    ensures multiset(a[1..]) == multiset(b[1..])
  {
    assert a == [a[0]] + a[1..] && b == [b[0]] + b[1..];
    assert multiset(a[1..]) == multiset(a) - multiset{a[0]};
    assert multiset(b[1..]) == multiset(b) - multiset{b[0]};
  }

  /** Taking the first of `a` out of `b` leaves the rest of `a`. */
  lemma TakeOut<T>(a: seq<T>, b: seq<T>, i: nat)
    requires multiset(a) == multiset(b) && a != [] && i < |b| && b[i] == a[0]
    ensures multiset(a[1..]) == multiset(b[..i] + b[i + 1..])
  {
    assert a == [a[0]] + a[1..];
    assert b == b[..i] + ([b[i]] + b[i + 1..]);
    assert multiset(a[1..]) == multiset(a) - multiset{a[0]};
    assert multiset(b[..i] + b[i + 1..]) == multiset(b) - multiset{b[i]};
  }

  /** The first of a sorted sequence is least. */
  lemma HeadLeast<T(!new)>(a: seq<T>, leq: (T, T) -> bool, x: T)
    requires Total(leq) && Sorted(a, leq) && x in a
    ensures leq(a[0], x)
  {
    assert leq(x, x);
  }

  lemma HeadsAgree<T(!new)>(a: seq<T>, b: seq<T>, leq: (T, T) -> bool)
    requires Total(leq) && NoTies(a, leq)
    requires Sorted(a, leq) && Sorted(b, leq) && multiset(a) == multiset(b) && a != [] && b != []
    ensures a[0] == b[0]
  {
    assert a[0] in multiset(b) && b[0] in multiset(a);
    HeadLeast(a, leq, b[0]);
    HeadLeast(b, leq, a[0]);
    var j :| 0 <= j < |a| && a[j] == b[0];
    assert leq(a[0], a[j]) && leq(a[j], a[0]);
  }

  /** When no different elements tie, there is one sorted arrangement. */
  lemma {:induction false} SortedUnique<T(!new)>(a: seq<T>, b: seq<T>, leq: (T, T) -> bool)
    requires Total(leq) && NoTies(a, leq)
    requires Sorted(a, leq) && Sorted(b, leq) && multiset(a) == multiset(b)
    ensures a == b
  {
    SameLength(a, b);
    if a != [] {
      HeadsAgree(a, b, leq);
      TailsCount(a, b);
      SortedUnique(a[1..], b[1..], leq);
      assert a == [a[0]] + a[1..] && b == [b[0]] + b[1..];
    }
  }

  // ----- stability -----

  predicate Ties<T>(leq: (T, T) -> bool, x: T, y: T) {
    leq(x, y) && leq(y, x)
  }

  /** The elements that tie with `c`, in their order. */
  function Tied<T>(s: seq<T>, leq: (T, T) -> bool, c: T): seq<T> {
    if s == [] then [] else (if Ties(leq, s[0], c) then [s[0]] else []) + Tied(s[1..], leq, c)
  }

  lemma {:induction false} InsertKeepsTied<T(!new)>(x: T, s: seq<T>, leq: (T, T) -> bool, c: T)
    requires Total(leq)
    ensures Tied(Insert(x, s, leq), leq, c) == (if Ties(leq, x, c) then [x] else []) + Tied(s, leq, c)
  {
    if s == [] || leq(x, s[0]) {
      assert ([x] + s)[1..] == s;
    } else {
      InsertKeepsTied(x, s[1..], leq, c);
      if Ties(leq, x, c) {
        assert !leq(c, s[0]);
      }
    }
  }

  /** Sorting is stable: the elements that tie with each other keep their order. */
  lemma {:induction false} SortKeepsTied<T(!new)>(s: seq<T>, leq: (T, T) -> bool, c: T)
    requires Total(leq)
    ensures Tied(Sort(s, leq), leq, c) == Tied(s, leq, c)
  {
    if s != [] {
      SortKeepsTied(s[1..], leq, c);
      InsertKeepsTied(s[0], Sort(s[1..], leq), leq, c);
    }
  }

  lemma {:induction false} TiedMembers<T>(s: seq<T>, leq: (T, T) -> bool, c: T)
    ensures forall x :: x in Tied(s, leq, c) <==> x in s && Ties(leq, x, c)
  {
    if s != [] {
      TiedMembers(s[1..], leq, c);
      assert s == [s[0]] + s[1..];
    }
  }

  /** Every element is tied with the same elements in the same order. */
  ghost predicate SameTies<T(!new)>(a: seq<T>, b: seq<T>, leq: (T, T) -> bool) {
    forall c :: Tied(a, leq, c) == Tied(b, leq, c)
  }

  lemma TiesHaveHead<T(!new)>(a: seq<T>, b: seq<T>, leq: (T, T) -> bool)
    requires Total(leq) && SameTies(a, b, leq) && a != []
    ensures a[0] in b
  {
    assert Ties(leq, a[0], a[0]);
    TiedMembers(a, leq, a[0]);
    TiedMembers(b, leq, a[0]);
    assert a[0] in Tied(a, leq, a[0]);
  }

  lemma SameHead<T(!new)>(a: seq<T>, b: seq<T>, leq: (T, T) -> bool)
    requires Total(leq) && SameTies(a, b, leq) && a != [] && b != [] && Sorted(a, leq) && Sorted(b, leq)
    ensures a[0] == b[0]
  {
    TiesHaveHead(a, b, leq);
    TiesHaveHead(b, a, leq);
    HeadLeast(a, leq, b[0]);
    HeadLeast(b, leq, a[0]);
    assert Ties(leq, a[0], a[0]) && Ties(leq, b[0], a[0]);
    assert Tied(a, leq, a[0])[0] == a[0] && Tied(b, leq, a[0])[0] == b[0];
  }

  lemma TiesOfTail<T(!new)>(a: seq<T>, b: seq<T>, leq: (T, T) -> bool)
    requires SameTies(a, b, leq) && a != [] && b != [] && a[0] == b[0]
    ensures SameTies(a[1..], b[1..], leq)
  {
    forall c ensures Tied(a[1..], leq, c) == Tied(b[1..], leq, c) {
      var h := if Ties(leq, a[0], c) then [a[0]] else [];
      assert Tied(a, leq, c) == h + Tied(a[1..], leq, c) && Tied(b, leq, c) == h + Tied(b[1..], leq, c);
      assert (h + Tied(a[1..], leq, c))[|h|..] == Tied(a[1..], leq, c);
      assert (h + Tied(b[1..], leq, c))[|h|..] == Tied(b[1..], leq, c);
    }
  }

  lemma {:induction false} SortedByTies<T(!new)>(a: seq<T>, b: seq<T>, leq: (T, T) -> bool)
    requires Total(leq) && SameTies(a, b, leq) && Sorted(a, leq) && Sorted(b, leq)
    ensures a == b
  {
    if a == [] && b != [] {
      TiesHaveHead(b, a, leq);
    } else if a != [] && b == [] {
      TiesHaveHead(a, b, leq);
    } else if a != [] {
      SameHead(a, b, leq);
      TiesOfTail(a, b, leq);
      SortedByTies(a[1..], b[1..], leq);
      assert a == [a[0]] + a[1..] && b == [b[0]] + b[1..];
    }
  }

  /** Two lists are sorted alike exactly when their tied elements stand in the same order. */
  lemma SortExactly<T(!new)>(a: seq<T>, b: seq<T>, leq: (T, T) -> bool)
    requires Total(leq)
    ensures Sort(a, leq) == Sort(b, leq) <==> SameTies(a, b, leq)
  {
    forall c ensures Tied(Sort(a, leq), leq, c) == Tied(a, leq, c) && Tied(Sort(b, leq), leq, c) == Tied(b, leq, c) {
      SortKeepsTied(a, leq, c);
      SortKeepsTied(b, leq, c);
    }
    if SameTies(a, b, leq) {
      SortSorts(a, leq);
      SortSorts(b, leq);
      assert SameTies(Sort(a, leq), Sort(b, leq), leq);
      SortedByTies(Sort(a, leq), Sort(b, leq), leq);
    }
  }

  /** Bringing one element to the front. */
  lemma ToFront<T>(s: seq<T>, i: nat)
    requires i < |s|
    ensures multiset([s[i]] + (s[..i] + s[i + 1..])) == multiset(s)
  {
    assert s == s[..i] + ([s[i]] + s[i + 1..]);
  }
}
