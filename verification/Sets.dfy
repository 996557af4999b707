/** Facts about finite sets that several models need. */
module Sets {
  lemma Pick<T>(s: set<T>) returns (x: T)
    requires s != {}
    ensures x in s
  {
    x :| x in s;
  }

  lemma {:induction false} MinExists(s: set<int>)
    requires s != {}
    ensures exists m :: m in s && forall x | x in s :: m <= x
  {
    var m := Pick(s);
    if s == {m} {
      assert forall x | x in s :: m <= x;
    } else {
      MinExists(s - {m});
      var n :| n in s - {m} && forall x | x in s - {m} :: n <= x;
      var k := if m <= n then m else n;
      assert k in s && forall x | x in s :: k <= x by {
        forall x | x in s ensures k <= x { if x != m { assert x in s - {m}; } }
      }
    }
  }

  function Min(s: set<int>): (m: int)
    requires s != {}
    ensures m in s && forall x | x in s :: m <= x
  {
    MinExists(s);
    var m :| m in s && forall x | x in s :: m <= x;
    m
  }

  /** A number above all the members. */
  lemma {:induction false} Above(s: set<int>) returns (b: nat)
    ensures forall x | x in s :: x < b
    decreases |s|
  {
    b := 0;
    if s != {} {
      var x := Pick(s);
      var rest := Above(s - {x});
      b := if x < rest then rest else x + 1;
      forall y | y in s ensures y < b { assert y == x || y in s - {x}; }
    }
  }

  lemma SubsetSize<T>(a: set<T>, b: set<T>)
    requires a <= b
    ensures |a| <= |b|
  {
    assert b == a + (b - a);
  }

  /** A set of integers inside an interval is no larger than the interval. */
  lemma {:induction false} IntervalSize(s: set<int>, lo: int, n: nat)
    requires forall x | x in s :: lo <= x < lo + n
    ensures |s| <= n
  {
    if n == 0 {
      if s != {} {
        var x := Pick(s);
        assert false;
      }
    } else {
      var top := lo + n - 1;
      IntervalSize(s - {top}, lo, n - 1);
      if top in s { assert |s| == |s - {top}| + 1; } else { assert s - {top} == s; }
    }
  }

  /** A set is no smaller than its image. */
  lemma {:induction false} ImageSize<T>(s: set<int>, image: set<T>, f: int -> T)
    requires forall y | y in image :: exists x :: x in s && f(x) == y
    ensures |image| <= |s|
    decreases |s|
  {
    if s == {} {
      assert image == {};
    } else {
      var x := Pick(s);
      forall y | y in image - {f(x)} ensures exists z :: z in s - {x} && f(z) == y {
        var z :| z in s && f(z) == y;
        assert z in s - {x};
      }
      ImageSize(s - {x}, image - {f(x)}, f);
      if f(x) in image { assert |image| == |image - {f(x)}| + 1; } else { assert image - {f(x)} == image; }
    }
  }

  // ----- sums -----

  /** The sum of `f` over the members. */
  function Sum(s: set<int>, f: int -> nat): nat
    decreases |s|
  {
    if s == {} then 0 else
      var m := Min(s);
      f(m) + Sum(s - {m}, f)
  }

  lemma {:induction false} SumMonotone(s: set<int>, f: int -> nat, g: int -> nat)
    requires forall x | x in s :: f(x) <= g(x)
    ensures Sum(s, f) <= Sum(s, g)
    decreases |s|
  {
    if s != {} { SumMonotone(s - {Min(s)}, f, g); }
  }

  lemma {:induction false} SumStrict(s: set<int>, f: int -> nat, g: int -> nat, y: int)
    requires (forall x | x in s :: f(x) <= g(x)) && y in s && f(y) < g(y)
    ensures Sum(s, f) < Sum(s, g)
    decreases |s|
  {
    var m := Min(s);
    if y == m { SumMonotone(s - {m}, f, g); } else { SumStrict(s - {m}, f, g, y); }
  }

  lemma {:induction false} SumZero(s: set<int>, f: int -> nat, y: int)
    requires Sum(s, f) == 0 && y in s
    ensures f(y) == 0
    decreases |s|
  {
    var m := Min(s);
    if y != m { SumZero(s - {m}, f, y); }
  }

  lemma {:induction false} SumBound(s: set<int>, f: int -> nat, n: nat)
    requires forall x | x in s :: f(x) <= n
    ensures Sum(s, f) <= n * |s|
    decreases |s|
  {
    if s != {} {
      var m := Min(s);
      SumBound(s - {m}, f, n);
      assert |s| == |s - {m}| + 1;
      assert n * |s| == n * |s - {m}| + n;
    }
  }
}
