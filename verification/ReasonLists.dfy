/** Lists of reason codes that are looked for in a fixed order, so that none can appear twice. */
module ReasonLists {
  import opened Basics

  function When<T>(c: bool, x: T): seq<T> {
    if c then [x] else []
  }

  /** The ranks of the elements lie in [low, high) and grow. */
  ghost predicate Ascending<T(!new)>(xs: seq<T>, rank: T -> nat, low: nat, high: nat) {
    && (forall x :: x in xs ==> low <= rank(x) < high)
    && (forall i, j :: 0 <= i < j < |xs| ==> rank(xs[i]) < rank(xs[j]))
  }

  lemma AscendingAppend<T(!new)>(xs: seq<T>, rank: T -> nat, c: bool, x: T, low: nat)
    requires low <= rank(x) && Ascending(xs, rank, low, rank(x))
    ensures Ascending(xs + When(c, x), rank, low, rank(x) + 1)
  {
    assert forall y :: y in xs + When(c, x) ==> y in xs || y == x;
  }

  lemma AscendingConcatenation<T(!new)>(xs: seq<T>, ys: seq<T>, rank: T -> nat, low: nat, mid: nat, high: nat)
    requires low <= mid <= high && Ascending(xs, rank, low, mid) && Ascending(ys, rank, mid, high)
    ensures Ascending(xs + ys, rank, low, high)
  {
    var zs := xs + ys;
    assert forall x :: x in zs ==> x in xs || x in ys;
    forall i, j | 0 <= i < j < |zs| ensures rank(zs[i]) < rank(zs[j]) {
      if i < |xs| <= j {
        assert zs[i] in xs && zs[j] in ys;
      }
    }
  }

  lemma AscendingIsDistinct<T(!new)>(xs: seq<T>, rank: T -> nat, low: nat, high: nat)
    requires Ascending(xs, rank, low, high)
    ensures Distinct(xs)
  {
  }

  // ----- the part of a list that a condition keeps -----

  ghost function Kept<T(!new)>(xs: seq<T>, keep: T -> bool): seq<T> {
    if xs == [] then []
    else
      var last := xs[|xs| - 1];
      Kept(xs[..|xs| - 1], keep) + When(keep(last), last)
  }

  lemma KeptMore<T(!new)>(xs: seq<T>, x: T, keep: T -> bool)
    ensures Kept(xs + [x], keep) == Kept(xs, keep) + When(keep(x), x)
  {
    assert (xs + [x])[..|xs|] == xs;
  }

  lemma Associates<T>(xs: seq<T>, ys: seq<T>, zs: seq<T>)
    ensures xs + ys + zs == xs + (ys + zs)
  {
  }

  lemma {:induction false} KeptBoth<T(!new)>(xs: seq<T>, ys: seq<T>, keep: T -> bool)
    ensures Kept(xs + ys, keep) == Kept(xs, keep) + Kept(ys, keep)
    decreases |ys|
  {
    if ys == [] {
      assert xs + ys == xs;
    } else {
      var n := |ys| - 1;
      KeptBoth(xs, ys[..n], keep);
      KeptMore(xs + ys[..n], ys[n], keep);
      assert ys == ys[..n] + [ys[n]];
      Associates(xs, ys[..n], [ys[n]]);
      Associates(Kept(xs, keep), Kept(ys[..n], keep), When(keep(ys[n]), ys[n]));
    }
  }

  lemma {:induction false} KeptExactlyWhen<T(!new)>(x: T, xs: seq<T>, keep: T -> bool)
    ensures x in Kept(xs, keep) <==> x in xs && keep(x)
    decreases |xs|
  {
    if xs != [] {
      var n := |xs| - 1;
      KeptExactlyWhen(x, xs[..n], keep);
      assert xs == xs[..n] + [xs[n]];
    }
  }

  lemma KeptOfThree<T(!new)>(a: T, b: T, c: T, keep: T -> bool)
    ensures Kept([a] + [b] + [c], keep) == When(keep(a), a) + When(keep(b), b) + When(keep(c), c)
  {
    KeptMore([], a, keep);
    assert [] + [a] == [a];
    KeptMore([a], b, keep);
    KeptMore([a] + [b], c, keep);
  }

  lemma KeptOfFive<T(!new)>(a: T, b: T, c: T, d: T, e: T, keep: T -> bool)
    ensures Kept([a] + [b] + [c] + [d] + [e], keep)
            == When(keep(a), a) + When(keep(b), b) + When(keep(c), c) + When(keep(d), d) + When(keep(e), e)
  {
    KeptOfThree(a, b, c, keep);
    KeptMore([a] + [b] + [c], d, keep);
    KeptMore([a] + [b] + [c] + [d], e, keep);
  }

  lemma KeptOfSeven<T(!new)>(a: T, b: T, c: T, d: T, e: T, f: T, g: T, keep: T -> bool)
    ensures Kept([a] + [b] + [c] + [d] + [e] + [f] + [g], keep)
            == When(keep(a), a) + When(keep(b), b) + When(keep(c), c) + When(keep(d), d) + When(keep(e), e) + When(keep(f), f)
               + When(keep(g), g)
  {
    KeptOfFive(a, b, c, d, e, keep);
    KeptMore([a] + [b] + [c] + [d] + [e], f, keep);
    KeptMore([a] + [b] + [c] + [d] + [e] + [f], g, keep);
  }
}
