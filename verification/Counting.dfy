/** Counting the seconds of a half-open interval that satisfy a predicate. */
module Counting {

  /** The number of t in [lo, hi) with f(t). */
  ghost function Count(lo: int, hi: int, f: int -> bool): nat
    decreases hi - lo
  {
    if hi <= lo then 0 else Count(lo, hi - 1, f) + if f(hi - 1) then 1 else 0
  }

  lemma {:induction false} CountSplit(lo: int, mid: int, hi: int, f: int -> bool)
    requires lo <= mid <= hi
    ensures Count(lo, hi, f) == Count(lo, mid, f) + Count(mid, hi, f)
    decreases hi - mid
  {
    if mid < hi {
      CountSplit(lo, mid, hi - 1, f);
    }
  }

  /** A count only grows when the predicate does, and by at most the seconds of [a, b) when it
      grows nowhere else. */
  lemma {:induction false} CountGrows(lo: int, hi: int, f: int -> bool, g: int -> bool, a: int, b: int)
    requires forall t :: lo <= t < hi && f(t) ==> g(t)
    requires forall t :: lo <= t < hi && g(t) && !f(t) ==> a <= t < b
    ensures Count(lo, hi, f) <= Count(lo, hi, g)
    ensures Count(lo, hi, g) <= Count(lo, hi, f) + if a < b then b - a else 0
    decreases hi - lo
  {
    if lo < hi {
      if b <= hi - 1 {
        CountGrows(lo, hi - 1, f, g, a, b);
      } else {
        CountGrows(lo, hi - 1, f, g, a, hi - 1);
      }
    }
  }

  lemma {:induction false} CountLess(lo: int, hi: int, x: int, f: int -> bool, g: int -> bool)
    requires forall t :: lo <= t < hi && f(t) ==> g(t)
    requires lo <= x < hi && g(x) && !f(x)
    ensures Count(lo, hi, f) < Count(lo, hi, g)
    decreases hi - lo
  {
    if x == hi - 1 {
      CountGrows(lo, x, f, g, lo, hi);
    } else {
      CountLess(lo, hi - 1, x, f, g);
    }
  }

  lemma {:induction false} CountSame(lo: int, hi: int, f: int -> bool, g: int -> bool)
    requires forall t :: lo <= t < hi ==> f(t) == g(t)
    ensures Count(lo, hi, f) == Count(lo, hi, g)
  {
    CountGrows(lo, hi, f, g, lo, lo);
  }

  /** A predicate that on [lo, hi) holds exactly before cut. */
  lemma {:induction false} CountPrefix(lo: int, cut: int, hi: int, f: int -> bool)
    requires lo <= cut <= hi
    requires forall t :: lo <= t < hi ==> (f(t) <==> t < cut)
    ensures Count(lo, hi, f) == cut - lo
    decreases hi - lo
  {
    if lo < hi {
      CountPrefix(lo, if cut < hi then cut else hi - 1, hi - 1, f);
    }
  }

  lemma {:induction false} CountAtMost(lo: int, hi: int, f: int -> bool)
    ensures Count(lo, hi, f) <= if lo < hi then hi - lo else 0
    decreases hi - lo
  {
    if lo < hi {
      CountAtMost(lo, hi - 1, f);
    }
  }

  /** Inclusion and exclusion for two predicates. */
  lemma {:induction false} CountUnion(lo: int, hi: int, f: int -> bool, g: int -> bool, h: int -> bool)
    requires forall t :: lo <= t < hi && h(t) ==> f(t) || g(t)
    ensures Count(lo, hi, h) <= Count(lo, hi, f) + Count(lo, hi, g)
    decreases hi - lo
  {
    if lo < hi {
      CountUnion(lo, hi - 1, f, g, h);
    }
  }

  lemma {:induction false} CountZero(lo: int, hi: int, f: int -> bool)
    requires forall t :: lo <= t < hi ==> !f(t)
    ensures Count(lo, hi, f) == 0
    decreases hi - lo
  {
    if lo < hi {
      CountZero(lo, hi - 1, f);
    }
  }

  /** Counting only what lies before x. */
  lemma {:induction false} CountCut(lo: int, hi: int, x: int, f: int -> bool, g: int -> bool)
    requires forall t :: g(t) <==> t < x && f(t)
    ensures Count(lo, hi, g) == Count(lo, if hi < x then hi else x, f)
    decreases hi - lo
  {
    if lo < hi {
      CountCut(lo, hi - 1, x, f, g);
    }
  }

  /** Second t is one of the width seconds from some x of xs on. */
  ghost predicate Near(xs: seq<int>, width: nat, t: int) {
    exists x :: x in xs && x <= t < x + width
  }

  ghost function NearAt(xs: seq<int>, width: nat): int -> bool {
    t => Near(xs, width, t)
  }

  lemma {:induction false} CountNear(lo: int, hi: int, xs: seq<int>, width: nat)
    ensures Count(lo, hi, NearAt(xs, width)) <= width * |xs|
  {
    if xs == [] {
      CountZero(lo, hi, NearAt(xs, width));
    } else {
      var x, rest := xs[0], xs[1..];
      var first := (t: int) => x <= t < x + width;
      var none := (t: int) => false;
      CountNear(lo, hi, rest, width);
      CountZero(lo, hi, none);
      CountGrows(lo, hi, none, first, x, x + width);
      forall t | Near(xs, width, t) ensures first(t) || Near(rest, width, t) {
        var y :| y in xs && y <= t < y + width;
        assert y == x || y in rest;
      }
      CountUnion(lo, hi, first, NearAt(rest, width), NearAt(xs, width));
      assert width * |xs| == width + width * |rest|;
    }
  }

  /** Predicates that agree except near xs have counts that differ by at most width for each x. */
  lemma {:induction false} CountDiffersNear(lo: int, hi: int, f: int -> bool, g: int -> bool, xs: seq<int>, width: nat)
    requires forall t :: lo <= t < hi && !Near(xs, width, t) ==> f(t) == g(t)
    ensures Count(lo, hi, f) <= Count(lo, hi, g) + width * |xs|
    ensures Count(lo, hi, g) <= Count(lo, hi, f) + width * |xs|
  {
    CountUnion(lo, hi, g, NearAt(xs, width), f);
    CountUnion(lo, hi, f, NearAt(xs, width), g);
    CountNear(lo, hi, xs, width);
  }
}
