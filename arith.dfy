/**
 * Facts of real arithmetic with products, each proved on its own so that
 * the solver meets the multiplication without the rest of the model around it.
 */
module RealArith {

  lemma MulLe(a: real, b: real, c: real)
    requires a <= b && c > 0.0
    ensures a * c <= b * c
  {
  }

  lemma MulLt(a: real, b: real, c: real)
    requires a < b && c > 0.0
    ensures a * c < b * c
  {
  }

  lemma DivBelow(a: real, b: real, c: real)
    requires c > 0.0 && a < b * c
    ensures a / c < b
  {
  }

  lemma DivAbove(a: real, b: real, c: real)
    requires c > 0.0 && b * c < a
    ensures b < a / c
  {
  }

  /** The cell of index `floor(v / cs)` spans `v`. */
  lemma FloorSpans(v: real, cs: real)
    requires cs > 0.0
    ensures (v / cs).Floor as real * cs <= v < ((v / cs).Floor as real + 1.0) * cs
  {
    var q := v / cs;
    var i := q.Floor as real;
    assert i <= q < i + 1.0;
    calc {
      i * cs;
    <=  { MulLe(i, q, cs); }
      q * cs;
    ==
      v;
    }
    calc {
      v;
    ==
      q * cs;
    <  { MulLt(q, i + 1.0, cs); }
      (i + 1.0) * cs;
    }
  }

  /** The square of a real. */
  function Sq(x: real): real
  {
    x * x
  }

  lemma SqNonNeg(a: real)
    ensures 0.0 <= Sq(a)
  {
    calc {
      Sq(a);
    ==
      a * a;
    >=
      0.0;
    }
  }

  lemma SqPos(r: real)
    requires r != 0.0
    ensures 0.0 < Sq(r)
  {
    calc {
      Sq(r);
    ==
      r * r;
    >
      0.0;
    }
  }

  /** A square below `Sq(r)` has its root strictly between `-r` and `r`. */
  lemma SquareBound(a: real, r: real)
    requires r >= 0.0 && Sq(a) < Sq(r)
    ensures -r < a < r
  {
    if a >= r {
      SquareMono(r, a);
    } else if -a >= r {
      SquareMono(r, -a);
    }
  }

  /** Squaring is monotone on the non-negative reals. */
  lemma SquareMono(r: real, a: real)
    requires 0.0 <= r <= a
    ensures Sq(r) <= Sq(a)
  {
    if r > 0.0 {
      MulLe(r, a, r);
      MulLe(r, a, a);
    } else {
      SqNonNeg(a);
      assert Sq(r) == 0.0;
    }
  }

  /** Each of two squares is at most their sum. */
  lemma SumSquaresBound(a: real, b: real, s: real)
    requires Sq(a) + Sq(b) < s
    ensures Sq(a) < s && Sq(b) < s
  {
    SqNonNeg(a);
    SqNonNeg(b);
  }

  /** When the clamped point is the centre itself, the squared distance is below any positive radius squared. */
  lemma NoGapIsClose(cx: real, cy: real, px: real, py: real, r: real)
    requires px == cx && py == cy && r > 0.0
    ensures Sq(cx - px) + Sq(cy - py) < Sq(r)
  {
    SqPos(r);
    assert cx - px == 0.0 && cy - py == 0.0;
  }
}
