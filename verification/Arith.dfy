/** Division facts used by several modules. */
module Arith {

  function Pow256(k: nat): (r: nat)
    ensures r >= 1
  {
    if k == 0 then 1 else 256 * Pow256(k - 1)
  }

  lemma MulMonotone(a: int, b: int, w: int)
    requires a <= b && 0 <= w
    ensures a * w <= b * w
  {
  }

  // Quotient and remainder are the only such pair.
  lemma DivModUnique(x: int, w: int, q: int, r: int)
    requires w > 0 && 0 <= r < w && x == q * w + r
    ensures x / w == q && x % w == r
  {
    var q', r' := x / w, x % w;
    assert x == q' * w + r';
    assert (q + 1) * w == q * w + w && (q' + 1) * w == q' * w + w;
    if q' > q {
      MulMonotone(q + 1, q', w);
    } else if q' < q {
      MulMonotone(q' + 1, q, w);
    }
  }

  lemma AddMod(x: int, w: int)
    requires w > 0
    ensures (x + w) % w == x % w && (x + w) / w == x / w + 1
  {
    assert (x / w + 1) * w == (x / w) * w + w;
    DivModUnique(x + w, w, x / w + 1, x % w);
  }

  lemma PredMod(x: int, w: int)
    requires w > 0 && x % w != 0
    ensures (x - 1) % w == x % w - 1
  {
    DivModUnique(x - 1, w, x / w, x % w - 1);
  }

  lemma RoundDown(x: int, w: int)
    requires w > 0 && x >= 0
    ensures (x - x % w) % w == 0 && 0 <= x - x % w
    ensures x >= w ==> x - x % w >= w
    ensures x < w ==> x % w == x
  {
    DivModUnique(x - x % w, w, x / w, 0);
    if x >= w {
      MulMonotone(1, x / w, w);
    } else {
      DivModUnique(x, w, 0, x);
    }
  }
}
