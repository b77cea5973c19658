/** Facts about integers that the solver does not find alone. */
module Arithmetic {

  function Max(x: int, y: int): int { if x < y then y else x }

  lemma MultipleGrows(d: int, w: int)
    requires w > 0
    ensures d >= 1 ==> d * w >= w
    ensures d <= -1 ==> d * w <= -w
  {
  }

  /** Quotient and remainder are unique. */
  lemma DivUnique(t: int, w: int, q: int, r: int)
    requires w > 0 && t == q * w + r && 0 <= r < w
    ensures t / w == q && t % w == r
  {
    var d := q - t / w;
    MultipleGrows(d, w);
    assert t == t / w * w + t % w;
    assert d * w == t % w - r;
  }

  lemma DivMonotone(x: int, y: int, w: int)
    requires w > 0 && x <= y
    ensures x / w <= y / w
  {
    var d := x / w - y / w;
    MultipleGrows(d, w);
    assert x == x / w * w + x % w && y == y / w * w + y % w;
    assert x - y == d * w + x % w - y % w;
  }

  lemma DivShift(x: int, w: int)
    requires w > 0
    ensures (x + w) / w == x / w + 1 && (x + w) % w == x % w
  {
    assert x + w == (x / w + 1) * w + x % w;
    DivUnique(x + w, w, x / w + 1, x % w);
  }

  lemma MulMonotone(rate: int, x: int, y: int)
    requires rate >= 0 && x <= y
    ensures rate * x <= rate * y
    ensures rate * (x + 1) == rate * x + rate
  {
  }
}
