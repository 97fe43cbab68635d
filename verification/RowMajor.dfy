/** Numbering the cells of a grid row by row. */
module RowMajor {

  lemma NotNegative(a: int, b: int)
    requires a >= 0 && b >= 0
    ensures a * b >= 0
  {
  }

  lemma Multiples(w: int, d: int)
    requires w > 0
    ensures d >= 1 ==> w * d >= w
    ensures d <= -1 ==> w * d <= -w
  {
    if d >= 1 {
      NotNegative(w, d - 1);
      assert w * d == w * (d - 1) + w;
    } else if d <= -1 {
      NotNegative(w, -d - 1);
      assert w * d == -(w * (-d - 1)) - w;
    }
  }

  lemma SlotParts(r: int, c: int, w: int)
    requires 0 <= c < w
    ensures (r * w + c) / w == r && (r * w + c) % w == c
  {
    var k := r * w + c;
    var q := k / w - r;
    assert w * q == w * (k / w) - w * r == c - k % w;
    Multiples(w, q);
  }

  lemma SlotInGrid(r: int, c: int, w: int, h: int)
    requires 0 <= r < h && 0 <= c < w
    ensures 0 <= r * w + c < w * h
  {
    NotNegative(h - 1 - r, w);
    NotNegative(r, w);
    assert (h - 1 - r) * w == w * h - w - r * w;
  }

  lemma RowInGrid(k: int, w: int, h: int)
    requires w > 0 && 0 <= k < w * h
    ensures 0 <= k / w < h && 0 <= k % w < w && k == k / w * w + k % w
  {
    var r := k / w;
    assert k == w * r + k % w;
    Multiples(w, r);
    Multiples(w, r - h + 1);
    assert w * (r - h + 1) == w * r - w * h + w;
  }
}
