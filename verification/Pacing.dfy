/** The arithmetic of sending: what a rate makes of whole seconds. */
module Pacing {
  import opened Network

  lemma BytesAtRate(rate: real, left: real, dt: int)
    requires 0.0 < rate && dt <= (left / rate).Floor
    ensures rate * dt as real <= left
  {
    var d, q := dt as real, left / rate;
    assert q * rate == left;
    assert d <= q;
    assert d * rate <= q * rate;
  }

  lemma SentAllIff(size: real, r: real, n: int)
    requires 0.0 < r
    ensures r * n as real < size <==> n < Ceil(size / r)
  {
    var q, x := size / r, n as real;
    assert q * r == size;
    assert x < q ==> x * r < q * r;
    assert q <= x ==> q * r <= x * r;
  }

  lemma SelfQuotient(x: real)
    requires x > 0.0
    ensures x / x == 1.0
  {
  }

  /** Going on at rate r, or at the rate of the last bytes for at most a second. */
  lemma PaceKept(r: real, size: real, n: int, d: int, sent: real, rate: real)
    requires 0.0 < r && sent == r * n as real && sent < size && 0 <= d
    requires rate == MinR(r, size - sent) && d <= ((size - sent) / rate).Floor
    ensures sent + rate * d as real == MinR(r * (n + d) as real, size)
    ensures n + d <= Ceil(size / r)
  {
    if size - sent >= r {
      FullPace(r, size, n, d, sent);
    } else {
      SelfQuotient(rate);
      LastPace(r, size, n, d, sent, rate);
    }
  }

  lemma FullPace(r: real, size: real, n: int, d: int, sent: real)
    requires 0.0 < r && sent == r * n as real && r <= size - sent && d <= ((size - sent) / r).Floor
    ensures sent + r * d as real == r * (n + d) as real <= size
    ensures n + d <= Ceil(size / r)
  {
    Products(r, n, d);
    BytesAtRate(r, size - sent, d);
    SentAllIff(size, r, n + d - 1);
  }

  lemma Products(r: real, n: int, d: int)
    ensures r * (n + d) as real == r * n as real + r * d as real
    ensures r * (n + d - 1) as real == r * n as real + r * d as real - r
  {
  }

  lemma LastPace(r: real, size: real, n: int, d: int, sent: real, left: real)
    requires 0.0 < r && sent == r * n as real && left == size - sent && 0.0 < left < r
    requires 0 <= d <= 1
    ensures sent + left * d as real == MinR(r * (n + d) as real, size)
    ensures n + d <= Ceil(size / r)
  {
    SentAllIff(size, r, n);
    assert r * (n + 1) as real == sent + r;
  }
}
