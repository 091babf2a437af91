/** Signs of products, and quotients. */
module Reals {
  lemma Products(x: real, y: real)
    ensures x > 0.0 && y > 0.0 ==> x * y > 0.0
    ensures x < 0.0 && y < 0.0 ==> x * y > 0.0
    ensures x > 0.0 && y < 0.0 ==> x * y < 0.0
    ensures x < 0.0 && y > 0.0 ==> x * y < 0.0
    ensures x == 0.0 || y == 0.0 ==> x * y == 0.0
  {
    Positive(x, y);
    Positive(x, -y);
    Positive(-x, y);
    Positive(-x, -y);
    assert x * -y == -(x * y) && -x * y == -(x * y) && -x * -y == x * y;
  }

  lemma Positive(x: real, y: real)
    ensures x > 0.0 && y > 0.0 ==> x * y > 0.0
  {
  }

  lemma SameSigns(x: real, y: real)
    requires (x >= 0.0 && y >= 0.0) || (x <= 0.0 && y <= 0.0)
    ensures x * y >= 0.0
    ensures x != 0.0 && y != 0.0 ==> x * y > 0.0
  {
    Products(x, y);
  }

  lemma Quotient(n: real, d: real)
    requires d != 0.0
    ensures (n / d) * d == n
  {
  }
}
