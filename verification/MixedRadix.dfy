/** Numbers written with a different radix at every place; the last place counts fastest. */
module MixedRadix {
  import Arithmetic

  function Product(sizes: seq<nat>, n: nat): nat
    requires n <= |sizes|
  {
    if n == 0 then 1 else Product(sizes, n - 1) * sizes[n - 1]
  }

  lemma Quotient(product: nat, size: nat, rank: nat)
    requires rank < product * size
    ensures size > 0 && rank / size < product
  {
  }

  predicate DigitsFit(sizes: seq<nat>, digits: seq<nat>) {
    |digits| <= |sizes| && forall i :: 0 <= i < |digits| ==> digits[i] < sizes[i]
  }

  function Digits(sizes: seq<nat>, n: nat, rank: nat): (digits: seq<nat>)
    requires n <= |sizes| && rank < Product(sizes, n)
    ensures |digits| == n && DigitsFit(sizes, digits)
  {
    if n == 0 then [] else
    Quotient(Product(sizes, n - 1), sizes[n - 1], rank);
    Digits(sizes, n - 1, rank / sizes[n - 1]) + [rank % sizes[n - 1]]
  }

  /** One division: the remainder is the digit, the quotient is what goes on. */
  predicate Divides(sizes: seq<nat>, digits: seq<nat>, trail: seq<nat>, i: nat)
    requires i < |sizes| && i < |digits| && i + 1 < |trail|
  {
    sizes[i] > 0 && digits[i] == trail[i + 1] % sizes[i] && trail[i] == trail[i + 1] / sizes[i]
  }

  /** The running quotients of repeated division, from the whole rank down. */
  ghost function Trail(sizes: seq<nat>, n: nat, rank: nat): (trail: seq<nat>)
    requires n <= |sizes| && rank < Product(sizes, n)
    ensures |trail| == n + 1 && trail[n] == rank
    ensures forall i :: 0 <= i < n ==> Divides(sizes, Digits(sizes, n, rank), trail, i)
  {
    if n == 0 then [rank] else
    Quotient(Product(sizes, n - 1), sizes[n - 1], rank);
    var front := Trail(sizes, n - 1, rank / sizes[n - 1]);
    var digits := Digits(sizes, n - 1, rank / sizes[n - 1]);
    assert forall i :: 0 <= i < n - 1 ==> Divides(sizes, digits, front, i) ==> Divides(sizes, Digits(sizes, n, rank), front + [rank], i);
    front + [rank]
  }

  function Number(sizes: seq<nat>, digits: seq<nat>, n: nat): nat
    requires n <= |digits| <= |sizes|
  {
    if n == 0 then 0 else Number(sizes, digits, n - 1) * sizes[n - 1] + digits[n - 1]
  }

  lemma {:induction false} NumberOfPrefix(sizes: seq<nat>, a: seq<nat>, b: seq<nat>, n: nat)
    requires n <= |a| <= |sizes| && n <= |b| <= |sizes| && forall i :: 0 <= i < n ==> a[i] == b[i]
    ensures Number(sizes, a, n) == Number(sizes, b, n)
  {
    if n > 0 {
      NumberOfPrefix(sizes, a, b, n - 1);
    }
  }

  lemma {:induction false} NumberOfDigits(sizes: seq<nat>, n: nat, rank: nat)
    requires n <= |sizes| && rank < Product(sizes, n)
    ensures Number(sizes, Digits(sizes, n, rank), n) == rank
  {
    if n > 0 {
      var size := sizes[n - 1];
      Quotient(Product(sizes, n - 1), size, rank);
      var high := Digits(sizes, n - 1, rank / size);
      NumberOfDigits(sizes, n - 1, rank / size);
      NumberOfPrefix(sizes, high, Digits(sizes, n, rank), n - 1);
      assert rank == rank / size * size + rank % size;
    }
  }

  lemma DigitFits(r: nat, d: nat, product: nat, size: nat)
    requires r < product && d < size
    ensures r * size + d < product * size
  {
    Arithmetic.ProductAtLeast(product - r, size);
    assert product * size == r * size + (product - r) * size;
  }

  lemma {:induction false} DigitsOfNumber(sizes: seq<nat>, digits: seq<nat>, n: nat)
    requires n <= |digits| && DigitsFit(sizes, digits)
    ensures Number(sizes, digits, n) < Product(sizes, n)
    ensures Digits(sizes, n, Number(sizes, digits, n)) == digits[..n]
  {
    if n > 0 {
      var r, d, size := Number(sizes, digits, n - 1), digits[n - 1], sizes[n - 1];
      DigitsOfNumber(sizes, digits, n - 1);
      DigitFits(r, d, Product(sizes, n - 1), size);
      Arithmetic.DivisionIsUnique(r * size + d, r, d, size);
      assert digits[..n] == digits[..n - 1] + [d];
    }
  }
}
