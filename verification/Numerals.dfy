/** Fixed-width big-endian numerals: the digits of `struct` integers and of UUID text. */
module Numerals {

  ghost predicate AreDigits(base: nat, ds: seq<nat>) {
    forall i :: 0 <= i < |ds| ==> ds[i] < base
  }

  function Pow(base: nat, width: nat): nat {
    if width == 0 then 1 else Pow(base, width - 1) * base
  }

  /** The number a big-endian digit sequence denotes. */
  function Value(base: nat, ds: seq<nat>): nat {
    if ds == [] then 0 else Value(base, ds[..|ds| - 1]) * base + ds[|ds| - 1]
  }

  /** The low `width` digits of `n`, most significant first. */
  function Digits(base: nat, width: nat, n: nat): (ds: seq<nat>)
    requires base > 0
    ensures |ds| == width
    ensures forall i :: 0 <= i < |ds| ==> ds[i] < base
  {
    if width == 0 then [] else Digits(base, width - 1, n / base) + [n % base]
  }

  lemma MulMono(a: nat, b: nat, c: nat)
    requires a <= b
    ensures a * c <= b * c
  {
  }

  lemma Distribute(a: nat, c: nat)
    ensures (a + 1) * c == a * c + c
  {
  }

  /** Quotient and remainder are the only ones. */
  lemma DivMod(base: nat, q: nat, r: nat)
    requires r < base
    ensures (q * base + r) / base == q && (q * base + r) % base == r
  {
    var n := q * base + r;
    var x := n / base;
    assert n == x * base + n % base;
    Distribute(q, base);
    Distribute(x, base);
    if x > q {
      MulMono(q + 1, x, base);
      assert false;
    } else if x < q {
      MulMono(x + 1, q, base);
      assert false;
    }
  }

  lemma {:induction false} DigitsOfValue(base: nat, ds: seq<nat>)
    requires base > 0 && AreDigits(base, ds)
    ensures Digits(base, |ds|, Value(base, ds)) == ds
  {
    if ds != [] {
      var front := ds[..|ds| - 1];
      DigitsOfValue(base, front);
      DivMod(base, Value(base, front), ds[|ds| - 1]);
    }
  }

  lemma {:induction false} ValueBound(base: nat, ds: seq<nat>)
    requires base > 0 && AreDigits(base, ds)
    ensures Value(base, ds) < Pow(base, |ds|)
  {
    if ds != [] {
      var front := ds[..|ds| - 1];
      ValueBound(base, front);
      MulMono(Value(base, front) + 1, Pow(base, |front|), base);
      Distribute(Value(base, front), base);
    }
  }

  lemma QuotientRemainder(base: nat, n: nat)
    requires base > 0
    ensures n == n / base * base + n % base
  {
  }

  lemma QuotientBound(base: nat, p: nat, n: nat)
    requires base > 0 && n < p * base
    ensures n / base < p
  {
    QuotientRemainder(base, n);
    if n / base >= p {
      MulMono(p, n / base, base);
    }
  }

  lemma ValueSnoc(base: nat, ds: seq<nat>, d: nat)
    ensures Value(base, ds + [d]) == Value(base, ds) * base + d
  {
    assert (ds + [d])[..|ds + [d]| - 1] == ds;
  }

  lemma {:induction false} ValueOfDigits(base: nat, width: nat, n: nat)
    requires base > 0 && n < Pow(base, width)
    ensures Value(base, Digits(base, width, n)) == n
  {
    if width > 0 {
      QuotientBound(base, Pow(base, width - 1), n);
      ValueOfDigits(base, width - 1, n / base);
      ValueSnoc(base, Digits(base, width - 1, n / base), n % base);
      QuotientRemainder(base, n);
    }
  }
}
