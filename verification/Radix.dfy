/** Numbers written in a base, most significant digit first. */
module Radix {
  function Pow(base: nat, k: nat): (p: nat)
    ensures base > 0 ==> p > 0
  {
    if k == 0 then 1 else base * Pow(base, k - 1)
  }

  predicate InBase(base: nat, ds: seq<nat>) {
    forall i :: 0 <= i < |ds| ==> ds[i] < base
  }

  function Num(base: nat, ds: seq<nat>): nat {
    if ds == [] then 0 else Num(base, ds[..|ds| - 1]) * base + ds[|ds| - 1]
  }

  /** The last `k` digits of `n`. */
  function Digits(base: nat, k: nat, n: nat): (ds: seq<nat>)
    requires base > 0
    ensures |ds| == k && InBase(base, ds)
  {
    if k == 0 then [] else Digits(base, k - 1, n / base) + [n % base]
  }

  lemma Unique(base: nat, q: nat, d: nat)
    requires d < base
    ensures (q * base + d) / base == q && (q * base + d) % base == d
  {
    var n := q * base + d;
    Divided(base, n);
    Between(base, n / base - q);
  }

  lemma Between(base: nat, k: int)
    requires 0 - base < k * base < base
    ensures k == 0
  {
  }

  lemma Divided(base: nat, n: nat)
    requires base > 0
    ensures n / base * base + n % base == n
  {
  }

  lemma Scaled(base: nat, a: nat, d: nat, p: nat)
    requires a < p && d < base
    ensures a * base + d < base * p
  {
    assert (a + 1) * base <= p * base;
  }

  lemma Shrunk(base: nat, n: nat, p: nat)
    requires base > 0 && n < base * p
    ensures n / base < p
  {
  }

  lemma NumBound(base: nat, ds: seq<nat>)
    requires InBase(base, ds)
    ensures Num(base, ds) < Pow(base, |ds|)
  {
    if ds != [] {
      NumBound(base, ds[..|ds| - 1]);
      Scaled(base, Num(base, ds[..|ds| - 1]), ds[|ds| - 1], Pow(base, |ds| - 1));
    }
  }

  lemma {:induction false} DigitsOfNum(base: nat, ds: seq<nat>)
    requires base > 0 && InBase(base, ds)
    ensures Digits(base, |ds|, Num(base, ds)) == ds
  {
    if ds != [] {
      DigitsOfNum(base, ds[..|ds| - 1]);
      Unique(base, Num(base, ds[..|ds| - 1]), ds[|ds| - 1]);
    }
  }

  lemma {:induction false} NumOfDigits(base: nat, k: nat, n: nat)
    requires base > 0 && n < Pow(base, k)
    ensures Num(base, Digits(base, k, n)) == n
  {
    if k > 0 {
      Shrunk(base, n, Pow(base, k - 1));
      NumOfDigits(base, k - 1, n / base);
      var ds := Digits(base, k, n);
      assert ds[..|ds| - 1] == Digits(base, k - 1, n / base);
      Divided(base, n);
    }
  }

  lemma {:induction false} PowAdd(base: nat, j: nat, k: nat)
    ensures Pow(base, j + k) == Pow(base, j) * Pow(base, k)
  {
    if j > 0 {
      PowAdd(base, j - 1, k);
      Associates(base, Pow(base, j - 1), Pow(base, k));
    }
  }

  lemma Associates(a: nat, b: nat, c: nat)
    ensures a * (b * c) == a * b * c
  {
  }

  lemma Distributes(a: nat, b: nat, c: nat, d: nat)
    ensures (a * b + c) * d == a * (d * b) + c * d
  {
  }

  /** Digits after digits. */
  lemma {:induction false} NumConcat(base: nat, a: seq<nat>, b: seq<nat>)
    ensures Num(base, a + b) == Num(base, a) * Pow(base, |b|) + Num(base, b)
  {
    if b == [] {
      assert a + b == a;
    } else {
      var c := b[..|b| - 1];
      NumConcat(base, a, c);
      assert (a + b)[..|a + b| - 1] == a + c;
      Distributes(Num(base, a), Pow(base, |c|), Num(base, c), base);
    }
  }
}
