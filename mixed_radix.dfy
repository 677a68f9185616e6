/**
 * Mixed-radix numbering. The combination builder of the Geonorge harvester
 * gives search number `i` the value at index `(i / P_j) % n_j` of the j-th
 * filter list, where `n_j` is that list's length and `P_j` is the product of
 * the lengths of the lists before it. This module shows that this numbering
 * is a bijection between `[0, n_0 * ... * n_(k-1))` and the choice vectors
 * `d` with `d[j] < n_j`.
 */
module MixedRadix {

  /** Product of a sequence of lengths. */
  function Prod(lens: seq<nat>): nat
  {
    if lens == [] then 1 else lens[0] * Prod(lens[1..])
  }

  lemma {:induction false} ProdAppend(a: seq<nat>, b: seq<nat>)
    ensures Prod(a + b) == Prod(a) * Prod(b)
  {
    if a == [] {
      assert a + b == b;
    } else {
      assert (a + b)[1..] == a[1..] + b;
      ProdAppend(a[1..], b);
      assert Prod(a + b) == a[0] * (Prod(a[1..]) * Prod(b));
    }
  }

  /** Extending a prefix by one length multiplies its product by that length. */
  lemma ProdPrefixStep(lens: seq<nat>, j: nat)
    requires j < |lens|
    ensures Prod(lens[..j + 1]) == Prod(lens[..j]) * lens[j]
  {
    assert lens[..j + 1] == lens[..j] + [lens[j]];
    ProdAppend(lens[..j], [lens[j]]);
    assert Prod([lens[j]]) == lens[j] * Prod([]);
  }

  /** Taking one factor out of a product. */
  lemma {:induction false} ProdRemove(lens: seq<nat>, i: nat)
    requires i < |lens|
    ensures Prod(lens) == lens[i] * Prod(lens[..i] + lens[i + 1..])
  {
    if i == 0 {
      assert lens[..0] + lens[1..] == lens[1..];
    } else {
      var tail := lens[1..];
      ProdRemove(tail, i - 1);
      var rest := tail[..i - 1] + tail[i..];
      assert lens[..i] + lens[i + 1..] == [lens[0]] + rest;
      assert Prod([lens[0]] + rest) == lens[0] * Prod(rest);
      MulSwap(lens[0], lens[i], Prod(rest));
    }
  }

  /** A product is non-zero exactly when every factor is. */
  lemma {:induction false} ProdPositive(lens: seq<nat>)
    ensures Prod(lens) > 0 <==> forall j :: 0 <= j < |lens| ==> lens[j] > 0
  {
    if lens != [] {
      ProdPositive(lens[1..]);
      assert forall j :: 1 <= j < |lens| ==> lens[j] == lens[1..][j - 1];
      if lens[0] > 0 && Prod(lens[1..]) > 0 {
        MulPositive(lens[0], Prod(lens[1..]));
      }
    }
  }

  lemma MulSwap(a: nat, b: nat, c: nat)
    ensures a * (b * c) == b * (a * c)
  {
  }

  lemma MulPositive(a: nat, b: nat)
    requires a > 0 && b > 0
    ensures a * b > 0
  {
  }

  lemma MulAtLeast(a: nat, b: nat, c: nat)
    requires a <= b
    ensures a * c <= b * c
  {
  }

  /** Euclidean division is unique. */
  lemma DivModUnique(x: nat, q: nat, r: nat, n: nat)
    requires n > 0 && r < n && x == q * n + r
    ensures x / n == q && x % n == r
  {
    var q' := x / n;
    if q' > q {
      MulAtLeast(q + 1, q', n);
    } else if q' < q {
      MulAtLeast(q' + 1, q, n);
    }
  }

  lemma DivDiv(x: nat, a: nat, b: nat)
    requires a > 0 && b > 0
    ensures x / (a * b) == (x / a) / b
  {
    var q := x / a;
    var q2, r2 := q / b, q % b;
    var r1 := x % a;
    assert x == q * a + r1;
    assert q == q2 * b + r2;
    assert x == q2 * (a * b) + (r2 * a + r1);
    MulAtLeast(r2, b - 1, a);
    assert r2 * a + r1 < a * b;
    MulPositive(a, b);
    DivModUnique(x, q2, r2 * a + r1, a * b);
  }

  /** Digit j of number i: the index the builder picks in the j-th list. */
  function Digit(lens: seq<nat>, j: nat, i: nat): (d: nat)
    requires j < |lens|
    requires forall k :: 0 <= k < |lens| ==> lens[k] > 0
    ensures d < lens[j]
  {
    ProdPositive(lens[..j]);
    (i / Prod(lens[..j])) % lens[j]
  }

  predicate AllPositive(lens: seq<nat>)
  {
    forall k :: 0 <= k < |lens| ==> lens[k] > 0
  }

  /** All digits of number i. */
  function Digits(lens: seq<nat>, i: nat): (d: seq<nat>)
    requires AllPositive(lens)
    ensures |d| == |lens|
    ensures forall j :: 0 <= j < |lens| ==> d[j] == Digit(lens, j, i)
  {
    seq(|lens|, j requires 0 <= j < |lens| => Digit(lens, j, i))
  }

  /** A choice of one index per list. */
  predicate InRange(lens: seq<nat>, d: seq<nat>)
  {
    |d| == |lens| && forall j :: 0 <= j < |d| ==> d[j] < lens[j]
  }

  /** The number whose digits are d (inverse of Digits). */
  function Encode(lens: seq<nat>, d: seq<nat>): nat
    requires |d| == |lens|
  {
    if lens == [] then 0 else d[0] + lens[0] * Encode(lens[1..], d[1..])
  }

  /** The digits of i are its remainder by the first length followed by the digits of the quotient. */
  lemma DigitsCons(lens: seq<nat>, i: nat)
    requires lens != [] && AllPositive(lens)
    ensures Digits(lens, i) == [i % lens[0]] + Digits(lens[1..], i / lens[0])
  {
    var l, rest := lens[0], lens[1..];
    var lhs, rhs := Digits(lens, i), [i % l] + Digits(rest, i / l);
    assert lens[..0] == [];
    assert lhs[0] == rhs[0];
    forall j | 1 <= j < |lens|
      ensures lhs[j] == rhs[j]
    {
      assert lens[..j] == [l] + rest[..j - 1];
      ProdPositive(rest[..j - 1]);
      var p := Prod(rest[..j - 1]);
      assert Prod(lens[..j]) == l * p;
      DivDiv(i, l, p);
    }
  }

  /** Every choice vector is encoded below the product of the lengths. */
  lemma {:induction false} EncodeBound(lens: seq<nat>, d: seq<nat>)
    requires InRange(lens, d)
    ensures Encode(lens, d) < Prod(lens)
  {
    if lens != [] {
      EncodeBound(lens[1..], d[1..]);
      var e, p := Encode(lens[1..], d[1..]), Prod(lens[1..]);
      MulAtLeast(e, p - 1, lens[0]);
      assert lens[0] * e <= lens[0] * p - lens[0];
    }
  }

  /** Decoding an encoded choice gives the choice back. */
  lemma {:induction false} DigitsOfEncode(lens: seq<nat>, d: seq<nat>)
    requires InRange(lens, d)
    ensures AllPositive(lens)
    ensures Digits(lens, Encode(lens, d)) == d
  {
    if lens != [] {
      DigitsOfEncode(lens[1..], d[1..]);
      var e := Encode(lens[1..], d[1..]);
      var x := d[0] + lens[0] * e;
      DivModUnique(x, e, d[0], lens[0]);
      DigitsCons(lens, x);
    }
  }

  /** Encoding the digits of a number below the product gives the number back. */
  lemma {:induction false} EncodeOfDigits(lens: seq<nat>, i: nat)
    requires AllPositive(lens) && i < Prod(lens)
    ensures Encode(lens, Digits(lens, i)) == i
  {
    if lens != [] {
      var l := lens[0];
      DigitsCons(lens, i);
      assert i == l * (i / l) + i % l;
      if i / l >= Prod(lens[1..]) {
        MulAtLeast(Prod(lens[1..]), i / l, l);
      }
      EncodeOfDigits(lens[1..], i / l);
    }
  }

  /**
   * The numbering is a bijection: distinct numbers below the product have
   * distinct digit vectors, and every choice vector is the digit vector of
   * exactly one such number.
   */
  lemma DigitsInjective(lens: seq<nat>, i: nat, k: nat)
    requires AllPositive(lens) && i < Prod(lens) && k < Prod(lens)
    requires Digits(lens, i) == Digits(lens, k)
    ensures i == k
  {
    EncodeOfDigits(lens, i);
    EncodeOfDigits(lens, k);
  }

  lemma DigitsSurjective(lens: seq<nat>, d: seq<nat>)
    requires InRange(lens, d)
    ensures AllPositive(lens)
    ensures exists i :: 0 <= i < Prod(lens) && Digits(lens, i) == d
  {
    EncodeBound(lens, d);
    DigitsOfEncode(lens, d);
  }
}
