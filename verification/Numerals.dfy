/** Positional numerals, most significant digit first, in any base: minimal ones and ones of a fixed width. */
module Numerals {

  /** The three bases in use. */
  type Base = b: nat | b == 32 || b == 58 || b == 256 witness 32

  // Arithmetic in one of these bases, by constant factors.

  function Times(v: nat, base: Base): nat {
    if base == 32 then v * 32 else if base == 58 then v * 58 else v * 256
  }

  function Quotient(v: nat, base: Base): nat {
    if base == 32 then v / 32 else if base == 58 then v / 58 else v / 256
  }

  function Remainder(v: nat, base: Base): (d: nat)
    ensures d < base
    ensures Times(Quotient(v, base), base) + d == v
  {
    if base == 32 then v % 32 else if base == 58 then v % 58 else v % 256
  }

  ghost predicate IsNumeral(ds: seq<nat>, base: Base) {
    forall i :: 0 <= i < |ds| ==> ds[i] < base
  }

  function Value(ds: seq<nat>, base: Base): nat {
    if ds == [] then 0 else Times(Value(ds[..|ds| - 1], base), base) + ds[|ds| - 1]
  }

  /** The shortest numeral of `n`: no leading zero, and nothing at all for zero. */
  function Digits(n: nat, base: Base): (ds: seq<nat>)
    ensures IsNumeral(ds, base)
    ensures Value(ds, base) == n
    ensures ds != [] ==> ds[0] != 0
  {
    if n == 0 then []
    else
      var init, d := Digits(Quotient(n, base), base), Remainder(n, base);
      assert (init + [d])[..|init|] == init;
      init + [d]
  }

  /** The last `width` digits of `n`. */
  function Fixed(n: nat, base: Base, width: nat): (ds: seq<nat>)
    ensures IsNumeral(ds, base) && |ds| == width
  {
    if width == 0 then [] else Fixed(Quotient(n, base), base, width - 1) + [Remainder(n, base)]
  }

  function Power(base: Base, e: nat): nat {
    if e == 0 then 1 else Times(Power(base, e - 1), base)
  }

  function Repeat<T>(x: T, k: nat): (s: seq<T>)
    ensures |s| == k && forall i :: 0 <= i < k ==> s[i] == x
  {
    seq(k, _ => x)
  }

  lemma Compose(w: nat, d: nat, base: Base)
    requires d < base
    ensures Quotient(Times(w, base) + d, base) == w && Remainder(Times(w, base) + d, base) == d
    ensures w > 0 || d > 0 ==> Times(w, base) + d > 0
  {
  }

  /** A numeral without leading zero is the shortest numeral of its value. */
  lemma {:induction false} DigitsOfValue(ds: seq<nat>, base: Base)
    requires IsNumeral(ds, base)
    requires ds != [] ==> ds[0] != 0
    ensures Digits(Value(ds, base), base) == ds
    ensures ds != [] ==> Value(ds, base) > 0
  {
    if ds != [] {
      var init, d := ds[..|ds| - 1], ds[|ds| - 1];
      var w := Value(init, base);
      DigitsOfValue(init, base);
      assert Value(ds, base) == Times(w, base) + d;
      Compose(w, d, base);
      calc {
        Digits(Times(w, base) + d, base);
        Digits(w, base) + [d];
        init + [d];
        ds;
      }
    }
  }

  lemma {:induction false} FixedOfValue(ds: seq<nat>, base: Base)
    requires IsNumeral(ds, base)
    ensures Fixed(Value(ds, base), base, |ds|) == ds
  {
    if ds != [] {
      var init, d := ds[..|ds| - 1], ds[|ds| - 1];
      FixedOfValue(init, base);
      Compose(Value(init, base), d, base);
      assert init + [d] == ds;
    }
  }

  lemma {:induction false} ValueOfFixed(n: nat, base: Base, width: nat)
    requires n < Power(base, width)
    ensures Value(Fixed(n, base, width), base) == n
  {
    if width > 0 {
      ValueOfFixed(Quotient(n, base), base, width - 1);
      var ds := Fixed(n, base, width);
      assert ds[..|ds| - 1] == Fixed(Quotient(n, base), base, width - 1);
    }
  }

  lemma {:induction false} ValueBound(ds: seq<nat>, base: Base)
    requires IsNumeral(ds, base)
    ensures Value(ds, base) < Power(base, |ds|)
  {
    if ds != [] {
      ValueBound(ds[..|ds| - 1], base);
    }
  }

  lemma {:induction false} LeadingZeros(k: nat, ds: seq<nat>, base: Base)
    ensures Value(Repeat(0, k) + ds, base) == Value(ds, base)
    decreases |ds|, k
  {
    var all := Repeat(0, k) + ds;
    if ds != [] {
      assert all[..|all| - 1] == Repeat(0, k) + ds[..|ds| - 1];
      LeadingZeros(k, ds[..|ds| - 1], base);
    } else if k > 0 {
      assert all[..|all| - 1] == Repeat(0, k - 1) + ds;
      LeadingZeros(k - 1, ds, base);
    }
  }
}
