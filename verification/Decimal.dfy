/** Exact decimal arithmetic on digit strings: values, powers of ten, and integers as text. */
module Decimal {
  import opened Prelude

  predicate IsDigit(c: char) { '0' <= c <= '9' }

  predicate AllDigits(s: string) { forall i :: 0 <= i < |s| ==> IsDigit(s[i]) }

  function DigitValue(c: char): nat
    requires IsDigit(c)
  {
    c as int - '0' as int
  }

  function Digit(n: nat): (c: char)
    requires n < 10
    ensures IsDigit(c) && DigitValue(c) == n
  {
    ('0' as int + n) as char
  }

  /** The number that a digit string spells. */
  function Nat(s: string): nat
    requires AllDigits(s)
  {
    if s == "" then 0 else Nat(s[..|s| - 1]) * 10 + DigitValue(s[|s| - 1])
  }

  function Zeros(n: nat): (s: string)
    ensures |s| == n && AllDigits(s) && forall i :: 0 <= i < n ==> s[i] == '0'
  {
    if n == 0 then "" else Zeros(n - 1) + "0"
  }

  lemma ZerosUnique(s: string)
    requires forall i :: 0 <= i < |s| ==> s[i] == '0'
    ensures s == Zeros(|s|)
  {}

  // ---- powers of ten

  /** Ten to the power n, for positive and negative n. */
  ghost function Scale(n: int): real
    decreases if n >= 0 then n else -n
  {
    if n == 0 then 1.0 else if n > 0 then 10.0 * Scale(n - 1) else Scale(n + 1) / 10.0
  }

  lemma ScaleNext(n: int)
    ensures Scale(n + 1) == 10.0 * Scale(n)
  {}

  lemma {:induction false} ScalePositive(n: int)
    ensures Scale(n) > 0.0
    decreases if n >= 0 then n else -n
  {
    if n > 0 { ScalePositive(n - 1); } else if n < 0 { ScalePositive(n + 1); }
  }

  lemma TenTimes(x: real, y: real)
    ensures 10.0 * (x * y) == x * (10.0 * y)
    ensures x * (y * 10.0) == (x * y) * 10.0
  {}

  lemma {:induction false} ScaleAdd(a: int, b: int)
    ensures Scale(a + b) == Scale(a) * Scale(b)
    decreases if b >= 0 then b else -b
  {
    hide Scale;
    if b == 0 {
      ScaleZero();
    } else if b > 0 {
      ScaleAdd(a, b - 1);
      ScaleNext(a + b - 1);
      ScaleNext(b - 1);
      TenTimes(Scale(a), Scale(b - 1));
    } else {
      ScaleAdd(a, b + 1);
      ScaleNext(a + b);
      ScaleNext(b);
      TenTimes(Scale(a), Scale(b));
      assert a + (b + 1) == a + b + 1;
      assert 10.0 * Scale(a + b) == 10.0 * (Scale(a) * Scale(b));
    }
  }

  lemma ScaleZero()
    ensures Scale(0) == 1.0
  {}

  lemma {:induction false} ScaleMonotone(a: int, b: int)
    requires a < b
    ensures 10.0 * Scale(a) <= Scale(b)
    decreases b - a
  {
    ScaleNext(b - 1);
    if a < b - 1 {
      ScaleMonotone(a, b - 1);
      ScalePositive(a);
    }
  }

  // ---- digit strings

  lemma {:induction false} NatConcat(s: string, t: string)
    requires AllDigits(s) && AllDigits(t)
    ensures AllDigits(s + t) && Nat(s + t) as real == Nat(s) as real * Scale(|t|) + Nat(t) as real
  {
    hide Scale, Nat;
    if t == "" {
      ScaleZero();
      NatEmpty();
      assert s + t == s;
    } else {
      var u, c := t[..|t| - 1], t[|t| - 1];
      NatConcat(s, u);
      NatSnoc(u, c);
      NatSnoc(s + u, c);
      assert u + [c] == t && s + u + [c] == s + t;
      ScaleNext(|u|);
      TenTimes(Nat(s) as real, Scale(|u|));
    }
  }

  lemma NatEmpty()
    ensures Nat("") == 0
  {}

  lemma NatSnoc(s: string, c: char)
    requires AllDigits(s) && IsDigit(c)
    ensures AllDigits(s + [c]) && Nat(s + [c]) == Nat(s) * 10 + DigitValue(c)
  {
    assert (s + [c])[..|s|] == s;
  }

  lemma {:induction false} NatZeros(n: nat)
    ensures Nat(Zeros(n)) == 0
  {
    if n > 0 {
      NatZeros(n - 1);
      assert Zeros(n)[..n - 1] == Zeros(n - 1);
    }
  }

  /** The value of a digit string, bounded by its length. */
  lemma {:induction false} NatBounds(s: string)
    requires AllDigits(s)
    ensures Nat(s) as real + 1.0 <= Scale(|s|)
    ensures s != "" && s[0] != '0' ==> Scale(|s| - 1) <= Nat(s) as real
  {
    hide Scale, Nat;
    ScaleZero();
    NatEmpty();
    if s != "" {
      var u, c := s[..|s| - 1], s[|s| - 1];
      NatBounds(u);
      NatSnoc(u, c);
      assert s == u + [c];
      ScaleNext(|s| - 1);
      ScaleNext(|s| - 2);
    }
  }

  /** Digit strings of one length are determined by their value. */
  lemma {:induction false} NatInjective(s: string, t: string)
    requires AllDigits(s) && AllDigits(t) && |s| == |t| && Nat(s) == Nat(t)
    ensures s == t
  {
    hide Nat;
    if s != "" {
      var u, v, c, d := s[..|s| - 1], t[..|t| - 1], s[|s| - 1], t[|t| - 1];
      assert s == u + [c] && t == v + [d];
      NatSnoc(u, c);
      NatSnoc(v, d);
      NatInjective(u, v);
    }
  }

  // ---- integers as text

  /** The digits that strconv.Itoa writes. */
  function Digits(n: nat): (s: string)
    ensures s != "" && AllDigits(s) && Nat(s) == n
  {
    if n < 10 then
      assert [Digit(n)][..0] == "";
      [Digit(n)]
    else
      var s := Digits(n / 10) + [Digit(n % 10)];
      assert s[..|s| - 1] == Digits(n / 10);
      s
  }

  function Itoa(n: int): string { if n < 0 then "-" + Digits(-n) else Digits(n) }

  /** strconv.Atoi without its range check: an optional sign and at least one digit. */
  function Atoi(s: string): Option<int> {
    var signed := s != "" && (s[0] == '+' || s[0] == '-');
    var digits := if signed then s[1..] else s;
    if digits == "" || !AllDigits(digits) then None
    else Some(if signed && s[0] == '-' then -(Nat(digits) as int) else Nat(digits) as int)
  }

  lemma AtoiItoa(n: int)
    ensures Atoi(Itoa(n)) == Some(n)
  {
    if n < 0 {
      assert ("-" + Digits(-n))[1..] == Digits(-n);
    } else {
      assert IsDigit(Digits(n)[0]);
    }
  }
}
