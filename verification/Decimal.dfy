/** Decimal digit strings: their value, their printing, and powers of ten. */
module Decimal {

  function Pow10(n: nat): (p: nat)
    ensures p >= 1
  {
    if n == 0 then 1 else 10 * Pow10(n - 1)
  }

  /** `n` with `k` zeros written behind it. */
  function Shift(n: nat, k: nat): nat {
    if k == 0 then n else 10 * Shift(n, k - 1)
  }

  lemma ShiftStep(n: nat, p: nat)
    ensures 10 * (n * p) == n * (10 * p)
  {
  }

  lemma {:induction false} ShiftIsProduct(n: nat, k: nat)
    ensures Shift(n, k) == n * Pow10(k)
  {
    if k > 0 {
      ShiftIsProduct(n, k - 1);
      ShiftStep(n, Pow10(k - 1));
    }
  }

  lemma {:induction false} ShiftAdds(n: nat, j: nat, k: nat)
    ensures Shift(Shift(n, j), k) == Shift(n, j + k)
  {
    if k > 0 {
      ShiftAdds(n, j, k - 1);
    }
  }

  lemma {:induction false} ShiftOfSum(m: nat, n: nat, k: nat)
    ensures Shift(m + n, k) == Shift(m, k) + Shift(n, k)
  {
    if k > 0 {
      ShiftOfSum(m, n, k - 1);
    }
  }

  predicate IsDigit(c: char) {
    '0' <= c <= '9'
  }

  predicate AllDigits(s: string) {
    forall i :: 0 <= i < |s| ==> IsDigit(s[i])
  }

  function DigitValue(c: char): nat
    requires IsDigit(c)
  {
    (c - '0') as nat
  }

  function DigitChar(d: nat): (c: char)
    requires d < 10
    ensures IsDigit(c) && DigitValue(c) == d
  {
    ['0', '1', '2', '3', '4', '5', '6', '7', '8', '9'][d]
  }

  /** The number a digit string stands for. */
  function Value(s: string): nat
    requires AllDigits(s)
  {
    if s == "" then 0 else 10 * Value(s[..|s| - 1]) + DigitValue(s[|s| - 1])
  }

  lemma {:induction false} ValueOfConcat(s: string, t: string)
    requires AllDigits(s) && AllDigits(t)
    ensures AllDigits(s + t) && Value(s + t) == Shift(Value(s), |t|) + Value(t)
    decreases |t|
  {
    if t == "" {
      assert s + t == s;
    } else {
      var init := t[..|t| - 1];
      ValueOfConcat(s, init);
      assert (s + t)[..|s + t| - 1] == s + init;
    }
  }

  /** `String(n)` for a natural number. */
  function Show(n: nat): (s: string)
    ensures s != "" && AllDigits(s)
  {
    if n < 10 then [DigitChar(n)] else Show(n / 10) + [DigitChar(n % 10)]
  }

  lemma {:induction false} ShowThenValue(n: nat)
    ensures Value(Show(n)) == n
  {
    if n < 10 {
      assert Show(n)[..0] == "";
    } else {
      ShowThenValue(n / 10);
      assert Show(n)[..|Show(n)| - 1] == Show(n / 10);
    }
  }

  lemma {:induction false} ShowLength(n: nat, k: nat)
    requires n < Pow10(k) && k >= 1
    ensures |Show(n)| <= k
    decreases k
  {
    if n >= 10 {
      assert k > 1;
      ShowLength(n / 10, k - 1);
    }
  }

  function Zeros(k: nat): (s: string)
    ensures |s| == k && AllDigits(s)
  {
    if k == 0 then "" else Zeros(k - 1) + "0"
  }

  lemma {:induction false} ZerosHaveNoValue(k: nat)
    ensures Value(Zeros(k)) == 0
  {
    if k > 0 {
      ZerosHaveNoValue(k - 1);
      assert Zeros(k)[..k - 1] == Zeros(k - 1);
    }
  }

  lemma {:induction false} ShiftOfZero(k: nat)
    ensures Shift(0, k) == 0
  {
    if k > 0 {
      ShiftOfZero(k - 1);
    }
  }

  // ---- the decimal point ----

  /** `x` with its decimal point moved `e` places to the right (to the left if negative): x times 10^e. */
  ghost function Move(x: real, e: int): real
    decreases if e < 0 then -e else e
  {
    if e == 0 then x else if e > 0 then 10.0 * Move(x, e - 1) else Move(x, e + 1) / 10.0
  }

  lemma {:induction false} MoveUp(x: real, e: int)
    ensures Move(x, e + 1) == 10.0 * Move(x, e)
  {
  }

  lemma {:induction false} MoveAdds(x: real, a: int, b: int)
    ensures Move(Move(x, a), b) == Move(x, a + b)
    decreases if b < 0 then -b else b
  {
    if b > 0 {
      MoveAdds(x, a, b - 1);
      MoveUp(x, a + b - 1);
    } else if b < 0 {
      MoveAdds(x, a, b + 1);
      MoveUp(x, a + b);
    }
  }

  lemma {:induction false} MoveOfSum(x: real, y: real, e: int)
    ensures Move(x + y, e) == Move(x, e) + Move(y, e)
    decreases if e < 0 then -e else e
  {
    if e > 0 {
      MoveOfSum(x, y, e - 1);
    } else if e < 0 {
      MoveOfSum(x, y, e + 1);
    }
  }

  lemma {:induction false} MoveIsShift(n: nat, k: nat)
    ensures Move(n as real, k) == Shift(n, k) as real
  {
    if k > 0 {
      MoveIsShift(n, k - 1);
    }
  }
}
