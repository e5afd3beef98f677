/** Exact decimal scaling of price texts (scripts/lib/price-review.ts:422-446) and its printer (712-717). */
module PriceDecimal {
  import opened Common
  import opened Decimal

  const MAX_SAFE_INTEGER: nat := 9007199254740991

  // ---- the pattern ^(\d+)(?:\.(\d+))?(?:[eE]([+-]?\d+))?$ ----

  /** The number of leading digits. */
  function Digits(s: string): (n: nat)
    ensures n <= |s| && AllDigits(s[..n])
    ensures n < |s| ==> !IsDigit(s[n])
  {
    if s == "" || !IsDigit(s[0]) then 0
    else
      var n := 1 + Digits(s[1..]);
      assert s[..n] == [s[0]] + s[1..][..n - 1];
      n
  }

  lemma {:induction false} DigitsStop(d: string, rest: string)
    requires AllDigits(d) && (rest != "" ==> !IsDigit(rest[0]))
    ensures Digits(d + rest) == |d|
    decreases |d|
  {
    if d == "" {
      assert d + rest == rest;
    } else {
      assert (d + rest)[1..] == d[1..] + rest;
      DigitsStop(d[1..], rest);
    }
  }

  /** The captured groups; an absent fraction is empty and an absent power is "0". */
  datatype Numeral = Numeral(whole: string, fraction: string, negative: bool, power: string) {
    predicate Valid() {
      whole != "" && AllDigits(whole) && AllDigits(fraction) && power != "" && AllDigits(power)
    }

    function Power(): int
      requires Valid()
    {
      if negative then -(Value(power) as int) else Value(power)
    }
  }

  function ScanPower(s: string): (r: Option<(bool, string)>)
    ensures r.Some? ==> r.value.1 != "" && AllDigits(r.value.1)
  {
    if s == "" then Some((false, "0"))
    else if s[0] != 'e' && s[0] != 'E' then None
    else
      var signed := |s| > 1 && (s[1] == '+' || s[1] == '-');
      var digits := if signed then s[2..] else s[1..];
      if digits == "" || Digits(digits) < |digits| then None
      else
        assert digits[..|digits|] == digits;
        Some((signed && s[1] == '-', digits))
  }

  function Scan(s: string): (r: Option<Numeral>)
    ensures r.Some? ==> r.value.Valid()
  {
    var w := Digits(s);
    if w == 0 then None
    else
      var rest := s[w..];
      var f := if rest != "" && rest[0] == '.' then Digits(rest[1..]) else 0;
      if rest != "" && rest[0] == '.' && f == 0 then None
      else
        var tail := if f == 0 then rest else rest[1 + f..];
        match ScanPower(tail)
        case None => None
        case Some(p) => Some(Numeral(s[..w], if f == 0 then "" else rest[1..][..f], p.0, p.1))
  }

  /** The spellings of an exponent part: none at all, or e or E, an optional sign, and digits. */
  ghost predicate SpellsPower(tail: string, negative: bool, power: string) {
    || (tail == "" && !negative && power == "0")
    || (power != "" && AllDigits(power)
        && ((!negative && (tail == "e" + power || tail == "E" + power || tail == "e+" + power || tail == "E+" + power))
            || (negative && (tail == "e-" + power || tail == "E-" + power))))
  }

  /** The texts that the pattern accepts, written the other way round. */
  ghost predicate Spells(s: string, n: Numeral) {
    && n.Valid()
    && exists tail :: SpellsPower(tail, n.negative, n.power)
                      && s == n.whole + (if n.fraction == "" then "" else "." + n.fraction) + tail
  }

  lemma DigitsAll(d: string)
    requires AllDigits(d)
    ensures Digits(d) == |d|
  {
    DigitsStop(d, "");
    assert d + "" == d;
  }

  lemma PowerSpelling(tail: string, negative: bool, power: string)
    ensures ScanPower(tail) == Some((negative, power)) <==> SpellsPower(tail, negative, power)
  {
    if SpellsPower(tail, negative, power) && tail != "" {
      DigitsAll(power);
      if IsDigit(tail[1]) {
        assert tail[1..] == power;
      } else {
        assert tail[2..] == power;
      }
    }
    if ScanPower(tail) == Some((negative, power)) && tail != "" {
      if tail[1] == '+' || tail[1] == '-' {
        assert tail == [tail[0]] + [tail[1]] + power;
      } else {
        assert tail == [tail[0]] + power;
      }
    }
  }

  lemma ScanPlain(w: string, tail: string, negative: bool, power: string)
    requires w != "" && AllDigits(w) && ScanPower(tail) == Some((negative, power))
    ensures Scan(w + tail) == Some(Numeral(w, "", negative, power))
  {
    var s := w + tail;
    DigitsStop(w, tail);
    assert s[|w|..] == tail && s[..|w|] == w;
  }

  lemma ScanFraction(w: string, f: string, tail: string, negative: bool, power: string)
    requires w != "" && AllDigits(w) && f != "" && AllDigits(f) && ScanPower(tail) == Some((negative, power))
    ensures Scan(w + ("." + f + tail)) == Some(Numeral(w, f, negative, power))
  {
    var rest := "." + f + tail;
    var s := w + rest;
    DigitsStop(w, rest);
    assert s[|w|..] == rest && s[..|w|] == w;
    assert rest[1..] == f + tail;
    DigitsStop(f, tail);
    assert rest[1..][..|f|] == f && rest[1 + |f|..] == tail;
  }

  lemma Glue(a: string, b: string, c: string)
    ensures a + b + c == a + (b + c) && a + "" == a
  {
  }

  /** The pattern finds every spelling ... */
  lemma ScanFindsSpelling(s: string, n: Numeral)
    requires Spells(s, n)
    ensures Scan(s) == Some(n)
  {
    var tail :| SpellsPower(tail, n.negative, n.power)
                && s == n.whole + (if n.fraction == "" then "" else "." + n.fraction) + tail;
    PowerSpelling(tail, n.negative, n.power);
    if n.fraction == "" {
      Glue(n.whole, "", tail);
      ScanPlain(n.whole, tail, n.negative, n.power);
    } else {
      Glue(n.whole, "." + n.fraction, tail);
      ScanFraction(n.whole, n.fraction, tail, n.negative, n.power);
    }
  }

  /** What a match found: the digits in front, then either a fraction and the power, or the power alone. */
  ghost predicate Found(s: string, n: Numeral, w: nat, f: nat) {
    && n.Valid() && w <= |s| && n.whole == s[..w]
    && var rest := s[w..];
       if n.fraction == "" then ScanPower(rest) == Some((n.negative, n.power))
       else && rest != "" && rest[0] == '.' && f <= |rest| - 1 && n.fraction == rest[1..][..f]
            && ScanPower(rest[1 + f..]) == Some((n.negative, n.power))
  }

  lemma ScanFound(s: string)
    requires Scan(s).Some?
    ensures exists w, f :: Found(s, Scan(s).value, w, f)
  {
    var w := Digits(s);
    var rest := s[w..];
    var f := if rest != "" && rest[0] == '.' then Digits(rest[1..]) else 0;
    assert Found(s, Scan(s).value, w, f);
  }

  lemma FoundIsSpelling(s: string, n: Numeral, w: nat, f: nat)
    requires Found(s, n, w, f)
    ensures Spells(s, n)
  {
    var rest := s[w..];
    assert s == n.whole + rest;
    if n.fraction == "" {
      PowerSpelling(rest, n.negative, n.power);
      assert s == n.whole + "" + rest;
    } else {
      SpelledWith(s, n, rest, rest[1 + f..]);
    }
  }

  /** ... and nothing else. */
  lemma ScanIsSpelling(s: string)
    requires Scan(s).Some?
    ensures Spells(s, Scan(s).value)
  {
    ScanFound(s);
    var w, f :| Found(s, Scan(s).value, w, f);
    FoundIsSpelling(s, Scan(s).value, w, f);
  }

  lemma SpelledWith(s: string, n: Numeral, rest: string, tail: string)
    requires n.Valid() && n.fraction != "" && s == n.whole + rest
    requires rest != "" && rest[0] == '.' && n.fraction <= rest[1..] && tail == rest[1 + |n.fraction|..]
    requires ScanPower(tail) == Some((n.negative, n.power))
    ensures Spells(s, n)
  {
    PowerSpelling(tail, n.negative, n.power);
    assert rest == "." + n.fraction + tail;
    assert s == n.whole + ("." + n.fraction) + tail;
  }

  // ---- scaling ----

  datatype Scaled = Whole(n: nat) | NotWhole | Unreadable

  /** The two branches of the scaling, on the digits alone. */
  function Shifted(digits: nat, shift: int): Scaled {
    if shift >= 0 then Bounded(digits * Pow10(shift))
    else if digits % Pow10(-shift) != 0 then NotWhole
    else Bounded(digits / Pow10(-shift))
  }

  function ScaledDecimal(text: string, exponent: int): Scaled {
    match Scan(Trim(text))
    case None => Unreadable
    case Some(n) =>
      assert AllDigits(n.whole + n.fraction);
      var digits := Value(n.whole + n.fraction);
      Shifted(digits, exponent + n.Power() - |n.fraction|)
  }

  function Bounded(n: nat): Scaled {
    if n <= MAX_SAFE_INTEGER then Whole(n) else Unreadable
  }

  /** The number a numeral denotes: whole part, plus the fraction digits behind the point, times the power. */
  ghost function Denoted(n: Numeral): real
    requires n.Valid()
  {
    Move(Value(n.whole) as real + Move(Value(n.fraction) as real, -|n.fraction|), n.Power())
  }

  /** The fraction and whole digits run together denote the same number with the point moved back. */
  lemma DenotedAsDigits(n: Numeral, exponent: int)
    requires n.Valid()
    ensures AllDigits(n.whole + n.fraction)
    ensures Move(Denoted(n), exponent)
            == Move(Value(n.whole + n.fraction) as real, exponent + n.Power() - |n.fraction|)
  {
    var f, w, v := |n.fraction|, Value(n.whole), Value(n.fraction);
    ValueOfConcat(n.whole, n.fraction);
    MoveIsShift(w, f);
    MoveAdds(w as real, f, -f);
    MoveOfSum(Shift(w, f) as real, v as real, -f);
    var m := Value(n.whole + n.fraction) as real;
    assert Move(m, -f) == w as real + Move(v as real, -f);
    MoveAdds(m, -f, n.Power());
    MoveAdds(m, n.Power() - f, exponent);
  }

  ghost predicate IsWhole(x: real, n: int) {
    x == n as real
  }

  /** Moving the point left by `k` gives `n` exactly if the digits are `n` and `k` zeros. */
  lemma LeftShiftIsWhole(digits: nat, k: int, n: int)
    requires k >= 0
    ensures IsWhole(Move(digits as real, -k), n) <==> n >= 0 && digits == Shift(n, k)
  {
    var x := Move(digits as real, -k);
    MoveAdds(digits as real, -k, k);
    assert Move(x, k) == digits as real;
    if n >= 0 {
      MoveIsShift(n, k);
      MoveAdds(n as real, k, -k);
      assert Move(Shift(n, k) as real, -k) == n as real;
    } else {
      MoveKeepsSign(digits, -k);
    }
  }

  lemma {:induction false} MoveKeepsSign(n: nat, e: int)
    ensures Move(n as real, e) >= 0.0
    decreases if e < 0 then -e else e
  {
    if e > 0 {
      MoveKeepsSign(n, e - 1);
    } else if e < 0 {
      MoveKeepsSign(n, e + 1);
    }
  }

  lemma {:induction false} MultipleHasNoRemainder(n: nat, divisor: nat)
    requires divisor >= 1
    ensures (n * divisor) % divisor == 0
    decreases n
  {
    if n > 0 {
      MultipleHasNoRemainder(n - 1, divisor);
      assert n * divisor == (n - 1) * divisor + divisor;
      AddDivisor((n - 1) * divisor, divisor);
    }
  }

  lemma AddDivisor(x: nat, divisor: nat)
    requires divisor >= 1
    ensures (x + divisor) % divisor == x % divisor
  {
    var q, r := x / divisor, x % divisor;
    assert x + divisor == (q + 1) * divisor + r;
    UniqueRemainder(x + divisor, divisor, q + 1, r);
  }

  lemma AtLeast(k: int, d: nat)
    requires k >= 1
    ensures k * d >= d
  {
  }

  lemma UniqueRemainder(x: nat, divisor: nat, q: int, r: nat)
    requires divisor >= 1 && x == q * divisor + r && r < divisor
    ensures x % divisor == r
  {
    var q', r' := x / divisor, x % divisor;
    var k := q - q';
    assert k * divisor == r' - r by { assert x == q' * divisor + r'; }
    if k >= 1 {
      AtLeast(k, divisor);
    } else if k <= -1 {
      AtLeast(-k, divisor);
    }
  }

  lemma RemainderMeansNoMultiple(digits: nat, divisor: nat, n: int)
    requires divisor >= 1 && digits % divisor != 0
    ensures digits != n * divisor
  {
    if n >= 0 {
      MultipleHasNoRemainder(n, divisor);
    } else {
      assert n * divisor < 0;
    }
  }

  /** What a result says about the scaled number. */
  ghost predicate Agrees(r: Scaled, x: real) {
    match r
    case Whole(n) => IsWhole(x, n) && n <= MAX_SAFE_INTEGER
    case NotWhole => forall n :: !IsWhole(x, n)
    case Unreadable => exists n :: IsWhole(x, n) && n > MAX_SAFE_INTEGER
  }

  /**
   * On every numeral the result tells exactly what `value times 10^exponent` is: a whole number in
   * the safe range, a whole number beyond it, or not a whole number. On any other text it is unreadable.
   */
  lemma ScaledDecimalIsExact(text: string, exponent: int)
    ensures match Scan(Trim(text))
            case None => ScaledDecimal(text, exponent) == Unreadable
            case Some(n) => Agrees(ScaledDecimal(text, exponent), Move(Denoted(n), exponent))
  {
    match Scan(Trim(text))
    case None =>
    case Some(n) =>
      DenotedAsDigits(n, exponent);
      var digits, shift := Value(n.whole + n.fraction), exponent + n.Power() - |n.fraction|;
      ShiftedAgrees(digits, shift);
  }

  lemma BoundedAgrees(x: real, n: nat)
    requires IsWhole(x, n)
    ensures Agrees(Bounded(n), x)
  {
  }

  lemma ShiftedAgrees(digits: nat, shift: int)
    ensures Agrees(Shifted(digits, shift), Move(digits as real, shift))
  {
    var x := Move(digits as real, shift);
    if shift >= 0 {
      MoveIsShift(digits, shift);
      ShiftIsProduct(digits, shift);
      BoundedAgrees(x, digits * Pow10(shift));
    } else {
      var k := -shift;
      var divisor := Pow10(k);
      if digits % divisor == 0 {
        var n := digits / divisor;
        ShiftIsProduct(n, k);
        assert digits == n * divisor;
        LeftShiftIsWhole(digits, k, n);
        BoundedAgrees(x, n);
      } else {
        forall n ensures !IsWhole(x, n) {
          LeftShiftIsWhole(digits, k, n);
          if n >= 0 {
            ShiftIsProduct(n, k);
            RemainderMeansNoMultiple(digits, divisor, n);
          }
        }
      }
    }
  }

  /** `Agrees` leaves no choice, so two spellings of one number always scale alike. */
  lemma AgreesIsExclusive(r: Scaled, r': Scaled, x: real)
    requires Agrees(r, x) && Agrees(r', x)
    ensures r == r'
  {
  }

  lemma SpellingsOfOneNumberAgree(text: string, text': string, exponent: int)
    requires Scan(Trim(text)).Some? && Scan(Trim(text')).Some?
    requires Denoted(Scan(Trim(text)).value) == Denoted(Scan(Trim(text')).value)
    ensures ScaledDecimal(text, exponent) == ScaledDecimal(text', exponent)
  {
    ScaledDecimalIsExact(text, exponent);
    ScaledDecimalIsExact(text', exponent);
    AgreesIsExclusive(ScaledDecimal(text, exponent), ScaledDecimal(text', exponent),
                      Move(Denoted(Scan(Trim(text)).value), exponent));
  }

  // ---- the printer ----


  function StripZeros(s: string): (r: string)
    ensures |r| <= |s|
  {
    if s != "" && s[|s| - 1] == '0' then StripZeros(s[..|s| - 1]) else s
  }

  /** The six fraction digits. */
  function Padded(m: nat): string {
    var digits := Show(m);
    if |digits| < 6 then Zeros(6 - |digits|) + digits else digits
  }

  /** `usd` without the dollar sign. */
  function Dollars(micros: nat): string {
    DollarsAndCents(micros / 1_000_000, micros % 1_000_000)
  }

  function DollarsAndCents(whole: nat, micros: nat): string {
    var fraction := StripZeros(Padded(micros));
    Show(whole) + if fraction == "" then "" else "." + fraction
  }

  lemma {:induction false} StripKeepsScaledValue(s: string)
    requires AllDigits(s)
    ensures AllDigits(StripZeros(s)) && Value(s) == Shift(Value(StripZeros(s)), |s| - |StripZeros(s)|)
    decreases |s|
  {
    if s != "" && s[|s| - 1] == '0' {
      var init := s[..|s| - 1];
      StripKeepsScaledValue(init);
    }
  }

  lemma SixZeros(n: nat)
    ensures Shift(n, 6) == 1_000_000 * n && Pow10(6) == 1_000_000
  {
    assert Shift(n, 1) == 10 * n && Shift(n, 2) == 100 * n && Shift(n, 3) == 1000 * n;
    assert Shift(n, 4) == 10000 * n && Shift(n, 5) == 100000 * n;
    assert Pow10(1) == 10 && Pow10(2) == 100 && Pow10(3) == 1000 && Pow10(4) == 10000 && Pow10(5) == 100000;
  }

  lemma PaddedValue(m: nat)
    requires m < 1_000_000
    ensures |Padded(m)| == 6 && AllDigits(Padded(m)) && Value(Padded(m)) == m
  {
    SixZeros(m);
    ShowLength(m, 6);
    ShowThenValue(m);
    if |Show(m)| < 6 {
      ZerosHaveNoValue(6 - |Show(m)|);
      ShiftOfZero(|Show(m)|);
      ValueOfConcat(Zeros(6 - |Show(m)|), Show(m));
    }
  }

  lemma NothingToTrim(s: string)
    requires s != "" && IsDigit(s[0]) && IsDigit(s[|s| - 1])
    ensures Trim(s) == s
  {
  }

  lemma DollarsSpelled(w: nat, fraction: string)
    requires AllDigits(fraction)
    ensures var s := Show(w) + if fraction == "" then "" else "." + fraction;
            Scan(Trim(s)) == Some(Numeral(Show(w), fraction, false, "0"))
  {
    var s := Show(w) + if fraction == "" then "" else "." + fraction;
    NothingToTrim(s);
    if fraction == "" {
      ScanPlain(Show(w), "", false, "0");
      assert Show(w) + "" == s;
    } else {
      ScanFraction(Show(w), fraction, "", false, "0");
      assert "." + fraction + "" == "." + fraction;
    }
  }

  lemma WholeShift(digits: nat, shift: nat)
    requires Shift(digits, shift) <= MAX_SAFE_INTEGER
    ensures Shifted(digits, shift) == Whole(Shift(digits, shift))
  {
    ShiftIsProduct(digits, shift);
  }

  /** A numeral without a power whose digits, moved by `shift`, make a safe whole number. */
  lemma PlainNumeral(text: string, n: Numeral, exponent: nat, amount: nat)
    requires Scan(Trim(text)) == Some(n) && !n.negative && n.power == "0" && AllDigits(n.whole + n.fraction)
    requires |n.fraction| <= exponent && amount <= MAX_SAFE_INTEGER
    requires Shift(Value(n.whole + n.fraction), exponent - |n.fraction|) == amount
    ensures ScaledDecimal(text, exponent) == Whole(amount)
  {
    assert Value("0") == 0 by { assert "0"[..0] == ""; }
    WholeShift(Value(n.whole + n.fraction), exponent - |n.fraction|);
  }

  lemma SumOfShifts(w: nat, v: nat, f: nat, g: nat, k: nat)
    requires k == f + g
    ensures Shift(Shift(w, f) + v, g) == Shift(w, k) + Shift(v, g)
  {
    ShiftOfSum(Shift(w, f), v, g);
    ShiftAdds(w, f, g);
  }

  lemma FractionDigits(m: nat, fraction: string)
    requires m < 1_000_000 && fraction == StripZeros(Padded(m))
    ensures |fraction| <= 6 && AllDigits(fraction) && Shift(Value(fraction), 6 - |fraction|) == m
  {
    PaddedValue(m);
    StripKeepsScaledValue(Padded(m));
  }

  lemma AmountDigits(w: nat, fraction: string, g: nat)
    requires |fraction| + g == 6 && AllDigits(fraction)
    ensures AllDigits(Show(w) + fraction)
    ensures Shift(Value(Show(w) + fraction), g) == 1_000_000 * w + Shift(Value(fraction), g)
  {
    var f, v := |fraction|, Value(fraction);
    ValueOfConcat(Show(w), fraction);
    ShowThenValue(w);
    var digits := Value(Show(w) + fraction);
    assert digits == Shift(w, f) + v;
    SumOfShifts(w, v, f, g, 6);
    SixZeros(w);
    assert Shift(digits, g) == 1_000_000 * w + Shift(v, g);
  }

  /** Reading back a printed amount gives the amount. */
  lemma PrintedAmountReadsBack(micros: nat)
    requires micros <= MAX_SAFE_INTEGER
    ensures ScaledDecimal(Dollars(micros), 6) == Whole(micros)
  {
    var w, m := micros / 1_000_000, micros % 1_000_000;
    assert micros == 1_000_000 * w + m;
    PrintedPartsReadBack(w, m);
  }

  lemma PrintedPartsReadBack(w: nat, m: nat)
    requires m < 1_000_000 && 1_000_000 * w + m <= MAX_SAFE_INTEGER
    ensures ScaledDecimal(DollarsAndCents(w, m), 6) == Whole(1_000_000 * w + m)
  {
    var fraction := StripZeros(Padded(m));
    FractionDigits(m, fraction);
    AmountDigits(w, fraction, 6 - |fraction|);
    DollarsSpelled(w, fraction);
    PlainNumeral(DollarsAndCents(w, m), Numeral(Show(w), fraction, false, "0"), 6, 1_000_000 * w + m);
  }
}
