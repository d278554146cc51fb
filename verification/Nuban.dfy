/**
 * Account numbers the platform issues itself (services/payments/src/providers/
 * selfIssuedNuban.js): a bank code, a serial and the check digit of the CBN's
 * "Revised Standards on Nigeria Uniform Bank Account Number (NUBAN)".
 */
module Nuban {

  type Digit = d: nat | d < 10

  datatype Result<+T> = Ok(value: T) | BadBankCode | BadSerial | NoBankCode

  const WEIGHTS: seq<nat> := [3, 7, 3, 3, 7, 3, 3, 7, 3, 3, 7, 3]

  // ---- The algorithm ----

  predicate IsDigit(c: char) {
    '0' <= c <= '9'
  }

  function ToDigit(c: char): Digit
    requires IsDigit(c)
  {
    c as int - '0' as int
  }

  function ToChar(d: Digit): (c: char)
    ensures IsDigit(c) && ToDigit(c) == d
  {
    (d + '0' as int) as char
  }

  /** Exactly `n` characters, all of them decimal digits. */
  predicate AllDigits(s: string, n: nat) {
    |s| == n && forall i :: 0 <= i < |s| ==> IsDigit(s[i])
  }

  function Digits(s: string): (digits: seq<Digit>)
    requires forall i :: 0 <= i < |s| ==> IsDigit(s[i])
    ensures |digits| == |s|
  {
    seq(|s|, i requires 0 <= i < |s| => ToDigit(s[i]))
  }

  function Weighted(digits: seq<Digit>, weights: seq<nat>): nat
    requires |digits| == |weights|
  {
    if digits == [] then 0
    else
      var last := |digits| - 1;
      Weighted(digits[..last], weights[..last]) + digits[last] * weights[last]
  }

  function Complement(sum: nat): Digit {
    var check := 10 - sum % 10;
    if check == 10 then 0 else check
  }

  function ComputeCheckDigit(bankCode: string, serial: string): Result<Digit> {
    if !AllDigits(bankCode, 3) then BadBankCode
    else if !AllDigits(serial, 9) then BadSerial
    else Ok(Complement(Weighted(Digits(bankCode + serial), WEIGHTS)))
  }

  /** `serial` stands for the nine digits derived from the customer. */
  function ProvisionAccount(bankCode: string, serial: string): Result<string> {
    if bankCode == "" then NoBankCode
    else
      match ComputeCheckDigit(bankCode, serial)
      case Ok(check) => Ok(serial + [ToChar(check)])
      case BadBankCode => BadBankCode
      case BadSerial => BadSerial
      case NoBankCode => NoBankCode
  }

  // ---- What the check digit means ----

  /** The weighted sum and the check digit together are a multiple of ten. */
  predicate Checks(digits: seq<Digit>, weights: seq<nat>, check: Digit)
    requires |digits| == |weights|
  {
    (Weighted(digits, weights) + check) % 10 == 0
  }

  /** Whatever the length and the weights, the computed digit checks, and no other does. */
  lemma {:induction false} OneCheckDigit(digits: seq<Digit>, weights: seq<nat>, check: Digit)
    requires |digits| == |weights|
    ensures Checks(digits, weights, check) <==> check == Complement(Weighted(digits, weights))
  {
  }

  /** Sharing no factor with ten. */
  predicate Coprime(w: nat) {
    w % 2 != 0 && w % 5 != 0
  }

  lemma {:induction false} CoprimeLastDigit(w: nat)
    requires Coprime(w)
    ensures w % 10 == 1 || w % 10 == 3 || w % 10 == 7 || w % 10 == 9
  {
  }

  lemma {:induction false} WeightedUpdate(digits: seq<Digit>, weights: seq<nat>, i: nat, d: Digit)
    requires |digits| == |weights| && i < |digits|
    ensures Weighted(digits[i := d], weights) == Weighted(digits, weights) - digits[i] * weights[i] + d * weights[i]
  {
    var last := |digits| - 1;
    if i < last {
      assert digits[i := d][..last] == digits[..last][i := d];
      WeightedUpdate(digits[..last], weights[..last], i, d);
    } else {
      assert digits[i := d][..last] == digits[..last];
    }
  }

  lemma {:induction false} Distribute(d: int, q: int, r: int)
    ensures d * (10 * q + r) == 10 * (d * q) + d * r
  {
  }

  /** Multiplying by a weight coprime to ten loses nothing modulo ten. */
  lemma {:induction false} CoprimeCancels(w: nat, d: int)
    requires Coprime(w) && -10 < d < 10
    ensures (d * w) % 10 == 0 <==> d == 0
  {
    var q, r := w / 10, w % 10;
    CoprimeLastDigit(w);
    Distribute(d, q, r);
    TensVanish(d * q, d * r);
    SmallCancels(r, d);
  }

  lemma {:induction false} TensVanish(q: int, r: int)
    ensures (10 * q + r) % 10 == r % 10
  {
  }

  lemma {:induction false} SmallCancels(r: nat, d: int)
    requires r == 1 || r == 3 || r == 7 || r == 9
    requires -10 < d < 10
    ensures (d * r) % 10 == 0 <==> d == 0
  {
  }

  lemma {:induction false} Difference(a: int, b: int, w: int)
    ensures a * w - b * w == (a - b) * w
  {
  }

  /** Changing any one digit is always noticed: the old check digit no longer checks. */
  lemma {:induction false} SingleChangeDetected(digits: seq<Digit>, weights: seq<nat>, i: nat, d: Digit, check: Digit)
    requires |digits| == |weights| && i < |digits| && Coprime(weights[i])
    requires Checks(digits, weights, check)
    ensures Checks(digits[i := d], weights, check) <==> d == digits[i]
  {
    hide Weighted;
    var change, shift := d as int - digits[i] as int, Weighted(digits[i := d], weights) - Weighted(digits, weights);
    WeightedUpdate(digits, weights, i, d);
    Difference(d, digits[i], weights[i]);
    assert shift == change * weights[i];
    CoprimeCancels(weights[i], change);
    SameResidue(Weighted(digits, weights) + check, shift);
  }

  lemma {:induction false} SameResidue(a: int, b: int)
    requires a % 10 == 0
    ensures (a + b) % 10 == 0 <==> b % 10 == 0
  {
  }

  /** By how much a digit's right neighbour exceeds it. */
  function Gap(digits: seq<Digit>, i: nat): int
    requires i + 1 < |digits|
  {
    digits[i + 1] as int - digits[i] as int
  }

  function Swapped(digits: seq<Digit>, i: nat): (swapped: seq<Digit>)
    requires i + 1 < |digits|
    ensures |swapped| == |digits|
  {
    digits[i := digits[i + 1]][i + 1 := digits[i]]
  }

  lemma {:induction false} WeightedSwap(digits: seq<Digit>, weights: seq<nat>, i: nat)
    requires |digits| == |weights| && i + 1 < |digits|
    ensures Weighted(Swapped(digits, i), weights)
            == Weighted(digits, weights) + Gap(digits, i) * (weights[i] as int - weights[i + 1] as int)
  {
    WeightedUpdate(digits, weights, i, digits[i + 1]);
    WeightedUpdate(digits[i := digits[i + 1]], weights, i + 1, digits[i]);
    Expand(digits[i], digits[i + 1], weights[i], weights[i + 1]);
  }

  lemma {:induction false} Expand(a: int, b: int, v: int, w: int)
    ensures b * v - a * v + a * w - b * w == (b - a) * (v - w)
  {
  }

  /**
   * Swapping two neighbours, each weighted 3 or 7, in a number of any length
   * goes unnoticed exactly when they have the same weight, or the two digits are
   * equal or differ by 5.
   */
  lemma {:induction false} SwapMissedExactly(digits: seq<Digit>, weights: seq<nat>, i: nat, check: Digit)
    requires |digits| == |weights| && i + 1 < |weights| && Checks(digits, weights, check)
    requires (weights[i] == 3 || weights[i] == 7) && (weights[i + 1] == 3 || weights[i + 1] == 7)
    ensures Checks(Swapped(digits, i), weights, check)
            <==> weights[i] == weights[i + 1] || Gap(digits, i) % 5 == 0
  {
    hide Weighted;
    WeightedSwap(digits, weights, i);
    var gap, step := Gap(digits, i), weights[i] as int - weights[i + 1] as int;
    SameResidue(Weighted(digits, weights) + check, gap * step);
    FourTimes(gap);
    if step == 4 {
      assert gap * step == 4 * gap;
    } else if step == -4 {
      assert gap * step == -4 * gap;
    } else {
      assert step == 0 && gap * step == 0;
    }
  }

  lemma {:induction false} FourTimes(gap: int)
    requires -10 < gap < 10
    ensures (4 * gap) % 10 == 0 <==> gap % 5 == 0
    ensures (-4 * gap) % 10 == 0 <==> gap % 5 == 0
  {
  }

  // ---- The number issued ----

  /**
   * An account number is issued exactly when the bank code is three digits and
   * the serial nine; it is then ten digits, starts with the serial, and is the
   * only such number whose last digit checks.
   */
  lemma {:induction false} IssuedExactly(bankCode: string, serial: string, number: string)
    ensures ProvisionAccount(bankCode, serial) == Ok(number)
            <==> && AllDigits(bankCode, 3) && AllDigits(serial, 9) && AllDigits(number, 10)
                 && number[..9] == serial
                 && Checks(Digits(bankCode + serial), WEIGHTS, ToDigit(number[9]))
  {
    if AllDigits(bankCode, 3) && AllDigits(serial, 9) {
      var digits := Digits(bankCode + serial);
      var check := Complement(Weighted(digits, WEIGHTS));
      var issued := serial + [ToChar(check)];
      assert ProvisionAccount(bankCode, serial) == Ok(issued);
      assert issued[..9] == serial;
      if AllDigits(number, 10) && number[..9] == serial {
        assert number == serial + [number[9]];
        OneCheckDigit(digits, WEIGHTS, ToDigit(number[9]));
      }
      OneCheckDigit(digits, WEIGHTS, check);
    }
  }

  /** Why a number is not issued. */
  lemma {:induction false} RefusedExactly(bankCode: string, serial: string)
    ensures ProvisionAccount(bankCode, serial) == NoBankCode <==> bankCode == ""
    ensures ProvisionAccount(bankCode, serial) == BadBankCode <==> bankCode != "" && !AllDigits(bankCode, 3)
    ensures ProvisionAccount(bankCode, serial) == BadSerial <==> AllDigits(bankCode, 3) && !AllDigits(serial, 9)
  {
  }

  /** The check digit as the circular has it: what is missing from 3, 7, 3, 3, 7, 3, ... times the digits to a multiple of ten. */
  lemma {:induction false} CheckDigitFormula(bankCode: string, serial: string)
    requires AllDigits(bankCode, 3) && AllDigits(serial, 9)
    ensures var d := Digits(bankCode + serial);
            var threes: int := d[0] as int + d[2] as int + d[3] as int + d[5] as int + d[6] as int + d[8] as int + d[9] as int + d[11] as int;
            var sevens: int := d[1] as int + d[4] as int + d[7] as int + d[10] as int;
            var sum := 3 * threes + 7 * sevens;
            ComputeCheckDigit(bankCode, serial) == Ok((10 - sum % 10) % 10)
  {
    hide Weighted;
    hide Digits;
    WeightedAll(Digits(bankCode + serial));
  }

  lemma {:induction false} WeightedAll(d: seq<Digit>)
    requires |d| == 12
    ensures Weighted(d, WEIGHTS)
            == 3 * (d[0] as int + d[2] as int + d[3] as int + d[5] as int + d[6] as int + d[8] as int + d[9] as int + d[11] as int)
               + 7 * (d[1] as int + d[4] as int + d[7] as int + d[10] as int)
  {
    hide Weighted;
    WeightedNone(d);
    WeightedTriple(d, 0);
    WeightedTriple(d, 3);
    WeightedTriple(d, 6);
    WeightedTriple(d, 9);
    assert d[..12] == d && WEIGHTS[..12] == WEIGHTS;
  }

  lemma {:induction false} WeightedTriple(d: seq<Digit>, n: nat)
    requires |d| == 12 && n < 12 && n % 3 == 0
    ensures Weighted(d[..n + 3], WEIGHTS[..n + 3])
            == Weighted(d[..n], WEIGHTS[..n]) + 3 * d[n] as int + 7 * d[n + 1] as int + 3 * d[n + 2] as int
  {
    hide Weighted;
    WeightedStep(d, n);
    WeightedStep(d, n + 1);
    WeightedStep(d, n + 2);
    assert WEIGHTS[n] == 3 && WEIGHTS[n + 1] == 7 && WEIGHTS[n + 2] == 3;
  }

  lemma {:induction false} WeightedStep(d: seq<Digit>, n: nat)
    requires |d| == 12 && n < 12
    ensures Weighted(d[..n + 1], WEIGHTS[..n + 1]) == Weighted(d[..n], WEIGHTS[..n]) + d[n] as int * WEIGHTS[n]
  {
    assert d[..n + 1][..n] == d[..n] && WEIGHTS[..n + 1][..n] == WEIGHTS[..n];
  }

  lemma {:induction false} WeightedNone(d: seq<Digit>)
    ensures Weighted(d[..0], WEIGHTS[..0]) == 0
  {
  }

  /** The circular's worked example: bank 011 and serial 000000022 weigh 30, so the check digit is 0. */
  lemma {:induction false} WorkedExample()
    ensures ProvisionAccount("011", "000000022") == Ok("0000000220")
  {
    assert |"011"| == 3 && |"000000022"| == 9;
    var d := Digits("011" + "000000022");
    assert d[0] == 0 && d[1] == 1 && d[2] == 1 && d[3] == 0 && d[4] == 0 && d[5] == 0;
    assert d[6] == 0 && d[7] == 0 && d[8] == 0 && d[9] == 0 && d[10] == 2 && d[11] == 2;
    CheckDigitFormula("011", "000000022");
    assert "000000022" + ['0'] == "0000000220";
  }
}
