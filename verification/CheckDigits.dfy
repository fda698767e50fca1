/** Check digits of S10 postal identifiers and of serial shipping container codes. */
module CheckDigits {
  import opened Results
  import opened Sums

  predicate Digit(c: char) { '0' <= c <= '9' }

  predicate Digits(s: string) { forall i :: 0 <= i < |s| ==> Digit(s[i]) }

  function DigitValue(c: char): (d: int)
    requires Digit(c)
    ensures 0 <= d <= 9
  {
    c as int - '0' as int
  }

  function DigitChar(d: nat): (c: char)
    requires d <= 9
    ensures Digit(c) && DigitValue(c) == d
  {
    (d + '0' as int) as char
  }

  /** The value of the digit in a place, times the weight of the place. */
  function Weigh(s: string, weight: nat -> int): nat -> int
    requires Digits(s)
  {
    (i: nat) => if i < |s| then DigitValue(s[i]) * weight(i) else 0
  }

  function Weighted(s: string, weight: nat -> int): int
    requires Digits(s)
  {
    SumTo(|s|, Weigh(s, weight))
  }

  /** Equal but for one place. */
  ghost predicate DifferAt(s: string, t: string, k: nat) {
    |s| == |t| && k < |s| && s[k] != t[k] && forall i :: 0 <= i < |s| && i != k ==> s[i] == t[i]
  }

  function Swapped(s: string, k: nat): string
    requires k + 1 < |s|
  {
    s[k := s[k + 1]][k + 1 := s[k]]
  }

  lemma WeightedChange(s: string, t: string, weight: nat -> int, k: nat)
    requires Digits(s) && Digits(t) && DifferAt(s, t, k)
    ensures Weighted(t, weight) == Weighted(s, weight) + (DigitValue(t[k]) - DigitValue(s[k])) * weight(k)
  {
    SumToChange(|s|, Weigh(s, weight), Weigh(t, weight), k, (DigitValue(t[k]) - DigitValue(s[k])) * weight(k));
  }

  lemma WeightedSwap(s: string, weight: nat -> int, k: nat)
    requires Digits(s) && k + 1 < |s|
    ensures Digits(Swapped(s, k))
    ensures Weighted(Swapped(s, k), weight)
      == Weighted(s, weight) + (DigitValue(s[k + 1]) - DigitValue(s[k])) * (weight(k) - weight(k + 1))
  {
    var half, t := s[k := s[k + 1]], Swapped(s, k);
    var d := DigitValue(s[k + 1]) - DigitValue(s[k]);
    if s[k] != s[k + 1] {
      WeightedChange(s, half, weight, k);
      WeightedChange(half, t, weight, k + 1);
      assert d * weight(k) - d * weight(k + 1) == d * (weight(k) - weight(k + 1));
    } else {
      assert t == s;
    }
  }

  // ----- S10 -------------------------------------------------------------------------

  const S10_WEIGHTS: seq<int> := [8, 6, 4, 2, 3, 5, 9, 7]

  function S10Weight(i: nat): int { if i < 8 then S10_WEIGHTS[i] else 0 }

  function S10Sum(serial: string): int
    requires Digits(serial)
  {
    Weighted(serial, S10Weight)
  }

  function S10CheckDigit(serial: string): (d: Option<nat>)
    ensures d.Some? ==> d.value <= 9
  {
    if |serial| != 8 || !Digits(serial) then None
    else
      var candidate := 11 - S10Sum(serial) % 11;
      Some(if candidate == 10 then 0 else if candidate == 11 then 5 else candidate)
  }

  function UpperChar(c: char): char { if 'a' <= c <= 'z' then (c as int - 32) as char else c }

  function Upper(s: string): string { seq(|s|, i requires 0 <= i < |s| => UpperChar(s[i])) }

  predicate TwoLetters(s: string) { |s| == 2 && 'A' <= s[0] <= 'Z' && 'A' <= s[1] <= 'Z' }

  function BuildS10(service: string, serial: string, country: string): Option<string> {
    if !TwoLetters(Upper(service)) || !TwoLetters(Upper(country)) then None
    else
      match S10CheckDigit(serial)
      case None => None
      case Some(d) => Some(Upper(service) + serial + [DigitChar(d)] + Upper(country))
  }

  predicate ValidS10(identifier: string) {
    var id := Upper(identifier);
    && |id| == 13 && TwoLetters(id[..2]) && Digits(id[2..11]) && TwoLetters(id[11..])
    && S10CheckDigit(id[2..10]) == Some(DigitValue(id[10]))
  }

  lemma UpperTwice(s: string)
    ensures Upper(Upper(s)) == Upper(s)
  {
  }

  lemma UpperParts(service: string, serial: string, d: char, country: string)
    requires Digits(serial) && Digit(d)
    ensures Upper(Upper(service) + serial + [d] + Upper(country)) == Upper(service) + serial + [d] + Upper(country)
  {
  }

  /** Every identifier that is built validates. */
  lemma BuiltIsValid(service: string, serial: string, country: string)
    requires BuildS10(service, serial, country).Some?
    ensures ValidS10(BuildS10(service, serial, country).value)
  {
    var d := DigitChar(S10CheckDigit(serial).value);
    var id := BuildS10(service, serial, country).value;
    UpperParts(service, serial, d, country);
    assert id[..2] == Upper(service) && id[2..10] == serial && id[10] == d && id[11..] == Upper(country);
    assert id[2..11] == serial + [d];
  }

  /** An identifier validates exactly when it is one that building from its own parts gives. */
  lemma ValidExact(identifier: string)
    ensures var id := Upper(identifier);
      ValidS10(identifier) <==> |id| == 13 && BuildS10(id[..2], id[2..10], id[11..]) == Some(id)
  {
    var id := Upper(identifier);
    if |id| == 13 {
      assert Upper(id[..2]) == id[..2] && Upper(id[11..]) == id[11..];
      assert id == id[..2] + id[2..10] + [id[10]] + id[11..];
      if ValidS10(identifier) {
        assert id[2..10] == id[2..11][..8];
        assert Digit(id[2..11][8]);
        assert DigitChar(DigitValue(id[10])) == id[10];
      }
      if BuildS10(id[..2], id[2..10], id[11..]) == Some(id) {
        UpperTwice(identifier);
        BuiltIsValid(id[..2], id[2..10], id[11..]);
      }
    }
  }

  lemma SumOfEight(f: nat -> int)
    ensures SumTo(8, f) == f(0) + f(1) + f(2) + f(3) + f(4) + f(5) + f(6) + f(7)
  {
    assert SumTo(4, f) == f(0) + f(1) + f(2) + f(3);
  }

  /** The sum, place by place: the weights are 8, 6, 4, 2, 3, 5, 9 and 7. */
  lemma S10SumFormula(serial: string)
    requires |serial| == 8 && Digits(serial)
    ensures S10Sum(serial)
      == 8 * DigitValue(serial[0]) + 6 * DigitValue(serial[1]) + 4 * DigitValue(serial[2]) + 2 * DigitValue(serial[3])
       + 3 * DigitValue(serial[4]) + 5 * DigitValue(serial[5]) + 9 * DigitValue(serial[6]) + 7 * DigitValue(serial[7])
  {
    SumOfEight(Weigh(serial, S10Weight));
    S10WeightsAre();
    S10Term(serial, 0, 8);
    S10Term(serial, 1, 6);
    S10Term(serial, 2, 4);
    S10Term(serial, 3, 2);
    S10Term(serial, 4, 3);
    S10Term(serial, 5, 5);
    S10Term(serial, 6, 9);
    S10Term(serial, 7, 7);
  }

  lemma S10WeightsAre()
    ensures S10Weight(0) == 8 && S10Weight(1) == 6 && S10Weight(2) == 4 && S10Weight(3) == 2
    ensures S10Weight(4) == 3 && S10Weight(5) == 5 && S10Weight(6) == 9 && S10Weight(7) == 7
  {
  }

  lemma S10Term(serial: string, i: nat, w: int)
    requires |serial| == 8 && Digits(serial) && i < 8 && S10Weight(i) == w
    ensures Weigh(serial, S10Weight)(i) == w * DigitValue(serial[i])
  {
  }

  /** The check digit fills the sum up to a multiple of eleven; where that takes ten or eleven, it is 0 or 5. */
  lemma S10DigitFormula(serial: string)
    requires |serial| == 8 && Digits(serial)
    ensures S10CheckDigit(serial).Some?
    ensures var d := S10CheckDigit(serial).value;
      && (S10Sum(serial) % 11 == 0 ==> d == 5) && (S10Sum(serial) % 11 == 1 ==> d == 0)
      && (S10Sum(serial) % 11 > 1 ==> 1 <= d <= 9 && (S10Sum(serial) + d) % 11 == 0)
  {
  }

  const POSTED := "47312482"

  lemma PostedDigits()
    ensures Digits(POSTED) && S10Sum(POSTED) == 200
  {
    var s := POSTED;
    assert s[0] == '4' && s[1] == '7' && s[2] == '3' && s[3] == '1' && s[4] == '2' && s[5] == '4' && s[6] == '8' && s[7] == '2';
    S10SumFormula(s);
  }

  /** The identifier RR 47312482 9 GB. */
  lemma S10Example()
    ensures BuildS10("rr", POSTED, "gb") == Some("RR473124829GB") && ValidS10("RR473124829GB")
  {
    PostedDigits();
    assert Upper("rr") == "RR" && Upper("gb") == "GB" && DigitChar(9) == '9';
    assert "RR" + POSTED + ['9'] + "GB" == "RR473124829GB";
    BuiltIsValid("rr", POSTED, "gb");
  }

  /** Two sums get the same check digit when they agree modulo 11, or are 0 and 6. */
  predicate Confused(a: int, b: int) { a % 11 == b % 11 || {a % 11, b % 11} == {0, 6} }

  lemma CheckDigitExact(s: string, t: string)
    requires |s| == 8 && |t| == 8 && Digits(s) && Digits(t)
    ensures S10CheckDigit(s) == S10CheckDigit(t) <==> Confused(S10Sum(s), S10Sum(t))
  {
    var a, b := S10Sum(s) % 11, S10Sum(t) % 11;
    assert {a, b} == {0, 6} <==> (a == 0 && b == 6) || (a == 6 && b == 0) by {
      if {a, b} == {0, 6} { assert a in {0, 6} && b in {0, 6} && 0 in {a, b} && 6 in {a, b}; }
    }
  }

  lemma ElevenIsPrime(d: int, w: int)
    requires -9 <= d <= 9 && d != 0 && -9 <= w <= 9 && w != 0
    ensures (d * w) % 11 != 0
  {
    var x, y := if d < 0 then -d else d, if w < 0 then -w else w;
    SmallProducts(x, y);
    SignsAside(d, w);
    Negated(x * y);
  }

  lemma SignsAside(d: int, w: int)
    ensures var x, y := if d < 0 then -d else d, if w < 0 then -w else w;
      d * w == x * y || d * w == -(x * y)
  {
  }

  lemma Negated(n: int)
    ensures n % 11 != 0 ==> -n % 11 != 0
  {
  }

  lemma SmallProducts(x: int, y: int)
    requires 1 <= x <= 9 && 1 <= y <= 9
    ensures (x * y) % 11 != 0
  {
    if x == 1 {} else if x == 2 {} else if x == 3 {} else if x == 4 {} else if x == 5 {}
    else if x == 6 {} else if x == 7 {} else if x == 8 {} else {}
  }

  lemma ResidueMoves(a: int, b: int, move: int)
    requires b == a + move && move % 11 != 0
    ensures a % 11 != b % 11
  {
  }

  lemma UnequalResidues(s: string, t: string)
    requires |s| == 8 && |t| == 8 && Digits(s) && Digits(t) && S10Sum(s) % 11 != S10Sum(t) % 11
    ensures S10CheckDigit(s) == S10CheckDigit(t) <==> {S10Sum(s) % 11, S10Sum(t) % 11} == {0, 6}
  {
    CheckDigitExact(s, t);
  }

  lemma MoveByProduct(a: int, b: int, d: int, w: int)
    requires -9 <= d <= 9 && d != 0 && -9 <= w <= 9 && w != 0 && b == a + d * w
    ensures a % 11 != b % 11
  {
    ElevenIsPrime(d, w);
    ResidueMoves(a, b, d * w);
  }

  lemma OneDigitMoves(s: string, t: string, k: nat)
    requires |s| == 8 && Digits(s) && Digits(t) && DifferAt(s, t, k)
    ensures S10Sum(s) % 11 != S10Sum(t) % 11
  {
    WeightedChange(s, t, S10Weight, k);
    MoveByProduct(S10Sum(s), S10Sum(t), DigitValue(t[k]) - DigitValue(s[k]), S10Weight(k));
  }

  lemma SwapMoves(s: string, k: nat)
    requires |s| == 8 && Digits(s) && k < 7 && s[k] != s[k + 1]
    ensures Digits(Swapped(s, k)) && S10Sum(s) % 11 != S10Sum(Swapped(s, k)) % 11
  {
    WeightedSwap(s, S10Weight, k);
    MoveByProduct(S10Sum(s), S10Sum(Swapped(s, k)), DigitValue(s[k + 1]) - DigitValue(s[k]), S10Weight(k) - S10Weight(k + 1));
  }

  /** One wrong digit of the serial goes unnoticed exactly when the two sums are 0 and 6 modulo 11. */
  lemma S10OneDigitExact(s: string, t: string, k: nat)
    requires |s| == 8 && Digits(s) && Digits(t) && DifferAt(s, t, k)
    ensures S10CheckDigit(s) == S10CheckDigit(t) <==> {S10Sum(s) % 11, S10Sum(t) % 11} == {0, 6}
  {
    OneDigitMoves(s, t, k);
    UnequalResidues(s, t);
  }

  /** So does the swap of two neighbours that differ. */
  lemma S10SwapExact(s: string, k: nat)
    requires |s| == 8 && Digits(s) && k < 7 && s[k] != s[k + 1]
    ensures Digits(Swapped(s, k))
    ensures S10CheckDigit(s) == S10CheckDigit(Swapped(s, k))
      <==> {S10Sum(s) % 11, S10Sum(Swapped(s, k)) % 11} == {0, 6}
  {
    SwapMoves(s, k);
    UnequalResidues(s, Swapped(s, k));
  }

  lemma {:induction false} NothingWeighs(n: nat, f: nat -> int)
    requires forall i: nat :: i < n ==> f(i) == 0
    ensures SumTo(n, f) == 0
  {
    if n > 0 {
      NothingWeighs(n - 1, f);
    }
  }

  const ALL_ZEROS := "00000000"
  const ONE_THREE := "00030000"

  /** Two serials, one digit apart, that get the same check digit. */
  lemma S10MissesADigit()
    ensures DifferAt(ALL_ZEROS, ONE_THREE, 3) && S10CheckDigit(ALL_ZEROS) == S10CheckDigit(ONE_THREE) == Some(5)
  {
    var s, t := ALL_ZEROS, ONE_THREE;
    assert s[0] == s[1] == s[2] == s[3] == s[4] == s[5] == s[6] == s[7] == '0';
    assert t[0] == t[1] == t[2] == t[4] == t[5] == t[6] == t[7] == '0' && t[3] == '3';
    assert DigitValue('0') == 0 && DigitValue('3') == 3;
    assert forall i: nat :: i < 8 ==> Weigh(s, S10Weight)(i) == DigitValue(s[i]) * S10Weight(i) == 0;
    NothingWeighs(8, Weigh(s, S10Weight));
    WeightedChange(s, t, S10Weight, 3);
    assert S10Weight(3) == 2;
    assert S10Sum(s) == 0 && S10Sum(t) == 6;
  }

  // ----- SSCC ------------------------------------------------------------------------

  /** Weights 3 and 1 alternate, with 3 on the last digit of the body. */
  function SsccWeight(i: nat): int { if i % 2 == 0 then 3 else 1 }

  function SsccCheckDigit(body: string): (d: Option<nat>)
    ensures d.Some? ==> d.value <= 9
  {
    if |body| != 17 || !Digits(body) then None
    else Some((10 - Weighted(body, SsccWeight) % 10) % 10)
  }

  predicate ValidSscc(sscc: string) {
    |sscc| == 18 && Digits(sscc) && SsccCheckDigit(sscc[..17]) == Some(DigitValue(sscc[17]))
  }

  lemma ComplementOfTen(w: int, c: int)
    requires 0 <= c <= 9
    ensures (10 - w % 10) % 10 == c <==> (w + c) % 10 == 0
  {
  }

  /** What the digits in every other place, counted from one, are worth. */
  function Odd(s: string): nat -> int
    requires Digits(s)
  {
    (i: nat) => if i < |s| && i % 2 == 0 then DigitValue(s[i]) else 0
  }

  function Every(s: string): nat -> int
    requires Digits(s)
  {
    (i: nat) => if i < |s| then DigitValue(s[i]) else 0
  }

  lemma {:induction false} OddCountThrice(n: nat, s: string)
    requires Digits(s) && n <= |s|
    ensures SumTo(n, Weigh(s, SsccWeight)) == SumTo(n, Every(s)) + 2 * SumTo(n, Odd(s))
  {
    if n > 0 {
      OddCountThrice(n - 1, s);
      var d := DigitValue(s[n - 1]);
      assert Weigh(s, SsccWeight)(n - 1) == d * SsccWeight(n - 1) == if (n - 1) % 2 == 0 then 3 * d else d;
    }
  }

  /** The check digit fills the weighted sum up to a multiple of ten. */
  lemma SsccFills(body: string)
    requires |body| == 17 && Digits(body)
    ensures SsccCheckDigit(body).Some?
    ensures (Weighted(body, SsccWeight) + SsccCheckDigit(body).value) % 10 == 0
  {
    ComplementOfTen(Weighted(body, SsccWeight), SsccCheckDigit(body).value);
  }

  /** Digits in odd places count three times and the others once, whatever the length. */
  lemma SsccSumFormula(s: string)
    requires Digits(s)
    ensures Weighted(s, SsccWeight) == SumTo(|s|, Every(s)) + 2 * SumTo(|s|, Odd(s))
  {
    OddCountThrice(|s|, s);
  }

  lemma ValidAsDigit(sscc: string, w: int)
    requires |sscc| == 18 && Digits(sscc) && Weighted(sscc[..17], SsccWeight) == w
    ensures ValidSscc(sscc) <==> (10 - w % 10) % 10 == DigitValue(sscc[17])
  {
  }

  /** A code is valid exactly when its weighted sum, check digit included, is a multiple of ten. */
  lemma SsccSum(sscc: string)
    requires |sscc| == 18 && Digits(sscc)
    ensures ValidSscc(sscc) <==> Weighted(sscc, SsccWeight) % 10 == 0
  {
    CheckedSum(sscc);
    SumByDigit(sscc, Weighted(sscc[..17], SsccWeight));
  }

  lemma SumByDigit(sscc: string, w: int)
    requires |sscc| == 18 && Digits(sscc) && Weighted(sscc[..17], SsccWeight) == w
    ensures ValidSscc(sscc) <==> (w + DigitValue(sscc[17])) % 10 == 0
  {
    ValidAsDigit(sscc, w);
    ComplementOfTen(w, DigitValue(sscc[17]));
  }

  lemma CheckedSum(sscc: string)
    requires |sscc| == 18 && Digits(sscc)
    ensures Weighted(sscc, SsccWeight) == Weighted(sscc[..17], SsccWeight) + DigitValue(sscc[17])
  {
    WeightedLast(sscc, SsccWeight);
    assert SsccWeight(17) == 1;
  }

  lemma WeightedLast(s: string, weight: nat -> int)
    requires |s| > 0 && Digits(s)
    ensures var n := |s| - 1;
      Weighted(s, weight) == Weighted(s[..n], weight) + DigitValue(s[n]) * weight(n)
  {
    var n := |s| - 1;
    SumToEqual(n, Weigh(s[..n], weight), Weigh(s, weight));
  }

  lemma TenMoves(a: int, b: int, move: int)
    requires b == a + move && a % 10 == 0
    ensures b % 10 == 0 <==> move % 10 == 0
  {
  }

  lemma DigitTimes(d: int)
    requires d != 0 && -9 <= d <= 9
    ensures (d * 3) % 10 != 0 && (d * 1) % 10 != 0
    ensures (d * 2) % 10 == 0 <==> d == 5 || d == -5
    ensures (d * -2) % 10 == 0 <==> d == 5 || d == -5
  {
  }

  lemma ChangedSums(s: string, t: string, k: nat)
    requires Digits(s) && Digits(t) && DifferAt(s, t, k) && Weighted(s, SsccWeight) % 10 == 0
    ensures Weighted(t, SsccWeight) % 10 != 0
  {
    var d := DigitValue(t[k]) - DigitValue(s[k]);
    WeightedChange(s, t, SsccWeight, k);
    ChangeVerdict(Weighted(s, SsccWeight), Weighted(t, SsccWeight), d, SsccWeight(k));
  }

  lemma ChangeVerdict(a: int, b: int, d: int, weight: int)
    requires d != 0 && -9 <= d <= 9 && (weight == 1 || weight == 3) && a % 10 == 0 && b == a + d * weight
    ensures b % 10 != 0
  {
    DigitTimes(d);
    TenMoves(a, b, d * weight);
  }

  /** Every one-digit mistake is noticed, in the body or in the check digit. */
  lemma SsccNoticesDigit(s: string, t: string, k: nat)
    requires ValidSscc(s) && Digits(t) && DifferAt(s, t, k)
    ensures !ValidSscc(t)
  {
    SsccSum(s);
    ChangedSums(s, t, k);
    SsccSum(t);
  }

  lemma SwapVerdict(a: int, b: int, d: int, even: bool)
    requires d != 0 && -9 <= d <= 9 && a % 10 == 0 && b == a + if even then d * 2 else d * -2
    ensures b % 10 == 0 <==> d == 5 || d == -5
  {
    DigitTimes(d);
    TenMoves(a, b, if even then d * 2 else d * -2);
  }

  lemma SsccSwapMoves(s: string, k: nat, d: int)
    requires Digits(s) && k + 1 < |s| && d == DigitValue(s[k + 1]) - DigitValue(s[k])
    ensures Digits(Swapped(s, k))
    ensures Weighted(Swapped(s, k), SsccWeight) == Weighted(s, SsccWeight) + if k % 2 == 0 then d * 2 else d * -2
  {
    WeightedSwap(s, SsccWeight, k);
    assert SsccWeight(k) - SsccWeight(k + 1) == if k % 2 == 0 then 2 else -2;
  }

  lemma SwapSums(s: string, k: nat, d: int)
    requires Digits(s) && k + 1 < |s| && d == DigitValue(s[k + 1]) - DigitValue(s[k]) && d != 0
    requires Weighted(s, SsccWeight) % 10 == 0
    ensures Digits(Swapped(s, k))
    ensures Weighted(Swapped(s, k), SsccWeight) % 10 == 0 <==> d == 5 || d == -5
  {
    SsccSwapMoves(s, k, d);
    SwapVerdict(Weighted(s, SsccWeight), Weighted(Swapped(s, k), SsccWeight), d, k % 2 == 0);
  }

  /** Swapping two different neighbours goes unnoticed exactly when they differ by five. */
  lemma SsccSwapExact(s: string, k: nat)
    requires ValidSscc(s) && k < 17 && s[k] != s[k + 1]
    ensures ValidSscc(Swapped(s, k))
      <==> DigitValue(s[k + 1]) - DigitValue(s[k]) == 5 || DigitValue(s[k]) - DigitValue(s[k + 1]) == 5
  {
    SsccSum(s);
    SwapSums(s, k, DigitValue(s[k + 1]) - DigitValue(s[k]));
    SsccSum(Swapped(s, k));
  }
}
