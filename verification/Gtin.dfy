/** The GS1 check digit (section 7.9 of the GS1 General Specifications): which mistakes it finds. */
module Gtin {
  import opened Decimal
  import opened Options
  import opened Strings

  predicate AcceptedLength(n: nat) { n == 8 || n == 12 || n == 13 || n == 14 }

  predicate AllZero(s: string) { forall i | 0 <= i < |s| :: s[i] == '0' }

  /** Digits weighed from the right, the last by `w` and then 3 and 1 in turn. */
  function Weighted(s: string, w: nat): nat
    requires AllDigits(s) && (w == 1 || w == 3)
  {
    if s == "" then 0 else DigitVal(s[|s| - 1]) * w + Weighted(s[..|s| - 1], 4 - w)
  }

  /** The check digit makes the weighted sum of the whole code a multiple of ten. */
  predicate Checks(s: string) { AllDigits(s) && Weighted(s, 1) % 10 == 0 }

  predicate IsGtin(s: string) { AcceptedLength(|s|) && !AllZero(s) && Checks(s) }

  predicate IsValid(value: Option<string>) {
    match value case None => false case Some(s) => IsGtin(Trim(s))
  }

  /** `isValidGtin`. */
  method IsValidGtin(value: Option<string>) returns (r: bool)
    ensures r == IsValid(value)
  {
    hide Trim, IsSpace, Weighted, AllZero;
    if value == None {
      return false;
    }
    var digits := Trim(value.value);
    if !(AllDigits(digits) && AcceptedLength(|digits|)) {
      return false;
    }
    if AllZero(digits) {
      return false;
    }
    var body, checkDigit := digits[..|digits| - 1], DigitVal(digits[|digits| - 1]);
    var sum := WeighBody(body);
    var expected := (10 - sum % 10) % 10;
    r := expected == checkDigit;
    LastDigit(digits, 1);
    CheckDigitFits(sum, checkDigit);
  }

  /** The expected check digit is the one that fills the sum up to a multiple of ten. */
  lemma CheckDigitFits(sum: nat, digit: nat)
    requires digit <= 9
    ensures (10 - sum % 10) % 10 == digit <==> (digit * 1 + sum) % 10 == 0
  {
    assert sum == 10 * (sum / 10) + sum % 10;
  }

  method WeighBody(body: string) returns (sum: nat)
    requires AllDigits(body)
    ensures sum == Weighted(body, 3)
  {
    sum := 0;
    var i, weight := |body| - 1, 3;
    assert body[..i + 1] == body;
    while i >= 0
      invariant -1 <= i < |body| && (weight == 1 || weight == 3)
      invariant sum + Weighted(body[..i + 1], weight) == Weighted(body, 3)
    {
      assert body[..i + 1][..i] == body[..i];
      sum := sum + DigitVal(body[i]) * weight;
      i := i - 1;
      weight := if weight == 3 then 1 else 3;
    }
    assert body[..0] == "";
  }

  /** `normalizeGtin`. */
  function NormalizeGtin(value: Option<string>): Option<string> {
    match value
    case None => None
    case Some(s) => if IsValid(Some(Trim(s))) then Some(Trim(s)) else None
  }

  // --- one wrong digit --------------------------------------------------------------------

  function WeightAt(n: nat, k: nat, w: nat): nat
    requires k < n && (w == 1 || w == 3)
  {
    if (n - 1 - k) % 2 == 0 then w else 4 - w
  }

  lemma WeightedUpdate(s: string, k: nat, c: char, w: nat)
    requires AllDigits(s) && k < |s| && IsDigit(c) && (w == 1 || w == 3)
    ensures AllDigits(s[k := c])
    ensures Weighted(s[k := c], w) == Weighted(s, w) + WeightAt(|s|, k, w) * (DigitVal(c) - DigitVal(s[k]))
  {
    hide DigitVal;
    var n := |s| - 1;
    if k == n {
      assert s[k := c][..n] == s[..n];
      assert DigitVal(c) * w == DigitVal(s[k]) * w + w * (DigitVal(c) - DigitVal(s[k]));
    } else {
      WeightedUpdate(s[..n], k, c, 4 - w);
      assert s[k := c][..n] == s[..n][k := c];
      assert WeightAt(|s|, k, w) == WeightAt(n, k, 4 - w);
    }
  }

  lemma DigitDistinct(c: char, d: char)
    requires IsDigit(c) && IsDigit(d) && c != d
    ensures DigitVal(c) != DigitVal(d) && -9 <= DigitVal(c) - DigitVal(d) <= 9
  {}

  /** One wrong digit is always found, in a code of any length. */
  lemma WrongDigitFound(s: string, k: nat, c: char)
    requires Checks(s) && k < |s| && c != s[k]
    ensures !Checks(s[k := c])
  {
    if IsDigit(c) {
      hide DigitVal, Weighted;
      WeightedUpdate(s, k, c, 1);
      DigitDistinct(c, s[k]);
      Not10(Weighted(s, 1), WeightAt(|s|, k, 1), DigitVal(c) - DigitVal(s[k]));
    } else {
      assert s[k := c][k] == c;
    }
  }

  lemma Not10(sum: nat, w: nat, d: int)
    requires sum % 10 == 0 && (w == 1 || w == 3) && d != 0 && -9 <= d <= 9
    ensures (sum + w * d) % 10 != 0
  {
    if w == 1 {
      assert (sum + d) % 10 != 0;
    } else {
      assert (3 * d) % 10 != 0;
      assert sum == 10 * (sum / 10);
    }
  }

  // --- two neighbours swapped ---------------------------------------------------------------

  function Swapped(s: string, k: nat): string
    requires k + 1 < |s|
  {
    s[k := s[k + 1]][k + 1 := s[k]]
  }

  lemma {:induction false} WeightedSwapped(s: string, k: nat)
    requires AllDigits(s) && k + 1 < |s|
    ensures AllDigits(Swapped(s, k))
    ensures var d := DigitVal(s[k + 1]) - DigitVal(s[k]);
            Weighted(Swapped(s, k), 1) == Weighted(s, 1) + 2 * d || Weighted(Swapped(s, k), 1) == Weighted(s, 1) - 2 * d
  {
    hide DigitVal, Weighted, WeightAt, IsDigit;
    var t := s[k := s[k + 1]];
    WeightedUpdate(s, k, s[k + 1], 1);
    WeightedUpdate(t, k + 1, s[k], 1);
    WeightsAlternate(|s|, k);
    assert t[k + 1] == s[k + 1] && Swapped(s, k) == t[k + 1 := s[k]];
  }

  lemma WeightsAlternate(n: nat, k: nat)
    requires k + 1 < n
    ensures (WeightAt(n, k, 1), WeightAt(n, k + 1, 1)) == (1, 3) || (WeightAt(n, k, 1), WeightAt(n, k + 1, 1)) == (3, 1)
  {}

  /** Swapped neighbours are found exactly when the two digits differ by something other than five. */
  lemma SwapFound(s: string, k: nat)
    requires Checks(s) && k + 1 < |s|
    ensures var d := DigitVal(s[k + 1]) - DigitVal(s[k]);
            Checks(Swapped(s, k)) <==> d == 0 || d == 5 || d == -5
  {
    hide DigitVal, Weighted;
    WeightedSwapped(s, k);
    DigitRange(s[k]);
    DigitRange(s[k + 1]);
    var d := DigitVal(s[k + 1]) - DigitVal(s[k]);
    Ten(Weighted(s, 1), d);
    Ten(Weighted(s, 1), -d);
  }

  lemma DigitRange(c: char)
    requires IsDigit(c)
    ensures DigitVal(c) <= 9
  {}

  lemma Ten(sum: nat, d: int)
    requires sum % 10 == 0 && -9 <= d <= 9
    ensures (sum + 2 * d) % 10 == 0 <==> d == 0 || d == 5 || d == -5
  {
    assert sum == 10 * (sum / 10);
    assert (sum + 2 * d) % 10 == (2 * d) % 10;
  }

  // --- zeros in front -------------------------------------------------------------------------

  function Zeros(n: nat): string { seq(n, _ => '0') }

  lemma {:induction false} WeightedZeros(n: nat, w: nat)
    requires w == 1 || w == 3
    ensures AllDigits(Zeros(n)) && Weighted(Zeros(n), w) == 0
  {
    if n == 0 {
    } else {
      WeightedZeros(n - 1, 4 - w);
      assert Zeros(n)[..n - 1] == Zeros(n - 1);
    }
  }

  lemma {:induction false} WeightedPadded(n: nat, s: string, w: nat)
    requires AllDigits(s) && (w == 1 || w == 3)
    ensures AllDigits(Zeros(n) + s) && Weighted(Zeros(n) + s, w) == Weighted(s, w)
  {
    hide DigitVal;
    if s == "" {
      WeightedZeros(n, w);
      assert Zeros(n) + s == Zeros(n);
    } else {
      WeightedPadded(n, s[..|s| - 1], 4 - w);
      assert (Zeros(n) + s)[..n + |s| - 1] == Zeros(n) + s[..|s| - 1];
    }
  }

  /** Zeros in front change nothing between accepted lengths. */
  lemma PaddingKeepsValidity(n: nat, s: string)
    requires AcceptedLength(|s|) && AcceptedLength(n + |s|)
    ensures IsGtin(Zeros(n) + s) <==> IsGtin(s)
  {
    hide Weighted;
    var p := Zeros(n) + s;
    assert forall i | 0 <= i < |s| :: p[n + i] == s[i];
    assert forall i | 0 <= i < |p| :: p[i] == if i < n then '0' else s[i - n];
    if AllDigits(s) { WeightedPadded(n, s, 1); }
  }

  // --- codes of one digit ----------------------------------------------------------------------

  function Repeated(c: char, n: nat): string { seq(n, _ => c) }

  /** The weights of `n` places add up to two each, and an odd place more. */
  lemma {:induction false} RepeatedSum(c: char, n: nat, w: nat)
    requires IsDigit(c) && (w == 1 || w == 3)
    ensures AllDigits(Repeated(c, n))
    ensures Weighted(Repeated(c, n), w) == DigitVal(c) * (2 * n + if n % 2 == 1 then w as int - 2 else 0)
  {
    hide DigitVal;
    if n == 0 {
    } else {
      RepeatedSum(c, n - 1, 4 - w);
      assert Repeated(c, n)[..n - 1] == Repeated(c, n - 1);
      hide Weighted;
      LastDigit(Repeated(c, n), w);
      OnePlaceMore(DigitVal(c), n, w);
    }
  }

  lemma LastDigit(s: string, w: nat)
    requires s != "" && AllDigits(s) && (w == 1 || w == 3)
    ensures Weighted(s, w) == DigitVal(s[|s| - 1]) * w + Weighted(s[..|s| - 1], 4 - w)
  {}

  lemma OnePlaceMore(d: nat, n: nat, w: nat)
    requires n > 0 && (w == 1 || w == 3)
    ensures d * w + d * (2 * (n - 1) + if (n - 1) % 2 == 1 then (4 - w) as int - 2 else 0)
         == d * (2 * n + if n % 2 == 1 then w as int - 2 else 0)
  {
    var a := 2 * (n - 1) + if (n - 1) % 2 == 1 then (4 - w) as int - 2 else 0;
    assert w + a == 2 * n + if n % 2 == 1 then w as int - 2 else 0;
    assert d * w + d * a == d * (w + a);
  }

  /**
   Only the all-zero code is refused as constant: fives pass at the even lengths, and every even digit at thirteen.
   */
  lemma ConstantCodes(c: char, n: nat)
    requires IsDigit(c) && AcceptedLength(n)
    ensures IsGtin(Repeated(c, n)) <==> c != '0' && if n == 13 then DigitVal(c) % 2 == 0 else c == '5'
  {
    RepeatedSum(c, n, 1);
    hide Weighted;
    assert Repeated(c, n)[0] == c;
    var d := DigitVal(c);
    if n == 13 {
      assert Weighted(Repeated(c, n), 1) == 25 * d;
    } else {
      assert Weighted(Repeated(c, n), 1) == d * (2 * n);
      assert n == 8 || n == 12 || n == 14;
    }
  }

  // --- accepted codes ------------------------------------------------------------------------

  /**
   For an accepted code: no other digit anywhere is accepted, and a swap is only where it changes the sum by
   nothing.
   */
  lemma AcceptedCodes(s: string, k: nat, c: char)
    requires IsGtin(s) && k < |s| && c != s[k]
    ensures !IsGtin(s[k := c])
    ensures k + 1 < |s| ==>
              var d := DigitVal(s[k + 1]) - DigitVal(s[k]);
              IsGtin(Swapped(s, k)) <==> d == 0 || d == 5 || d == -5
  {
    hide Checks, DigitVal;
    WrongDigitFound(s, k, c);
    if k + 1 < |s| {
      DigitsOf(s);
      SwapFound(s, k);
      var t := Swapped(s, k);
      assert t[k] == s[k + 1] && t[k + 1] == s[k] && forall i | 0 <= i < |s| && i != k && i != k + 1 :: t[i] == s[i];
      assert AllZero(t) ==> AllZero(s);
    }
  }

  lemma DigitsOf(s: string)
    requires Checks(s)
    ensures AllDigits(s)
  {}

  // --- normalizing -----------------------------------------------------------------------------

  /** A normalized code is accepted as it stands, and normalizing it again changes nothing. */
  lemma NormalizedIsAccepted(value: Option<string>)
    ensures var r := NormalizeGtin(value);
            (r.Some? <==> IsValid(value)) && (r.Some? ==> IsGtin(r.value) && NormalizeGtin(r) == r)
  {
    hide Trim, IsGtin;
    if value.Some? {
      TrimTwice(value.value);
      TrimTwice(Trim(value.value));
    }
  }

  // --- in plain figures ----------------------------------------------------------------------

  /** A code of 8, 12, 13 or 14 digits, not all of them zero, whose weighted sum is a multiple of ten. */
  lemma WhichCodes(s: string)
    ensures IsGtin(s) <==>
              && |s| in {8, 12, 13, 14} && (forall i | 0 <= i < |s| :: '0' <= s[i] <= '9')
              && (exists i | 0 <= i < |s| :: s[i] != '0') && Checks(s)
  {
    assert AllDigits(s) <==> forall i | 0 <= i < |s| :: '0' <= s[i] <= '9';
    hide Weighted;
  }

  /** From the right the digits count once and three times in turn. */
  lemma {:induction false} WeighsInTurn(s: string, a: char, b: char)
    requires AllDigits(s) && IsDigit(a) && IsDigit(b)
    ensures Weighted("", 1) == 0 && AllDigits(s + [a] + [b])
    ensures Weighted(s + [a] + [b], 1) == (b as int - '0' as int) + 3 * (a as int - '0' as int) + Weighted(s, 1)
  {
    var t := s + [a];
    assert (t + [b])[..|t|] == t && t[..|s|] == s;
  }
}
