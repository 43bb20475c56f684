/**
 * The compact number abbreviator used for vote counts: Indian units
 * "K" (thousand), "L" (lakh, 100,000) and "Cr" (crore, 10,000,000), the
 * quotient rounded to one decimal place with a trailing ".0" removed.
 * Counts are integers; a missing count (null or undefined) is None.
 */
module KConverter {
  import opened Options
  import opened Numerals

  const Crore: nat := 10_000_000
  const Lakh: nat := 100_000
  const Thousand: nat := 1_000

  datatype Unit = Cr | L | K

  function Scale(u: Unit): nat {
    match u
    case Cr => Crore
    case L => Lakh
    case K => Thousand
  }

  function Suffix(u: Unit): string {
    match u
    case Cr => "Cr"
    case L => "L"
    case K => "K"
  }

  predicate EndsWith(s: string, suffix: string) {
    |suffix| <= |s| && s[|s| - |suffix|..] == suffix
  }

  /** The unit is picked from the unrounded value by the threshold ladder. */
  function UnitFor(n: int): (u: Option<Unit>)
    ensures u == Some(Cr) <==> n >= Crore
    ensures u == Some(L) <==> Lakh <= n < Crore
    ensures u == Some(K) <==> Thousand <= n < Lakh
    ensures u == None <==> n < Thousand
  {
    if n >= Crore then Some(Cr)
    else if n >= Lakh then Some(L)
    else if n >= Thousand then Some(K)
    else None
  }

  /** n / scale rounded half-up to a whole number of tenths. */
  function RoundTenths(n: nat, scale: nat): (t: nat)
    requires scale > 0
    ensures 2 * t * scale <= 20 * n + scale < 2 * (t + 1) * scale
  {
    (20 * n + scale) / (2 * scale)
  }

  /** t tenths written with one decimal place, a ".0" dropped. */
  function TenthsToString(t: nat): (s: string)
    ensures |s| > 0 && IsDigit(s[|s| - 1])
    ensures forall i :: 0 <= i < |s| && s[i] == '.' ==> i == |s| - 2 && s[i + 1] != '0'
    ensures Canonical(if |s| >= 2 && s[|s| - 2] == '.' then s[..|s| - 2] else s)
  {
    var whole := NatToString(t / 10);
    if t % 10 == 0 then
      assert |whole| >= 2 ==> IsDigit(whole[|whole| - 2]);
      whole
    else
      var s := whole + "." + [DigitChar(t % 10)];
      assert s[..|s| - 2] == whole;
      s
  }

  /** Reads "w" or "w.d" back as a number of tenths. */
  function ParseTenths(s: string): Option<nat> {
    if |s| >= 2 && s[|s| - 2] == '.' && IsDigit(s[|s| - 1]) then
      match ParseNat(s[..|s| - 2])
      case None => None
      case Some(w) => Some(w * 10 + DigitValue(s[|s| - 1]))
    else
      match ParseNat(s)
      case None => None
      case Some(w) => Some(w * 10)
  }

  lemma ParseTenthsToString(t: nat)
    ensures ParseTenths(TenthsToString(t)) == Some(t)
  {
    var whole := NatToString(t / 10);
    ParseNatToString(t / 10);
    if t % 10 != 0 {
      var s := TenthsToString(t);
      assert s[..|s| - 2] == whole;
    } else {
      assert |whole| >= 2 ==> IsDigit(whole[|whole| - 2]);
    }
  }

  /** Kconverter: a missing count is "0"; below 1,000 the plain integer. */
  function Kconverter(num: Option<int>): (s: string)
    ensures |s| > 0
    ensures num == None ==> s == "0"
  {
    match num
    case None => "0"
    case Some(n) =>
      match UnitFor(n)
      case None => IntToString(n)
      case Some(u) => TenthsToString(RoundTenths(n, Scale(u))) + Suffix(u)
  }

  /** Splits an abbreviation into its number of tenths and its unit. */
  function ParseAbbreviation(s: string): Option<(nat, Unit)> {
    var u :=
      if EndsWith(s, "Cr") then Some(Cr)
      else if EndsWith(s, "L") then Some(L)
      else if EndsWith(s, "K") then Some(K)
      else None;
    match u
    case None => None
    case Some(unit) =>
      match ParseTenths(s[..|s| - |Suffix(unit)|])
      case None => None
      case Some(t) => Some((t, unit))
  }

  /** Values below 1,000, negatives included, are their own decimal string. */
  lemma BelowThousandIsPlain(n: int)
    requires n < Thousand
    ensures Kconverter(Some(n)) == IntToString(n)
    ensures ParseInt(Kconverter(Some(n))) == Some(n)
  {
    ParseIntToString(n);
  }

  /**
   * From 1,000 up, the abbreviation reads back as the unit picked by the
   * thresholds and a count of tenths t with t/10 * unit nearest to n.
   */
  lemma AbbreviationRoundTrip(n: int)
    requires n >= Thousand
    ensures match ParseAbbreviation(Kconverter(Some(n)))
            case None => false
            case Some((t, u)) =>
              UnitFor(n) == Some(u) &&
              2 * t * Scale(u) <= 20 * n + Scale(u) < 2 * (t + 1) * Scale(u)
  {
    var u := UnitFor(n).value;
    var t := RoundTenths(n, Scale(u));
    var digits := TenthsToString(t);
    var s := Kconverter(Some(n));
    assert s == digits + Suffix(u);
    assert s[..|s| - |Suffix(u)|] == digits;
    ParseTenthsToString(t);
  }

  /** The output ends in "Cr", "L" or "K" exactly as the thresholds say, and in a digit below 1,000. */
  lemma SuffixFollowsThresholds(n: int)
    ensures EndsWith(Kconverter(Some(n)), "Cr") <==> n >= Crore
    ensures EndsWith(Kconverter(Some(n)), "L") <==> Lakh <= n < Crore
    ensures EndsWith(Kconverter(Some(n)), "K") <==> Thousand <= n < Lakh
    ensures n < Thousand ==> IsDigit(Kconverter(Some(n))[|Kconverter(Some(n))| - 1])
  {
    var s := Kconverter(Some(n));
    if n >= Thousand {
      var u := UnitFor(n).value;
      var digits := TenthsToString(RoundTenths(n, Scale(u)));
      assert s == digits + Suffix(u);
      assert s[|s| - 1] == Suffix(u)[|Suffix(u)| - 1];
      assert u == Cr ==> s[|s| - 2..] == "Cr";
      assert u == L ==> s[|s| - 2] == digits[|digits| - 1];
      assert u == K ==> s[|s| - 2] == digits[|digits| - 1];
    }
  }

  /**
   * At most one fractional digit, never a zero one: every '.' is followed
   * by a digit 1-9 and then by the unit suffix.
   */
  lemma NoTrailingPointZero(n: int)
    ensures var s := Kconverter(Some(n));
            forall i :: 0 <= i < |s| && s[i] == '.' ==>
              i + 2 < |s| && '1' <= s[i + 1] <= '9' && !IsDigit(s[i + 2])
  {
  }

  lemma RoundTenthsOfMultiple(k: nat, scale: nat)
    requires scale > 0
    ensures RoundTenths(k * scale, scale) == 10 * k
  {
    var a := 20 * (k * scale) + scale;
    assert a == (10 * k) * (2 * scale) + scale;
    DivUnique(a, 2 * scale, 10 * k, scale);
  }

  lemma DivUnique(a: int, b: int, q: int, r: int)
    requires b > 0 && 0 <= r < b && a == q * b + r
    ensures a / b == q
  {
    var d := q - a / b;
    assert d * b == a % b - r;
  }

  /** Exact multiples of a unit abbreviate to a bare integer: 5000 is "5K", 300000 is "3L". */
  lemma ExactMultiples(k: nat, u: Unit)
    requires k >= 1
    requires u != Cr ==> k < 100
    ensures Kconverter(Some(k * Scale(u))) == NatToString(k) + Suffix(u)
  {
    var scale := Scale(u);
    var n := k * scale;
    assert UnitFor(n) == Some(u) by {
      match u {
        case Cr => assert n >= Crore;
        case L => assert Lakh <= n < Crore;
        case K => assert Thousand <= n < Lakh;
      }
    }
    RoundTenthsOfMultiple(k, scale);
    assert TenthsToString(10 * k) == NatToString(k) by {
      assert (10 * k) / 10 == k && (10 * k) % 10 == 0;
    }
    assert Kconverter(Some(n)) == TenthsToString(RoundTenths(n, scale)) + Suffix(u);
  }

  /**
   * The unit is chosen before rounding, so values just under a threshold
   * round up to 100 of the lower unit instead of 1 of the next.
   */
  lemma RoundsUpWithinLowerUnit(n: int)
    ensures 99_950 <= n < Lakh ==> Kconverter(Some(n)) == "100K"
    ensures 9_995_000 <= n < Crore ==> Kconverter(Some(n)) == "100L"
  {
    assert NatToString(100) == "100" by {
      assert NatToString(1) == "1";
      assert NatToString(10) == "10";
    }
    if 99_950 <= n < Lakh {
      assert RoundTenths(n, Thousand) == 1000;
    }
    if 9_995_000 <= n < Crore {
      assert RoundTenths(n, Lakh) == 1000;
    }
  }

  /** Worked values: 1,500 is "1.5K", 10,000 is "10K", 100,000 is "1L", 15,000,000 is "1.5Cr". */
  lemma WorkedExamples()
    ensures Kconverter(Some(1500)) == "1.5K"
    ensures Kconverter(Some(10_000)) == "10K"
    ensures Kconverter(Some(100_000)) == "1L"
    ensures Kconverter(Some(15_000_000)) == "1.5Cr"
  {
    assert NatToString(10) == "10" by {
      assert NatToString(1) == "1";
    }
    assert RoundTenths(1500, Thousand) == 15;
    assert RoundTenths(10_000, Thousand) == 100;
    assert RoundTenths(100_000, Lakh) == 10;
    assert RoundTenths(15_000_000, Crore) == 15;
  }
}
