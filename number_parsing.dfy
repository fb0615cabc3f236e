/**
 * The numeric conversion `float(text)` applied to the cpu, memory and disk
 * answers, as a decimal grammar: an optional sign, then digits with an
 * optional fractional part (`12`, `12.`, `12.5`, `.5`, `-3`, `+0.25`).
 * A string outside the grammar does not parse.
 */
module NumberParsing {
  import opened Outcomes

  predicate IsDigit(c: char) {
    '0' <= c <= '9'
  }

  predicate AllDigits(s: string) {
    forall i :: 0 <= i < |s| ==> IsDigit(s[i])
  }

  /** A character that can occur in a number the grammar accepts. */
  predicate IsNumberChar(c: char) {
    IsDigit(c) || c == '.' || c == '+' || c == '-'
  }

  /** The value of a string of decimal digits, most significant first. */
  function DigitsValue(s: string): nat
    requires AllDigits(s)
  {
    if s == [] then 0 else 10 * DigitsValue(s[..|s| - 1]) + (s[|s| - 1] as int - '0' as int)
  }

  function Pow10(n: nat): (p: nat)
    ensures p >= 1
  {
    if n == 0 then 1 else 10 * Pow10(n - 1)
  }

  /** The length of the run of digits that starts `s`. */
  function LeadingDigits(s: string): (k: nat)
    ensures k <= |s| && AllDigits(s[..k])
    ensures k < |s| ==> !IsDigit(s[k])
  {
    if s != [] && IsDigit(s[0]) then
      var k := 1 + LeadingDigits(s[1..]);
      assert forall i :: 1 <= i < k ==> s[..k][i] == s[1..][..k - 1][i - 1];
      k
    else 0
  }

  /** The value of `whole.fraction`: the fraction's digits count tenths, hundredths and so on. */
  function DecimalValue(whole: string, fraction: string): (v: real)
    requires AllDigits(whole) && AllDigits(fraction)
    ensures v >= 0.0
  {
    DigitsValue(whole) as real + DigitsValue(fraction) as real / Pow10(|fraction|) as real
  }

  /** A number without a sign: `digits`, `digits.`, `digits.digits` or `.digits`. */
  function ParseUnsigned(s: string): (r: Option<real>)
    ensures r.Some? ==> s != [] && r.value >= 0.0
    ensures r.Some? ==> forall i :: 0 <= i < |s| ==> IsDigit(s[i]) || s[i] == '.'
  {
    var k := LeadingDigits(s);
    if k == |s| then
      assert s[..k] == s;
      if k > 0 then Some(DigitsValue(s) as real) else None
    else if s[k] == '.' && AllDigits(s[k + 1..]) && (k > 0 || k + 1 < |s|) then
      var whole, fraction := s[..k], s[k + 1..];
      assert forall i :: 0 <= i < k ==> s[i] == whole[i];
      assert forall i :: k + 1 <= i < |s| ==> s[i] == fraction[i - k - 1];
      Some(DecimalValue(whole, fraction))
    else None
  }

  /** `float(s)` on the decimal grammar; `None` where Python raises ValueError. */
  function ParseNumber(s: string): (r: Option<real>)
    ensures r.Some? ==> s != []
    ensures r.Some? ==> forall i :: 0 <= i < |s| ==> IsNumberChar(s[i])
    ensures r.Some? && r.value < 0.0 ==> s[0] == '-'
  {
    if s != [] && (s[0] == '+' || s[0] == '-') then
      match ParseUnsigned(s[1..])
      case None => None
      case Some(v) =>
        assert forall i :: 1 <= i < |s| ==> s[i] == s[1..][i - 1];
        Some(if s[0] == '-' then -v else v)
    else ParseUnsigned(s)
  }

  /** Text such as `abc`: a character the grammar has no place for makes the parse fail. */
  lemma NonNumericRejected(s: string, i: nat)
    requires i < |s| && !IsNumberChar(s[i])
    ensures ParseNumber(s) == None
  {
  }

  function DigitChar(d: nat): (c: char)
    requires d < 10
    ensures IsDigit(c) && c as int - '0' as int == d
  {
    ('0' as int + d) as char
  }

  /** The decimal spelling of a whole number, as an operator would type it. */
  function NatToString(n: nat): (s: string)
    ensures s != [] && AllDigits(s)
  {
    if n < 10 then [DigitChar(n)] else NatToString(n / 10) + [DigitChar(n % 10)]
  }

  lemma {:induction false} NatToStringValue(n: nat)
    ensures DigitsValue(NatToString(n)) == n
  {
    var s := NatToString(n);
    if n >= 10 {
      NatToStringValue(n / 10);
      assert s[..|s| - 1] == NatToString(n / 10);
    } else {
      assert s[..|s| - 1] == [];
    }
  }

  lemma {:induction false} LeadingDigitsOfDigits(s: string)
    requires AllDigits(s)
    ensures LeadingDigits(s) == |s|
  {
    if s != [] {
      LeadingDigitsOfDigits(s[1..]);
    }
  }

  /** Every whole number, written in decimal, parses back to itself. */
  lemma ParseNatRoundTrip(n: nat)
    ensures ParseNumber(NatToString(n)) == Some(n as real)
  {
    var s := NatToString(n);
    LeadingDigitsOfDigits(s);
    NatToStringValue(n);
    assert s[..|s|] == s;
  }

  lemma {:induction false} LeadingDigitsAfterDigits(w: string, t: string)
    requires AllDigits(w)
    ensures LeadingDigits(w + t) == |w| + LeadingDigits(t)
  {
    if w != [] {
      assert (w + t)[0] == w[0];
      assert (w + t)[1..] == w[1..] + t;
      assert AllDigits(w[1..]) by {
        forall i | 0 <= i < |w[1..]| ensures IsDigit(w[1..][i]) {
          assert w[1..][i] == w[i + 1];
        }
      }
      LeadingDigitsAfterDigits(w[1..], t);
    } else {
      assert w + t == t;
    }
  }

  /** A non-empty run of digits parses to its decimal value. */
  lemma ParseDigits(w: string)
    requires w != [] && AllDigits(w)
    ensures ParseNumber(w) == Some(DigitsValue(w) as real)
  {
    LeadingDigitsOfDigits(w);
    assert w[..|w|] == w;
  }

  lemma UnsignedWithPoint(s: string, k: nat)
    requires LeadingDigits(s) == k && k < |s| && s[k] == '.'
    requires AllDigits(s[k + 1..]) && (k > 0 || k + 1 < |s|)
    ensures ParseUnsigned(s) == Some(DecimalValue(s[..k], s[k + 1..]))
  {
  }

  lemma UnsignedFraction(w: string, f: string)
    requires AllDigits(w) && AllDigits(f) && (w != [] || f != [])
    ensures ParseUnsigned(w + "." + f) == Some(DecimalValue(w, f))
  {
    var s := w + "." + f;
    LeadingDigitsAfterDigits(w, "." + f);
    assert LeadingDigits("." + f) == 0 by {
      assert ("." + f)[0] == '.';
    }
    assert w + "." + f == w + ("." + f);
    assert s[|w|] == '.';
    assert s[..|w|] == w;
    assert s[|w| + 1..] == f;
    UnsignedWithPoint(s, |w|);
  }

  /**
   * Digits, a point and digits, either run possibly empty but not both, parse
   * to the whole part plus the fraction scaled by its number of digits.
   */
  lemma ParseFraction(w: string, f: string)
    requires AllDigits(w) && AllDigits(f) && (w != [] || f != [])
    ensures ParseNumber(w + "." + f) == Some(DecimalValue(w, f))
  {
    var s := w + "." + f;
    UnsignedFraction(w, f);
    assert s[0] != '+' && s[0] != '-' by {
      if w != [] {
        assert s[0] == w[0];
      } else {
        assert s[0] == '.';
      }
    }
  }

  /** A leading `-` negates the value of an unsigned numeral; a leading `+` keeps it. */
  lemma ParseSigned(s: string)
    requires s == [] || (s[0] != '+' && s[0] != '-')
    ensures ParseNumber("-" + s) == match ParseNumber(s) case None => None case Some(v) => Some(-v)
    ensures ParseNumber("+" + s) == ParseNumber(s)
  {
    assert ("-" + s)[1..] == s;
    assert ("+" + s)[1..] == s;
  }

  // ---------------------------------------------------------------------
  // The grammar `float` accepts here, stated without the parser

  /** `digits`, `digits.`, `digits.digits` or `.digits`: at least one digit, at most one point. */
  predicate IsUnsignedDecimal(u: string) {
    || (u != [] && AllDigits(u))
    || exists k :: 0 <= k < |u| && PointAt(u, k)
  }

  /** `u` is a digit run, a point at index `k`, and a digit run, not both runs empty. */
  predicate PointAt(u: string, k: int) {
    && 0 <= k < |u| && u[k] == '.'
    && AllDigits(u[..k]) && AllDigits(u[k + 1..]) && (k > 0 || k + 1 < |u|)
  }

  /** An optional `+` or `-`, then an unsigned decimal. */
  predicate IsDecimal(s: string) {
    || IsUnsignedDecimal(s)
    || (s != [] && (s[0] == '+' || s[0] == '-') && IsUnsignedDecimal(s[1..]))
  }

  lemma LeadingDigitsAtPoint(u: string, k: nat)
    requires PointAt(u, k)
    ensures LeadingDigits(u) == k
  {
    assert u == u[..k] + u[k..];
    assert u[k..][0] == '.';
    LeadingDigitsAfterDigits(u[..k], u[k..]);
  }

  lemma ParseUnsignedIff(u: string)
    ensures ParseUnsigned(u).Some? <==> IsUnsignedDecimal(u)
  {
    var k := LeadingDigits(u);
    if ParseUnsigned(u).Some? {
      if k == |u| {
        assert u[..k] == u;
      } else {
        assert PointAt(u, k);
      }
    }
    if IsUnsignedDecimal(u) {
      if u != [] && AllDigits(u) {
        LeadingDigitsOfDigits(u);
        assert u[..|u|] == u;
      } else {
        var j :| 0 <= j < |u| && PointAt(u, j);
        LeadingDigitsAtPoint(u, j);
      }
    }
  }

  /** An unsigned decimal starts with a digit or the point, never with a sign. */
  lemma UnsignedStartsUnsigned(u: string)
    requires IsUnsignedDecimal(u)
    ensures u[0] != '+' && u[0] != '-'
  {
    if !(u != [] && AllDigits(u)) {
      var k :| 0 <= k < |u| && PointAt(u, k);
      if k > 0 {
        assert u[..k][0] == u[0];
      }
    }
  }

  /**
   * `float` succeeds exactly on the decimal grammar: `1.2.3`, `.`, `--1`,
   * `1-2` and `+` are all rejected.
   */
  lemma ParseNumberIff(s: string)
    ensures ParseNumber(s).Some? <==> IsDecimal(s)
  {
    if s != [] && (s[0] == '+' || s[0] == '-') {
      ParseUnsignedIff(s[1..]);
      if IsUnsignedDecimal(s) {
        UnsignedStartsUnsigned(s);
      }
    } else {
      ParseUnsignedIff(s);
    }
  }

  /** A second point, a bare point, a doubled sign, an inner sign and a bare sign all fail. */
  lemma MalformedRejected(s: string)
    requires s == "1.2.3" || s == "." || s == "--1" || s == "1-2" || s == "+"
    ensures ParseNumber(s) == None
  {
    ParseNumberIff(s);
    if s == "1.2.3" {
      assert !IsDigit(s[1]);
      forall k | 0 <= k < |s| ensures !PointAt(s, k) {
        if k == 1 { assert s[k + 1..][1] == s[3]; }
        if k == 3 { assert s[..k][1] == s[1]; }
      }
      assert !IsUnsignedDecimal(s);
    } else if s == "1-2" {
      assert !IsDigit(s[1]);
      forall k | 0 <= k < |s| ensures !PointAt(s, k) { }
    }
  }
}
