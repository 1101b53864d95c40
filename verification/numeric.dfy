/** The numeric coercion `pd.to_numeric(..., errors='coerce')` on one string,
    restricted to plain decimal notation (see README, "Left out"). */
module Numeric {
  import opened Wrappers
  import opened Text

  /** The decimal `mantissa / 10^scale`; a value pandas would hold as a float. */
  datatype Number = Number(mantissa: int, scale: nat)

  /** Parses an optional sign, digits, and at most one '.', with at least one digit
      overall ("21.5", "-3", ".5", "7."). Anything else is not a number: a number is
      an optional sign followed by digits and '.', and its sign is the sign written. */
  function ToNumeric(s: string): (r: Option<Number>)
    ensures r.Some? ==> s != [] && (IsDigit(s[0]) || s[0] in ".-+")
    ensures r.Some? ==> forall i :: 0 < i < |s| ==> IsDigit(s[i]) || s[i] == '.'
    ensures r.Some? && r.value.mantissa < 0 ==> s[0] == '-'
    ensures r.Some? && s[0] == '-' ==> r.value.mantissa <= 0
  {
    var signed := s != [] && (s[0] == '-' || s[0] == '+');
    var body := if signed then s[1..] else s;
    match ParseUnsigned(body)
    case None => None
    case Some(v) =>
      ParseUnsignedShape(body);
      assert forall i :: 0 < i < |s| ==> s[i] == body[if signed then i - 1 else i];
      assert !signed ==> s[0] == body[0];
      Some(if s[0] == '-' then Number(-v.mantissa, v.scale) else v)
  }

  /** Digits with at most one '.' among them and at least one digit. */
  function ParseUnsigned(body: string): Option<Number> {
    match FirstIndexOf(body, ".")
    case None =>
      if body != [] && AllDigits(body) then Some(Number(DigitsValue(body), 0)) else None
    case Some(p) =>
      var whole, frac := body[..p], body[p + 1..];
      if |whole| + |frac| >= 1 && AllDigits(whole) && AllDigits(frac) then
        assert AllDigits(whole + frac) by {
          forall i | 0 <= i < |whole + frac| ensures IsDigit((whole + frac)[i]) {
            if i >= |whole| { assert (whole + frac)[i] == frac[i - |whole|]; }
          }
        }
        Some(Number(DigitsValue(whole + frac), |frac|))
      else None
  }

  /** What an accepted unsigned numeral consists of: digits and a single '.'. */
  lemma ParseUnsignedShape(body: string)
    requires ParseUnsigned(body).Some?
    ensures body != [] && forall i :: 0 <= i < |body| ==> IsDigit(body[i]) || body[i] == '.'
    ensures ParseUnsigned(body).value.mantissa >= 0
  {
    match FirstIndexOf(body, ".")
    case None =>
    case Some(p) =>
      var whole, frac := body[..p], body[p + 1..];
      assert body == whole + "." + frac;
      forall i | 0 <= i < |body| ensures IsDigit(body[i]) || body[i] == '.' {
        if i < p { assert body[i] == whole[i]; }
        else if i > p { assert body[i] == frac[i - p - 1]; }
      }
  }

  /** A string without commas is left alone by the comma rewrite. */
  lemma {:induction false} ReplaceCommasNoComma(s: string)
    requires ',' !in s
    ensures ReplaceCommas(s) == s
  {
    if s != [] {
      ReplaceCommasNoComma(s[1..]);
    }
  }

  lemma DigitsHaveNoSeparator(s: string)
    requires AllDigits(s)
    ensures ',' !in s && '.' !in s
  {
    forall i | 0 <= i < |s| ensures s[i] != ',' && s[i] != '.' { assert IsDigit(s[i]); }
  }

  /** The comma rewrite of `whole,frac` is `whole.frac` when both sides are digits. */
  lemma RewriteCommaDecimal(whole: string, frac: string)
    requires AllDigits(whole) && AllDigits(frac)
    ensures ReplaceCommas(whole + "," + frac) == whole + "." + frac
  {
    DigitsHaveNoSeparator(whole);
    DigitsHaveNoSeparator(frac);
    var s := whole + "," + frac;
    var t := ReplaceCommas(s);
    forall i | 0 <= i < |s| ensures t[i] == (whole + "." + frac)[i] {
      if i < |whole| {
        assert s[i] == whole[i];
      } else if i > |whole| {
        assert s[i] == frac[i - |whole| - 1];
      } else {
        assert s[i] == ',';
      }
    }
  }

  /** The first '.' of `whole.frac`, when `whole` has none, is the one after `whole`. */
  lemma FirstDot(whole: string, frac: string)
    requires '.' !in whole
    ensures FirstIndexOf(whole + "." + frac, ".") == Some(|whole|)
  {
    var t := whole + "." + frac;
    assert t[|whole|..|whole| + 1] == ".";
    assert OccursAt(t, ".", |whole|);
    forall j | 0 <= j < |whole| ensures !OccursAt(t, ".", j) {
      assert t[j..j + 1][0] == t[j] == whole[j];
    }
  }

  /** An unsigned decimal numeral parses to its digits scaled by its decimals; either
      side of the '.' may be empty, but not both (".5", "7."). */
  lemma UnsignedDecimal(whole: string, frac: string)
    requires whole + frac != [] && AllDigits(whole) && AllDigits(frac)
    ensures ToNumeric(whole + "." + frac) == Some(Number(DigitsValue(whole + frac), |frac|))
  {
    var t := whole + "." + frac;
    DigitsHaveNoSeparator(whole);
    FirstDot(whole, frac);
    if whole != [] {
      assert t[0] == whole[0] && IsDigit(whole[0]);
    } else {
      assert t[0] == '.';
    }
    assert ToNumeric(t) == ParseUnsigned(t);
    assert t[..|whole|] == whole;
    assert t[|whole| + 1..] == frac;
  }

  /** "21,5" is read as 21.5: a comma-decimal numeral, once its comma is rewritten,
      parses to its digits scaled by the number of decimals (",5" and "5," too). */
  lemma CommaDecimal(whole: string, frac: string)
    requires whole + frac != []
    requires AllDigits(whole) && AllDigits(frac)
    ensures ToNumeric(ReplaceCommas(whole + "," + frac)) == Some(Number(DigitsValue(whole + frac), |frac|))
  {
    RewriteCommaDecimal(whole, frac);
    UnsignedDecimal(whole, frac);
  }

  /** Text that is not a numeral, such as "N/A", becomes missing rather than an error. */
  lemma NotANumber()
    ensures ToNumeric("N/A") == None
    ensures ToNumeric("") == None
  {
    assert !IsDigit("N/A"[0]);
  }
}
