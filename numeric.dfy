/**
 * Python's `float()` and `int()` applied to one whitespace-free token, as the
 * merge script uses them on the tokens of a header, a bias line and a trial row.
 * Values are exact rationals: binary64 rounding is not modelled, and the
 * special spellings `inf`, `infinity` and `nan`, which have no `real` value,
 * are refused like a malformed token.
 */
module Numeric {
  import opened Wrappers

  predicate IsDigit(c: char)
  {
    '0' <= c <= '9'
  }

  predicate AllDigits(s: string)
  {
    forall i :: 0 <= i < |s| ==> IsDigit(s[i])
  }

  function DigitValue(c: char): nat
    requires IsDigit(c)
  {
    (c as int) - ('0' as int)
  }

  /** The value of a string of decimal digits, most significant first. */
  function DigitsValue(s: string): nat
    requires AllDigits(s)
  {
    if s == [] then 0 else 10 * DigitsValue(s[..|s| - 1]) + DigitValue(s[|s| - 1])
  }

  /** The leading sign of a token, if any: whether it is a minus, and the rest. */
  function SplitSign(tok: string): (bool, string)
  {
    if |tok| > 0 && tok[0] == '-' then (true, tok[1..])
    else if |tok| > 0 && tok[0] == '+' then (false, tok[1..])
    else (false, tok)
  }

  function Negate(negative: bool, v: real): real
  {
    if negative then -v else v
  }

  /** The index of the first occurrence of a character of `cs` in `s`, or |s|. */
  function Find(s: string, cs: set<char>): (k: nat)
    ensures k <= |s|
    ensures forall i :: 0 <= i < k ==> s[i] !in cs
    ensures k < |s| ==> s[k] in cs
  {
    if s == [] then 0 else if s[0] in cs then 0 else 1 + Find(s[1..], cs)
  }

  /** A token written as an optional sign followed by at least one decimal digit. */
  predicate IsIntLiteral(tok: string)
  {
    && |tok| > 0
    && (IsDigit(tok[0]) || ((tok[0] == '+' || tok[0] == '-') && |tok| > 1))
    && forall i :: 0 < i < |tok| ==> IsDigit(tok[i])
  }

  /** `int(tok)` of Python 2 in base 10: an optional sign and at least one digit. */
  function ParseInt(tok: string): (r: Option<int>)
    ensures r.Some? ==> |tok| > 0
    ensures r.Some? && r.value < 0 ==> tok[0] == '-'
  {
    var (negative, body) := SplitSign(tok);
    if |body| > 0 && AllDigits(body) then
      var v: int := DigitsValue(body);
      Some(if negative then -v else v)
    else None
  }

  /** `int` accepts exactly the tokens written as an optional sign and decimal digits. */
  lemma {:induction false} IntLiteralAccepted(tok: string)
    ensures ParseInt(tok).Some? <==> IsIntLiteral(tok)
  {
    var (negative, body) := SplitSign(tok);
    assert |tok| > 0 && IsDigit(tok[0]) ==> body == tok;
    if |tok| > 0 && tok != body {
      assert forall i :: 0 <= i < |body| ==> body[i] == tok[i + 1];
    }
  }

  /** `v * 10^e` for a signed exponent `e`. */
  function Scaled(v: real, e: int): real
    decreases if e >= 0 then e else -e
  {
    if e == 0 then v
    else if e > 0 then Scaled(v * 10.0, e - 1)
    else Scaled(v / 10.0, e + 1)
  }

  /** `float(tok)` of Python 2 on a decimal literal: an optional sign, digits with at
      most one point and at least one digit, and an optional exponent `e`/`E`
      followed by a signed integer. The value of `int.frac e exp` is the integer
      written by the digits of `int` and `frac` together, scaled by `10^(exp - |frac|)`. */
  function ParseFloat(tok: string): (r: Option<real>)
    ensures r.Some? ==> |tok| > 0
  {
    var (negative, body) := SplitSign(tok);
    var e := Find(body, {'e', 'E'});
    var mantissa := body[..e];
    var exponent := if e < |body| then ParseInt(body[e + 1..]) else Some(0);
    var p := Find(mantissa, {'.'});
    var intPart := mantissa[..p];
    var frac := if p < |mantissa| then mantissa[p + 1..] else "";
    if exponent.None? || |intPart| + |frac| == 0 || !AllDigits(intPart + frac) then None
    else Some(Negate(negative, Scaled(DigitsValue(intPart + frac) as real, exponent.value - |frac|)))
  }

  /** Every character is one a decimal float literal may hold: a digit, a sign, a
      point or an exponent mark. */
  predicate LiteralChars(s: string)
  {
    forall i :: 0 <= i < |s| ==> IsDigit(s[i]) || s[i] in {'+', '-', '.', 'e', 'E'}
  }

  /** `float` accepts only tokens made of digits, signs, a point and exponent marks. */
  lemma {:induction false} FloatLiteralChars(tok: string)
    requires ParseFloat(tok).Some?
    ensures LiteralChars(tok)
  {
    var (negative, body) := SplitSign(tok);
    var e := Find(body, {'e', 'E'});
    var mantissa := body[..e];
    var p := Find(mantissa, {'.'});
    MantissaChars(mantissa, p);
    BodyChars(body, e);
    assert tok == body || tok == [tok[0]] + body;
  }

  lemma {:induction false} MantissaChars(m: string, p: nat)
    requires p <= |m| && (p < |m| ==> m[p] == '.')
    requires AllDigits(m[..p] + (if p < |m| then m[p + 1..] else ""))
    ensures LiteralChars(m)
  {
    var d := m[..p] + (if p < |m| then m[p + 1..] else "");
    forall i | 0 <= i < |m| ensures IsDigit(m[i]) || m[i] in {'+', '-', '.', 'e', 'E'} {
      if i < p {
        assert d[i] == m[i];
      } else if i > p {
        assert d[i - 1] == m[i];
      }
    }
  }

  lemma {:induction false} BodyChars(body: string, e: nat)
    requires e <= |body| && LiteralChars(body[..e])
    requires e < |body| ==> (body[e] == 'e' || body[e] == 'E') && ParseInt(body[e + 1..]).Some?
    ensures LiteralChars(body)
  {
    if e < |body| {
      IntLiteralAccepted(body[e + 1..]);
    }
    forall i | 0 <= i < |body| ensures IsDigit(body[i]) || body[i] in {'+', '-', '.', 'e', 'E'} {
      if i < e {
        assert body[..e][i] == body[i];
      } else if i > e {
        assert body[e + 1..][i - e - 1] == body[i];
      }
    }
  }

  /** `map(float, tokens)`: every token parsed, or failure if any token is malformed. */
  function ParseRow(tokens: seq<string>): (r: Option<seq<real>>)
    ensures r.Some? ==> |r.value| == |tokens|
  {
    if tokens == [] then Some([])
    else
      match (ParseFloat(tokens[0]), ParseRow(tokens[1..]))
      case (Some(v), Some(rest)) => Some([v] + rest)
      case _ => None
  }

  /** The decimal digits of `n`, as `str` writes them. */
  function NatDigits(n: nat): (s: string)
    ensures |s| > 0 && AllDigits(s)
  {
    if n < 10 then [('0' as int + n) as char] else NatDigits(n / 10) + [('0' as int + n % 10) as char]
  }

  /** The token `str(i)` of an integer: its digits, with a minus sign when negative. */
  function IntToken(i: int): string
  {
    if i < 0 then "-" + NatDigits(-i) else NatDigits(i)
  }

  lemma {:induction false} NatDigitsValue(n: nat)
    ensures DigitsValue(NatDigits(n)) == n
    decreases n
  {
    if n >= 10 {
      NatDigitsValue(n / 10);
      var s := NatDigits(n);
      assert s[..|s| - 1] == NatDigits(n / 10);
    }
  }

  /** `int` reads back every integer written in decimal. */
  lemma {:induction false} IntTokenRoundTrip(i: int)
    ensures ParseInt(IntToken(i)) == Some(i)
  {
    var s := NatDigits(if i < 0 then -i else i);
    NatDigitsValue(if i < 0 then -i else i);
    if i < 0 {
      assert IntToken(i)[1..] == s;
      assert SplitSign(IntToken(i)) == (true, s);
    } else {
      assert IsDigit(s[0]);
      assert SplitSign(IntToken(i)) == (false, s);
    }
  }

  /** `float` reads a decimal integer token as the same value `int` does: the grid
      bounds and the bias coefficients are read with `float`, the sample count with `int`. */
  lemma {:induction false} FloatOfIntToken(tok: string)
    requires ParseInt(tok).Some?
    ensures ParseFloat(tok) == Some(ParseInt(tok).value as real)
  {
    var (negative, body) := SplitSign(tok);
    assert Find(body, {'e', 'E'}) == |body| && body[..|body|] == body;
    assert Find(body, {'.'}) == |body| && body + "" == body;
  }

  /** `float` reads back every integer written in decimal. */
  lemma {:induction false} FloatIntTokenRoundTrip(i: int)
    ensures ParseFloat(IntToken(i)) == Some(i as real)
  {
    IntTokenRoundTrip(i);
    FloatOfIntToken(IntToken(i));
  }
}
