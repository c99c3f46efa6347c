/** Normalisation of the postal-code column `detailidentadressecp`: every
    space character is removed, then the remaining text is read as a
    base-10 integer the way Python's `int()` reads a string. */
module PostalCode {
  import opened Results

  /** `int()` refused the text left after space removal. */
  datatype ParseError = InvalidLiteral(text: string)

  /** `''.join(s.split(' '))`: the text with every ' ' removed, all other
      characters kept in order. */
  function StripSpaces(s: string): (r: string)
    ensures forall i | 0 <= i < |r| :: r[i] != ' '
  {
    if s == [] then []
    else (if s[0] == ' ' then [] else [s[0]]) + StripSpaces(s[1..])
  }

  /** A code without spaces is left as it is. */
  lemma {:induction false} StripSpacesNoSpace(s: string)
    requires forall i | 0 <= i < |s| :: s[i] != ' '
    ensures StripSpaces(s) == s
  {
    if s != [] {
      StripSpacesNoSpace(s[1..]);
      assert s == [s[0]] + s[1..];
    }
  }

  /** Space removal distributes over concatenation, so together with the
      contract above it fixes the result character by character. */
  lemma {:induction false} StripSpacesAppend(a: string, b: string)
    ensures StripSpaces(a + b) == StripSpaces(a) + StripSpaces(b)
  {
    if a != [] {
      assert (a + b)[0] == a[0];
      assert (a + b)[1..] == a[1..] + b;
      StripSpacesAppend(a[1..], b);
    } else {
      assert a + b == b;
    }
  }

  predicate IsDigit(c: char) {
    '0' <= c <= '9'
  }

  predicate IsSign(c: char) {
    c == '+' || c == '-'
  }

  /** The digit part of a Python integer literal: at least one digit, and an
      underscore only where a digit precedes and a digit follows it. */
  predicate IsDigitRun(s: string) {
    && |s| > 0
    && IsDigit(s[0])
    && forall i | 0 <= i < |s| :: IsDigit(s[i]) || (s[i] == '_' && i + 1 < |s| && IsDigit(s[i + 1]))
  }

  /** A base-10 literal accepted by `int()`: an optional sign, then a digit run. */
  predicate IsIntLiteral(s: string) {
    if |s| > 0 && IsSign(s[0]) then IsDigitRun(s[1..]) else IsDigitRun(s)
  }

  function Pow10(n: nat): (p: nat)
    ensures p > 0
  {
    if n == 0 then 1 else 10 * Pow10(n - 1)
  }

  /** The value of a string of digits and underscores; underscores are skipped,
      so the value is below the power of ten that the length allows. */
  function DigitsValue(s: string): (v: nat)
    requires forall i | 0 <= i < |s| :: IsDigit(s[i]) || s[i] == '_'
    ensures v < Pow10(|s|)
  {
    if s == [] then 0
    else if s[|s| - 1] == '_' then DigitsValue(s[..|s| - 1])
    else
      var d := s[|s| - 1];
      assert IsDigit(d);
      10 * DigitsValue(s[..|s| - 1]) + (d as int - '0' as int)
  }

  /** `int(s)` with base 10: a value for a well-formed literal, an error otherwise. */
  function ParseInt(s: string): (r: Result<int, ParseError>)
    ensures r.Success? <==> IsIntLiteral(s)
    ensures r.Failure? ==> r.error == InvalidLiteral(s)
    ensures r.Success? && s[0] == '-' ==> r.value <= 0
    ensures r.Success? && s[0] != '-' ==> r.value >= 0
  {
    if |s| > 0 && IsSign(s[0]) then
      if IsDigitRun(s[1..]) then
        var magnitude: int := DigitsValue(s[1..]);
        Success(if s[0] == '-' then -magnitude else magnitude)
      else
        Failure(InvalidLiteral(s))
    else if IsDigitRun(s) then
      Success(DigitsValue(s))
    else
      Failure(InvalidLiteral(s))
  }

  /** Line 50 of the script: the postal code with its spaces removed, as an integer. */
  function Normalize(code: string): (r: Result<int, ParseError>)
    ensures r.Success? <==> IsIntLiteral(StripSpaces(code))
    ensures r.Failure? ==> r.error == InvalidLiteral(StripSpaces(code))
  {
    ParseInt(StripSpaces(code))
  }

  /** The canonical decimal writing of a natural number (no sign, no underscore). */
  function DecimalDigits(n: nat): (s: string)
    ensures |s| > 0
    ensures forall i | 0 <= i < |s| :: IsDigit(s[i])
  {
    var last := [('0' as int + n % 10) as char];
    if n < 10 then last else DecimalDigits(n / 10) + last
  }

  /** The canonical decimal writing of an integer, `str(n)` in Python. */
  function ToDecimal(n: int): string {
    if n < 0 then "-" + DecimalDigits(-n) else DecimalDigits(n)
  }

  lemma {:induction false} DigitsValueOfDecimalDigits(n: nat)
    ensures DigitsValue(DecimalDigits(n)) == n
  {
    var s := DecimalDigits(n);
    if n >= 10 {
      assert s[..|s| - 1] == DecimalDigits(n / 10);
      DigitsValueOfDecimalDigits(n / 10);
    }
  }

  /** Parsing reads back exactly the integer that `ToDecimal` wrote. */
  lemma ParseIntToDecimal(n: int)
    ensures ParseInt(ToDecimal(n)) == Success(n)
  {
    var s := ToDecimal(n);
    if n < 0 {
      assert s[1..] == DecimalDigits(-n);
      DigitsValueOfDecimalDigits(-n);
    } else {
      DigitsValueOfDecimalDigits(n);
    }
  }

  /** A leading zero adds nothing to the value. */
  lemma {:induction false} DigitsValueLeadingZero(s: string)
    requires forall i | 0 <= i < |s| :: IsDigit(s[i]) || s[i] == '_'
    ensures DigitsValue("0" + s) == DigitsValue(s)
    decreases |s|
  {
    var t := "0" + s;
    if s == [] {
      assert t[..0] == [];
    } else {
      assert t[..|t| - 1] == "0" + s[..|s| - 1];
      DigitsValueLeadingZero(s[..|s| - 1]);
    }
  }

  /** An underscore adds nothing to the value. */
  lemma {:induction false} DigitsValueUnderscore(a: string, b: string)
    requires forall i | 0 <= i < |a| :: IsDigit(a[i]) || a[i] == '_'
    requires forall i | 0 <= i < |b| :: IsDigit(b[i]) || b[i] == '_'
    ensures DigitsValue(a + "_" + b) == DigitsValue(a + b)
    decreases |b|
  {
    var t := a + "_" + b;
    if b == [] {
      assert t[..|a|] == a;
      assert a + b == a;
    } else {
      var front := b[..|b| - 1];
      assert t[..|t| - 1] == a + "_" + front;
      assert (a + b)[..|a| + |b| - 1] == a + front;
      DigitsValueUnderscore(a, front);
    }
  }

  /** A `+` sign changes neither whether `int()` accepts the rest nor its value. */
  lemma ParseIntPlusSign(s: string)
    requires s == [] || !IsSign(s[0])
    ensures ParseInt("+" + s).Success? <==> ParseInt(s).Success?
    ensures ParseInt(s).Success? ==> ParseInt("+" + s).value == ParseInt(s).value
  {
    assert ("+" + s)[1..] == s;
  }

  /** `k` zero characters. */
  function Zeros(k: nat): (z: string)
    ensures |z| == k
    ensures forall i | 0 <= i < k :: z[i] == '0'
  {
    if k == 0 then "" else "0" + Zeros(k - 1)
  }

  lemma {:induction false} ZeroPaddedValue(k: nat, n: nat)
    ensures DigitsValue(Zeros(k) + DecimalDigits(n)) == n
  {
    var digits := DecimalDigits(n);
    if k == 0 {
      assert Zeros(k) + digits == digits;
      DigitsValueOfDecimalDigits(n);
    } else {
      assert Zeros(k) + digits == "0" + (Zeros(k - 1) + digits);
      DigitsValueLeadingZero(Zeros(k - 1) + digits);
      ZeroPaddedValue(k - 1, n);
    }
  }

  /** Leading zeros do not change what `int()` reads: `"01000"` is 1000 and
      `"0029200"` is 29200. */
  lemma ParseIntZeroPadded(k: nat, n: nat)
    ensures ParseInt(Zeros(k) + DecimalDigits(n)) == Success(n)
  {
    var s := Zeros(k) + DecimalDigits(n);
    assert forall i | 0 <= i < |s| :: IsDigit(s[i]);
    assert IsDigitRun(s);
    ZeroPaddedValue(k, n);
  }

  /** Whatever spaces a postal code carries, it normalises to the number its
      non-space characters write. */
  lemma NormalizeSpaced(code: string, n: int)
    requires StripSpaces(code) == ToDecimal(n)
    ensures Normalize(code) == Success(n)
  {
    ParseIntToDecimal(n);
  }

  /** A space anywhere in a postal code does not change how it normalises. */
  lemma NormalizeIgnoresSpace(a: string, b: string)
    ensures Normalize(a + " " + b) == Normalize(a + b)
  {
    assert StripSpaces(" ") == [] by {
      assert " "[1..] == [];
    }
    calc {
      StripSpaces(a + " " + b);
      { StripSpacesAppend(a + " ", b); }
      StripSpaces(a + " ") + StripSpaces(b);
      { StripSpacesAppend(a, " "); }
      StripSpaces(a) + StripSpaces(b);
      { StripSpacesAppend(a, b); }
      StripSpaces(a + b);
    }
  }

  /** Every character other than a space survives space removal. */
  lemma {:induction false} StripSpacesKeeps(s: string, i: nat)
    requires i < |s| && s[i] != ' '
    ensures s[i] in StripSpaces(s)
  {
    assert s == [s[0]] + s[1..];
    if i > 0 {
      StripSpacesKeeps(s[1..], i - 1);
    }
  }

  /** A code holding a character that cannot occur in a decimal literal
      (not a digit, sign, underscore or space) fails, wherever it stands. */
  lemma NormalizeRejectsForeignChar(code: string, i: nat)
    requires i < |code|
    requires !IsDigit(code[i]) && !IsSign(code[i]) && code[i] != '_' && code[i] != ' '
    ensures Normalize(code).Failure?
  {
    var s := StripSpaces(code);
    StripSpacesKeeps(code, i);
    var j :| 0 <= j < |s| && s[j] == code[i];
    if |s| > 0 && IsSign(s[0]) {
      assert j > 0;
      assert s[1..][j - 1] == s[j];
    }
  }

  /** A code made only of spaces, the empty code included, fails. */
  lemma {:induction false} NormalizeRejectsBlank(code: string)
    requires forall i | 0 <= i < |code| :: code[i] == ' '
    ensures StripSpaces(code) == []
    ensures Normalize(code).Failure?
  {
    if code != [] {
      NormalizeRejectsBlank(code[1..]);
    }
  }
}
