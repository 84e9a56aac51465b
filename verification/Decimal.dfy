/** Decimal integers as text: printing, and reading as Python's int does. */
module Decimal {
  import opened Options
  import opened Text

  predicate IsDigit(c: char) {
    '0' <= c <= '9'
  }

  /** Digits with single underscores between them. */
  predicate DigitGroups(s: string) {
    && s != [] && IsDigit(s[0]) && IsDigit(s[|s| - 1])
    && (forall i :: 0 <= i < |s| ==> IsDigit(s[i]) || s[i] == '_')
    && (forall i :: 0 < i < |s| && s[i] == '_' ==> s[i - 1] != '_')
  }

  function DigitsValue(s: string): nat
    requires forall i :: 0 <= i < |s| ==> IsDigit(s[i]) || s[i] == '_'
  {
    if s == [] then 0
    else
      var last := s[|s| - 1];
      var rest := DigitsValue(s[..|s| - 1]);
      if IsDigit(last) then rest * 10 + (last as int - '0' as int) else rest
  }

  /** Python's int on a string of ASCII digits. */
  function ParseInt(text: string): Option<int> {
    var s := Strip(text);
    if s != [] && (s[0] == '-' || s[0] == '+') then
      if DigitGroups(s[1..])
      then Some((if s[0] == '-' then -1 else 1) * DigitsValue(s[1..]))
      else None
    else if DigitGroups(s) then Some(DigitsValue(s)) else None
  }

  function ShowNat(n: nat): string {
    if n < 10 then [('0' as int + n) as char] else ShowNat(n / 10) + [('0' as int + n % 10) as char]
  }

  function ShowInt(n: int): string {
    if n < 0 then ['-'] + ShowNat(-n) else ShowNat(n)
  }

  lemma {:induction false} ShowNatDigits(n: nat)
    ensures ShowNat(n) != []
    ensures forall i :: 0 <= i < |ShowNat(n)| ==> IsDigit(ShowNat(n)[i])
    ensures DigitsValue(ShowNat(n)) == n
  {
    if n >= 10 {
      ShowNatDigits(n / 10);
      assert ShowNat(n)[..|ShowNat(n)| - 1] == ShowNat(n / 10);
    } else {
      assert ShowNat(n)[..0] == [];
    }
  }

  lemma {:induction false} ShowIntPlain(n: int)
    ensures ':' !in ShowInt(n) && ShowInt(n) != []
    ensures !IsSpace(ShowInt(n)[0]) && !IsSpace(ShowInt(n)[|ShowInt(n)| - 1])
  {
    ShowNatDigits(if n < 0 then -n else n);
  }

  lemma {:induction false} ShowNatGroups(n: nat)
    ensures DigitGroups(ShowNat(n)) && ShowNat(n)[0] != '-' && ShowNat(n)[0] != '+'
  {
    ShowNatDigits(n);
  }

  /** White space around a number and a sign before it are read as Python does. */
  lemma {:induction false} ParseSigned(before: string, sign: char, n: nat, after: string)
    requires Blank(before) && Blank(after) && (sign == '+' || sign == '-')
    ensures ParseInt(before + ([sign] + ShowNat(n)) + after) == Some(if sign == '-' then -(n as int) else n)
  {
    ShowNatDigits(n);
    ShowNatGroups(n);
    StripCore(before, [sign] + ShowNat(n), after);
    assert ([sign] + ShowNat(n))[1..] == ShowNat(n);
  }

  lemma {:induction false} ParseUnsigned(before: string, n: nat, after: string)
    requires Blank(before) && Blank(after)
    ensures ParseInt(before + ShowNat(n) + after) == Some(n)
  {
    ShowNatDigits(n);
    ShowNatGroups(n);
    StripCore(before, ShowNat(n), after);
  }

  /** Reading back a printed integer. */
  lemma {:induction false} ParseShow(n: int)
    ensures ParseInt(ShowInt(n)) == Some(n)
  {
    var digits := ShowNat(if n < 0 then -n else n);
    if n < 0 {
      ParseSigned("", '-', -n, "");
      assert "" + (['-'] + digits) + "" == ShowInt(n);
    } else {
      ParseUnsigned("", n, "");
      assert "" + digits + "" == ShowInt(n);
    }
  }
}
