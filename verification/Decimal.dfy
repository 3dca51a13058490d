/**
 Decimal printing (`String(n)`) and the `Number.parseInt(text, 10)` reading of it.
 Fencing tokens and the retry counter in job metadata travel through this pair.
 */
module Decimal {
  import opened Wrappers

  predicate IsDigit(c: char) {
    '0' <= c <= '9'
  }

  function DigitValue(c: char): (d: nat)
    requires IsDigit(c)
    ensures d < 10
  {
    (c as int) - ('0' as int)
  }

  function DigitChar(d: nat): (c: char)
    requires d < 10
    ensures IsDigit(c) && DigitValue(c) == d
  {
    (('0' as int) + d) as char
  }

  /** The white space that `parseInt` and `trim` skip. */
  predicate IsSpace(c: char) {
    || '\U{0009}' <= c <= '\U{000D}'
    || c == ' ' || c == '\U{00A0}' || c == '\U{1680}'
    || '\U{2000}' <= c <= '\U{200A}'
    || c == '\U{2028}' || c == '\U{2029}' || c == '\U{202F}' || c == '\U{205F}'
    || c == '\U{3000}' || c == '\U{FEFF}'
  }

  function TrimStart(s: string): string {
    if s != [] && IsSpace(s[0]) then TrimStart(s[1..]) else s
  }

  function Print(n: nat): string {
    if n < 10 then [DigitChar(n)] else Print(n / 10) + [DigitChar(n % 10)]
  }

  /** Reads decimal digits up to the first other character. */
  function ScanDigits(s: string, acc: nat): nat {
    if s == [] || !IsDigit(s[0]) then acc else ScanDigits(s[1..], 10 * acc + DigitValue(s[0]))
  }

  /** `Number.parseInt(s, 10)`; `None` is NaN. Trailing characters that are not digits are ignored. */
  function ParseInt(s: string): Option<int> {
    var t := TrimStart(s);
    var signed := t != [] && (t[0] == '-' || t[0] == '+');
    var digits := if signed then t[1..] else t;
    if digits == [] || !IsDigit(digits[0]) then None
    else if signed && t[0] == '-' then Some(-(ScanDigits(digits, 0) as int))
    else Some(ScanDigits(digits, 0))
  }

  ghost predicate AllDigits(s: string) {
    forall i :: 0 <= i < |s| ==> IsDigit(s[i])
  }

  lemma {:induction false} PrintIsDigits(n: nat)
    ensures AllDigits(Print(n)) && Print(n) != []
  {
    if n >= 10 {
      PrintIsDigits(n / 10);
    }
  }

  lemma {:induction false} ScanAppend(s: string, t: string, acc: nat)
    requires AllDigits(s)
    ensures ScanDigits(s + t, acc) == ScanDigits(t, ScanDigits(s, acc))
  {
    if s == [] {
      assert s + t == t;
    } else {
      assert (s + t)[1..] == s[1..] + t;
      ScanAppend(s[1..], t, 10 * acc + DigitValue(s[0]));
    }
  }

  lemma {:induction false} ScanPrint(n: nat)
    ensures ScanDigits(Print(n), 0) == n
  {
    if n >= 10 {
      ScanPrint(n / 10);
      PrintIsDigits(n / 10);
      var last := [DigitChar(n % 10)];
      ScanAppend(Print(n / 10), last, 0);
      assert last[1..] == [];
    }
  }

  lemma {:induction false} TrimStartTakesSpaces(spaces: string, t: string)
    requires forall c :: c in spaces ==> IsSpace(c)
    requires t != "" ==> !IsSpace(t[0])
    ensures TrimStart(spaces + t) == t
  {
    if spaces == "" {
      assert spaces + t == t;
    } else {
      assert (spaces + t)[0] == spaces[0] && (spaces + t)[1..] == spaces[1..] + t;
      TrimStartTakesSpaces(spaces[1..], t);
    }
  }

  lemma {:induction false} TrimStartMeans(s: string) returns (spaces: string)
    ensures s == spaces + TrimStart(s)
    ensures forall c :: c in spaces ==> IsSpace(c)
    ensures TrimStart(s) != "" ==> !IsSpace(TrimStart(s)[0])
  {
    spaces := "";
    if s != "" && IsSpace(s[0]) {
      spaces := TrimStartMeans(s[1..]);
      assert s == [s[0]] + s[1..];
      spaces := [s[0]] + spaces;
    }
  }

  lemma {:induction false} ZerosCountNothing(zeros: string)
    requires forall c :: c in zeros ==> c == '0'
    ensures AllDigits(zeros) && ScanDigits(zeros, 0) == 0
  {
    if zeros != "" {
      assert zeros[0] in zeros;
      assert forall c :: c in zeros[1..] ==> c in zeros;
      ZerosCountNothing(zeros[1..]);
    }
  }

  lemma {:induction false} ScanReads(zeros: string, n: nat, rest: string)
    requires forall c :: c in zeros ==> c == '0'
    requires rest != "" ==> !IsDigit(rest[0])
    ensures var digits := zeros + Print(n) + rest;
      && digits != "" && IsDigit(digits[0]) && ScanDigits(digits, 0) == n
  {
    ZerosCountNothing(zeros);
    PrintIsDigits(n);
    ScanPrint(n);
    assert zeros + Print(n) + rest == zeros + (Print(n) + rest);
    ScanAppend(zeros, Print(n) + rest, 0);
    ScanAppend(Print(n), rest, 0);
    assert zeros != "" ==> zeros[0] in zeros;
  }

  /** White space and at most one sign. */
  ghost predicate IsLead(spaces: string, sign: string) {
    (forall c :: c in spaces ==> IsSpace(c)) && (sign == "" || sign == "+" || sign == "-")
  }

  lemma ParseIntAfterLead(spaces: string, sign: string, digits: string)
    requires IsLead(spaces, sign) && digits != "" && IsDigit(digits[0])
    ensures ParseInt(spaces + (sign + digits)) ==
            Some(if sign == "-" then -(ScanDigits(digits, 0) as int) else ScanDigits(digits, 0))
  {
    var t := sign + digits;
    assert sign == "" ==> t == digits;
    assert sign != "" ==> t[0] == sign[0] && t[1..] == digits;
    TrimStartTakesSpaces(spaces, t);
  }

  /** Parsing reads a number after white space, a sign and leading zeros, up to the first character that is no digit. */
  lemma ParseIntReads(spaces: string, sign: string, zeros: string, n: nat, rest: string)
    requires IsLead(spaces, sign)
    requires forall c :: c in zeros ==> c == '0'
    requires rest != "" ==> !IsDigit(rest[0])
    ensures ParseInt(spaces + (sign + (zeros + Print(n) + rest))) == Some(if sign == "-" then -(n as int) else n)
  {
    ScanReads(zeros, n, rest);
    ParseIntAfterLead(spaces, sign, zeros + Print(n) + rest);
  }

  /** It reads a number at all exactly if white space and at most one sign are followed by a digit. */
  lemma ParseIntIff(s: string)
    ensures ParseInt(s).Some? <==>
            exists spaces, sign, digits ::
              IsLead(spaces, sign) && s == spaces + (sign + digits) && digits != "" && IsDigit(digits[0])
  {
    if ParseInt(s).Some? {
      var spaces := TrimStartMeans(s);
      var t := TrimStart(s);
      var sign := if t[0] == '-' || t[0] == '+' then t[..1] else "";
      assert t == sign + t[|sign|..];
      assert IsLead(spaces, sign) && s == spaces + (sign + t[|sign|..]);
    }
    if spaces, sign, digits :|
      IsLead(spaces, sign) && s == spaces + (sign + digits) && digits != "" && IsDigit(digits[0]) {
      ParseIntAfterLead(spaces, sign, digits);
    }
  }

  /** Printing then parsing gives the number back. */
  lemma ParsePrint(n: nat)
    ensures ParseInt(Print(n)) == Some(n as int)
  {
    PrintIsDigits(n);
    ScanPrint(n);
  }

  lemma ParseNegative(n: nat)
    ensures ParseInt("-" + Print(n)) == Some(-(n as int))
  {
    assert "" + ("-" + ("" + Print(n) + "")) == "-" + Print(n);
    ParseIntReads("", "-", "", n, "");
  }
}
