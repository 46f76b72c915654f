/** What the numbers in headers, parameters and tokens may look like: parsing accepts exactly the
    signed digit strings whose value fits in 64 bits. */
module Numerals {
  import opened Text

  /** The digits of every base, in either case, in order of value. */
  const LOWER: string := "0123456789abcdef"
  const UPPER: string := "0123456789ABCDEF"

  lemma DigitValueIs(c: char, base: Base, d: nat)
    requires d < base
    ensures DigitValue(c, base) == d <==> c == LOWER[d] || c == UPPER[d]
    ensures DigitChar(d) == LOWER[d]
  {
  }

  function Lower(c: char): char {
    if 'A' <= c <= 'F' then (c as int + 32) as char else c
  }

  lemma LowerKeepsDigit(c: char, base: Base, d: nat)
    requires d < base && DigitValue(c, base) == d
    ensures Lower(c) == DigitChar(d)
  {
  }

  function LowerCase(s: string): string {
    if s == "" then ""
    else LowerCase(s[..|s| - 1]) + [Lower(s[|s| - 1])]
  }

  function Zeros(n: nat): string {
    if n == 0 then "" else Zeros(n - 1) + "0"
  }

  /** The text is the number as it is printed, after any number of zeros and in either case. */
  ghost predicate Spells(s: string, base: Base, n: nat) {
    exists zeros: nat :: LowerCase(s) == Zeros(zeros) + FormatUint(n, base)
  }

  /** Printing a number appends its last digit to what the rest prints. */
  lemma PrintNext(hi: nat, d: nat, base: Base)
    requires d < base
    ensures FormatUint(Times(hi, base) + d, base)
         == (if hi == 0 then "" else FormatUint(hi, base)) + [DigitChar(d)]
  {
    var n := Times(hi, base) + d;
    assert High(n, base) == hi && Low(n, base) == d;
  }

  lemma LowerCaseNext(s: string, base: Base, d: nat)
    requires s != "" && d < base && DigitValue(s[|s| - 1], base) == d
    ensures LowerCase(s) == LowerCase(s[..|s| - 1]) + [DigitChar(d)]
  {
    LowerKeepsDigit(s[|s| - 1], base, d);
  }

  lemma SpellsNext(s: string, base: Base, zeros: nat, hi: nat, d: nat)
    requires s != "" && d < base && DigitValue(s[|s| - 1], base) == d
    requires LowerCase(s[..|s| - 1]) == Zeros(zeros) + FormatUint(hi, base)
    ensures Spells(s, base, Times(hi, base) + d)
  {
    var n := Times(hi, base) + d;
    LowerCaseNext(s, base, d);
    PrintNext(hi, d, base);
    if hi == 0 {
      PrintNext(0, 0, base);
      assert LowerCase(s) == Zeros(zeros + 1) + FormatUint(n, base);
    } else {
      assert LowerCase(s) == Zeros(zeros) + FormatUint(n, base);
    }
  }

  lemma {:induction false} ValueSpells(s: string, base: Base)
    requires s != "" && DigitsValue(s, base) >= 0
    ensures Spells(s, base, DigitsValue(s, base))
  {
    var init, d := s[..|s| - 1], DigitValue(s[|s| - 1], base);
    if init == "" {
      LowerCaseNext(s, base, d);
      PrintNext(0, d, base);
      assert LowerCase(s) == Zeros(0) + FormatUint(d, base);
    } else {
      ValueSpells(init, base);
      var zeros: nat :| LowerCase(init) == Zeros(zeros) + FormatUint(DigitsValue(init, base), base);
      SpellsNext(s, base, zeros, DigitsValue(init, base), d);
    }
  }

  lemma LowerKeepsValue(c: char, base: Base)
    ensures DigitValue(Lower(c), base) == DigitValue(c, base)
  {
  }

  lemma {:induction false} CaseKeepsValue(s: string, base: Base)
    ensures DigitsValue(LowerCase(s), base) == DigitsValue(s, base)
  {
    if s != "" {
      CaseKeepsValue(s[..|s| - 1], base);
      LowerKeepsValue(s[|s| - 1], base);
      assert LowerCase(s)[..|LowerCase(s)| - 1] == LowerCase(s[..|s| - 1]);
    }
  }

  lemma {:induction false} ZerosKeepValue(zeros: nat, s: string, base: Base)
    ensures DigitsValue(Zeros(zeros) + s, base) == DigitsValue(s, base)
    decreases |s|, zeros
  {
    var t := Zeros(zeros) + s;
    if s != "" {
      assert t[..|t| - 1] == Zeros(zeros) + s[..|s| - 1];
      ZerosKeepValue(zeros, s[..|s| - 1], base);
    } else if zeros > 0 {
      assert t[..|t| - 1] == Zeros(zeros - 1) + "";
      ZerosKeepValue(zeros - 1, "", base);
    }
  }

  /** The value of a string of digits is the number that it spells. */
  lemma DigitsValueIff(s: string, base: Base, n: nat)
    ensures s != "" && DigitsValue(s, base) == n <==> Spells(s, base, n)
  {
    if s != "" && DigitsValue(s, base) == n {
      ValueSpells(s, base);
    }
    if zeros: nat :| LowerCase(s) == Zeros(zeros) + FormatUint(n, base) {
      FormatValue(n, base);
      ZerosKeepValue(zeros, FormatUint(n, base), base);
      CaseKeepsValue(s, base);
    }
  }

  /** An optional sign, then digits that spell the number's size, within 64 bits. */
  ghost predicate Signed(s: string, sign: string, base: Base, v: int) {
    && sign in {"", "+", "-"} && sign <= s
    && (sign == "-" ==> v <= 0) && (sign != "-" ==> v >= 0)
    && Spells(s[|sign|..], base, if v < 0 then -v else v)
  }

  ghost predicate Numeral(s: string, base: Base, v: int) {
    -(TWO_POW_63 as int) <= v < TWO_POW_63 && exists sign :: Signed(s, sign, base, v)
  }

  function SignOf(s: string): string {
    if s == "" then "" else if s[0] == '-' then "-" else if s[0] == '+' then "+" else ""
  }

  /** Spelled numbers start with a digit. */
  lemma SpelledIsDigits(s: string, base: Base, n: nat)
    requires Spells(s, base, n)
    ensures s != "" && SignOf(s) == "" && DigitsValue(s, base) == n
  {
    DigitsValueIff(s, base, n);
    FirstIsDigit(s, base);
  }

  lemma {:induction false} FirstIsDigit(s: string, base: Base)
    requires s != "" && DigitsValue(s, base) >= 0
    ensures IsDigit(s[0], base)
  {
    if |s| > 1 {
      FirstIsDigit(s[..|s| - 1], base);
    }
  }

  /** Parsing a number succeeds exactly on the numerals, and gives the number spelled. */
  lemma ParseIntIff(s: string, base: Base, v: int)
    ensures ParseInt(s, base) == Some(v) <==> Numeral(s, base, v)
  {
    if ParseInt(s, base) == Some(v) {
      var sign := SignOf(s);
      assert sign <= s;
      DigitsValueIff(s[|sign|..], base, if v < 0 then -v else v);
      assert Signed(s, sign, base, v);
    }
    if Numeral(s, base, v) {
      var sign :| Signed(s, sign, base, v);
      SpelledIsDigits(s[|sign|..], base, if v < 0 then -v else v);
      assert SignOf(s) == sign;
    }
  }

  lemma {:induction false} DigitsArePlain(s: string, base: Base)
    requires DigitsValue(s, base) >= 0
    ensures forall i :: 0 <= i < |s| ==> !IsSpace(s[i]) && s[i] !in {';', ',', '-', '+'}
  {
    if s != "" {
      DigitsArePlain(s[..|s| - 1], base);
    }
  }

  /** Numerals hold neither blanks nor separators. */
  lemma NumeralIsPlain(s: string, base: Base, v: int)
    requires Numeral(s, base, v)
    ensures s != "" && NoSpaces(s) && forall i :: 0 <= i < |s| ==> s[i] !in {';', ','} && (i > 0 ==> s[i] != '-')
  {
    var sign :| Signed(s, sign, base, v);
    var digits := s[|sign|..];
    SpelledIsDigits(digits, base, if v < 0 then -v else v);
    DigitsArePlain(digits, base);
    forall i | 0 <= i < |s| ensures !IsSpace(s[i]) && s[i] !in {';', ','} && (i > 0 ==> s[i] != '-') {
      assert i < |sign| ==> s[i] == sign[i];
      assert i >= |sign| ==> s[i] == digits[i - |sign|];
    }
  }

  // ---------- trimming ----------

  lemma {:induction false} TrimLeftParts(s: string) returns (blank: string)
    ensures AllSpaces(blank) && s == blank + TrimLeft(s)
  {
    if |s| > 0 && IsSpace(s[0]) {
      var more := TrimLeftParts(s[1..]);
      blank := [s[0]] + more;
    } else {
      blank := "";
    }
  }

  lemma {:induction false} TrimRightParts(s: string) returns (blank: string)
    ensures AllSpaces(blank) && s == TrimRight(s) + blank
  {
    if |s| > 0 && IsSpace(s[|s| - 1]) {
      var more := TrimRightParts(s[..|s| - 1]);
      blank := more + [s[|s| - 1]];
      assert s == s[..|s| - 1] + [s[|s| - 1]];
    } else {
      blank := "";
    }
  }

  /** Trimming takes off blanks only. */
  lemma TrimParts(s: string) returns (left: string, right: string)
    ensures AllSpaces(left) && AllSpaces(right) && s == left + TrimSpace(s) + right
  {
    left := TrimLeftParts(s);
    right := TrimRightParts(TrimLeft(s));
  }
}
