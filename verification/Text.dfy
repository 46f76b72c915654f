/** Strings and numbers as the proxy uses them: byte strings, substring search, trimming,
    and the printing and parsing of integers done by Go's `strconv` and `fmt`. */
module Text {

  datatype Option<+T> = None | Some(value: T)

  /** A byte, written as the character with the same code. */
  type Byte = c: char | c as int < 256 witness '0'

  type Bytes = seq<Byte>

  function Min(a: int, b: int): int {
    if a <= b then a else b
  }

  const TWO_POW_63: nat := 0x8000_0000_0000_0000

  // ---------- substring search ----------

  ghost predicate OccursAt(s: string, sub: string, i: int) {
    0 <= i && i + |sub| <= |s| && s[i..i + |sub|] == sub
  }

  /** First position at or after `from` where `sub` occurs, or -1. */
  function IndexFrom(s: string, sub: string, from: nat): (i: int)
    ensures i == -1 || (from <= i && OccursAt(s, sub, i))
    ensures forall j :: from <= j && (i == -1 || j < i) ==> !OccursAt(s, sub, j)
    decreases |s| - from
  {
    if from + |sub| > |s| then -1
    else if s[from..from + |sub|] == sub then from
    else IndexFrom(s, sub, from + 1)
  }

  /** `strings.Index` */
  function Index(s: string, sub: string): (i: int)
    ensures i == -1 || (0 <= i && OccursAt(s, sub, i))
    ensures forall j :: 0 <= j && (i == -1 || j < i) ==> !OccursAt(s, sub, j)
  {
    IndexFrom(s, sub, 0)
  }

  /** The first occurrence is the only position with these two properties. */
  lemma IndexIs(s: string, sub: string, i: nat)
    requires OccursAt(s, sub, i)
    requires forall j :: 0 <= j < i ==> !OccursAt(s, sub, j)
    ensures Index(s, sub) == i
  {
  }

  /** A one-character search finds the first such character. */
  lemma IndexOfChar(before: string, c: char, after: string)
    requires c !in before
    ensures Index(before + [c] + after, [c]) == |before|
  {
    var s := before + [c] + after;
    assert s[|before|..|before| + 1] == [c];
    forall j | 0 <= j < |before| ensures !OccursAt(s, [c], j) {
      assert s[j] == before[j];
      assert s[j..j + 1] == [before[j]];
    }
    IndexIs(s, [c], |before|);
  }

  lemma NoIndexOfChar(s: string, c: char)
    requires c !in s
    ensures Index(s, [c]) == -1
  {
    forall i | 0 <= i < |s| ensures !OccursAt(s, [c], i) {
      assert s[i..i + 1] == [s[i]];
    }
  }

  // ---------- trimming ----------

  predicate IsSpace(c: char) {
    c == ' ' || c == '\t' || c == '\n' || c == '\r' || c as int == 11 || c as int == 12
  }

  function TrimLeft(s: string): string {
    if |s| > 0 && IsSpace(s[0]) then TrimLeft(s[1..]) else s
  }

  function TrimRight(s: string): string {
    if |s| > 0 && IsSpace(s[|s| - 1]) then TrimRight(s[..|s| - 1]) else s
  }

  /** `strings.TrimSpace` on ASCII text */
  function TrimSpace(s: string): string {
    TrimRight(TrimLeft(s))
  }

  ghost predicate NoSpaces(s: string) {
    forall i :: 0 <= i < |s| ==> !IsSpace(s[i])
  }

  ghost predicate AllSpaces(s: string) {
    forall i :: 0 <= i < |s| ==> IsSpace(s[i])
  }

  lemma {:induction false} TrimLeftDrops(blank: string, s: string)
    requires AllSpaces(blank) && NoSpaces(s)
    ensures TrimLeft(blank + s) == s
  {
    if blank == "" {
      assert blank + s == s;
    } else {
      assert (blank + s)[1..] == blank[1..] + s;
      TrimLeftDrops(blank[1..], s);
    }
  }

  lemma {:induction false} TrimRightDrops(s: string, blank: string)
    requires AllSpaces(blank) && NoSpaces(s)
    ensures TrimRight(s + blank) == s
  {
    if blank == "" {
      assert s + blank == s;
    } else {
      var n := |blank| - 1;
      assert (s + blank)[..|s + blank| - 1] == s + blank[..n];
      assert (s + blank)[|s + blank| - 1] == blank[n];
      TrimRightDrops(s, blank[..n]);
    }
  }

  /** Blanks on either side of a token disappear. */
  lemma TrimToken(left: string, s: string, right: string)
    requires AllSpaces(left) && AllSpaces(right) && NoSpaces(s)
    ensures TrimSpace(left + s + right) == s
  {
    if s == "" {
      var blank := left + right;
      assert left + s + right == blank + "";
      TrimLeftDrops(blank, "");
    } else {
      TrimLeftToToken(left, s, right);
      TrimRightDrops(s, right);
    }
  }

  lemma {:induction false} TrimLeftToToken(left: string, s: string, right: string)
    requires AllSpaces(left) && NoSpaces(s) && s != ""
    ensures TrimLeft(left + s + right) == s + right
  {
    if left == "" {
      assert left + s + right == s + right;
    } else {
      assert (left + s + right)[1..] == left[1..] + s + right;
      TrimLeftToToken(left[1..], s, right);
    }
  }

  // ---------- integers ----------

  /** The bases the proxy prints and parses in; arithmetic is spelled out for each. */
  type Base = b: nat | b == 10 || b == 16 witness 10

  function Times(n: nat, base: Base): nat {
    if base == 10 then n * 10 else n * 16
  }

  function High(n: nat, base: Base): nat {
    if base == 10 then n / 10 else n / 16
  }

  function Low(n: nat, base: Base): (d: nat)
    ensures d < base
  {
    if base == 10 then n % 10 else n % 16
  }

  function DigitChar(d: nat): Byte
    requires d < 16
  {
    if d < 10 then (d + 48) as char else (d + 87) as char
  }

  /** Value of a digit in the given base, -1 for any other character. */
  function DigitValue(c: char, base: Base): int {
    var n := c as int;
    var v := if 48 <= n <= 57 then n - 48
             else if 97 <= n <= 102 then n - 87
             else if 65 <= n <= 70 then n - 55
             else -1;
    if v < base then v else -1
  }

  /** Digits of `n`, no sign and no leading zeros (`%d`, `%x`, `strconv.Itoa`). */
  function FormatUint(n: nat, base: Base): Bytes {
    if n < base then [DigitChar(n)] else FormatUint(High(n, base), base) + [DigitChar(Low(n, base))]
  }

  /** Value of a string of digits, -1 if some character is not a digit. */
  function DigitsValue(s: string, base: Base): int {
    if s == "" then 0
    else
      var hi := DigitsValue(s[..|s| - 1], base);
      var d := DigitValue(s[|s| - 1], base);
      if hi < 0 || d < 0 then -1 else Times(hi, base) + d
  }

  /** `strconv.ParseInt(s, base, 64)`: optional sign, digits, 64-bit range. */
  function ParseInt(s: string, base: Base): Option<int> {
    if s == "" then None
    else
      var neg := s[0] == '-';
      var body := if s[0] == '-' || s[0] == '+' then s[1..] else s;
      if body == "" then None
      else
        var v := DigitsValue(body, base);
        if v < 0 || (!neg && v >= TWO_POW_63) || (neg && v > TWO_POW_63) then None
        else Some(if neg then -v else v)
  }

  predicate IsDigit(c: char, base: Base) {
    DigitValue(c, base) >= 0
  }

  /** Parsing undoes printing. */
  lemma {:induction false} FormatValue(n: nat, base: Base)
    ensures DigitsValue(FormatUint(n, base), base) == n
    ensures FormatUint(n, base) != ""
    ensures forall c :: c in FormatUint(n, base) ==> IsDigit(c, base)
    decreases n
  {
    if n < base {
      AppendDigit("", n, base);
      assert FormatUint(n, base) == "" + [DigitChar(n)];
    } else {
      FormatValue(High(n, base), base);
      AppendDigit(FormatUint(High(n, base), base), Low(n, base), base);
    }
  }

  lemma AppendDigit(s: string, d: nat, base: Base)
    requires d < base
    ensures DigitValue(DigitChar(d), base) == d
    ensures DigitsValue(s, base) >= 0 ==>
              DigitsValue(s + [DigitChar(d)], base) == Times(DigitsValue(s, base), base) + d
  {
    var t := s + [DigitChar(d)];
    assert t[..|t| - 1] == s;
  }

  /** `ParseInt` returns a printed natural exactly when it fits in 63 bits. */
  lemma ParsePrinted(n: nat, base: Base)
    ensures ParseInt(FormatUint(n, base), base) == if n < TWO_POW_63 then Some(n) else None
  {
    FormatValue(n, base);
    assert IsDigit(FormatUint(n, base)[0], base);
  }

  /** Printed numbers hold no separator that the proxy's formats use. */
  lemma PrintedIsPlain(n: nat, base: Base)
    ensures FormatUint(n, base) != ""
    ensures NoSpaces(FormatUint(n, base))
    ensures forall c :: c in FormatUint(n, base) ==>
              c != '-' && c != '@' && c != ',' && c != ';' && c != '_' && c != '+' && c as int < 256
  {
    FormatValue(n, base);
  }

  lemma PrintInjective(m: nat, n: nat, base: Base)
    requires FormatUint(m, base) == FormatUint(n, base)
    ensures m == n
  {
    FormatValue(m, base);
    FormatValue(n, base);
  }

  // ---------- splitting two equal concatenations ----------

  /** If neither left part holds the separator, the first separator splits both alike. */
  lemma SplitAtFirst(a: string, b: string, c: char, x: string, y: string)
    requires c !in a && c !in b
    requires a + [c] + x == b + [c] + y
    ensures a == b && x == y
  {
    IndexOfChar(a, c, x);
    IndexOfChar(b, c, y);
    assert a == (a + [c] + x)[..|a|] && b == (b + [c] + y)[..|b|];
    assert x == (a + [c] + x)[|a| + 1..] && y == (b + [c] + y)[|b| + 1..];
  }

  /** If neither right part holds the separator, the last separator splits both alike. */
  lemma SplitAtLast(a: string, b: string, c: char, x: string, y: string)
    requires c !in x && c !in y
    requires a + [c] + x == b + [c] + y
    ensures a == b && x == y
  {
    var s := a + [c] + x;
    var t := b + [c] + y;
    assert forall k :: |a| < k < |s| ==> s[k] == x[k - |a| - 1];
    assert forall k :: |b| < k < |t| ==> t[k] == y[k - |b| - 1];
    assert s[|a|] == c && t[|b|] == c;
    assert a == s[..|a|] && b == t[..|b|];
    assert x == s[|a| + 1..] && y == t[|b| + 1..];
  }
}
