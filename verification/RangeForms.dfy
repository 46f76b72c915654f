/** Which Range headers are served at all: the exact form of a header that gives an interval, and how far
    that goes beyond the int-range and suffix-range of section 14.1.2 of RFC 9110. */
module RangeForms {
  import opened Text
  import opened Numerals
  import opened RangeHeader

  /** A number between blanks, or just blanks. */
  ghost predicate PaddedBy(s: string, left: string, t: string, right: string, n: Option<int>) {
    && s == left + t + right && AllSpaces(left) && AllSpaces(right)
    && (if n.None? then t == "" else Numeral(t, 10, n.value))
  }

  ghost predicate Padded(s: string, n: Option<int>) {
    exists left, t, right :: PaddedBy(s, left, t, right, n)
  }

  /** The text on either side of the first dash. */
  ghost predicate Splits(spec: string, left: string, right: string) {
    spec == left + "-" + right && '-' !in left
  }

  /** The header is one range, from the first number, if any, to the last, if any. */
  ghost predicate ReadsAs(header: string, left: string, right: string, first: Option<int>, last: Option<int>) {
    && header == "bytes=" + (left + "-" + right) && '-' !in left && ',' !in left && ',' !in right
    && Padded(left, first) && Padded(right, last)
  }

  /** The positions that such a range selects from an object, clamped to it. */
  ghost predicate Selected(first: Option<int>, last: Option<int>, size: int, start: int, end: int) {
    && 0 <= start <= end < size
    && (last.Some? && first.Some? ==> start == first.value <= last.value && end == Min(last.value, size - 1))
    && (last.None? && first.Some? ==> start == first.value && end == size - 1)
    && (last.Some? && first.None? ==> last.value > 0 && end == size - 1 && end - start + 1 == Min(last.value, size))
    && (first.Some? || last.Some?)
  }

  // ---------- trimming and splitting ----------

  function NumberIn(t: string): Option<int> {
    if t == "" then None else ParseInt(t, 10)
  }

  lemma {:induction false} TrimLeftBlank(s: string)
    requires AllSpaces(s)
    ensures TrimLeft(s) == ""
  {
    if s != "" {
      TrimLeftBlank(s[1..]);
    }
  }

  lemma PaddedTrims(s: string, n: Option<int>)
    requires Padded(s, n)
    ensures NoSpaces(TrimSpace(s)) && (n.None? <==> TrimSpace(s) == "")
    ensures n.Some? ==> ParseInt(TrimSpace(s), 10) == n
  {
    var left, t, right :| PaddedBy(s, left, t, right, n);
    if n.Some? {
      NumeralIsPlain(t, 10, n.value);
      ParseIntIff(t, 10, n.value);
    }
    TrimToken(left, t, right);
  }

  lemma TrimsPadded(s: string, n: Option<int>)
    requires if n.None? then TrimSpace(s) == "" else TrimSpace(s) != "" && ParseInt(TrimSpace(s), 10) == n
    ensures Padded(s, n)
  {
    var left, right := TrimParts(s);
    if n.Some? {
      ParseIntIff(TrimSpace(s), 10, n.value);
    }
    assert PaddedBy(s, left, TrimSpace(s), right, n);
  }

  /** Blanks before and after a range belong to its two halves. */
  lemma OuterBlanks(w: string, spec: string, v: string, left: string, right: string, n: Option<int>, m: Option<int>)
    requires AllSpaces(w) && AllSpaces(v) && Splits(spec, left, right)
    requires Padded(left, n) && Padded(right, m)
    ensures Splits(w + spec + v, w + left, right + v) && Padded(w + left, n) && Padded(right + v, m)
  {
    var a, t, b :| PaddedBy(left, a, t, b, n);
    assert PaddedBy(w + left, w + a, t, b, n);
    var c, u, d :| PaddedBy(right, c, u, d, m);
    assert PaddedBy(right + v, c, u, d + v, m);
    assert !IsSpace('-');
    assert w + spec + v == (w + left) + "-" + (right + v);
  }

  lemma FirstDash(spec: string)
    requires Index(spec, "-") >= 0
    ensures var dash := Index(spec, "-"); Splits(spec, spec[..dash], spec[dash + 1..])
  {
    var dash := Index(spec, "-");
    assert spec[dash..dash + 1] == "-";
    forall i | 0 <= i < dash ensures spec[i] != '-' {
      assert !OccursAt(spec, "-", i);
      assert spec[i..i + 1] == [spec[i]];
    }
    assert spec == spec[..dash] + "-" + spec[dash + 1..];
  }

  // ---------- what is read ----------

  lemma ClampSelects(first: Option<int>, last: Option<int>, size: int, a: string, b: string, r: Parsed)
    requires size > 0 && r == ParseNumbers(a, b, size)
    requires if first.None? then a == "" else a != "" && ParseInt(a, 10) == first
    requires if last.None? then b == "" else b != "" && ParseInt(b, 10) == last
    ensures r.Interval? ==> Selected(first, last, size, r.start, r.end)
    ensures forall start, end :: Selected(first, last, size, start, end) ==> r.Interval? && r.start == start && r.end == end
  {
  }

  lemma NumbersNeeded(a: string, b: string, size: int)
    requires size > 0 && ParseNumbers(a, b, size).Interval?
    ensures (a != "" ==> ParseInt(a, 10).Some?) && (b != "" ==> ParseInt(b, 10).Some?)
  {
  }

  lemma NoComma(spec: string)
    ensures Index(spec, ",") >= 0 <==> ',' in spec
  {
    var i := Index(spec, ",");
    if i >= 0 {
      assert spec[i] == spec[i..i + 1][0] == ',';
    } else {
      forall k | 0 <= k < |spec| ensures spec[k] != ',' {
        assert !OccursAt(spec, ",", k);
        assert spec[k..k + 1] == [spec[k]];
      }
    }
  }

  /** A header with a comma, and no other, is refused as several ranges. */
  lemma MultipleIff(header: string, size: int)
    ensures ParseSingleRange(header, size) == Multiple <==> size > 0 && "bytes=" <= header && ',' in header[6..]
  {
    if "bytes=" <= header {
      NoComma(header[6..]);
    }
  }

  /** A header that is served has the form. */
  lemma ServedHasForm(header: string, size: int)
    returns (left: string, right: string, first: Option<int>, last: Option<int>)
    requires ParseSingleRange(header, size).Interval?
    ensures ReadsAs(header, left, right, first, last)
    ensures var r := ParseSingleRange(header, size); Selected(first, last, size, r.start, r.end)
  {
    var spec := header[6..];
    NoComma(spec);
    var w, v := TrimParts(spec);
    var inner := TrimSpace(spec);
    FirstDash(inner);
    var dash := Index(inner, "-");
    var a, b := TrimSpace(inner[..dash]), TrimSpace(inner[dash + 1..]);
    NumbersNeeded(a, b, size);
    first, last := NumberIn(a), NumberIn(b);
    TrimsPadded(inner[..dash], first);
    TrimsPadded(inner[dash + 1..], last);
    OuterBlanks(w, inner, v, inner[..dash], inner[dash + 1..], first, last);
    left, right := w + inner[..dash], inner[dash + 1..] + v;
    ClampSelects(first, last, size, a, b, ParseNumbers(a, b, size));
    assert header == "bytes=" + spec && spec == left + "-" + right;
  }

  // ---------- the form is served ----------

  lemma {:induction false} TrimLeftAround(x: string, y: string)
    ensures TrimLeft(x + "-" + y) == TrimLeft(x) + "-" + y
  {
    if x != "" && IsSpace(x[0]) {
      assert (x + "-" + y)[1..] == x[1..] + "-" + y;
      TrimLeftAround(x[1..], y);
    }
  }

  lemma {:induction false} TrimRightAround(x: string, y: string)
    ensures TrimRight(x + "-" + y) == x + "-" + TrimRight(y)
  {
    var s := x + "-" + y;
    if y != "" && IsSpace(y[|y| - 1]) {
      assert s[..|s| - 1] == x + "-" + y[..|y| - 1];
      TrimRightAround(x, y[..|y| - 1]);
    } else if y == "" {
      assert s[|s| - 1] == '-' && s == x + "-" + TrimRight(y);
    }
  }

  lemma {:induction false} TrimRightToToken(left: string, s: string, right: string)
    requires AllSpaces(right) && NoSpaces(s) && s != ""
    ensures TrimRight(left + s + right) == left + s
  {
    var all := left + s + right;
    if right == "" {
      assert all == left + s;
    } else {
      assert all[..|all| - 1] == left + s + right[..|right| - 1];
      TrimRightToToken(left, s, right[..|right| - 1]);
    }
  }

  lemma PaddedLeft(s: string, n: Option<int>)
    requires Padded(s, n)
    ensures Padded(TrimLeft(s), n)
  {
    var left, t, right :| PaddedBy(s, left, t, right, n);
    if n.None? {
      TrimLeftBlank(s);
      assert PaddedBy("", "", "", "", n);
    } else {
      NumeralIsPlain(t, 10, n.value);
      TrimLeftToToken(left, t, right);
      assert PaddedBy(t + right, "", t, right, n);
    }
  }

  lemma PaddedRight(s: string, n: Option<int>)
    requires Padded(s, n)
    ensures Padded(TrimRight(s), n)
  {
    var left, t, right :| PaddedBy(s, left, t, right, n);
    if n.None? {
      TrimRightDrops("", s);
      assert "" + s == s;
      assert PaddedBy("", "", "", "", n);
    } else {
      NumeralIsPlain(t, 10, n.value);
      TrimRightToToken(left, t, right);
      assert PaddedBy(left + t, left, t, "", n);
    }
  }

  lemma TrimLeftKeeps(s: string, c: char)
    requires c !in s
    ensures c !in TrimLeft(s)
  {
    var left := TrimLeftParts(s);
  }

  lemma DashIndex(left: string, right: string)
    requires '-' !in left
    ensures var spec := left + "-" + right;
            && Index(spec, "-") == |left| && spec[..|left|] == left && spec[|left| + 1..] == right
  {
    IndexOfChar(left, '-', right);
    var spec := left + "-" + right;
    assert spec[..|left|] == left && spec[|left| + 1..] == right;
  }

  /** What a header of the form is read as. */
  lemma FormIsRead(header: string, left: string, right: string, first: Option<int>, last: Option<int>, size: int)
    requires ReadsAs(header, left, right, first, last) && size > 0
    ensures ParseSingleRange(header, size) == ParseNumbers(TrimSpace(TrimLeft(left)), TrimSpace(TrimRight(right)), size)
    ensures Padded(TrimLeft(left), first) && Padded(TrimRight(right), last)
  {
    var spec := left + "-" + right;
    assert header[6..] == spec && "bytes=" <= header;
    NoComma(spec);
    PaddedLeft(left, first);
    PaddedRight(right, last);
    TrimLeftAround(left, right);
    TrimRightAround(TrimLeft(left), right);
    TrimLeftKeeps(left, '-');
    DashIndex(TrimLeft(left), TrimRight(right));
  }

  lemma FormIsServed(header: string, left: string, right: string, first: Option<int>, last: Option<int>,
                     size: int, start: int, end: int)
    requires ReadsAs(header, left, right, first, last) && Selected(first, last, size, start, end)
    ensures ParseSingleRange(header, size) == Interval(start, end)
  {
    FormIsRead(header, left, right, first, last, size);
    PaddedTrims(TrimLeft(left), first);
    PaddedTrims(TrimRight(right), last);
    ClampSelects(first, last, size, TrimSpace(TrimLeft(left)), TrimSpace(TrimRight(right)),
                 ParseSingleRange(header, size));
  }

  /** A header is served as an interval if and only if it is one range of numbers that fit in 64 bits, signed
      or not, with blanks around them, and the interval is what that selects. */
  lemma ServedIff(header: string, size: int, start: nat, end: nat)
    ensures ParseSingleRange(header, size) == Interval(start, end) <==>
            exists left, right, first, last ::
              ReadsAs(header, left, right, first, last) && Selected(first, last, size, start, end)
  {
    if ParseSingleRange(header, size) == Interval(start, end) {
      var left, right, first, last := ServedHasForm(header, size);
    }
    if left, right, first, last :|
      ReadsAs(header, left, right, first, last) && Selected(first, last, size, start, end) {
      FormIsServed(header, left, right, first, last, size, start, end);
    }
  }

  // ---------- beyond the RFC ----------

  ghost predicate AllDigits(s: string) {
    forall i :: 0 <= i < |s| ==> '0' <= s[i] <= '9'
  }

  /** An int-range or a suffix-range as the RFC spells it. */
  ghost predicate RfcForm(header: string, left: string, right: string) {
    header == "bytes=" + (left + "-" + right) && AllDigits(left) && AllDigits(right)
  }

  ghost predicate Bare(s: string) {
    forall i :: 0 <= i < |s| ==> !IsSpace(s[i]) && s[i] != '+' && s[i] != '-'
  }

  lemma {:induction false} DigitsOnly(s: string)
    requires DigitsValue(s, 10) >= 0
    ensures AllDigits(s)
  {
    if s != "" {
      DigitsOnly(s[..|s| - 1]);
    }
  }

  lemma NumeralBare(t: string, v: int)
    requires Numeral(t, 10, v)
    ensures Bare(t) ==> AllDigits(t)
  {
    var sign :| Signed(t, sign, 10, v);
    SpelledIsDigits(t[|sign|..], 10, if v < 0 then -v else v);
    DigitsOnly(t[|sign|..]);
    if sign == "" {
      assert t[0..] == t;
    } else {
      assert t[0] == sign[0];
      assert !Bare(t);
    }
  }

  lemma BlanksNotBare(s: string)
    requires AllSpaces(s) && s != ""
    ensures !Bare(s)
  {
    assert IsSpace(s[0]);
  }

  lemma BareParts(left: string, t: string, right: string)
    ensures Bare(left + t + right) <==> Bare(left) && Bare(t) && Bare(right)
  {
    var s := left + t + right;
    assert forall i :: 0 <= i < |left| ==> s[i] == left[i];
    assert forall i :: 0 <= i < |t| ==> s[|left| + i] == t[i];
    assert forall i :: 0 <= i < |right| ==> s[|left| + |t| + i] == right[i];
  }

  lemma BareIsDigits(s: string, n: Option<int>)
    requires Padded(s, n)
    ensures Bare(s) <==> AllDigits(s)
  {
    var left, t, right :| PaddedBy(s, left, t, right, n);
    BareParts(left, t, right);
    if left != "" {
      BlanksNotBare(left);
    }
    if right != "" {
      BlanksNotBare(right);
    }
    if n.Some? {
      NumeralBare(t, n.value);
    }
    assert left == "" && right == "" ==> s == t;
  }

  /** A header that is served is a range of the RFC if and only if its two sides hold no blanks and no signs. */
  lemma RfcFormIff(header: string, size: int)
    returns (left: string, right: string, first: Option<int>, last: Option<int>)
    requires ParseSingleRange(header, size).Interval?
    ensures ReadsAs(header, left, right, first, last)
    ensures RfcForm(header, left, right) <==> Bare(left) && Bare(right)
  {
    left, right, first, last := ServedHasForm(header, size);
    BareIsDigits(left, first);
    BareIsDigits(right, last);
  }

  lemma ZeroIsNumeral()
    ensures Numeral("+0", 10, 0) && Numeral("-0", 10, 0)
  {
    assert LowerCase("0") == LowerCase("") + ['0'];
    assert LowerCase("0") == Zeros(0) + FormatUint(0, 10);
    assert "+0"[1..] == "0" && "-0"[1..] == "0";
    assert Signed("+0", "+", 10, 0) && Signed("-0", "-", 10, 0);
  }

  lemma LooseForm()
    ensures ReadsAs("bytes=+0 --0", "+0 ", "-0", Some(0), Some(0))
  {
    ZeroIsNumeral();
    assert PaddedBy("+0 ", "", "+0", " ", Some(0));
    assert PaddedBy("-0", "", "-0", "", Some(0));
    assert "bytes=+0 --0" == "bytes=" + ("+0 " + "-" + "-0");
  }

  /** Others are served too. */
  lemma LooseFormServed(size: int)
    requires size > 0
    ensures ParseSingleRange("bytes=+0 --0", size) == Interval(0, 0)
  {
    LooseForm();
    FormIsServed("bytes=+0 --0", "+0 ", "-0", Some(0), Some(0), size, 0, 0);
  }
}
