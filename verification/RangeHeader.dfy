/** Parsing of a single HTTP Range header and clamping it to an object's size, compared with
    the byte ranges of section 14.1.2 of RFC 9110. */
module RangeHeader {
  import opened Text

  datatype Parsed = Interval(start: nat, end: nat) | Multiple | Invalid

  /** `parseSingleRange`: both offsets of the result are inclusive. */
  function ParseSingleRange(header: string, size: int): (r: Parsed)
    ensures r.Interval? ==> 0 <= r.start <= r.end < size
  {
    if header == "" || size <= 0 then Invalid
    else if !("bytes=" <= header) then Invalid
    else
      var spec := header[6..];
      if Index(spec, ",") >= 0 then Multiple
      else ParseRangeSpec(TrimSpace(spec), size)
  }

  function ParseRangeSpec(rangeSpec: string, size: int): (r: Parsed)
    requires size > 0
    ensures r.Interval? ==> 0 <= r.start <= r.end < size
  {
    var dash := Index(rangeSpec, "-");
    if dash < 0 then Invalid
    else ParseNumbers(TrimSpace(rangeSpec[..dash]), TrimSpace(rangeSpec[dash + 1..]), size)
  }

  function ParseNumbers(startStr: string, endStr: string, size: int): (r: Parsed)
    requires size > 0
    ensures r.Interval? ==> 0 <= r.start <= r.end < size
  {
    if startStr == "" && endStr == "" then Invalid
    else if startStr == "" then ParseSuffix(endStr, size)
    else if endStr == "" then ParseOpen(startStr, size)
    else ParseBounded(startStr, endStr, size)
  }

  function ParseSuffix(endStr: string, size: int): (r: Parsed)
    requires size > 0
    ensures r.Interval? ==> 0 <= r.start <= r.end < size
  {
    match ParseInt(endStr, 10)
    case None => Invalid
    case Some(n) =>
      if n <= 0 then Invalid
      else Clamp(size - (if n > size then size else n), size - 1, size)
  }

  function ParseOpen(startStr: string, size: int): (r: Parsed)
    requires size > 0
    ensures r.Interval? ==> 0 <= r.start <= r.end < size
  {
    match ParseInt(startStr, 10)
    case None => Invalid
    case Some(start) =>
      if start < 0 || start >= size then Invalid else Clamp(start, size - 1, size)
  }

  function ParseBounded(startStr: string, endStr: string, size: int): (r: Parsed)
    requires size > 0
    ensures r.Interval? ==> 0 <= r.start <= r.end < size
  {
    match ParseInt(startStr, 10)
    case None => Invalid
    case Some(start) =>
      if start < 0 then Invalid
      else match ParseInt(endStr, 10)
        case None => Invalid
        case Some(end) => if end < start then Invalid else Clamp(start, end, size)
  }

  function Clamp(start: nat, end: nat, size: nat): (r: Parsed)
    requires start <= end
    ensures r.Interval? ==> 0 <= r.start <= r.end < size
  {
    if start >= size then Invalid
    else Interval(start, if end >= size then size - 1 else end)
  }

  // ---------- the ranges of RFC 9110 ----------

  /** int-range with or without last-pos, and suffix-range. */
  datatype RangeSpec = Bounded(first: nat, last: nat) | From(first: nat) | Suffix(length: nat)

  function Digits(n: nat): string {
    FormatUint(n, 10)
  }

  function Print(r: RangeSpec): string {
    match r
    case Bounded(first, last) => Digits(first) + "-" + Digits(last)
    case From(first) => Digits(first) + "-"
    case Suffix(length) => "-" + Digits(length)
  }

  /** The positions of an object of `size` bytes that a range selects. */
  ghost predicate Selects(r: RangeSpec, size: nat, pos: nat) {
    pos < size &&
    match r
    case Bounded(first, last) => first <= last && first <= pos <= last
    case From(first) => first <= pos
    case Suffix(length) => size - pos <= length
  }

  function Largest(r: RangeSpec): nat {
    match r
    case Bounded(first, last) => if first > last then first else last
    case From(first) => first
    case Suffix(length) => length
  }

  /** `p` is the interval of exactly the selected positions, or an error if there are none. */
  ghost predicate Agrees(p: Parsed, r: RangeSpec, size: nat) {
    match p
    case Interval(start, end) => forall pos: nat :: Selects(r, size, pos) <==> start <= pos <= end
    case Invalid => forall pos: nat :: !Selects(r, size, pos)
    case Multiple => false
  }

  /** What parsing should give: RFC 9110 for numbers below 2^63, an error above. */
  ghost predicate Outcome(p: Parsed, r: RangeSpec, size: nat) {
    if Largest(r) < TWO_POW_63 then Agrees(p, r, size) else p == Invalid
  }

  /** Splitting a range at its first dash gives its two numbers. */
  lemma SplitAtDash(left: string, right: string, size: nat)
    requires size > 0 && NoSpaces(left) && NoSpaces(right) && '-' !in left
    ensures ParseRangeSpec(left + "-" + right, size) == ParseNumbers(left, right, size)
  {
    var range := left + "-" + right;
    IndexOfChar(left, '-', right);
    assert range[..|left|] == "" + left + "" && range[|left| + 1..] == "" + right + "";
    TrimToken("", left, "");
    TrimToken("", right, "");
  }

  lemma StripHeader(range: string, size: nat, w1: string, w2: string)
    requires size > 0 && AllSpaces(w1) && AllSpaces(w2) && NoSpaces(range) && ',' !in range
    ensures ParseSingleRange("bytes=" + w1 + range + w2, size) == ParseRangeSpec(range, size)
  {
    var spec := w1 + range + w2;
    var header := "bytes=" + w1 + range + w2;
    assert header == "bytes=" + spec;
    assert "bytes=" <= header && header[6..] == spec;
    assert !IsSpace(',');
    NoIndexOfChar(spec, ',');
    TrimToken(w1, range, w2);
  }

  lemma PrintedParts(left: string, right: string, size: nat, w1: string, w2: string)
    requires size > 0 && AllSpaces(w1) && AllSpaces(w2)
    requires left == "" || exists n: nat :: left == Digits(n)
    requires right == "" || exists n: nat :: right == Digits(n)
    ensures ParseSingleRange("bytes=" + w1 + (left + "-" + right) + w2, size)
         == ParseNumbers(left, right, size)
  {
    PlainPart(left);
    PlainPart(right);
    SplitAtDash(left, right, size);
    StripHeader(left + "-" + right, size, w1, w2);
  }

  lemma PlainPart(s: string)
    requires s == "" || exists n: nat :: s == Digits(n)
    ensures NoSpaces(s) && '-' !in s && ',' !in s
  {
    if s != "" {
      var n: nat :| s == Digits(n);
      PrintedIsPlain(n, 10);
    }
  }

  /** Parsing a printed range, with any blanks around it, against any positive size: the result
      is the clamped interval of the selected positions, or an error exactly when none is
      selected, for numbers below 2^63.  A number of 2^63 or more is always an error. */
  lemma ParsePrint(r: RangeSpec, size: nat, w1: string, w2: string)
    requires size > 0 && AllSpaces(w1) && AllSpaces(w2)
    ensures Outcome(ParseSingleRange("bytes=" + w1 + Print(r) + w2, size), r, size)
  {
    var left := match r case Bounded(f, _) => Digits(f) case From(f) => Digits(f) case Suffix(_) => "";
    var right := match r case Bounded(_, l) => Digits(l) case From(_) => "" case Suffix(n) => Digits(n);
    assert Print(r) == left + "-" + right;
    PrintedParts(left, right, size, w1, w2);
    match r {
      case Bounded(f, l) => BoundedAgrees(f, l, size);
      case From(f) => FromAgrees(f, size);
      case Suffix(n) => SuffixAgrees(n, size);
    }
  }

  lemma BoundedAgrees(f: nat, l: nat, size: nat)
    requires size > 0
    ensures Outcome(ParseNumbers(Digits(f), Digits(l), size), Bounded(f, l), size)
  {
    PrintedIsPlain(f, 10);
    PrintedIsPlain(l, 10);
    ParsePrinted(f, 10);
    ParsePrinted(l, 10);
  }

  lemma FromAgrees(f: nat, size: nat)
    requires size > 0
    ensures Outcome(ParseNumbers(Digits(f), "", size), From(f), size)
  {
    PrintedIsPlain(f, 10);
    ParsePrinted(f, 10);
  }

  lemma SuffixAgrees(n: nat, size: nat)
    requires size > 0
    ensures Outcome(ParseNumbers("", Digits(n), size), Suffix(n), size)
  {
    PrintedIsPlain(n, 10);
    ParsePrinted(n, 10);
  }

  /** The parser agrees with RFC 9110 if and only if all numbers are below 2^63 or nothing is
      selected anyway. */
  lemma AgreesIff(r: RangeSpec, size: nat, w1: string, w2: string)
    requires size > 0 && AllSpaces(w1) && AllSpaces(w2)
    ensures Agrees(ParseSingleRange("bytes=" + w1 + Print(r) + w2, size), r, size)
            <==> Largest(r) < TWO_POW_63 || forall pos: nat :: !Selects(r, size, pos)
  {
    ParsePrint(r, size, w1, w2);
  }

  lemma ParseBare(r: RangeSpec, size: nat)
    requires size > 0
    ensures Outcome(ParseSingleRange("bytes=" + Print(r), size), r, size)
  {
    ParsePrint(r, size, "", "");
    assert "bytes=" + "" + Print(r) + "" == "bytes=" + Print(r);
  }

  /** A satisfiable range that is refused: RFC 9110 clamps a last position beyond the object. */
  lemma HugeLastPosRefused(first: nat, last: nat, size: nat)
    requires first < size && last >= TWO_POW_63 > first
    ensures ParseSingleRange("bytes=" + Print(Bounded(first, last)), size) == Invalid
    ensures Selects(Bounded(first, last), size, first)
  {
    ParseBare(Bounded(first, last), size);
  }

  /** Another: a suffix longer than the object selects all of it. */
  lemma HugeSuffixRefused(length: nat, size: nat)
    requires length >= TWO_POW_63 && length >= size > 0
    ensures ParseSingleRange("bytes=" + Print(Suffix(length)), size) == Invalid
    ensures forall pos: nat :: Selects(Suffix(length), size, pos) <==> pos < size
  {
    ParseBare(Suffix(length), size);
  }
}
