/** Cache keys of whole objects and of their blocks, and the file names they turn into. */
module CacheKeys {
  import opened Text
  import opened LruCache

  /** `generateCacheKey` */
  function WholeKey(bucket: string, key: string): string {
    bucket + "/" + key
  }

  /** `blockCacheKey` */
  function BlockKey(bucket: string, key: string, start: nat, end: nat): string {
    WholeKey(bucket, key) + "@" + FormatUint(start, 10) + "-" + FormatUint(end, 10)
  }

  /** Two block keys are equal only for the same bucket, object, start and end, as long as bucket
      names hold no slash; object keys may hold any character. */
  lemma BlockKeyInjective(b1: string, k1: string, s1: nat, e1: nat, b2: string, k2: string, s2: nat, e2: nat)
    requires '/' !in b1 && '/' !in b2
    requires BlockKey(b1, k1, s1, e1) == BlockKey(b2, k2, s2, e2)
    ensures b1 == b2 && k1 == k2 && s1 == s2 && e1 == e2
  {
    var n1, n2 := FormatUint(s1, 10) + "-" + FormatUint(e1, 10), FormatUint(s2, 10) + "-" + FormatUint(e2, 10);
    PrintedIsPlain(s1, 10);
    PrintedIsPlain(e1, 10);
    PrintedIsPlain(s2, 10);
    PrintedIsPlain(e2, 10);
    assert BlockKey(b1, k1, s1, e1) == WholeKey(b1, k1) + ['@'] + n1;
    assert BlockKey(b2, k2, s2, e2) == WholeKey(b2, k2) + ['@'] + n2;
    SplitAtLast(WholeKey(b1, k1), WholeKey(b2, k2), '@', n1, n2);
    SplitAtFirst(FormatUint(s1, 10), FormatUint(s2, 10), '-', FormatUint(e1, 10), FormatUint(e2, 10));
    SplitAtFirst(b1, b2, '/', k1, k2);
    PrintInjective(s1, s2, 10);
    PrintInjective(e1, e2, 10);
  }

  /** A whole object whose name ends like a block suffix shares its key with that block. */
  lemma WholeKeyCanBeABlockKey(bucket: string, key: string, start: nat, end: nat)
    ensures BlockKey(bucket, key, start, end)
         == WholeKey(bucket, key + "@" + FormatUint(start, 10) + "-" + FormatUint(end, 10))
  {
  }

  lemma {:induction false} EscapeConcat(a: string, b: string)
    ensures Escape(a + b) == Escape(a) + Escape(b)
  {
    if a == "" {
      assert a + b == b;
    } else {
      assert (a + b)[1..] == a[1..] + b;
      EscapeConcat(a[1..], b);
    }
  }

  lemma {:induction false} EscapeDigits(s: string)
    requires forall c :: c in s ==> IsDigit(c, 10)
    ensures Escape(s) == s
  {
    if s != "" {
      assert s[0] in s && IsDigit(s[0], 10);
      EscapeDigits(s[1..]);
      assert s == [s[0]] + s[1..];
    }
  }

  lemma EscapedBlockKey(bucket: string, key: string, start: nat, end: nat)
    ensures Escape(BlockKey(bucket, key, start, end))
         == Escape(WholeKey(bucket, key) + "@") + (FormatUint(start, 10) + "_" + FormatUint(end, 10))
  {
    FormatValue(start, 10);
    FormatValue(end, 10);
    EscapeSuffix(WholeKey(bucket, key) + "@", FormatUint(start, 10), FormatUint(end, 10));
  }

  lemma EscapeSuffix(p: string, s: string, e: string)
    requires forall c :: c in s ==> IsDigit(c, 10)
    requires forall c :: c in e ==> IsDigit(c, 10)
    ensures Escape(p + s + "-" + e) == Escape(p) + (s + "_" + e)
  {
    EscapeDigits(s);
    EscapeDigits(e);
    EscapeConcat(p, s);
    EscapeDash(p + s);
    EscapeConcat(p + s + "-", e);
  }

  lemma EscapeDash(p: string)
    ensures Escape(p + "-") == Escape(p) + "_"
  {
    EscapeConcat(p, "-");
    assert "-"[1..] == "";
  }

  lemma WholeFileName(bucket: string, key: string, start: nat, end: nat)
    ensures Escape(BlockKey(bucket, key, start, end)) ==
            Escape(WholeKey(bucket, key)) + ['_'] + FormatUint(start, 10) + ['_'] + FormatUint(end, 10)
  {
    EscapedBlockKey(bucket, key, start, end);
    EscapeConcat(WholeKey(bucket, key), "@");
    assert "@"[1..] == "";
  }

  /** Two blocks share a file exactly when the file names of their whole objects are equal and they
      have the same bounds. */
  lemma BlockFileNamesIff(b1: string, k1: string, s1: nat, e1: nat, b2: string, k2: string, s2: nat, e2: nat)
    ensures Escape(BlockKey(b1, k1, s1, e1)) == Escape(BlockKey(b2, k2, s2, e2)) <==>
            Escape(WholeKey(b1, k1)) == Escape(WholeKey(b2, k2)) && s1 == s2 && e1 == e2
  {
    WholeFileName(b1, k1, s1, e1);
    WholeFileName(b2, k2, s2, e2);
    if Escape(BlockKey(b1, k1, s1, e1)) == Escape(BlockKey(b2, k2, s2, e2)) {
      var w1, w2 := Escape(WholeKey(b1, k1)), Escape(WholeKey(b2, k2));
      var p1, p2 := w1 + ['_'] + FormatUint(s1, 10), w2 + ['_'] + FormatUint(s2, 10);
      PrintedIsPlain(s1, 10);
      PrintedIsPlain(s2, 10);
      PrintedIsPlain(e1, 10);
      PrintedIsPlain(e2, 10);
      SplitAtLast(p1, p2, '_', FormatUint(e1, 10), FormatUint(e2, 10));
      SplitAtLast(w1, w2, '_', FormatUint(s1, 10), FormatUint(s2, 10));
      PrintInjective(s1, s2, 10);
      PrintInjective(e1, e2, 10);
    }
  }
}
