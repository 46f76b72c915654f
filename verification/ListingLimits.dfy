/** What a client's parameters mean for the pages of a listing: which limits and tokens are obeyed, and how
    full a page is. */
module ListingLimits {
  import opened Text
  import opened Numerals
  import opened FileListing
  import opened DelimiterGrouping

  /** A `max-keys` from 1 to 1000, however spelled, is used as it is, and anything else means 1000. */
  lemma MaxKeysIff(param: string, n: int)
    ensures 1 <= n <= 1000 && Numeral(param, 10, n) ==> MaxKeys(param) == n
    ensures MaxKeys(param) != 1000 ==> Numeral(param, 10, MaxKeys(param))
  {
    ParseIntIff(param, 10, n);
    ParseIntIff(param, 10, MaxKeys(param));
  }

  /** A token that is a number below the size of the listing is obeyed, and any other means the top. */
  lemma OffsetIff(all: Objects, token: string, n: nat)
    requires n < |all|
    ensures Numeral(token, 10, n) ==> Offset(all, token) == n
    ensures Offset(all, token) != 0 ==> Numeral(token, 10, Offset(all, token))
  {
    ParseIntIff(token, 10, n);
    ParseIntIff(token, 10, Offset(all, token));
  }

  /** A page that another follows holds exactly as many objects as asked for; there is another if and only if
      more objects are left than that. */
  lemma PageIsFull(all: Objects, token: string, limit: int)
    requires limit > 0
    ensures var page := PageAt(all, token, limit);
            && (page.next != "" ==> |page.objects| == limit)
            && (page.next != "" <==> |all| - Offset(all, token) > limit)
  {
    var offset := Offset(all, token);
    PrintedIsPlain(Min(offset + limit, |all|), 10);
  }
}
