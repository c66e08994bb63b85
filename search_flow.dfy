/**
 * How the home page's search box and the search endpoint fit together: what
 * the page sends is what the endpoint routes on.
 */
module SearchFlow {
  import opened Wrappers
  import opened JsStrings
  import opened HomePage
  import opened SearchRoute

  /** What the page sends has no surrounding whitespace, so the endpoint's own `trim()` keeps it as is. */
  lemma SentQueryIsTrimmed(q: string)
    requires Search(q).IssueSearch?
    ensures Trim(Search(q).q) == Search(q).q
  {
    var sent := Search(q).q;
    if exists i: nat :: ProfileIdAt(q, i) {
      assert |sent| == SteamIdLength && AllDigits(sent);
      assert !IsWhitespace(sent[0]) && !IsWhitespace(sent[|sent| - 1]);
      TrimOfTrimmed(sent);
    } else {
      TrimIdempotent(q);
    }
  }

  /**
   * A bare 17-digit Steam ID typed into the box is not navigated to: it is
   * searched for, and the endpoint answers it with the exact-id lookup.
   */
  lemma BareIdTakesExactLookup(q: string)
    requires |Trim(q)| == SteamIdLength && AllDigits(Trim(q))
    ensures Search(q) == IssueSearch(Trim(q))
    ensures RouteOf(Some(Search(q).q)) == ExactIdLookup(Trim(q))
  {
    BareIdIsSearched(q);
    TrimIdempotent(q);
    Utf16LengthOfDigits(Trim(q));
  }

  /**
   * The page checks the length before trimming and the endpoint after, so a
   * single character with a space before it is sent but looked up nowhere.
   */
  lemma PaddedSingleCharacter()
    ensures Search(" a") == IssueSearch("a")
    ensures RouteOf(Some(Search(" a").q)) == NoLookup
  {
    assert TrimLo(" a") == 1;
    assert TrimHi(" a") == 2;
    assert Trim(" a") == "a";
    assert forall i: nat :: !ProfileIdAt(" a", i);
    assert TrimLo("a") == 0 && TrimHi("a") == 1;
  }
}
