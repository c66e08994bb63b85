/**
 * The home page's search box (app/page.tsx): recognising a Steam profile URL
 * in what the user typed, and deciding whether a keystroke clears the results,
 * jumps straight to a player page, or issues a search.
 */
module HomePage {
  import opened Wrappers
  import opened JsStrings

  /** The literal part of the profile-URL pattern `steamcommunity\.com\/profiles\/(\d{17})`. */
  const ProfilePrefix: string := "steamcommunity.com/profiles/"

  /** A Steam ID is 17 digits. */
  const SteamIdLength: nat := 17

  /** The pattern matches at index `i`: the prefix, then 17 digits. */
  predicate ProfileIdAt(s: string, i: nat) {
    && i + |ProfilePrefix| + SteamIdLength <= |s|
    && s[i..i + |ProfilePrefix|] == ProfilePrefix
    && AllDigits(s[i + |ProfilePrefix|..i + |ProfilePrefix| + SteamIdLength])
  }

  /** The 17 digits captured by a match at index `i`. */
  function CapturedId(s: string, i: nat): string
    requires ProfileIdAt(s, i)
  {
    s[i + |ProfilePrefix|..i + |ProfilePrefix| + SteamIdLength]
  }

  /** The leftmost index at or after `from` where the unanchored pattern matches. */
  function FindProfileId(s: string, from: nat): (r: Option<nat>)
    ensures r.Some? ==> from <= r.value && ProfileIdAt(s, r.value)
    ensures r.Some? ==> forall j :: from <= j < r.value ==> !ProfileIdAt(s, j)
    ensures r.None? ==> forall j: nat :: from <= j ==> !ProfileIdAt(s, j)
    decreases |s| - from
  {
    if from + |ProfilePrefix| + SteamIdLength > |s| then None
    else if ProfileIdAt(s, from) then Some(from)
    else FindProfileId(s, from + 1)
  }

  /**
   * `extractSteamId`: the 17 digits of the leftmost Steam profile URL in the
   * input, wherever it stands and whatever follows it; otherwise the input trimmed.
   */
  function ExtractSteamId(input: string): (r: string)
    ensures (exists i: nat :: ProfileIdAt(input, i)) ==>
      |r| == SteamIdLength && AllDigits(r)
      && exists i: nat :: ProfileIdAt(input, i) && r == CapturedId(input, i)
           && forall j :: 0 <= j < i ==> !ProfileIdAt(input, j)
    ensures (forall i: nat :: !ProfileIdAt(input, i)) ==> r == Trim(input)
  {
    match FindProfileId(input, 0)
    case Some(i) => CapturedId(input, i)
    case None => Trim(input)
  }

  /** What one run of the debounced `search` callback does. */
  datatype SearchAction =
    | ClearResults              // results emptied, nothing fetched
    | Navigate(path: string)    // the browser is sent to a player page
    | IssueSearch(q: string)    // `/api/search` is fetched with `q`

  /**
   * `search`: a query of fewer than two UTF-16 code units (untrimmed) clears
   * the results; a query from which a profile URL yields a Steam ID goes to
   * that player's page; anything else is searched for as extracted.
   */
  function Search(q: string): (a: SearchAction)
    ensures a.ClearResults? <==> Utf16Length(q) < 2
    ensures a.Navigate? ==> exists id :: (a.path == "/player/" + id
      && id == ExtractSteamId(q) && id != Trim(q) && |id| == SteamIdLength && AllDigits(id))
    ensures a.IssueSearch? ==> a.q == ExtractSteamId(q)
  {
    if Utf16Length(q) < 2 then ClearResults
    else
      var parsed := ExtractSteamId(q);
      if parsed != Trim(q) && |parsed| == SteamIdLength && AllDigits(parsed)
      then Navigate("/player/" + parsed)
      else IssueSearch(parsed)
  }

  /** A match contains the letter `s`, which `trim()` keeps and no Steam ID contains. */
  lemma MatchSurvivesTrim(q: string, i: nat)
    requires ProfileIdAt(q, i)
    ensures !AllDigits(Trim(q))
  {
    assert q[i] == q[i..i + |ProfilePrefix|][0] == 's';
    NonWhitespaceKept(q, i);
    assert !IsDigit(Trim(q)[i - TrimLo(q)]);
  }

  /**
   * Direct navigation happens exactly when the query holds a Steam profile URL,
   * and it goes to the player whose ID follows the leftmost such URL.
   */
  lemma NavigatesIffProfileUrl(q: string)
    ensures Search(q).Navigate? <==> exists i: nat :: ProfileIdAt(q, i)
    ensures Search(q).Navigate? ==> exists i: nat :: (ProfileIdAt(q, i)
      && (forall j :: 0 <= j < i ==> !ProfileIdAt(q, j))
      && Search(q).path == "/player/" + CapturedId(q, i))
  {
    if exists i: nat :: ProfileIdAt(q, i) {
      var i: nat :| ProfileIdAt(q, i);
      assert Utf16Length(q) >= 2;
      MatchSurvivesTrim(q, i);
    }
  }

  /**
   * A bare Steam ID, with or without surrounding whitespace, is searched for,
   * never navigated to.
   */
  lemma BareIdIsSearched(q: string)
    requires |Trim(q)| == SteamIdLength && AllDigits(Trim(q))
    ensures Search(q) == IssueSearch(Trim(q))
  {
    forall i: nat | ProfileIdAt(q, i) ensures false {
      MatchSurvivesTrim(q, i);
    }
  }

  /** A profile URL with text on both sides yields its ID when no earlier match precedes it. */
  lemma {:induction false} ProfileUrlExtracted(before: string, id: string, after: string)
    requires |id| == SteamIdLength && AllDigits(id)
    requires forall j :: 0 <= j < |before| ==> !ProfileIdAt(before + ProfilePrefix + id + after, j)
    ensures ExtractSteamId(before + ProfilePrefix + id + after) == id
  {
    var s := before + ProfilePrefix + id + after;
    var k := |before|;
    assert s[k..k + |ProfilePrefix|] == ProfilePrefix;
    assert s[k + |ProfilePrefix|..k + |ProfilePrefix| + SteamIdLength] == id;
    assert ProfileIdAt(s, k);
    assert FindProfileId(s, 0) == Some(k);
  }

  /** Every match starts with "st". */
  lemma MatchStartsWithSt(s: string, j: nat)
    requires ProfileIdAt(s, j)
    ensures s[j] == 's' && s[j + 1] == 't'
  {
    assert s[j..j + |ProfilePrefix|][0] == s[j] && s[j..j + |ProfilePrefix|][1] == s[j + 1];
  }

  /** The profile URL from the search box's own example, pasted with extra digits after the ID. */
  lemma ExampleUrl()
    ensures ExtractSteamId("https://" + ProfilePrefix + "76561198022229325" + "1234/") == "76561198022229325"
  {
    var before := "https://";
    var id := "76561198022229325";
    var s := before + ProfilePrefix + id + "1234/";
    assert s[..8] == before;
    forall j | 0 <= j < |before| ensures !ProfileIdAt(s, j) {
      assert s[j] == before[j] && s[j + 1] == (if j < 7 then before[j + 1] else 's');
      if ProfileIdAt(s, j) {
        MatchStartsWithSt(s, j);
      }
    }
    ProfileUrlExtracted(before, id, "1234/");
  }
}
