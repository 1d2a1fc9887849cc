/** Small decisions of the article viewer: the header above a search result
    list (www/js/app.js:793-802), the browser-history entry pushed for an
    article or a search and how going back restores it (www/js/app.js:556-580,
    1632-1650), and the automatic choice of the style source from the
    stylesheet links of an article (www/js/app.js:984-987). */
module ArticleUi {
  import opened Text
  import opened Wrappers


  // ---------------------------------------------------------------------
  // Search result header

  datatype HeaderMessage =
    | NoArticles              // "No articles found."
    | FirstArticles(limit: nat) // limit + " first articles below (refine your search)."
    | ArticlesFound(count: nat) // count + " articles found."

  /** The header for `found` results when at most `maxArticles` were asked for
      (None when the caller passed no limit, which compares false in JavaScript). */
  function SearchHeader(found: nat, maxArticles: Option<int>): (m: HeaderMessage)
  {
    var m0 :=
      if maxArticles.Some? && maxArticles.value >= 0 && found >= maxArticles.value
      then FirstArticles(maxArticles.value)
      else ArticlesFound(found);
    if found == 0 then NoArticles else m0
  }

  function HeaderText(m: HeaderMessage): string
  {
    match m
    case NoArticles => "No articles found."
    case FirstArticles(k) => NatToString(k) + " first articles below (refine your search)."
    case ArticlesFound(n) => NatToString(n) + " articles found."
  }

  /** The number a header starts with (none for NoArticles). */
  function ShownCount(m: HeaderMessage): nat
  {
    match m
    case NoArticles => 0
    case FirstArticles(k) => k
    case ArticlesFound(n) => n
  }

  /** The run of decimal digits a string starts with. */
  function LeadingDigits(s: string): (d: string)
    ensures |d| <= |s| && d == s[..|d|]
    ensures forall i :: 0 <= i < |d| ==> '0' <= d[i] <= '9'
  {
    if s == [] || !('0' <= s[0] <= '9') then []
    else [s[0]] + LeadingDigits(s[1..])
  }

  lemma {:induction false} LeadingDigitsOfNumber(digits: string, tail: string)
    requires forall i :: 0 <= i < |digits| ==> '0' <= digits[i] <= '9'
    requires tail == [] || !('0' <= tail[0] <= '9')
    ensures LeadingDigits(digits + tail) == digits
  {
    if digits != [] {
      assert (digits + tail)[1..] == digits[1..] + tail;
      LeadingDigitsOfNumber(digits[1..], tail);
      assert digits == [digits[0]] + digits[1..];
    } else {
      assert digits + tail == tail;
    }
  }

  /** "No articles found." exactly when nothing was found; otherwise the header
      starts with the number it announces, which reads back from its digits,
      never exceeds the results found, and is the full count unless the
      limit was reached. */
  lemma SearchHeaderCount(found: nat, maxArticles: Option<int>)
    ensures SearchHeader(found, maxArticles) == NoArticles <==> found == 0
    ensures var m := SearchHeader(found, maxArticles);
      found > 0 ==>
        ParseDigits(LeadingDigits(HeaderText(m))) == ShownCount(m) &&
        ShownCount(m) <= found &&
        (ShownCount(m) < found ==> m.FirstArticles? && maxArticles == Some(ShownCount(m)))
  {
    var m := SearchHeader(found, maxArticles);
    if found > 0 {
      var tail := if m.FirstArticles? then " first articles below (refine your search)." else " articles found.";
      assert HeaderText(m) == NatToString(ShownCount(m)) + tail;
      LeadingDigitsOfNumber(NatToString(ShownCount(m)), tail);
      NatToStringRoundTrip(ShownCount(m));
    }
  }

  // ---------------------------------------------------------------------
  // Browser history

  /** The state object pushed: only one of its two fields is set. */
  datatype HistoryState = HistoryState(title: Option<string>, titleSearch: Option<string>)

  datatype HistoryEntry = HistoryEntry(state: HistoryState, stateLabel: string, urlParameters: string)

  /** The entry pushBrowserHistoryState pushes, if any: an article title wins
      over a search prefix, and an empty (or absent, given as "") one is ignored. */
  function PushedEntry(title: string, titleSearch: string): Option<HistoryEntry>
  {
    if title != "" then
      Some(HistoryEntry(HistoryState(Some(title), None), "Wikipedia Article : " + title, "?title=" + title))
    else if titleSearch != "" then
      Some(HistoryEntry(HistoryState(None, Some(titleSearch)), "Wikipedia search : " + titleSearch, "?titleSearch=" + titleSearch))
    else None
  }

  datatype Navigation = GoToArticle(title: string) | SearchPrefix(prefix: string) | StayPut

  /** What window.onpopstate does with a state object it is handed back. */
  function Restore(s: HistoryState): Navigation
  {
    if s.title.Some? && s.title.value != "" then GoToArticle(s.title.value)
    else if s.titleSearch.Some? && s.titleSearch.value != "" then SearchPrefix(s.titleSearch.value)
    else StayPut
  }

  /** A checking aid, not a function of the viewer: reads back the query
      string an entry carries, so that the lemmas can state what it names
      (its kind and its value). */
  function ReadUrlParameters(q: string): Navigation
  {
    if StartsWith(q, "?title=") then GoToArticle(q[7..])
    else if StartsWith(q, "?titleSearch=") then SearchPrefix(q[13..])
    else StayPut
  }

  /** Nothing is pushed exactly when both arguments are empty; otherwise the
      state object holds exactly one of the two, an article title winning
      over a search prefix, and the query string names it and reads back to
      the same place. */
  lemma PushedEntryShape(title: string, titleSearch: string)
    ensures PushedEntry(title, titleSearch).None? <==> title == "" && titleSearch == ""
    ensures PushedEntry(title, titleSearch).Some? ==>
      var e := PushedEntry(title, titleSearch).value;
      (e.state.title.Some? != e.state.titleSearch.Some?) &&
      (title != "" ==> e.state.title == Some(title) && ReadUrlParameters(e.urlParameters) == GoToArticle(title)) &&
      (title == "" ==> e.state.titleSearch == Some(titleSearch) && ReadUrlParameters(e.urlParameters) == SearchPrefix(titleSearch))
  {
    if title != "" {
      var q := "?title=" + title;
      assert q[..7] == "?title=";
      assert q[7..] == title;
    } else if titleSearch != "" {
      var q := "?titleSearch=" + titleSearch;
      assert q[..13] == "?titleSearch=";
      assert q[13..] == titleSearch;
      assert !StartsWith(q, "?title=") by { assert q[6] == 'S'; }
    }
  }

  /** Round trip: going back to a pushed entry leads where the push was made
      from, the article or the search. */
  lemma BackRestoresPushed(title: string, titleSearch: string)
    requires title != "" || titleSearch != ""
    ensures PushedEntry(title, titleSearch).Some?
    ensures Restore(PushedEntry(title, titleSearch).value.state) ==
      if title != "" then GoToArticle(title) else SearchPrefix(titleSearch)
  {
  }

  // ---------------------------------------------------------------------
  // Style source

  /** `arr.join()`: the elements separated by commas. */
  function Join(arr: seq<string>): string
  {
    if |arr| == 0 then ""
    else if |arr| == 1 then arr[0]
    else arr[0] + "," + Join(arr[1..])
  }

  /** The kind of archive told by its stylesheet links: "mobile" for a minerva
      or mobile style, else "desktop" for -/s/style.css, else "". */
  function ZimType(links: string): string
  {
    var z := if ContainsCI(links, "-/s/style.css") then "desktop" else "";
    if ContainsCI(links, "minerva") || ContainsCI(links, "mobile") then "mobile" else z
  }

  /** The style source used: the user's choice, unless it is "auto". */
  function ResolveCssSource(cssSource: string, sheets: seq<string>): string
  {
    if cssSource == "auto" then ZimType(Join(sheets)) else cssSource
  }

  predicate NoComma(p: string)
  {
    forall k :: 0 <= k < |p| ==> p[k] != ','
  }

  lemma ContainsCIInLeft(a: string, b: string, p: string)
    requires ContainsCI(a, p)
    ensures ContainsCI(a + b, p)
  {
    var i :| 0 <= i <= |a| - |p| && OccursAtCI(a, p, i);
    assert OccursAtCI(a + b, p, i);
  }

  lemma ContainsCIInRight(a: string, b: string, p: string)
    requires ContainsCI(b, p)
    ensures ContainsCI(a + b, p)
  {
    var i :| 0 <= i <= |b| - |p| && OccursAtCI(b, p, i);
    assert OccursAtCI(a + b, p, |a| + i);
  }

  /** Case-insensitive matching of a comma-free pattern never covers a comma. */
  lemma CommaNeverMatched(s: string, p: string, i: int, j: int)
    requires NoComma(p) && OccursAtCI(s, p, i) && i <= j < i + |p|
    ensures s[j] != ','
  {
    assert Lower(s[i + (j - i)]) == p[j - i];
  }

  /** An occurrence of a comma-free pattern in a + "," + b lies in a or in b. */
  lemma ContainsCIAroundComma(a: string, b: string, p: string)
    requires |p| >= 1 && NoComma(p)
    requires ContainsCI(a + "," + b, p)
    ensures ContainsCI(a, p) || ContainsCI(b, p)
  {
    var s := a + "," + b;
    var i :| 0 <= i <= |s| - |p| && OccursAtCI(s, p, i);
    if i + |p| <= |a| {
      assert OccursAtCI(a, p, i);
    } else if i > |a| {
      assert OccursAtCI(b, p, i - |a| - 1);
    } else {
      var k := |a| - i;
      CommaNeverMatched(s, p, i, |a|);
      assert false;
    }
  }

  /** A comma-free pattern is found in the joined links exactly when one of
      the links contains it. */
  lemma {:induction false} JoinContainsCI(arr: seq<string>, p: string)
    requires |p| >= 1 && NoComma(p)
    ensures ContainsCI(Join(arr), p) <==> exists j :: 0 <= j < |arr| && ContainsCI(arr[j], p)
  {
    if |arr| == 0 {
      assert !OccursAtCI("", p, 0);
    } else if |arr| == 1 {
    } else {
      JoinContainsCI(arr[1..], p);
      var rest := Join(arr[1..]);
      if ContainsCI(Join(arr), p) {
        ContainsCIAroundComma(arr[0], rest, p);
        if !ContainsCI(arr[0], p) {
          var j :| 0 <= j < |arr[1..]| && ContainsCI(arr[1..][j], p);
          assert ContainsCI(arr[j + 1], p);
        }
      }
      if exists j :: 0 <= j < |arr| && ContainsCI(arr[j], p) {
        var j :| 0 <= j < |arr| && ContainsCI(arr[j], p);
        if j == 0 {
          ContainsCIInLeft(arr[0], "," + rest, p);
          assert arr[0] + ("," + rest) == Join(arr);
        } else {
          assert ContainsCI(arr[1..][j - 1], p);
          ContainsCIInRight(arr[0] + ",", rest, p);
        }
      }
    }
  }

  predicate AnyContainsCI(sheets: seq<string>, p: string)
  {
    exists j :: 0 <= j < |sheets| && ContainsCI(sheets[j], p)
  }

  /** With automatic detection, the source is decided link by link: "mobile"
      when some link names minerva or mobile, else "desktop" when some link is
      -/s/style.css, else ""; any other choice of the user is kept. */
  lemma ResolveCssSourceByLink(cssSource: string, sheets: seq<string>)
    ensures cssSource != "auto" ==> ResolveCssSource(cssSource, sheets) == cssSource
    ensures cssSource == "auto" ==>
      ResolveCssSource(cssSource, sheets) ==
      (if AnyContainsCI(sheets, "minerva") || AnyContainsCI(sheets, "mobile") then "mobile"
       else if AnyContainsCI(sheets, "-/s/style.css") then "desktop"
       else "")
  {
    JoinContainsCI(sheets, "minerva");
    JoinContainsCI(sheets, "mobile");
    JoinContainsCI(sheets, "-/s/style.css");
  }
}
