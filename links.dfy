/** The classification of an in-article hyperlink when an article is displayed
    (www/js/app.js:1130-1177): missing article, anchor, external link, link to
    a media file page, or link to another article of the archive. */
module ArticleLinks {
  import opened Text
  import opened Wrappers


  datatype LinkAction =
    | NoHref                   // the anchor element has no href: left alone
    | MissingArticle           // class "new": clicking alerts
    | Anchor                   // "#...": left alone
    | External                 // "http...": opened in a new tab
    | FileLink(online: string) // rewritten to the online file page, opened in a new tab
    | ArticleLink(title: string) // clicking loads this archive article (before URI decoding)

  predicate NoColon(s: string)
  {
    forall i :: 0 <= i < |s| ==> s[i] != ':'
  }

  /** Position of the first ':' at or after `p`, or |s| when there is none. */
  function FirstColonFrom(s: string, p: nat): (c: nat)
    requires p <= |s|
    ensures p <= c <= |s|
    ensures c < |s| ==> s[c] == ':'
    ensures NoColon(s[p..c])
    decreases |s| - p
  {
    if p == |s| || s[p] == ':' then p
    else
      var c := FirstColonFrom(s, p + 1);
      assert s[p..c] == [s[p]] + s[p + 1..c];
      c
  }

  /** Whether `[^:]+:` matches from position `p`, and where its colon is. */
  function ColonAfterName(s: string, p: nat): Option<nat>
    requires p <= |s|
  {
    var c := FirstColonFrom(s, p);
    if p < c < |s| then Some(c) else None
  }

  /** The colon matched by regexpImageLink `/^.?\/?[^:]+:(.*)/`, trying the
      optional `.?` and `\/?` greedily first, as the regular-expression engine
      backtracks. The rest of the match, `(.*)`, always succeeds. */
  function ImageLinkColon(url: string): Option<nat>
  {
    var dot := |url| >= 1 && !(url[0] in "\n\r\U{2028}\U{2029}");
    var slashAfterDot := dot && |url| >= 2 && url[1] == '/';
    var slashFirst := |url| >= 1 && url[0] == '/';
    var m11 := if slashAfterDot then ColonAfterName(url, 2) else None;
    var m10 := if dot then ColonAfterName(url, 1) else None;
    var m01 := if slashFirst then ColonAfterName(url, 1) else None;
    if m11.Some? then m11
    else if m10.Some? then m10
    else if m01.Some? then m01
    else ColonAfterName(url, 0)
  }

  /** The online address the file link is rewritten to: the match of
      regexpImageLink is replaced, and since `(.*)` runs to the first line
      terminator and the rest of the URL is kept, the result ends in the whole
      text after the matched colon. */
  function OnlineFileUrl(language: string, url: string, colon: nat): string
    requires colon < |url|
  {
    "https://" + language + ".wikipedia.org/wiki/File:" + url[colon + 1..]
  }

  /** `util.endsWith(url.toLowerCase(), ext)` for the four image extensions. */
  predicate HasImageExtension(url: string)
  {
    EndsWithCI(url, ".png") || EndsWithCI(url, ".svg") || EndsWithCI(url, ".jpg") || EndsWithCI(url, ".jpeg")
  }

  /** The article title of an internal link: "./" removed, or else one leading "/". */
  function ArticleTitle(url: string): string
  {
    if StartsWith(url, "./") then url[2..]
    else if StartsWith(url, "/") then url[1..]
    else url
  }

  /** The action taken for a link with attribute href `href` and attribute
      class `cssClass` (None when absent); the tests run in this order. */
  function ClassifyLink(href: Option<string>, cssClass: Option<string>, language: string): LinkAction
  {
    match href
    case None => NoHref
    case Some(url) =>
      if cssClass == Some("new") then MissingArticle
      else if StartsWith(url, "#") then Anchor
      else if StartsWith(url, "http") then External
      else if ImageLinkColon(url).Some? && HasImageExtension(url) then
        FileLink(OnlineFileUrl(language, url, ImageLinkColon(url).value))
      else ArticleLink(ArticleTitle(url))
  }

  /** The matched colon, when there is one, is a colon of the URL past its first character. */
  lemma ImageLinkColonIsColon(url: string)
    requires ImageLinkColon(url).Some?
    ensures 0 < ImageLinkColon(url).value < |url| && url[ImageLinkColon(url).value] == ':'
  {
  }

  /** A URL without any colon never matches regexpImageLink. */
  lemma NoColonNoImageLink(url: string)
    requires NoColon(url)
    ensures ImageLinkColon(url).None?
  {
    assert url[0..] == url;
  }

  /** For "name:rest" with a non-empty, colon-free name, the match always ends at
      the colon after the name, whichever optional prefix the engine tries. */
  lemma ImageLinkColonOfName(name: string, rest: string)
    requires |name| >= 1 && NoColon(name)
    ensures ImageLinkColon(name + ":" + rest) == Some(|name|)
  {
    var url := name + ":" + rest;
    forall p: nat | p <= |name|
      ensures FirstColonFrom(url, p) == |name|
    {
      FirstColonFromReachesName(name, rest, p);
    }
  }

  lemma {:induction false} FirstColonFromReachesName(name: string, rest: string, p: nat)
    requires p <= |name| && NoColon(name)
    ensures FirstColonFrom(name + ":" + rest, p) == |name|
    decreases |name| - p
  {
    var url := name + ":" + rest;
    if p < |name| {
      assert url[p] == name[p];
      FirstColonFromReachesName(name, rest, p + 1);
    } else {
      assert url[p] == ':';
    }
  }

  /** A relative link to a file page ("Name:File.png" style, not an anchor and
      not http) is rewritten to the online file page of the text after the colon. */
  lemma FileLinkRewrite(name: string, rest: string, language: string, cssClass: Option<string>)
    requires |name| >= 1 && NoColon(name) && name[0] != '#'
    requires !StartsWith(name + ":" + rest, "http")
    requires cssClass != Some("new")
    requires HasImageExtension(name + ":" + rest)
    ensures ClassifyLink(Some(name + ":" + rest), cssClass, language) ==
      FileLink("https://" + language + ".wikipedia.org/wiki/File:" + rest)
  {
    var url := name + ":" + rest;
    ImageLinkColonOfName(name, rest);
    assert url[|name| + 1..] == rest;
    assert !StartsWith(url, "#") by { assert url[..1][0] == name[0]; }
  }

  /** Round trip of a relative article link: "./" + t opens the article t,
      whatever colons t holds (a namespaced title such as "Help:Contents"),
      unless the link ends in an image extension. */
  lemma RelativeArticleLink(t: string, language: string, cssClass: Option<string>)
    requires cssClass != Some("new") && !HasImageExtension("./" + t)
    ensures ClassifyLink(Some("./" + t), cssClass, language) == ArticleLink(t)
  {
    var url := "./" + t;
    assert url[..2] == "./";
    assert url[2..] == t;
    assert !StartsWith(url, "#") && !StartsWith(url, "http") by { assert url[0] == '.'; }
  }

  /** Round trip of an absolute article link: "/" + t opens the article t
      (only the one leading slash is removed), whatever colons t holds,
      unless the link ends in an image extension. */
  lemma AbsoluteArticleLink(t: string, language: string, cssClass: Option<string>)
    requires cssClass != Some("new") && !HasImageExtension("/" + t)
    ensures ClassifyLink(Some("/" + t), cssClass, language) == ArticleLink(t)
  {
    var url := "/" + t;
    assert url[..1] == "/";
    assert url[1..] == t;
    assert !StartsWith(url, "./") && !StartsWith(url, "#") && !StartsWith(url, "http") by { assert url[0] == '/'; }
  }

  /** The class "new" takes precedence over everything else, and an href
      starting with "#" or "http" is never rewritten nor opened as an article. */
  lemma ClassifyOrder(url: string, cssClass: Option<string>, language: string)
    ensures cssClass == Some("new") ==> ClassifyLink(Some(url), cssClass, language) == MissingArticle
    ensures cssClass != Some("new") && StartsWith(url, "#") ==> ClassifyLink(Some(url), cssClass, language) == Anchor
    ensures cssClass != Some("new") && !StartsWith(url, "#") && StartsWith(url, "http") ==>
      ClassifyLink(Some(url), cssClass, language) == External
    ensures ClassifyLink(Some(url), cssClass, language).FileLink? ==> ImageLinkColon(url).Some? && HasImageExtension(url)
  {
  }
}
