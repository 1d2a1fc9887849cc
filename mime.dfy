/** The MIME type an extracted image is fed to the page with, derived from the
    archive URL of the image (www/js/app.js, inside loadImageSlice). */
module ImageMime {
  import opened Text
  import opened Wrappers


  /** `\w` in a JavaScript regular expression. */
  predicate IsWordChar(c: char)
  {
    'a' <= c <= 'z' || 'A' <= c <= 'Z' || '0' <= c <= '9' || c == '_'
  }

  predicate AllWordChars(s: string)
  {
    forall i :: 0 <= i < |s| ==> IsWordChar(s[i])
  }

  /** Whether `/\.(\w{2,4})$/` matches with its dot at position `p`. */
  predicate ExtensionAt(url: string, p: nat)
  {
    p < |url| && url[p] == '.' && 2 <= |url| - p - 1 <= 4 && AllWordChars(url[p + 1..])
  }

  /** The regular-expression search from position `p` on: the leftmost match wins. */
  function ExtensionFrom(url: string, p: nat): (r: Option<string>)
    decreases |url| - p
  {
    if p >= |url| then None
    else if ExtensionAt(url, p) then Some(url[p + 1..])
    else ExtensionFrom(url, p + 1)
  }

  /** The group captured by `url.match(/\.(\w{2,4})$/)`, if it matches. */
  function Extension(url: string): Option<string>
  {
    ExtensionFrom(url, 0)
  }

  /** The MIME type of the image at `url`: "image/" plus the lower-cased
      extension, or plain "image", then overridden for .jpg, .tif, .ico and
      .svg (each test ignores case; the last one that holds wins). */
  function MimeType(url: string): string
  {
    var m0 := match Extension(url)
      case Some(e) => "image/" + LowerStr(e)
      case None => "image";
    var m1 := if EndsWithCI(url, ".jpg") then "image/jpeg" else m0;
    var m2 := if EndsWithCI(url, ".tif") then "image/tiff" else m1;
    var m3 := if EndsWithCI(url, ".ico") then "image/x-icon" else m2;
    if EndsWithCI(url, ".svg") then "image/svg+xml" else m3
  }

  /** A URL ending in a dot and 2 to 4 word characters: the search finds
      exactly that extension, wherever it starts scanning before the dot. */
  lemma {:induction false} ExtensionFromFindsLastDot(pre: string, e: string, p: nat)
    requires 2 <= |e| <= 4 && AllWordChars(e)
    requires p <= |pre|
    ensures ExtensionFrom(pre + "." + e, p) == Some(e)
    decreases |pre| - p
  {
    var url := pre + "." + e;
    assert url[|pre| + 1..] == e;
    if p < |pre| {
      // the suffix after position p contains the dot at |pre|, which is no word character
      assert url[p + 1..][|pre| - p - 1] == '.';
      assert !ExtensionAt(url, p);
      ExtensionFromFindsLastDot(pre, e, p + 1);
    } else {
      assert ExtensionAt(url, p);
    }
  }

  /** Any match of the search is a dot followed by 2 to 4 word characters that end the URL. */
  lemma {:induction false} ExtensionFromShape(url: string, p: nat)
    requires ExtensionFrom(url, p).Some?
    ensures var e := ExtensionFrom(url, p).value;
      2 <= |e| <= 4 && AllWordChars(e) && |e| < |url| &&
      url == url[..|url| - |e| - 1] + "." + e
    decreases |url| - p
  {
    if !ExtensionAt(url, p) {
      ExtensionFromShape(url, p + 1);
    } else {
      var e := url[p + 1..];
      assert url == url[..p] + "." + e;
    }
  }

  /** The regular expression captures `e` exactly when the URL ends in "." + e
      with `e` made of 2 to 4 word characters. */
  lemma ExtensionCharacterised(url: string, e: string)
    ensures Extension(url) == Some(e) <==>
      (2 <= |e| <= 4 && AllWordChars(e) && |e| < |url| && url == url[..|url| - |e| - 1] + "." + e)
  {
    if Extension(url) == Some(e) {
      ExtensionFromShape(url, 0);
    }
    if 2 <= |e| <= 4 && AllWordChars(e) && |e| < |url| && url == url[..|url| - |e| - 1] + "." + e {
      ExtensionFromFindsLastDot(url[..|url| - |e| - 1], e, 0);
    }
  }

  /** Lower-casing maps nothing but a dot to a dot, and only word characters to letters. */
  lemma LowerFacts(c: char)
    ensures Lower(c) == '.' ==> c == '.'
    ensures 'a' <= Lower(c) <= 'z' ==> IsWordChar(c)
    ensures IsWordChar(c) ==> Lower(c) != '.'
  {
  }

  /** A URL that ends, ignoring case, in a dot and three letters has an extension. */
  lemma SuffixGivesExtension(url: string, sfx: string)
    requires |sfx| == 4 && sfx[0] == '.' && forall j :: 1 <= j < 4 ==> 'a' <= sfx[j] <= 'z'
    requires EndsWithCI(url, sfx)
    ensures Extension(url).Some?
  {
    var n := |url|;
    var e := url[n - 3..];
    LowerFacts(url[n - 4]);
    forall j | 0 <= j < 3 ensures IsWordChar(e[j]) {
      assert Lower(url[n - 4 + (j + 1)]) == sfx[j + 1];
      LowerFacts(url[n - 3 + j]);
    }
    assert url == url[..n - 4] + "." + e;
    ExtensionFromFindsLastDot(url[..n - 4], e, 0);
  }

  /** A URL without such an extension gets the bare "image" type: none of the
      four overriding suffix tests can hold either. */
  lemma NoExtensionGivesImage(url: string)
    requires Extension(url).None?
    ensures MimeType(url) == "image"
  {
    if EndsWithCI(url, ".jpg") { SuffixGivesExtension(url, ".jpg"); }
    if EndsWithCI(url, ".tif") { SuffixGivesExtension(url, ".tif"); }
    if EndsWithCI(url, ".ico") { SuffixGivesExtension(url, ".ico"); }
    if EndsWithCI(url, ".svg") { SuffixGivesExtension(url, ".svg"); }
  }

  /** For a URL ending in "." + e, a case-insensitive test for a suffix made of
      a dot and three letters holds exactly when e is those three letters up to case. */
  lemma EndsWithDotExtension(pre: string, e: string, sfx: string)
    requires 2 <= |e| <= 4 && AllWordChars(e)
    requires |sfx| == 4 && sfx[0] == '.' && sfx[1] != '.'
    ensures EndsWithCI(pre + "." + e, sfx) <==>
      (|e| == 3 && Lower(e[0]) == sfx[1] && Lower(e[1]) == sfx[2] && Lower(e[2]) == sfx[3])
  {
    var url := pre + "." + e;
    var n := |url|;
    if n < 4 {
      return;
    }
    if |e| == 3 {
      assert url[n - 4] == '.';
      assert forall k :: 0 <= k < 3 ==> url[n - 3 + k] == e[k];
    } else if |e| == 2 {
      assert url[n - 3] == '.';
    } else {
      assert url[n - 4] == e[0];
      LowerFacts(e[0]);
    }
  }

  /** With none of the four overriding suffixes, the type is "image/" and the lower-cased extension. */
  lemma MimeTypeWithoutOverride(pre: string, e: string)
    requires 2 <= |e| <= 4 && AllWordChars(e)
    requires var url := pre + "." + e;
      !EndsWithCI(url, ".jpg") && !EndsWithCI(url, ".tif") && !EndsWithCI(url, ".ico") && !EndsWithCI(url, ".svg")
    ensures MimeType(pre + "." + e) == "image/" + LowerStr(e)
  {
    ExtensionFromFindsLastDot(pre, e, 0);
  }

  /** The type for a URL ending in "." + e, by the lower-cased extension x:
      "image/" + x, except that jpg, tif, ico and svg get their registered names. */
  lemma MimeTypeOfExtension(pre: string, e: string)
    requires 2 <= |e| <= 4 && AllWordChars(e)
    ensures var m := MimeType(pre + "." + e);
      var x := LowerStr(e);
      (x == "jpg" ==> m == "image/jpeg") &&
      (x == "tif" ==> m == "image/tiff") &&
      (x == "ico" ==> m == "image/x-icon") &&
      (x == "svg" ==> m == "image/svg+xml") &&
      (x != "jpg" && x != "tif" && x != "ico" && x != "svg" ==> m == "image/" + x)
  {
    var x := LowerStr(e);
    EndsWithDotExtension(pre, e, ".svg");
    EndsWithDotExtension(pre, e, ".ico");
    EndsWithDotExtension(pre, e, ".tif");
    EndsWithDotExtension(pre, e, ".jpg");
    if |e| == 3 {
      assert x == [Lower(e[0]), Lower(e[1]), Lower(e[2])];
    }
    if x != "jpg" && x != "tif" && x != "ico" && x != "svg" {
      MimeTypeWithoutOverride(pre, e);
    }
  }
}
