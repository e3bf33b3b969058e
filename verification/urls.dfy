/**
 * Image URL rules: `toImageUrl` of the shared URL helper, and the products
 * screen's base-URL normalisation and `resolveImageUrl`.
 */
module Urls {
  import opened Wrappers
  import opened Text

  /** The placeholder shown for a product without an image. */
  const NO_IMAGE: string := "/no-image.png"

  /**
   * `toImageUrl(path)`: no path gives the placeholder; a path beginning with
   * the literal "http" is kept; anything else is appended to the API URL
   * with a `/` put in front unless it already has one.
   */
  function ToImageUrl(apiUrl: string, path: Option<string>): (r: string)
    ensures path.None? || path.value == "" ==> r == NO_IMAGE
    ensures path.Some? && StartsWith(path.value, "http") ==> r == path.value
    ensures path.Some? && path.value != "" && !StartsWith(path.value, "http") ==>
      StartsWith(r, apiUrl + "/") &&
      r[|apiUrl| + 1..] == (if path.value[0] == '/' then path.value[1..] else path.value)
  {
    if path.None? || path.value == "" then NO_IMAGE
    else if StartsWith(path.value, "http") then path.value
    else
      var clean := if StartsWith(path.value, "/") then path.value else "/" + path.value;
      apiUrl + clean
  }

  /** A stored path gives the same URL with or without its leading slash ("uploads/a.jpg" and "/uploads/a.jpg"). */
  lemma ToImageUrlLeadingSlash(apiUrl: string, p: string)
    requires p != "" && !StartsWith(p, "http") && p[0] != '/'
    ensures ToImageUrl(apiUrl, Some("/" + p)) == ToImageUrl(apiUrl, Some(p))
  {
    assert !StartsWith("/" + p, "http") by {
      assert ("/" + p)[0] == '/';
    }
    assert StartsWith("/" + p, "/");
  }

  /** When the API URL is absolute (or empty), a produced URL is left alone by a second pass. */
  lemma {:induction false} ToImageUrlIdempotent(apiUrl: string, path: Option<string>)
    requires StartsWith(apiUrl, "http") || apiUrl == ""
    requires path.Some? && path.value != ""
    ensures ToImageUrl(apiUrl, Some(ToImageUrl(apiUrl, path))) == ToImageUrl(apiUrl, path)
  {
    var r := ToImageUrl(apiUrl, path);
    if !StartsWith(path.value, "http") {
      if apiUrl == "" {
        assert StartsWith(r, "/") && !StartsWith(r, "http");
        assert r[1..] == (if path.value[0] == '/' then path.value[1..] else path.value);
        assert r == "/" + r[1..];
      } else {
        assert r[..4] == apiUrl[..4];
      }
    }
  }

  /** `(VITE_API_URL || "").replace(/\/+$/, "")`: every trailing `/` removed, nothing else. */
  function StripTrailingSlashes(s: string): (r: string)
    ensures StartsWith(s, r)
    ensures r == [] || r[|r| - 1] != '/'
    ensures forall i :: |r| <= i < |s| ==> s[i] == '/'
  {
    if s != [] && s[|s| - 1] == '/' then StripTrailingSlashes(s[..|s| - 1]) else s
  }

  /** The products screen's API base URL from the configured value (absent reads as empty). */
  function ApiBase(configured: Option<string>): (base: string)
    ensures base == [] || base[|base| - 1] != '/'
  {
    StripTrailingSlashes(if configured.Some? then configured.value else "")
  }

  /** The `/^https?:\/\//i` test: an absolute http or https URL, letters in any case. */
  predicate IsAbsoluteHttp(url: string)
  {
    StartsWithIgnoreCase(url, "http://") || StartsWithIgnoreCase(url, "https://")
  }

  /**
   * `resolveImageUrl(url)`: no url gives "", an absolute http(s) URL is kept,
   * anything else is joined to the base with exactly the one `/` it needs.
   */
  function ResolveImageUrl(base: string, url: Option<string>): (r: string)
    ensures url.None? || url.value == "" ==> r == ""
    ensures url.Some? && IsAbsoluteHttp(url.value) ==> r == url.value
    ensures url.Some? && url.value != "" && !IsAbsoluteHttp(url.value) ==>
      StartsWith(r, base + "/") &&
      r[|base| + 1..] == (if url.value[0] == '/' then url.value[1..] else url.value)
  {
    if url.None? || url.value == "" then ""
    else if IsAbsoluteHttp(url.value) then url.value
    else
      var path := if StartsWith(url.value, "/") then url.value else "/" + url.value;
      base + path
  }

  /** With the normalised base, a relative image path never produces a doubled slash at the join. */
  lemma ResolvedJoinHasSingleSlash(configured: Option<string>, url: string)
    requires url != "" && !IsAbsoluteHttp(url) && url[0] != '/'
    ensures var base := ApiBase(configured);
      ResolveImageUrl(base, Some(url)) == base + "/" + url &&
      (base == [] || base[|base| - 1] != '/')
  {
    var base := ApiBase(configured);
    assert !StartsWith(url, "/") by {
      assert url[..1] != "/";
    }
    assert ResolveImageUrl(base, Some(url)) == base + ("/" + url);
  }

  /**
   * The two helpers test for "http" differently: a relative path whose name
   * begins with "http" is kept as is by `toImageUrl` but joined to the base
   * by `resolveImageUrl`, and an upper-case "HTTP://" URL the other way round.
   */
  lemma HttpTestsDiffer(base: string)
    ensures ToImageUrl(base, Some("httpd.png")) == "httpd.png"
    ensures ResolveImageUrl(base, Some("httpd.png")) == base + "/httpd.png"
    ensures ResolveImageUrl(base, Some("HTTP://x")) == "HTTP://x"
    ensures ToImageUrl(base, Some("HTTP://x")) == base + "/HTTP://x"
  {
    RelativeNameStartingWithHttp(base);
    UpperCaseHttpUrl(base);
  }

  /** "httpd.png" begins with the letters "http" but is not an absolute URL. */
  lemma RelativeNameStartingWithHttp(base: string)
    ensures ToImageUrl(base, Some("httpd.png")) == "httpd.png"
    ensures ResolveImageUrl(base, Some("httpd.png")) == base + "/httpd.png"
  {
    HttpdName();
    assert ResolveImageUrl(base, Some("httpd.png")) == base + ("/" + "httpd.png");
  }

  lemma HttpdName()
    ensures StartsWith("httpd.png", "http") && !IsAbsoluteHttp("httpd.png") && !StartsWith("httpd.png", "/")
  {
    assert UpperAscii("httpd.png"[4]) != UpperAscii("http://"[4]);
    assert UpperAscii("httpd.png"[4]) != UpperAscii("https://"[4]);
    assert "httpd.png"[..4] == "http";
    assert "httpd.png"[..1][0] != "/"[0];
  }

  /** "HTTP://x" is an absolute URL but does not begin with the lower-case letters "http". */
  lemma UpperCaseHttpUrl(base: string)
    ensures ResolveImageUrl(base, Some("HTTP://x")) == "HTTP://x"
    ensures ToImageUrl(base, Some("HTTP://x")) == base + "/HTTP://x"
  {
    UpperHttpName();
    assert ToImageUrl(base, Some("HTTP://x")) == base + ("/" + "HTTP://x");
  }

  lemma UpperHttpName()
    ensures IsAbsoluteHttp("HTTP://x") && !StartsWith("HTTP://x", "http") && !StartsWith("HTTP://x", "/")
  {
    assert "HTTP://x"[..7] == "HTTP://";
    assert forall i :: 0 <= i < 7 ==> UpperAscii("HTTP://"[i]) == UpperAscii("http://"[i]);
    assert "HTTP://x"[..4][0] != "http"[0];
    assert "HTTP://x"[..1][0] != "/"[0];
  }
}
