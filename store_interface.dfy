/**
 * Product identity and the per-store stock classifiers
 * (in_stock_notifier/store_interface.py).
 *
 * The HTTP request and the HTML parser are not modelled: the page a request
 * returns is an input (`FetchOutcome`), and a parsed page is reduced to the set
 * of `id` attributes its elements carry (`Html`).
 */
module Stores {
  import opened Wrappers

  /** A tracked product: a display label and the URL of its page. */
  datatype Product = Product(name: string, url: string)
  {
    /**
     * The authority (netloc) of the product's URL: a host no longer than the
     * URL, cut before the first '/', '?' or '#'.
     */
    function Fqdn(): (r: string)
      ensures |r| <= |url|
      ensures '/' !in r && '?' !in r && '#' !in r
    {
      NetlocIsCleanHost(url);
      Netloc(url)
    }

    /**
     * The notification table key: the hex md5 digest of the URL. The digest
     * itself is a parameter and is never interpreted, so nothing below relies
     * on it being collision-free.
     */
    function Hash(md5: string -> string): string
    {
      md5(url)
    }
  }

  // ---------------------------------------------------------------------------
  // The netloc of a URL, as urllib.parse.urlsplit computes it (simplified).
  // ---------------------------------------------------------------------------

  /** The characters that end the authority part of a URL: '/', '?' and '#'. */
  predicate IsAuthorityDelimiter(c: char)
  {
    c == '/' || c == '?' || c == '#'
  }

  predicate IsAsciiLetter(c: char)
  {
    'a' <= c <= 'z' || 'A' <= c <= 'Z'
  }

  /** Characters allowed in a URL scheme. */
  predicate IsSchemeChar(c: char)
  {
    IsAsciiLetter(c) || '0' <= c <= '9' || c == '+' || c == '-' || c == '.'
  }

  /** A non-empty run of scheme characters starting with a letter. */
  predicate IsScheme(s: string)
  {
    |s| > 0 && IsAsciiLetter(s[0]) && forall j :: 0 <= j < |s| ==> IsSchemeChar(s[j])
  }

  /** The length of the run of scheme characters `s` starts with. */
  function SchemeRun(s: string): (n: nat)
    ensures n <= |s|
  {
    if s == [] || !IsSchemeChar(s[0]) then 0 else 1 + SchemeRun(s[1..])
  }

  /**
   * What follows `scheme:` when the text before the first colon is a scheme,
   * and the whole URL otherwise. Since ':' is not a scheme character, the
   * first colon ends the run of scheme characters exactly when that run is
   * followed by a colon.
   */
  function AfterScheme(url: string): string
  {
    var n := SchemeRun(url);
    if 0 < n < |url| && url[n] == ':' && IsAsciiLetter(url[0]) then url[n + 1..] else url
  }

  /** `s` up to its first authority delimiter, or all of `s` when it has none. */
  function HostPrefix(s: string): string
  {
    if s == [] || IsAuthorityDelimiter(s[0]) then [] else [s[0]] + HostPrefix(s[1..])
  }

  /**
   * The netloc: when what follows the scheme starts with "//", the text after
   * it up to the first '/', '?' or '#' (or the end); otherwise empty.
   */
  function Netloc(url: string): string
  {
    var rest := AfterScheme(url);
    if |rest| >= 2 && rest[0] == '/' && rest[1] == '/' then HostPrefix(rest[2..]) else ""
  }

  /** What follows the scheme is a suffix of the URL. */
  lemma AfterSchemeIsSuffix(url: string)
    ensures |AfterScheme(url)| <= |url|
  {
  }

  /** The netloc is no longer than the URL and holds no '/', '?' or '#'. */
  lemma NetlocIsCleanHost(url: string)
    ensures |Netloc(url)| <= |url|
    ensures '/' !in Netloc(url) && '?' !in Netloc(url) && '#' !in Netloc(url)
  {
    var rest := AfterScheme(url);
    AfterSchemeIsSuffix(url);
    if |rest| >= 2 && rest[0] == '/' && rest[1] == '/' {
      HostPrefixIsLongestClean(rest[2..]);
      var h := HostPrefix(rest[2..]);
      forall c | c in h
        ensures !IsAuthorityDelimiter(c)
      {
        var k :| 0 <= k < |h| && h[k] == c;
      }
    }
  }

  /**
   * `HostPrefix(s)` is the longest prefix of `s` free of authority delimiters:
   * a prefix, delimiter-free, and stopped by a delimiter unless it is all of `s`.
   */
  lemma {:induction false} HostPrefixIsLongestClean(s: string)
    ensures var h := HostPrefix(s);
            |h| <= |s| && h == s[..|h|] &&
            (forall k :: 0 <= k < |h| ==> !IsAuthorityDelimiter(h[k])) &&
            (|h| < |s| ==> IsAuthorityDelimiter(s[|h|]))
  {
    if s != [] && !IsAuthorityDelimiter(s[0]) {
      HostPrefixIsLongestClean(s[1..]);
      var t := HostPrefix(s[1..]);
      assert HostPrefix(s) == [s[0]] + t;
      assert [s[0]] + t == s[..|t| + 1] by {
        assert t == s[1..][..|t|];
      }
    }
  }

  /** A scheme followed by a non-scheme character runs exactly as far as the scheme. */
  lemma {:induction false} SchemeRunOf(scheme: string, rest: string)
    requires forall j :: 0 <= j < |scheme| ==> IsSchemeChar(scheme[j])
    requires rest != [] && !IsSchemeChar(rest[0])
    ensures SchemeRun(scheme + rest) == |scheme|
  {
    if scheme != [] {
      assert (scheme + rest)[1..] == scheme[1..] + rest;
      SchemeRunOf(scheme[1..], rest);
    } else {
      assert scheme + rest == rest;
    }
  }

  /** A delimiter-free host followed by a delimiter (or nothing) is its own host prefix. */
  lemma {:induction false} HostPrefixOf(host: string, tail: string)
    requires forall k :: 0 <= k < |host| ==> !IsAuthorityDelimiter(host[k])
    requires tail == [] || IsAuthorityDelimiter(tail[0])
    ensures HostPrefix(host + tail) == host
  {
    if host != [] {
      assert (host + tail)[1..] == host[1..] + tail;
      HostPrefixOf(host[1..], tail);
      assert host == [host[0]] + host[1..];
    } else {
      assert host + tail == tail;
    }
  }

  /**
   * A URL written as `scheme://host` followed by a path, query or fragment (or
   * nothing) has `host` as its netloc.
   */
  lemma NetlocOfAuthority(scheme: string, host: string, tail: string)
    requires IsScheme(scheme)
    requires forall k :: 0 <= k < |host| ==> !IsAuthorityDelimiter(host[k])
    requires tail == [] || IsAuthorityDelimiter(tail[0])
    ensures Netloc(scheme + "://" + host + tail) == host
  {
    var url := scheme + "://" + host + tail;
    var after := "//" + host + tail;
    assert url == scheme + ([':'] + after);
    SchemeRunOf(scheme, [':'] + after);
    assert url[|scheme|] == ':' && url[0] == scheme[0];
    assert AfterScheme(url) == after;
    assert after[2..] == host + tail;
    HostPrefixOf(host, tail);
  }

  /** A URL with no colon and no leading "//" has an empty netloc, as urlsplit gives for "well.ca/x". */
  lemma NetlocOfBareHost(url: string)
    requires ':' !in url
    requires !(|url| >= 2 && url[0] == '/' && url[1] == '/')
    ensures Netloc(url) == ""
  {
    var n := SchemeRun(url);
    if n < |url| {
      assert url[n] in url;
    }
  }

  /** An `https://host` URL followed by a path (or nothing) has `host` as its netloc. */
  lemma HttpsNetloc(host: string, path: string)
    requires forall k :: 0 <= k < |host| ==> !IsAuthorityDelimiter(host[k])
    requires path == [] || path[0] == '/'
    ensures Netloc("https" + "://" + host + path) == host
  {
    assert IsScheme("https") by {
      forall j | 0 <= j < 5 ensures IsSchemeChar("https"[j]) {
        assert IsAsciiLetter("https"[j]);
      }
    }
    NetlocOfAuthority("https", host, path);
  }

  /** The example from the docstring of `Product.fqdn`. */
  lemma FqdnDocExample()
    ensures Product("", "https" + "://" + "docs.python.org" + "/3/library/urllib.parse.html").Fqdn()
         == "docs.python.org"
  {
    var host := "docs.python.org";
    forall k | 0 <= k < |host| ensures !IsAuthorityDelimiter(host[k]) {
      assert host[k] != '/' && host[k] != '?' && host[k] != '#';
    }
    HttpsNetloc(host, "/3/library/urllib.parse.html");
  }

  /** The table key depends on the URL alone: the product name plays no part. */
  lemma HashDependsOnUrlOnly(p: Product, q: Product, md5: string -> string)
    requires p.url == q.url
    ensures p.Hash(md5) == q.Hash(md5)
  {
  }

  // ---------------------------------------------------------------------------
  // Store interfaces.
  // ---------------------------------------------------------------------------

  /** A parsed product page, reduced to the `id` attributes of its elements. */
  datatype Html = Html(elementIds: set<string>)

  /** The id of the element whose presence means that well.ca can sell the product. */
  const AddToCartButtonId: string := "add_to_cart_button"

  /** What the GET request for a product page comes back with. */
  datatype FetchOutcome =
    | Response(status: int, body: Html)
    | ConnectionFailure   // DNS, connect or transport error: no response at all

  /** The exceptions `is_in_stock` can raise. */
  datatype StoreError =
    | UnexpectedFqdn               // the interface was asked about another store's product
    | ClientResponseError(status: int)  // raise_for_status on a status of 400 or more
    | ClientConnectionError        // anything the request raises without a response

  /** The implemented store interfaces; each is bound to one store domain. */
  datatype StoreInterface = WellCa
  {
    /** The domain this interface classifies pages of. */
    function Fqdn(): string
    {
      match this
      case WellCa => "well.ca"
    }

    /**
     * The guard `is_in_stock` applies before requesting a page: it accepts
     * exactly the domain this interface is registered under.
     */
    predicate IsExpectedFqdn(fqdn: string)
      ensures IsExpectedFqdn(fqdn) <==> fqdn in Registry && Registry[fqdn] == this
    {
      fqdn == Fqdn()
    }

    /** `_is_in_stock`: whether the page shows the product as available. */
    predicate Classify(page: Html)
    {
      match this
      case WellCa => AddToCartButtonId in page.elementIds
    }
  }

  /** `is_in_stock` sends its GET request exactly when the domain guard passes. */
  predicate Requests(iface: StoreInterface, product: Product)
  {
    iface.IsExpectedFqdn(product.Fqdn())
  }

  /**
   * `is_in_stock`: the domain guard first, then the request (a status of 400
   * or more raises), then the classifier on the body.
   */
  function IsInStock(iface: StoreInterface, product: Product, fetched: FetchOutcome): (r: Result<bool, StoreError>)
    ensures r == Failure(UnexpectedFqdn) <==> product.Fqdn() != iface.Fqdn()
    ensures r.Success? <==> Requests(iface, product) && fetched.Response? && fetched.status < 400
    ensures r.Success? ==> r.value == iface.Classify(fetched.body)
    ensures r.Failure? && r.error.ClientResponseError? ==>
              Requests(iface, product) && fetched.Response? && r.error.status == fetched.status >= 400
    ensures Requests(iface, product) && fetched.Response? && fetched.status >= 400 ==>
              r == Failure(ClientResponseError(fetched.status))
    ensures Requests(iface, product) && fetched.ConnectionFailure? ==> r == Failure(ClientConnectionError)
  {
    if !iface.IsExpectedFqdn(product.Fqdn()) then
      Failure(UnexpectedFqdn)
    else
      match fetched
      case ConnectionFailure => Failure(ClientConnectionError)
      case Response(status, body) =>
        if status >= 400 then Failure(ClientResponseError(status)) else Success(iface.Classify(body))
  }

  /** When the guard fails, no request is made: the outcome does not depend on what a request would return. */
  lemma GuardFailureIgnoresFetch(iface: StoreInterface, product: Product, f1: FetchOutcome, f2: FetchOutcome)
    requires !iface.IsExpectedFqdn(product.Fqdn())
    ensures IsInStock(iface, product, f1) == IsInStock(iface, product, f2) == Failure(UnexpectedFqdn)
  {
  }

  /** well.ca classifies a page as in stock exactly when it has the add-to-cart button. */
  lemma WellCaClassifies(page: Html)
    ensures WellCa.Classify(page) <==> "add_to_cart_button" in page.elementIds
    ensures WellCa.Classify(Html(page.elementIds + {"add_to_cart_button"}))
    ensures !WellCa.Classify(Html(page.elementIds - {"add_to_cart_button"}))
  {
  }

  /** STORE_INTERFACE: the registry of implemented interfaces, keyed by their domain. */
  const Registry: map<string, StoreInterface> := map[WellCa.Fqdn() := WellCa]

  /** Every registry key is the domain of the interface it maps to. */
  lemma RegistryKeysAreFqdns()
    ensures forall fqdn :: fqdn in Registry ==> Registry[fqdn].Fqdn() == fqdn
    ensures Registry.Keys == {"well.ca"}
  {
  }

  /**
   * A product looked up in the registry by its own netloc always passes the
   * guard of the interface found, so `UnexpectedFqdn` cannot be raised.
   */
  lemma RegisteredProductPassesGuard(product: Product, fetched: FetchOutcome)
    requires product.Fqdn() in Registry
    ensures Requests(Registry[product.Fqdn()], product)
    ensures IsInStock(Registry[product.Fqdn()], product, fetched) != Failure(UnexpectedFqdn)
  {
    RegistryKeysAreFqdns();
  }
}
