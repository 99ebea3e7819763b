/**
 Package-name extraction from a deep-link URI (the `Intent.packageName`
 extension property of `MainActivityX`).

 The activity never parses a URI itself: it reads the components that the
 platform's URI parser already produced (scheme, host, scheme-specific part,
 the `id` query parameter and the last path segment, in the sense of
 sections 3.1, 3.2.2, 3.3 and 3.4 of RFC 3986). A URI is therefore modelled
 as a record of those optional components.
 */
module DeepLink {
  import opened Text

  /** The parsed components of a deep-link URI that the extractor reads; `None` is a missing component. */
  datatype Uri = Uri(
    scheme: Option<string>,
    host: Option<string>,
    schemeSpecificPart: Option<string>,
    idParameter: Option<string>,      // the value of the `id` query parameter
    lastPathSegment: Option<string>
  )

  /** The only schemes for which the extractor can produce a package name. */
  const KnownSchemes: set<string> := {"package", "fdroid.app", "market", "http", "https"}

  /** `s.orEmpty()`: a missing string reads as the empty string. */
  function OrEmpty(s: Option<string>): (r: string)
    ensures r == [] <==> s.None? || s.value == []
    ensures s.Some? ==> r == s.value
  {
    match s
    case None => ""
    case Some(v) => v
  }

  /** Web links are honoured only for `f-droid.org` itself and its subdomains (case-sensitive). */
  predicate IsFDroidHost(host: string)
    ensures IsFDroidHost(host) ==> EndsWith(host, "f-droid.org")
    ensures IsFDroidHost(host) && host != "f-droid.org" ==> |host| > 11 && host[|host| - 12] == '.'
  {
    host == "f-droid.org" || EndsWith(host, ".f-droid.org")
  }

  /**
   The package name a deep link designates, tried in the source's order:
   `package:` and `fdroid.app:` links give their scheme-specific part,
   `market://details` links the `id` query parameter, `http(s)` links to
   F-Droid's host the last path segment; everything else gives nothing.
   Every branch drops an empty string.
   */
  function PackageName(uri: Option<Uri>): (r: Option<string>)
    ensures r.Some? ==> r.value != []
    ensures r.Some? ==> uri.Some? && uri.value.scheme.Some? && uri.value.scheme.value in KnownSchemes
  {
    if uri.Some? && (uri.value.scheme == Some("package") || uri.value.scheme == Some("fdroid.app")) then
      NullIfEmpty(uri.value.schemeSpecificPart)
    else if uri.Some? && uri.value.scheme == Some("market") && uri.value.host == Some("details") then
      NullIfEmpty(uri.value.idParameter)
    else if uri.Some? && uri.value.scheme.Some? && uri.value.scheme.value in {"http", "https"} then
      var host := OrEmpty(uri.value.host);
      if IsFDroidHost(host) then NullIfEmpty(uri.value.lastPathSegment) else None
    else
      None
  }

  /** A missing URI designates no package. */
  lemma NoUriNoPackage()
    ensures PackageName(None) == None
  {
  }

  /** `package:` and `fdroid.app:` links: the result is exactly the non-empty scheme-specific part. */
  lemma PackageSchemes(u: Uri)
    requires u.scheme == Some("package") || u.scheme == Some("fdroid.app")
    ensures PackageName(Some(u)).Some? <==> u.schemeSpecificPart.Some? && u.schemeSpecificPart.value != []
    ensures PackageName(Some(u)).Some? ==> PackageName(Some(u)).value == u.schemeSpecificPart.value
  {
  }

  /** `market:` links: only the host `details` is honoured, and the result is its non-empty `id` parameter. */
  lemma MarketScheme(u: Uri)
    requires u.scheme == Some("market")
    ensures PackageName(Some(u)).Some? <==>
      u.host == Some("details") && u.idParameter.Some? && u.idParameter.value != []
    ensures PackageName(Some(u)).Some? ==> PackageName(Some(u)).value == u.idParameter.value
  {
  }

  /** `http:` and `https:` links: only F-Droid's host and its subdomains, and the result is the non-empty last path segment. */
  lemma WebSchemes(u: Uri)
    requires u.scheme == Some("http") || u.scheme == Some("https")
    ensures PackageName(Some(u)).Some? <==>
      IsFDroidHost(OrEmpty(u.host)) && u.lastPathSegment.Some? && u.lastPathSegment.value != []
    ensures PackageName(Some(u)).Some? ==> PackageName(Some(u)).value == u.lastPathSegment.value
  {
  }

  /** A web link without a host reads as the empty host, which is not F-Droid's. */
  lemma WebLinkWithoutHost(u: Uri)
    requires u.scheme == Some("http") || u.scheme == Some("https")
    requires u.host == None
    ensures PackageName(Some(u)) == None
  {
  }

  /** The accepted hosts are `f-droid.org` and every name of the form `<anything>.f-droid.org`. */
  lemma {:induction false} FDroidHostIff(host: string)
    ensures IsFDroidHost(host) <==> host == "f-droid.org" || exists p: string :: host == p + ".f-droid.org"
  {
    EndsWithIffSplit(host, ".f-droid.org");
  }

  /** Every subdomain of `f-droid.org` is accepted. */
  lemma SubdomainAccepted(sub: string)
    ensures IsFDroidHost(sub + ".f-droid.org")
  {
  }

  /**
   A look-alike host, `f-droid.org` glued to a non-empty prefix that does
   not end in a dot (such as `evilf-droid.org`), is rejected.
   */
  lemma {:induction false} LookalikeHostRejected(prefix: string)
    requires prefix != [] && prefix[|prefix| - 1] != '.'
    ensures !IsFDroidHost(prefix + "f-droid.org")
  {
    var host := prefix + "f-droid.org";
    assert |host| > |"f-droid.org"|;
    assert ".f-droid.org" == ['.'] + "f-droid.org";
    if EndsWith(host, ".f-droid.org") {
      SuffixCharacter(prefix, '.', "f-droid.org");
    }
  }

  /** `https://evilf-droid.org/.../org.example` designates no package. */
  lemma EvilHostLinkIgnored(path: string)
    ensures PackageName(Some(Uri(Some("https"), Some("evilf-droid.org"), None, None, Some(path)))) == None
  {
  }
}
