/**
 Discovery URLs: the resource a signed agent URL is fetched from, and the identifier it stands for.
 A parsed URL is a record; parsing and printing URLs are the URL library's, passed in as functions.
 */
module Discovery {
  import opened Wrappers
  import opened PercentEncoding
  import opened DotSegments
  import opened NormalPath

  const MAX_AGENT_URL_BYTES := 2048
  const DIRECTORY_PATH := "/.well-known/http-message-signatures-directory"

  datatype DiscoveryMechanism = Directory | JwksUri | Cimd

  datatype Url = Url(
    scheme: string, username: string, password: Option<string>, host: Option<string>,
    port: Option<nat>, path: string, query: Option<string>, fragment: Option<string>)

  datatype UrlLibrary = UrlLibrary(parse: string -> Option<Url>, print_: Url -> string)

  datatype DiscoveryTarget = DiscoveryTarget(fetchUrl: Url, normalizedIdentifier: string)

  datatype DiscoveryUrlError =
    TooLong | InvalidUrl | InvalidScheme | MissingHost | UserInfo | DirectoryNotOrigin

  predicate IsDirectoryUrl(url: Url) {
    url.path == DIRECTORY_PATH && url.query.None? && url.fragment.None?
  }

  /** The URL that names an agent: no query, no fragment, normal path. */
  function IdentifierUrl(url: Url): Url {
    url.(query := None, fragment := None, path := NormalForm(url.path))
  }

  /** Why a parsed agent URL is refused, if it is. */
  function Refusal(url: Url, discovery: DiscoveryMechanism): Option<DiscoveryUrlError> {
    if url.scheme != "https" then Some(InvalidScheme)
    else if url.host.None? then Some(MissingHost)
    else if url.username != "" || url.password.Some? then Some(UserInfo)
    else if discovery.Directory? && ((url.path != "" && url.path != "/") || url.query.Some? || url.fragment.Some?) then
      Some(DirectoryNotOrigin)
    else None
  }

  /** The URL fetched for an agent URL that is not refused. */
  function FetchUrl(url: Url, discovery: DiscoveryMechanism): Url {
    url.(path := if discovery.Directory? then DIRECTORY_PATH else url.path, fragment := None)
  }

  function FetchOf(lib: UrlLibrary, value: string, discovery: DiscoveryMechanism)
    : (r: Result<Url, DiscoveryUrlError>)
    ensures r.Ok? ==> |value| <= MAX_AGENT_URL_BYTES && r.value.fragment.None?
    ensures r.Ok? && discovery.Directory? ==> IsDirectoryUrl(r.value)
  {
    if |value| > MAX_AGENT_URL_BYTES then Err(TooLong)
    else match lib.parse(value)
      case None => Err(InvalidUrl)
      case Some(url) =>
        match Refusal(url, discovery)
        case Some(error) => Err(error)
        case None => Ok(FetchUrl(url, discovery))
  }

  /** What parsing an agent URL answers; module and resolver both ask this. */
  function TargetOf(lib: UrlLibrary, value: string, discovery: DiscoveryMechanism)
    : (r: Result<DiscoveryTarget, DiscoveryUrlError>)
    ensures r.Ok? <==> FetchOf(lib, value, discovery).Ok?
    ensures r.Ok? ==> r.value.fetchUrl == FetchOf(lib, value, discovery).value
  {
    match FetchOf(lib, value, discovery)
    case Err(error) => Err(error)
    case Ok(url) => Ok(DiscoveryTarget(url, lib.print_(IdentifierUrl(url))))
  }

  method ParseDiscoveryTarget(lib: UrlLibrary, value: string, discovery: DiscoveryMechanism)
    returns (r: Result<DiscoveryTarget, DiscoveryUrlError>)
    ensures r == TargetOf(lib, value, discovery)
  {
    if |value| > MAX_AGENT_URL_BYTES {
      return Err(TooLong);
    }
    var parsed := lib.parse(value);
    if parsed.None? {
      return Err(InvalidUrl);
    }
    var url := parsed.value;
    if url.scheme != "https" {
      return Err(InvalidScheme);
    }
    if url.host.None? {
      return Err(MissingHost);
    }
    if url.username != "" || url.password.Some? {
      return Err(UserInfo);
    }
    if discovery.Directory? {
      if (url.path != "" && url.path != "/") || url.query.Some? || url.fragment.Some? {
        return Err(DirectoryNotOrigin);
      }
      url := url.(path := DIRECTORY_PATH);
    }
    url := url.(fragment := None);
    var normalized := url;
    normalized := normalized.(query := None);
    normalized := normalized.(fragment := None);
    var normalizedPath := NormalizePath(normalized.path);
    normalized := normalized.(path := normalizedPath);
    r := Ok(DiscoveryTarget(url, lib.print_(normalized)));
  }

  /** An identifier names itself: taking the identifier of an identifier changes nothing. */
  lemma IdentifierIdempotent(url: Url)
    requires IsAbsolute(url.path) && WellFormed(url.path)
    ensures IdentifierUrl(IdentifierUrl(url)) == IdentifierUrl(url)
  {
    NormalFormIdempotent(url.path);
  }

  /**
   Two URLs have the same identifier URL exactly when they agree on everything but query and
   fragment, up to the segments that survive path normalisation.
   */
  lemma SameIdentifierUrl(a: Url, b: Url)
    requires IsAbsolute(a.path) && IsAbsolute(b.path)
    ensures IdentifierUrl(a) == IdentifierUrl(b) <==>
            && Survivors(a.path) == Survivors(b.path)
            && a.(path := "", query := None, fragment := None) == b.(path := "", query := None, fragment := None)
  {
    SameNormalForm(a.path, b.path);
    if NormalForm(a.path) == NormalForm(b.path)
       && a.(path := "", query := None, fragment := None) == b.(path := "", query := None, fragment := None) {
      assert IdentifierUrl(a) == a.(path := "", query := None, fragment := None).(path := NormalForm(a.path));
      assert IdentifierUrl(b) == b.(path := "", query := None, fragment := None).(path := NormalForm(b.path));
    }
    if IdentifierUrl(a) == IdentifierUrl(b) {
      assert a.(path := "", query := None, fragment := None) == IdentifierUrl(a).(path := "");
      assert b.(path := "", query := None, fragment := None) == IdentifierUrl(b).(path := "");
    }
  }

  /**
   An agent URL is accepted exactly when it is at most 2048 bytes long, parses, uses `https`, has a
   host and no user information, and for directory discovery is a bare origin. It is fetched as it
   stands, but without fragment and for a directory at the well-known path.
   */
  lemma FetchIff(lib: UrlLibrary, value: string, discovery: DiscoveryMechanism)
    ensures var r := FetchOf(lib, value, discovery);
            && (r.Ok? <==>
                  && |value| <= 2048 && lib.parse(value).Some?
                  && var url := lib.parse(value).value;
                  && url.scheme == "https" && url.host.Some? && url.username == "" && url.password.None?
                  && (discovery.Directory? ==> url.path in ["", "/"] && url.query.None? && url.fragment.None?))
            && (r.Ok? ==>
                  var url := lib.parse(value).value;
                  r.value == url.(
                    path := if discovery.Directory? then "/.well-known/http-message-signatures-directory" else url.path,
                    fragment := None))
  {
  }

  /** An accepted URL is identified by what is fetched, without query and with its path in normal form. */
  lemma TargetIff(lib: UrlLibrary, value: string, discovery: DiscoveryMechanism)
    ensures var target, fetched := TargetOf(lib, value, discovery), FetchOf(lib, value, discovery);
            && (target.Ok? <==> fetched.Ok?)
            && (target.Ok? ==>
                  && target.value.fetchUrl == fetched.value
                  && target.value.normalizedIdentifier == IdentifierText(lib, fetched.value))
  {
  }

  function IdentifierText(lib: UrlLibrary, url: Url): string {
    lib.print_(Url(url.scheme, url.username, url.password, url.host, url.port, NormalForm(url.path), None, None))
  }
}
