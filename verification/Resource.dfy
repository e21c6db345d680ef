/**
 Key resources: bounded parsing of fetched key sets and metadata documents, and key selection.
 JSON decoding is foreign: a body is given by what it decodes to, if it decodes at all.
 */
module Resource {
  import opened Wrappers
  import opened Fetch
  import opened Discovery

  datatype Jwk = Jwk(x: string)

  datatype KeyEntry = KeyEntry(jwk: Jwk, kid: Option<string>)

  datatype CimdResource = CimdResource(inlineJwks: Option<seq<KeyEntry>>, jwksUri: Option<Url>)

  datatype ParsedResource = JwksResource(keys: seq<KeyEntry>) | CimdDocument(cimd: CimdResource)

  datatype FetchedJwk = FetchedJwk(kty: string, crv: Option<string>, kid: Option<string>, x: Option<string>)

  datatype FetchedCimd = FetchedCimd(clientId: string, jwks: Option<seq<FetchedJwk>>, jwksUri: Option<string>)

  /** A response body, by its two possible decodings. */
  datatype Body = Body(asJwks: Option<seq<FetchedJwk>>, asCimd: Option<FetchedCimd>)

  /** The foreign functions of this component. */
  datatype Library = Library(
    url: UrlLibrary, thumbprint: string -> string, validPublicKey: string -> bool, maxKeys: nat)

  datatype ResourceKey = ResourceKey(url: Url, kind: ResourceKind)

  predicate IsEd25519(key: FetchedJwk) {
    key.kty == "OKP" && key.crv == Some("Ed25519")
  }

  /** An Ed25519 entry that parses: it has a usable key, and in a directory its `kid` is its thumbprint. */
  predicate AcceptableKey(lib: Library, key: FetchedJwk, directory: bool) {
    && key.x.Some? && lib.validPublicKey(key.x.value)
    && (directory ==> key.kid.None? || key.kid.value == lib.thumbprint(key.x.value))
  }

  /** Entries whose `kid`, if present, is the key's thumbprint. */
  ghost predicate DirectoryKeys(lib: Library, keys: seq<KeyEntry>) {
    forall i :: 0 <= i < |keys| ==>
      keys[i].kid.None? || keys[i].kid.value == lib.thumbprint(keys[i].jwk.x)
  }

  ghost predicate ValidKeys(lib: Library, keys: seq<KeyEntry>) {
    forall i :: 0 <= i < |keys| ==> lib.validPublicKey(keys[i].jwk.x)
  }

  /**
   Keeps the Ed25519 keys in order; one bad Ed25519 key fails the whole set, other keys never do.
   */
  function CollectKeys(lib: Library, keys: seq<FetchedJwk>, directory: bool)
    : (r: Result<seq<KeyEntry>, FetchError>)
    ensures r.Ok? <==> forall i :: 0 <= i < |keys| && IsEd25519(keys[i]) ==> AcceptableKey(lib, keys[i], directory)
    ensures r.Err? ==> r.error == Plain(InvalidResource)
    ensures r.Ok? ==> |r.value| <= |keys| && ValidKeys(lib, r.value)
    ensures r.Ok? && directory ==> DirectoryKeys(lib, r.value)
    ensures r.Ok? ==> forall e :: e in r.value <==>
                        exists i :: 0 <= i < |keys| && IsEd25519(keys[i]) && keys[i].x == Some(e.jwk.x) && keys[i].kid == e.kid
  {
    if keys == [] then Ok([])
    else if !IsEd25519(keys[0]) then
      assert keys == [keys[0]] + keys[1..];
      CollectKeys(lib, keys[1..], directory)
    else if !AcceptableKey(lib, keys[0], directory) then Err(Plain(InvalidResource))
    else
      assert keys == [keys[0]] + keys[1..];
      match CollectKeys(lib, keys[1..], directory)
      case Err(error) => Err(error)
      case Ok(rest) => Ok([KeyEntry(Jwk(keys[0].x.value), keys[0].kid)] + rest)
  }

  function ParseKeys(lib: Library, keys: seq<FetchedJwk>, directory: bool)
    : (r: Result<seq<KeyEntry>, FetchError>)
    ensures r.Ok? ==> |r.value| <= lib.maxKeys && ValidKeys(lib, r.value)
    ensures r.Ok? && directory ==> DirectoryKeys(lib, r.value)
    ensures |keys| > lib.maxKeys ==> r.Err?
  {
    if |keys| > lib.maxKeys then Err(Plain(InvalidResource)) else CollectKeys(lib, keys, directory)
  }

  /** What every resource stored or served for a key satisfies. */
  ghost predicate FitsKey(lib: Library, key: ResourceKey, resource: ParsedResource) {
    match key.kind
    case JwksKind =>
      && resource.JwksResource?
      && ValidKeys(lib, resource.keys)
      && (IsDirectoryUrl(key.url) ==> DirectoryKeys(lib, resource.keys))
    case CimdKind =>
      && resource.CimdDocument?
      && (resource.cimd.inlineJwks.Some? <==> resource.cimd.jwksUri.None?)
      && (resource.cimd.inlineJwks.Some? ==> ValidKeys(lib, resource.cimd.inlineJwks.value))
      && (resource.cimd.jwksUri.Some? ==> resource.cimd.jwksUri.value.fragment.None?)
  }

  function ParseResource(lib: Library, key: ResourceKey, body: Body)
    : (r: Result<ParsedResource, FetchError>)
    ensures r.Ok? ==> FitsKey(lib, key, r.value)
    ensures r.Err? ==> r.error == Plain(InvalidResource)
  {
    match key.kind
    case JwksKind =>
      if body.asJwks.None? then Err(Plain(InvalidResource))
      else (match ParseKeys(lib, body.asJwks.value, IsDirectoryUrl(key.url))
            case Err(error) => Err(error)
            case Ok(keys) => Ok(JwksResource(keys)))
    case CimdKind =>
      if body.asCimd.None? then Err(Plain(InvalidResource))
      else
        var metadata := body.asCimd.value;
        if metadata.clientId != lib.url.print_(key.url) then Err(Plain(InvalidResource))
        else match (metadata.jwks, metadata.jwksUri)
          case (Some(jwks), None) =>
            (match ParseKeys(lib, jwks, false)
             case Err(error) => Err(error)
             case Ok(keys) => Ok(CimdDocument(CimdResource(Some(keys), None))))
          case (None, Some(uri)) =>
            if |uri| > MAX_AGENT_URL_BYTES then Err(Plain(InvalidResource))
            else (match lib.url.parse(uri)
                  case None => Err(Plain(InvalidResource))
                  case Some(url) => Ok(CimdDocument(CimdResource(None, Some(url.(fragment := None))))))
          case _ => Err(Plain(InvalidResource))
  }

  // When a resource parses, and to what.

  /** At most so many keys, and every Ed25519 key usable; in a directory its `kid` is absent or its thumbprint. */
  ghost predicate UsableKeys(lib: Library, keys: seq<FetchedJwk>, directory: bool) {
    && |keys| <= lib.maxKeys
    && forall i :: 0 <= i < |keys| && keys[i].kty == "OKP" && keys[i].crv == Some("Ed25519") ==>
         && keys[i].x.Some? && lib.validPublicKey(keys[i].x.value)
         && (directory ==> keys[i].kid.None? || keys[i].kid.value == lib.thumbprint(keys[i].x.value))
  }

  /** The Ed25519 keys of a set, in their order. */
  function Ed25519Entries(keys: seq<FetchedJwk>): seq<KeyEntry> {
    if keys == [] then []
    else if keys[0].kty == "OKP" && keys[0].crv == Some("Ed25519") && keys[0].x.Some? then
      [KeyEntry(Jwk(keys[0].x.value), keys[0].kid)] + Ed25519Entries(keys[1..])
    else Ed25519Entries(keys[1..])
  }

  lemma {:induction false} CollectIsFilter(lib: Library, keys: seq<FetchedJwk>, directory: bool)
    requires CollectKeys(lib, keys, directory).Ok?
    ensures CollectKeys(lib, keys, directory).value == Ed25519Entries(keys)
  {
    if keys != [] {
      CollectIsFilter(lib, keys[1..], directory);
    }
  }

  lemma ParseKeysIff(lib: Library, keys: seq<FetchedJwk>, directory: bool)
    ensures ParseKeys(lib, keys, directory).Ok? <==> UsableKeys(lib, keys, directory)
    ensures ParseKeys(lib, keys, directory).Ok? ==> ParseKeys(lib, keys, directory).value == Ed25519Entries(keys)
  {
    var r := CollectKeys(lib, keys, directory);
    if r.Ok? {
      CollectIsFilter(lib, keys, directory);
      forall i | 0 <= i < |keys| && keys[i].kty == "OKP" && keys[i].crv == Some("Ed25519")
        ensures && keys[i].x.Some? && lib.validPublicKey(keys[i].x.value)
                && (directory ==> keys[i].kid.None? || keys[i].kid.value == lib.thumbprint(keys[i].x.value))
      {
        assert IsEd25519(keys[i]) && AcceptableKey(lib, keys[i], directory);
      }
    }
  }

  /** A key set resource parses exactly when the body is a key set that is usable at this URL. */
  lemma ParseJwksIff(lib: Library, key: ResourceKey, body: Body)
    requires key.kind.JwksKind?
    ensures var directory := && key.url.path == "/.well-known/http-message-signatures-directory"
                             && key.url.query.None? && key.url.fragment.None?;
            var r := ParseResource(lib, key, body);
            && (r.Ok? <==> body.asJwks.Some? && UsableKeys(lib, body.asJwks.value, directory))
            && (r.Ok? ==> r.value == JwksResource(Ed25519Entries(body.asJwks.value)))
  {
    if body.asJwks.Some? {
      ParseKeysIff(lib, body.asJwks.value, IsDirectoryUrl(key.url));
    }
  }

  /**
   A metadata document parses exactly when it names the URL it was fetched from as its client, and
   either holds a usable key set or names a key set URL of bounded length, but not both.
   */
  lemma ParseCimdIff(lib: Library, key: ResourceKey, body: Body)
    requires key.kind.CimdKind?
    ensures var r := ParseResource(lib, key, body);
            && (r.Ok? <==>
                  && body.asCimd.Some? && body.asCimd.value.clientId == lib.url.print_(key.url)
                  && var m := body.asCimd.value;
                  || (m.jwks.Some? && m.jwksUri.None? && UsableKeys(lib, m.jwks.value, false))
                  || (m.jwks.None? && m.jwksUri.Some? && |m.jwksUri.value| <= 2048 && lib.url.parse(m.jwksUri.value).Some?))
            && (r.Ok? ==>
                  var m := body.asCimd.value;
                  r.value == CimdDocument(
                    if m.jwks.Some? then CimdResource(Some(Ed25519Entries(m.jwks.value)), None)
                    else CimdResource(None, Some(lib.url.parse(m.jwksUri.value).value.(fragment := None)))))
  {
    if body.asCimd.Some? && body.asCimd.value.jwks.Some? {
      ParseKeysIff(lib, body.asCimd.value.jwks.value, false);
    }
  }

  // Key selection.

  function FindKid(keys: seq<KeyEntry>, keyId: string): Option<Jwk> {
    if keys == [] then None
    else if keys[0].kid == Some(keyId) then Some(keys[0].jwk)
    else FindKid(keys[1..], keyId)
  }

  function FindThumbprint(lib: Library, keys: seq<KeyEntry>, keyId: string): Option<Jwk> {
    if keys == [] then None
    else if lib.thumbprint(keys[0].jwk.x) == keyId then Some(keys[0].jwk)
    else FindThumbprint(lib, keys[1..], keyId)
  }

  /** A `kid` match anywhere comes before a thumbprint match. */
  function SelectKey(lib: Library, keys: seq<KeyEntry>, keyId: string): Option<Jwk> {
    var byKid := FindKid(keys, keyId);
    if byKid.Some? then byKid else FindThumbprint(lib, keys, keyId)
  }

  ghost predicate HasThumbprint(lib: Library, keys: seq<KeyEntry>, keyId: string) {
    exists i :: 0 <= i < |keys| && lib.thumbprint(keys[i].jwk.x) == keyId
  }

  lemma {:induction false} FindKidSound(keys: seq<KeyEntry>, keyId: string)
    ensures FindKid(keys, keyId).Some? ==> KeyEntry(FindKid(keys, keyId).value, Some(keyId)) in keys
    ensures FindKid(keys, keyId).None? ==> forall i :: 0 <= i < |keys| ==> keys[i].kid != Some(keyId)
  {
    if keys != [] {
      FindKidSound(keys[1..], keyId);
    }
  }

  lemma {:induction false} FindThumbprintSound(lib: Library, keys: seq<KeyEntry>, keyId: string)
    ensures var r := FindThumbprint(lib, keys, keyId);
            && (r.Some? <==> HasThumbprint(lib, keys, keyId))
            && (r.Some? ==> lib.thumbprint(r.value.x) == keyId && exists e :: e in keys && e.jwk == r.value)
  {
    if keys != [] {
      FindThumbprintSound(lib, keys[1..], keyId);
      if lib.thumbprint(keys[0].jwk.x) == keyId {
        assert keys[0] in keys;
      } else if HasThumbprint(lib, keys, keyId) {
        var i :| 0 <= i < |keys| && lib.thumbprint(keys[i].jwk.x) == keyId;
        assert lib.thumbprint(keys[1..][i - 1].jwk.x) == keyId;
      } else {
        assert forall i :: 0 <= i < |keys[1..]| ==> keys[1..][i] == keys[i + 1];
      }
    }
  }

  /**
   In a directory a key is found exactly when some entry has the requested thumbprint, and the
   key found has it: no `kid` can divert the selection.
   */
  lemma SelectKeyInDirectory(lib: Library, keys: seq<KeyEntry>, keyId: string)
    requires DirectoryKeys(lib, keys)
    ensures var r := SelectKey(lib, keys, keyId);
            && (r.Some? <==> HasThumbprint(lib, keys, keyId))
            && (r.Some? ==> lib.thumbprint(r.value.x) == keyId)
  {
    FindKidSound(keys, keyId);
    FindThumbprintSound(lib, keys, keyId);
    if FindKid(keys, keyId).Some? {
      var i :| 0 <= i < |keys| && keys[i] == KeyEntry(FindKid(keys, keyId).value, Some(keyId));
      assert lib.thumbprint(keys[i].jwk.x) == keyId;
    }
  }

  /**
   In any key set the key selected has the requested thumbprint exactly when some entry has it
   and the first entry that claims the identifier as its `kid`, if any does, has it too.
   */
  lemma SelectKeyIff(lib: Library, keys: seq<KeyEntry>, keyId: string)
    ensures var r := SelectKey(lib, keys, keyId);
            (r.Some? && lib.thumbprint(r.value.x) == keyId) <==>
            (&& HasThumbprint(lib, keys, keyId)
             && var claimed := FindKid(keys, keyId);
                claimed.None? || lib.thumbprint(claimed.value.x) == keyId)
  {
    FindKidSound(keys, keyId);
    FindThumbprintSound(lib, keys, keyId);
    if FindKid(keys, keyId).Some? {
      var i :| 0 <= i < |keys| && keys[i] == KeyEntry(FindKid(keys, keyId).value, Some(keyId));
    }
  }

  /** Outside directories a foreign `kid` can hide the key that has the requested thumbprint. */
  lemma KidHidesThumbprint(lib: Library, a: string, b: string)
    requires lib.thumbprint(a) != lib.thumbprint(b)
    ensures var keys := [KeyEntry(Jwk(b), None), KeyEntry(Jwk(a), Some(lib.thumbprint(b)))];
            HasThumbprint(lib, keys, lib.thumbprint(b)) &&
            SelectKey(lib, keys, lib.thumbprint(b)) == Some(Jwk(a))
  {
    var keyId := lib.thumbprint(b);
    var last := [KeyEntry(Jwk(a), Some(keyId))];
    var keys := [KeyEntry(Jwk(b), None), KeyEntry(Jwk(a), Some(keyId))];
    assert lib.thumbprint(keys[0].jwk.x) == keyId;
    assert keys[1..] == last;
    assert FindKid(last, keyId) == Some(Jwk(a));
  }

  lemma {:induction false} FindKidFirst(keys: seq<KeyEntry>, keyId: string, i: nat)
    requires i < |keys| && keys[i].kid == Some(keyId) && forall j :: 0 <= j < i ==> keys[j].kid != Some(keyId)
    ensures FindKid(keys, keyId) == Some(keys[i].jwk)
  {
    if i > 0 {
      FindKidFirst(keys[1..], keyId, i - 1);
    }
  }

  lemma {:induction false} FindThumbprintFirst(lib: Library, keys: seq<KeyEntry>, keyId: string, i: nat)
    requires i < |keys| && lib.thumbprint(keys[i].jwk.x) == keyId
    requires forall j :: 0 <= j < i ==> lib.thumbprint(keys[j].jwk.x) != keyId
    ensures FindThumbprint(lib, keys, keyId) == Some(keys[i].jwk)
  {
    if i > 0 {
      FindThumbprintFirst(lib, keys[1..], keyId, i - 1);
    }
  }

  /** The first entry that claims the identifier is selected; without any, the first that has the thumbprint. */
  lemma SelectFirst(lib: Library, keys: seq<KeyEntry>, keyId: string, i: nat)
    requires i < |keys|
    ensures keys[i].kid == Some(keyId) && (forall j :: 0 <= j < i ==> keys[j].kid != Some(keyId)) ==>
              SelectKey(lib, keys, keyId) == Some(keys[i].jwk)
    ensures && (forall j :: 0 <= j < |keys| ==> keys[j].kid != Some(keyId))
            && lib.thumbprint(keys[i].jwk.x) == keyId
            && (forall j :: 0 <= j < i ==> lib.thumbprint(keys[j].jwk.x) != keyId) ==>
              SelectKey(lib, keys, keyId) == Some(keys[i].jwk)
  {
    FindKidSound(keys, keyId);
    if keys[i].kid == Some(keyId) && (forall j :: 0 <= j < i ==> keys[j].kid != Some(keyId)) {
      FindKidFirst(keys, keyId, i);
    }
    if lib.thumbprint(keys[i].jwk.x) == keyId && (forall j :: 0 <= j < i ==> lib.thumbprint(keys[j].jwk.x) != keyId) {
      FindThumbprintFirst(lib, keys, keyId, i);
    }
  }
}
