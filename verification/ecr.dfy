/** aws/ecr.go: resolving a registry address into an `EcrRegistry`, the
    image tag built from it, and turning an ECR authorization token into a
    username/password pair.

    The AWS SDK calls are not modelled: what they answer is an input
    (`AwsSdk`), and so is base64 decoding (`decode`). Each `log.Fatal` of the
    source becomes an `Err`. */
module Ecr {
  import opened Results
  import opened Strings
  import Url
  import EcrHost

  const ProxyEndpointScheme := "https://"
  const ProgramName := "depot-go-ecr-example"
  const EcrPublicName := "public.ecr.aws"
  const EcrPublicEndpoint := ProxyEndpointScheme + EcrPublicName

  datatype EcrCreds = EcrCreds(username: string, password: string)

  /** A resolved registry: `url` is the endpoint, `host` the bare host name
      and `path` the repository path without surrounding slashes. */
  datatype EcrRegistry = EcrRegistry(url: string, host: string, path: string)

  datatype ResolveError =
    | UrlError(cause: Url.ParseError, url: string)
    | InvalidRegistryUrl
    | UnsupportedRegistry
    | InvalidRepositoryUri(input: string)

  /** Go's `%q`, approximated: the text between double quotes, without
      escaping. */
  function Quote(s: string): string {
    "\"" + s + "\""
  }

  const ControlCharacterText := "net/url: invalid control character in URL"
  const InvalidRegistryUrlText := "invalid registry URL"
  const UnsupportedRegistryText := ProgramName + " can only be used with Amazon Elastic Container Registry"
  const InvalidRepositoryUriText := " is not a valid repository URI for Amazon Elastic Container Registry"

  /** The error text `log.Fatal` prints for a failed resolution. A URL
      error is net/url's cause wrapped as `parse "<url>": <cause>`, where
      the url is the parsed text without its fragment; the resolver's own
      errors have fixed texts, the last one quoting the input. */
  function ErrorMessage(e: ResolveError): (m: string)
    ensures e.UrlError? && e.cause.InvalidControlCharacter? ==>
              m == "parse " + Quote(e.url) + ": " + ControlCharacterText
    ensures e.UrlError? && e.cause.InvalidPort? ==>
              m == "parse " + Quote(e.url) + ": " + "invalid port " + Quote(e.cause.colonPort) + " after host"
    ensures e.InvalidRegistryUrl? ==> m == InvalidRegistryUrlText
    ensures e.UnsupportedRegistry? ==> m == UnsupportedRegistryText
    ensures e.InvalidRepositoryUri? ==> m == Quote(e.input) + InvalidRepositoryUriText
  {
    match e
    case UrlError(cause, url) =>
      var causeText := match cause
        case InvalidControlCharacter => ControlCharacterText
        case InvalidPort(p) => "invalid port " + Quote(p) + " after host";
      "parse " + Quote(url) + ": " + causeText
    case InvalidRegistryUrl => InvalidRegistryUrlText
    case UnsupportedRegistry => UnsupportedRegistryText
    case InvalidRepositoryUri(input) => Quote(input) + InvalidRepositoryUriText
  }

  /** Each kind of error is recognisable from its message's first
      character. */
  lemma MessageFirstCharacter(e: ResolveError)
    ensures |ErrorMessage(e)| > 0
    ensures ErrorMessage(e)[0] == 'p' <==> e.UrlError?
    ensures ErrorMessage(e)[0] == 'i' <==> e.InvalidRegistryUrl?
    ensures ErrorMessage(e)[0] == 'd' <==> e.UnsupportedRegistry?
    ensures ErrorMessage(e)[0] == '"' <==> e.InvalidRepositoryUri?
  {
    match e
    case UrlError(_, url) =>
      assert ErrorMessage(e)[0] == ("parse " + Quote(url))[0];
    case InvalidRegistryUrl =>
    case UnsupportedRegistry =>
      assert ErrorMessage(e)[0] == ProgramName[0];
    case InvalidRepositoryUri(input) =>
      assert ErrorMessage(e)[0] == Quote(input)[0];
  }

  /** Two errors that print the same message are of the same kind. */
  lemma MessageDeterminesKind(e1: ResolveError, e2: ResolveError)
    requires ErrorMessage(e1) == ErrorMessage(e2)
    ensures e1.UrlError? == e2.UrlError?
    ensures e1.InvalidRegistryUrl? == e2.InvalidRegistryUrl?
    ensures e1.UnsupportedRegistry? == e2.UnsupportedRegistry?
    ensures e1.InvalidRepositoryUri? == e2.InvalidRepositoryUri?
  {
    MessageFirstCharacter(e1);
    MessageFirstCharacter(e2);
  }

  /** What every resolved registry satisfies: a path holding at least one
      inner `/` and no surrounding ones, and either the public registry with
      its fixed endpoint or a private ECR host whose endpoint is that host
      behind `https://`. */
  predicate WellFormed(r: EcrRegistry) {
    && '/' in r.path
    && r.path[0] != '/' && r.path[|r.path| - 1] != '/'
    && ((r.host == EcrPublicName && r.url == EcrPublicEndpoint)
        || (EcrHost.IsEcrHost(r.host) && r.url == ProxyEndpointScheme + r.host))
  }

  /** `ImageTag`: the reference `host/path:tag`. The three pieces appear in
      order, the host first, with `/` right after the host and `:` right
      before the tag. */
  function ImageTag(registry: EcrRegistry, tag: string): (r: string)
    ensures |r| == |registry.host| + |registry.path| + |tag| + 2
    ensures r[..|registry.host|] == registry.host && r[|registry.host|] == '/'
    ensures r[|registry.host| + 1..|registry.host| + 1 + |registry.path|] == registry.path
    ensures r[|registry.host| + 1 + |registry.path|] == ':'
    ensures r[|r| - |tag|..] == tag
  {
    registry.host + "/" + registry.path + ":" + tag
  }

  /** `ExtractEcrRegisty`: strips one leading `https://`, then resolves the
      remainder as the source does. */
  function ExtractEcrRegistry(input: string): (r: Result<EcrRegistry, ResolveError>)
    ensures r == Resolve(TrimPrefix(input, ProxyEndpointScheme))
    ensures r.Ok? ==> WellFormed(r.value)
    ensures !(r.Err? && r.error.InvalidRepositoryUri?)
  {
    Resolve(TrimPrefix(input, ProxyEndpointScheme))
  }

  /** The resolver after the scheme has been stripped: `rest` is parsed as
      `"https://" + rest`. The outcomes, in the order the source checks them:
      a URL error, which names `"https://" + rest` cut at any `#` (the
      scheme holds no `#`, so that is the text net/url reports);
      "invalid registry URL" exactly when the trimmed path holds
      no `/`; the public registry without any pattern check; a private ECR
      host; "unsupported registry" for every other host. */
  function Resolve(rest: string): (r: Result<EcrRegistry, ResolveError>)
    ensures Url.Parse(rest).Err? ==>
              r == Err(UrlError(Url.Parse(rest).error, ProxyEndpointScheme + Before(rest, '#')))
    ensures Url.Parse(rest).Ok? ==>
              var u := Url.Parse(rest).value;
              var path := Trim(u.path, '/');
              var host := Url.Hostname(u);
              && (r == Err(InvalidRegistryUrl) <==> '/' !in path)
              && (r == Err(UnsupportedRegistry) <==>
                    '/' in path && host != EcrPublicName && !EcrHost.IsEcrHost(host))
              && (r.Ok? <==> '/' in path && (host == EcrPublicName || EcrHost.IsEcrHost(host)))
              && (r.Ok? ==> r.value.host == host && r.value.path == path)
    ensures r.Ok? ==> WellFormed(r.value)
    ensures !(r.Err? && r.error.InvalidRepositoryUri?)
  {
    match Url.Parse(rest)
    case Err(e) => Err(UrlError(e, ProxyEndpointScheme + Before(rest, '#')))
    case Ok(serverUrl) => ResolveParsed(serverUrl, rest)
  }

  /** The checks that follow a successful parse of `"https://" + rest`. */
  function ResolveParsed(serverUrl: Url.Url, rest: string): (r: Result<EcrRegistry, ResolveError>)
    ensures var path := Trim(serverUrl.path, '/');
            var host := Url.Hostname(serverUrl);
            && (r == Err(InvalidRegistryUrl) <==> '/' !in path)
            && (r == Err(UnsupportedRegistry) <==>
                  '/' in path && host != EcrPublicName && !EcrHost.IsEcrHost(host))
            && (r.Ok? <==> '/' in path && (host == EcrPublicName || EcrHost.IsEcrHost(host)))
            && (r.Ok? ==> r.value.host == host && r.value.path == path)
    ensures r.Ok? ==> WellFormed(r.value)
    ensures !(r.Err? && r.error.InvalidRepositoryUri?)
  {
    var path := Trim(serverUrl.path, '/');
    var pathParts := Split(path, '/');
    if |pathParts| < 2 then Err(InvalidRegistryUrl)
    else
      var host := Url.Hostname(serverUrl);
      if host == EcrPublicName then
        Ok(EcrRegistry(EcrPublicEndpoint, EcrPublicName, path))
      else
        var matches := EcrHost.Submatches(host);
        if |matches| == 0 then Err(UnsupportedRegistry)
        else if |matches| < 3 then Err(InvalidRepositoryUri(rest))
        else Ok(EcrRegistry(ProxyEndpointScheme + matches[0], host, path))
  }

  /** Only one literal `https://` is removed: an address that already has it
      resolves like its remainder, and one without it is resolved as given
      (so `http://` and other schemes are kept and end up in the host). */
  lemma SchemeStrippedOnce(s: string)
    ensures ExtractEcrRegistry(ProxyEndpointScheme + s) == Resolve(s)
    ensures !HasPrefix(s, ProxyEndpointScheme) ==> ExtractEcrRegistry(s) == Resolve(s)
  {
    assert (ProxyEndpointScheme + s)[..|ProxyEndpointScheme|] == ProxyEndpointScheme;
    assert (ProxyEndpointScheme + s)[|ProxyEndpointScheme|..] == s;
  }

  /** A host given without port, path, query or fragment. */
  predicate BareHost(h: string) {
    Url.PlainText(h) && '/' !in h && ':' !in h
  }

  /** `bare-host/path` parses into that host and `/path`. */
  lemma ParseHostAndPath(host: string, path: string)
    requires BareHost(host) && Url.PlainText(path)
    ensures Url.Parse(host + "/" + path) == Ok(Url.Url(host, "/" + path))
    ensures Url.Hostname(Url.Url(host, "/" + path)) == host
  {
    ConcatAssoc(host, "/", path);
    assert ':' !in host;
    Url.ParsePlain(host, "/" + path);
  }

  /** A path of one segment is rejected as "invalid registry URL" before
      the host is looked at, whatever the host. */
  lemma ShortPathIsInvalid(host: string, segment: string)
    requires BareHost(host) && Url.PlainText(segment) && '/' !in segment
    ensures Resolve(host + "/" + segment) == Err(InvalidRegistryUrl)
    ensures ExtractEcrRegistry(ProxyEndpointScheme + (host + "/" + segment)) == Err(InvalidRegistryUrl)
  {
    ParseHostAndPath(host, segment);
    assert "/" + segment == ['/'] + segment;
    TrimLeadingAbsent(segment, '/');
    SchemeStrippedOnce(host + "/" + segment);
  }

  /** The public registry resolves to its fixed endpoint for any path of
      two or more segments, with or without the scheme. */
  lemma PublicRegistryResolves(path: string)
    requires Url.PlainText(path) && '/' in path
    requires path[0] != '/' && path[|path| - 1] != '/'
    ensures Resolve(EcrPublicName + "/" + path) == Ok(EcrRegistry(EcrPublicEndpoint, EcrPublicName, path))
    ensures ExtractEcrRegistry(EcrPublicName + "/" + path) == Ok(EcrRegistry(EcrPublicEndpoint, EcrPublicName, path))
    ensures ExtractEcrRegistry(ProxyEndpointScheme + (EcrPublicName + "/" + path))
              == Ok(EcrRegistry(EcrPublicEndpoint, EcrPublicName, path))
  {
    assert BareHost(EcrPublicName);
    ParseHostAndPath(EcrPublicName, path);
    assert "/" + path == ['/'] + path;
    TrimOneLeading(path, '/');
    var input := EcrPublicName + "/" + path;
    assert input[0] == 'p';
    assert !HasPrefix(input, ProxyEndpointScheme) by {
      assert ProxyEndpointScheme[0] == 'h';
    }
    SchemeStrippedOnce(input);
  }

  /** Every host the private pattern accepts, followed by a path of two or
      more segments, resolves to that host, its `https://` endpoint and the
      path, with or without the scheme. */
  lemma PrivateRegistryResolves(p: EcrHost.HostParts, path: string)
    requires EcrHost.Valid(p)
    requires Url.PlainText(path) && '/' in path
    requires path[0] != '/' && path[|path| - 1] != '/'
    ensures var host := EcrHost.Render(p);
            var expected := Ok(EcrRegistry(ProxyEndpointScheme + host, host, path));
            && ExtractEcrRegistry(host + "/" + path) == expected
            && ExtractEcrRegistry(ProxyEndpointScheme + (host + "/" + path)) == expected
  {
    var host := EcrHost.Render(p);
    RenderedHostIsBare(p);
    ParseHostAndPath(host, path);
    assert "/" + path == ['/'] + path;
    TrimOneLeading(path, '/');
    EcrHost.ParseRender(p);
    assert host[0] == p.account[0];
    assert host != EcrPublicName by { assert EcrPublicName[0] == 'p'; }
    var input := host + "/" + path;
    assert input[0] == host[0];
    assert !HasPrefix(input, ProxyEndpointScheme) by { assert ProxyEndpointScheme[0] == 'h'; }
    SchemeStrippedOnce(input);
  }

  /** Text made of letters, digits, `.`, `-` and `_` only. */
  predicate HostChars(s: string) {
    forall i :: 0 <= i < |s| ==> EcrHost.IsRegionChar(s[i]) || s[i] == '.'
  }

  lemma HostCharsConcat(a: string, b: string)
    requires HostChars(a) && HostChars(b)
    ensures HostChars(a + b)
  {
    forall i | 0 <= i < |a + b|
      ensures EcrHost.IsRegionChar((a + b)[i]) || (a + b)[i] == '.'
    {
      if i < |a| { assert (a + b)[i] == a[i]; } else { assert (a + b)[i] == b[i - |a|]; }
    }
  }

  lemma HostCharsAreBare(s: string)
    requires HostChars(s)
    ensures BareHost(s)
  {
    forall c | c in s
      ensures EcrHost.IsRegionChar(c) || c == '.'
    {
      var i :| 0 <= i < |s| && s[i] == c;
    }
  }

  lemma SuffixHostChars(partition: EcrHost.Partition)
    ensures HostChars(EcrHost.Suffix(partition))
  {
    var s := EcrHost.Suffix(partition);
    forall i | 0 <= i < |s|
      ensures EcrHost.IsRegionChar(s[i]) || s[i] == '.'
    {
      assert s[i] in s;
    }
  }

  /** Hosts rendered from valid parts consist of letters, digits, `.`, `-`
      and `_` only, and start with a digit. */
  lemma RenderedHostIsBare(p: EcrHost.HostParts)
    requires EcrHost.Valid(p)
    ensures BareHost(EcrHost.Render(p))
    ensures |EcrHost.Render(p)| > 0 && IsDigit(EcrHost.Render(p)[0])
  {
    assert HostChars(p.account);
    assert HostChars(p.region);
    assert HostChars(EcrHost.DkrEcr);
    assert HostChars(".");
    assert HostChars(EcrHost.FipsText(p.fips));
    SuffixHostChars(p.partition);
    HostCharsConcat(p.region, ".");
    HostCharsConcat(p.region + ".", EcrHost.Suffix(p.partition));
    HostCharsConcat(EcrHost.FipsText(p.fips), ".");
    HostCharsConcat(EcrHost.FipsText(p.fips) + ".", EcrHost.RenderTail(p.region, p.partition));
    HostCharsConcat(p.account, EcrHost.DkrEcr);
    HostCharsConcat(p.account + EcrHost.DkrEcr, EcrHost.RenderAfterEcr(p.fips, p.region, p.partition));
    HostCharsAreBare(EcrHost.Render(p));
    assert EcrHost.Render(p)[0] == p.account[0];
  }

  /** Reading a tag back: the host is the text before the first `/`, the
      label the text after the last `:`, and the path what lies between. */
  function SplitTag(tag: string): (string, string, string) {
    var slash := IndexOf(tag, '/');
    var colon := LastIndexOf(tag, ':');
    if slash < colon < |tag| then (tag[..slash], tag[slash + 1..colon], tag[colon + 1..])
    else (tag, "", "")
  }

  /** The tag of a resolved registry can be read back into host, path and
      label when the label holds no `:` (host names never hold `/`). */
  lemma ImageTagRoundTrip(registry: EcrRegistry, ref: string)
    requires '/' !in registry.host
    requires ':' !in ref
    ensures SplitTag(ImageTag(registry, ref)) == (registry.host, registry.path, ref)
  {
    SplitTagPieces(ImageTag(registry, ref), registry.host, registry.path, ref);
  }

  /** A text with a `/`-free host, a `/`, a path, a `:` and a `:`-free
      label, in that order, reads back into those pieces. */
  lemma SplitTagPieces(tag: string, host: string, path: string, ref: string)
    requires '/' !in host && ':' !in ref
    requires |tag| == |host| + |path| + |ref| + 2
    requires tag[..|host|] == host && tag[|host|] == '/'
    requires tag[|host| + 1..|host| + 1 + |path|] == path
    requires tag[|host| + 1 + |path|] == ':'
    requires tag[|tag| - |ref|..] == ref
    ensures SplitTag(tag) == (host, path, ref)
  {
    var slash := |host|;
    var colon := slash + 1 + |path|;
    forall i | 0 <= i < slash
      ensures tag[i] != '/'
    {
      assert tag[i] == tag[..slash][i] == host[i];
    }
    IndexOfAt(tag, '/', slash);
    forall i | colon < i < |tag|
      ensures tag[i] != ':'
    {
      assert tag[i] == tag[colon + 1..][i - colon - 1] == ref[i - colon - 1];
    }
    LastIndexOfAt(tag, ':', colon);
    assert SplitTag(tag) == (tag[..slash], tag[slash + 1..colon], tag[colon + 1..]);
  }

  /** The hosts of resolved registries hold no `/`, so every resolved
      registry's tag reads back. */
  lemma ResolvedHostHasNoSlash(input: string)
    requires ExtractEcrRegistry(input).Ok?
    ensures '/' !in ExtractEcrRegistry(input).value.host
  {
    var u := Url.Parse(TrimPrefix(input, ProxyEndpointScheme)).value;
    assert HasPrefix(u.host, Url.Hostname(u));
  }

  // ----- credentials -----

  datatype CredsError =
    | ConfigLoadFailed(message: string)
    | TokenRequestFailed(message: string)
    | NoAuthorizationData
    | TokenDecodeFailed
    | TokenWithoutColon

  /** What the AWS SDK answers for one region: whether loading the default
      configuration fails, and the token that each of the two
      `GetAuthorizationToken` calls returns (the regional call returns a
      list of authorization entries). */
  datatype AwsSdk = AwsSdk(
    configError: Option<string>,
    publicToken: Result<string, string>,
    regionalTokens: Result<seq<string>, string>)

  datatype TokenEndpoint = PublicTokenEndpoint | RegionalTokenEndpoint

  /** The token endpoint is chosen by the registry host alone. */
  function TokenEndpointFor(registry: EcrRegistry): (e: TokenEndpoint)
    ensures e == PublicTokenEndpoint <==> registry.host == EcrPublicName
  {
    if registry.host == EcrPublicName then PublicTokenEndpoint else RegionalTokenEndpoint
  }

  /** `getEcrToken`: the public registry's token or the first regional
      authorization entry. An empty entry list, which the SDK promises never
      to return, is an error here instead of an index panic. */
  function GetEcrToken(sdk: AwsSdk, registry: EcrRegistry): (r: Result<string, CredsError>)
    ensures TokenEndpointFor(registry) == PublicTokenEndpoint ==>
              (r.Ok? <==> sdk.publicToken.Ok?) && (r.Ok? ==> r.value == sdk.publicToken.value)
    ensures TokenEndpointFor(registry) == RegionalTokenEndpoint ==>
              (r.Ok? <==> sdk.regionalTokens.Ok? && |sdk.regionalTokens.value| > 0)
              && (r.Ok? ==> r.value == sdk.regionalTokens.value[0])
  {
    match TokenEndpointFor(registry)
    case PublicTokenEndpoint =>
      (match sdk.publicToken
       case Ok(token) => Ok(token)
       case Err(msg) => Err(TokenRequestFailed(msg)))
    case RegionalTokenEndpoint =>
      (match sdk.regionalTokens
       case Err(msg) => Err(TokenRequestFailed(msg))
       case Ok(tokens) => if |tokens| == 0 then Err(NoAuthorizationData) else Ok(tokens[0]))
  }

  /** The `SplitN(token, ":", 2)` step: the username is the text before the
      first `:`, the password all the rest. A token without `:` makes the
      source index past the end and panic; here that is `TokenWithoutColon`. */
  function SplitToken(decoded: string): (r: Result<EcrCreds, CredsError>)
    ensures r.Ok? <==> ':' in decoded
    ensures r.Err? ==> r.error == TokenWithoutColon
    ensures r.Ok? ==> ':' !in r.value.username
    ensures r.Ok? ==> r.value.username + ":" + r.value.password == decoded
  {
    var creds := SplitN2(decoded, ':');
    if |creds| < 2 then Err(TokenWithoutColon)
    else Ok(EcrCreds(creds[0], creds[1]))
  }

  /** Joining a colon-free username and any password with `:` and splitting
      again gives them back: the password may hold further colons. */
  lemma SplitTokenRoundTrip(username: string, password: string)
    requires ':' !in username
    ensures SplitToken(username + ":" + password) == Ok(EcrCreds(username, password))
  {
    var token := username + ":" + password;
    FirstIndexAfter(username, ':', password);
    assert token[..|username|] == username;
    assert token[|username| + 1..] == password;
  }

  /** `GetEcrCreds`: load the configuration for `region`, fetch the token
      from the endpoint the host selects, decode it and split it. */
  function GetEcrCreds(region: string, registry: EcrRegistry, aws: string -> AwsSdk,
                       decode: string -> Option<string>): (r: Result<EcrCreds, CredsError>)
    ensures r.Ok? <==>
              && aws(region).configError.None?
              && GetEcrToken(aws(region), registry).Ok?
              && decode(GetEcrToken(aws(region), registry).value).Some?
              && ':' in decode(GetEcrToken(aws(region), registry).value).value
    ensures r.Ok? ==>
              decode(GetEcrToken(aws(region), registry).value)
                == Some(r.value.username + ":" + r.value.password)
              && ':' !in r.value.username
  {
    var sdk := aws(region);
    if sdk.configError.Some? then Err(ConfigLoadFailed(sdk.configError.value))
    else
      match GetEcrToken(sdk, registry)
      case Err(e) => Err(e)
      case Ok(token) =>
        match decode(token)
        case None => Err(TokenDecodeFailed)
        case Some(data) => SplitToken(data)
  }
}
