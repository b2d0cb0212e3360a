/** buildkit.go: the session attachable that answers BuildKit's auth
    service. It holds the resolved registry and the ECR credentials and
    hands them out only for the registry's own host; the three token RPCs
    are always refused. The service is an immutable value, so answering a
    request never changes it. */
module BuildkitAuth {
  import opened Results
  import Ecr

  /** `buildkitAuthServer`. */
  datatype AuthServer = AuthServer(registry: Ecr.EcrRegistry, username: string, password: string)

  /** Docker's `registry.AuthConfig`, reduced to the fields the program sets. */
  datatype AuthConfig = AuthConfig(username: string, password: string, serverAddress: string)

  datatype CredentialsRequest = CredentialsRequest(host: string)
  datatype CredentialsResponse = CredentialsResponse(username: string, secret: string)

  datatype FetchTokenRequest = FetchTokenRequest(
    clientId: string, host: string, realm: string, service: string, scopes: seq<string>)
  datatype FetchTokenResponse = FetchTokenResponse(token: string, expiresIn: int, issuedAt: int)
  datatype GetTokenAuthorityRequest = GetTokenAuthorityRequest(host: string, salt: seq<bv8>)
  datatype GetTokenAuthorityResponse = GetTokenAuthorityResponse(publicKey: seq<bv8>)
  datatype VerifyTokenAuthorityRequest = VerifyTokenAuthorityRequest(host: string, payload: seq<bv8>, salt: seq<bv8>)
  datatype VerifyTokenAuthorityResponse = VerifyTokenAuthorityResponse(signed: seq<bv8>)

  /** The gRPC status codes the service produces. */
  datatype Code = Unavailable

  /** A gRPC answer: a response, or a status error with no response. */
  datatype RpcResult<T> = Reply(response: T) | Status(code: Code, message: string)

  const TokensDisabled := "client side tokens disabled"

  /** `NewBuildkitAuthProvider`: the credentials are stored unchanged. */
  function NewAuthProvider(creds: Ecr.EcrCreds, registry: Ecr.EcrRegistry): (s: AuthServer)
    ensures s.registry == registry
    ensures Ecr.EcrCreds(s.username, s.password) == creds
  {
    AuthServer(registry, creds.username, creds.password)
  }

  /** `registryAuthConfig`. */
  function RegistryAuthConfig(registry: Ecr.EcrRegistry, username: string, password: string): AuthConfig {
    AuthConfig(username, password, registry.url)
  }

  /** `authConfigs`: a one-entry map from the registry host to its config,
      whose server address is the registry endpoint. */
  function AuthConfigs(registry: Ecr.EcrRegistry, username: string, password: string): (m: map<string, AuthConfig>)
    ensures m.Keys == {registry.host}
    ensures m[registry.host] == AuthConfig(username, password, registry.url)
  {
    map[registry.host := RegistryAuthConfig(registry, username, password)]
  }

  /** `Credentials`: a map lookup of the requested host. It never fails; it
      answers the stored username and password when the host is the
      registry host, and an empty pair for every other host. */
  function Credentials(s: AuthServer, req: CredentialsRequest): (r: RpcResult<CredentialsResponse>)
    ensures r.Reply?
    ensures req.host == s.registry.host ==> r.response == CredentialsResponse(s.username, s.password)
    ensures req.host != s.registry.host ==> r.response == CredentialsResponse("", "")
  {
    var auths := AuthConfigs(s.registry, s.username, s.password);
    if req.host in auths then
      var a := auths[req.host];
      Reply(CredentialsResponse(a.username, a.password))
    else
      Reply(CredentialsResponse("", ""))
  }

  /** `FetchToken`: refused whatever the request. */
  function FetchToken(s: AuthServer, req: FetchTokenRequest): (r: RpcResult<FetchTokenResponse>)
    ensures r.Status? && r.code == Unavailable && r.message == TokensDisabled
  {
    Status(Unavailable, TokensDisabled)
  }

  /** `GetTokenAuthority`: refused whatever the request. */
  function GetTokenAuthority(s: AuthServer, req: GetTokenAuthorityRequest): (r: RpcResult<GetTokenAuthorityResponse>)
    ensures r.Status? && r.code == Unavailable && r.message == TokensDisabled
  {
    Status(Unavailable, TokensDisabled)
  }

  /** `VerifyTokenAuthority`: refused whatever the request. */
  function VerifyTokenAuthority(s: AuthServer, req: VerifyTokenAuthorityRequest): (r: RpcResult<VerifyTokenAuthorityResponse>)
    ensures r.Status? && r.code == Unavailable && r.message == TokensDisabled
  {
    Status(Unavailable, TokensDisabled)
  }

  /** A provider built from credentials answers its registry's host with
      exactly those credentials, and any other host with nothing, whatever
      the credentials are: no secret reaches a second host. */
  lemma CredentialsGate(creds: Ecr.EcrCreds, registry: Ecr.EcrRegistry, host: string)
    ensures var r := Credentials(NewAuthProvider(creds, registry), CredentialsRequest(host));
            && (host == registry.host ==> r == Reply(CredentialsResponse(creds.username, creds.password)))
            && (host != registry.host ==> r == Reply(CredentialsResponse("", "")))
  {
  }

  /** Two servers that hold the same registry host answer a foreign host
      identically, whatever secrets they hold. */
  lemma NoLeakToOtherHosts(s1: AuthServer, s2: AuthServer, host: string)
    requires s1.registry.host == s2.registry.host
    requires host != s1.registry.host
    ensures Credentials(s1, CredentialsRequest(host)) == Credentials(s2, CredentialsRequest(host))
  {
  }
}
