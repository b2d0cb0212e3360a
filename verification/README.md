# depot-go-ecr-example, modelled in Dafny

This project models the decision logic of `depot-go-ecr-example`. The program takes an Amazon ECR
registry address and builds a Git repository with BuildKit. It then pushes the image to that
registry, using credentials fetched from AWS.

The modelled pieces:

- **Registry resolution** (`aws/ecr.go`). `ExtractEcrRegisty` strips one `https://`, parses the
  rest as a URL and trims the path. It requires at least two path parts. It accepts the public
  registry `public.ecr.aws` as is. Any other host must match the private ECR host pattern. That
  pattern is written by hand (`EcrHost`), and proved to decompose each host in exactly one way.
  `ImageTag` builds `host/path:tag`.
- **Credential token split** (`aws/ecr.go`). The endpoint is chosen by host: the public or the
  regional token endpoint. The decoded token is then split at its first `:`.
- **Session auth provider** (`buildkit.go`). It releases the stored credentials only for the
  registry's own host. It refuses all three token RPCs.
- **Form validators** (`prompts.go`). These are `validateRequired`, `validateProtocol`,
  `detectArch`, the form defaults and the validator wiring.
- **Build set-up** (`main.go`). This covers builder selection, `BuildOptions`, the BuildKit
  `SolveOpt` (frontend, attributes, local dirs, export entry, session) and how `buildImage` ends.

Modules: `Results` (Option/Result), `Strings` (the Go `strings` functions used),
`Url` (`net/url` parsing as far as the resolver needs it), `EcrHost`, `Ecr`, `BuildkitAuth`,
`Prompts`, `Build`, and `Scenarios` (worked addresses, each an instance of a general lemma).

On the modelled paths the fatal exits and panics become `Err` values. These paths are registry
resolution, the credential exchange, the token split and the end of the build. Inputs come
from the outside world: form answers, AWS SDK responses, base64/JSON decoding, `os.Stat` of the
Dockerfile, `runtime.GOARCH`, the workflow id and the solve outcome. These are all parameters.

Behaviours of the code worth noting:

- A single-segment address such as `https://example.com/onlypart` yields "invalid registry URL",
  because the path check runs before the host check. It does not yield "unsupported registry".
- The path check counts the parts of `strings.Split`, so empty inner segments (`a//b`) count.
  The check is therefore "the trimmed path contains `/`".
- The clone directory is removed only after a successful build (`FinishBuild`). It is not removed
  on the failure path.

## Model

| member | source | states |
|---|---|---|
| Strings.TrimPrefix | aws/ecr.go:44 | exactly one leading copy of the prefix is removed when present; otherwise the text is unchanged |
| Strings.Trim | aws/ecr.go:51 | the result is the slice after the leading `/` run, only `/` follows it, and it neither starts nor ends with `/` |
| Strings.Split | aws/ecr.go:52 | the pieces are separator-free, rejoin to the input, number one more than the separators, and there is one piece iff the separator is absent |
| Strings.SplitN2 | aws/ecr.go:116 | at most two pieces; two iff the separator occurs; the first is separator-free and `first + sep + second` is the input |
| Url.Parse | aws/ecr.go:46-49 | control characters before `#` give an error; otherwise it succeeds iff the authority's port part is empty or `:digits`, the port error names that part, and on success host+path is the longest `?`/`#`-free prefix, split at its first `/` |
| Url.ParsePlain | aws/ecr.go:46 | a URL without query, fragment or control characters parses into its authority and its `/`-led path |
| Url.Hostname | aws/ecr.go:57 | the host with its trailing `:digits` removed whenever it has one; a host without `:` is returned whole |
| EcrHost.Parse | aws/ecr.go:26 | every host it accepts is the rendering of valid parts (12 digits, optional `-fips`, region token, one of six suffixes) |
| EcrHost.PartitionOf | aws/ecr.go:26 | a suffix is recognised iff it is one of the six partition suffixes |
| EcrHost.ParseRender | aws/ecr.go:26 | reading back the host rendered from valid parts gives the same parts |
| EcrHost.IsEcrHostIff | aws/ecr.go:26 | the hand-written grammar accepts a host iff some valid parts render to it |
| EcrHost.RenderInjective | aws/ecr.go:26 | two valid decompositions of the same host are equal: the decomposition is unique |
| EcrHost.Submatches | aws/ecr.go:67-72 | no entries iff the host does not match; otherwise six entries, the first being the whole host |
| Ecr.ImageTag | aws/ecr.go:39-41 | the tag is host, `/`, path, `:`, tag, with each piece at its fixed position |
| Ecr.ErrorMessage | aws/ecr.go:46-71 | URL errors print `parse "<url>": <cause>` with net/url's cause text; the rest print "invalid registry URL" (line 54), "depot-go-ecr-example can only be used with Amazon Elastic Container Registry" (line 69), and the quoted input followed by " is not a valid repository URI for Amazon Elastic Container Registry" (line 71) |
| Ecr.MessageFirstCharacter | aws/ecr.go:46-71 | the first character of a message tells the error kind: `p` for URL errors, `i` for an invalid registry URL, `d` for an unsupported registry, `"` for an invalid repository URI |
| Ecr.MessageDeterminesKind | aws/ecr.go:46-72 | two errors with the same message are of the same kind |
| Ecr.Resolve | aws/ecr.go:46-78 | URL errors propagate; "invalid registry URL" iff the trimmed path has no `/`; "unsupported" iff the path is fine and the host is neither public nor ECR; on success host and trimmed path are kept and the registry is well formed; the `len(matches) < 3` error never occurs |
| Ecr.ExtractEcrRegistry | aws/ecr.go:43-79 | resolves the address with one `https://` removed; every success is well formed (path has an inner `/`, endpoint is the public one or `https://` + host) |
| Ecr.SchemeStrippedOnce | aws/ecr.go:44-46 | `https://` + s resolves like s; an address without the prefix resolves as given, so `http://` is kept |
| Ecr.ShortPathIsInvalid | aws/ecr.go:51-55 | a one-segment path is "invalid registry URL" for every bare host, before any host check |
| Ecr.PublicRegistryResolves | aws/ecr.go:59-65 | `public.ecr.aws/<path>` resolves to the fixed public endpoint with that path, with or without the scheme |
| Ecr.PrivateRegistryResolves | aws/ecr.go:67-78 | every accepted private host with a multi-segment path resolves to that host, `https://` + host and the path |
| Ecr.ImageTagRoundTrip | aws/ecr.go:39-41 | the tag `host/path:label` splits back into host, path and label whenever the host has no `/` and the label no `:` |
| Ecr.ResolvedHostHasNoSlash | aws/ecr.go:57 | resolved hosts never contain `/` |
| Ecr.TokenEndpointFor | aws/ecr.go:82 | the public token endpoint is used iff the host is `public.ecr.aws` |
| Ecr.GetEcrToken | aws/ecr.go:81-99 | the public host gets the public token; others get the first regional entry, and an empty entry list is an error |
| Ecr.SplitToken | aws/ecr.go:116-121 | succeeds iff the token has a `:`; the username is colon-free and `username:password` rebuilds the token |
| Ecr.SplitTokenRoundTrip | aws/ecr.go:116-121 | joining a colon-free username with any password and splitting gives both back |
| Ecr.GetEcrCreds | aws/ecr.go:101-122 | succeeds iff config loads, the selected token arrives, decodes and has a `:`; the decoded token is `username:password` |
| BuildkitAuth.NewAuthProvider | buildkit.go:22-28 | the provider keeps the registry and the credentials unchanged |
| BuildkitAuth.AuthConfigs | buildkit.go:46-58 | the map has exactly one key, the registry host, whose server address is the registry URL |
| BuildkitAuth.Credentials | buildkit.go:60-70 | never fails; the stored credentials for the registry host, an empty pair for any other host |
| BuildkitAuth.CredentialsGate | buildkit.go:22-28 | a provider built from credentials answers its registry host with exactly those credentials and every other host with nothing |
| BuildkitAuth.NoLeakToOtherHosts | buildkit.go:62-67 | the answer for a foreign host does not depend on the stored secrets |
| BuildkitAuth.FetchToken | buildkit.go:34-36 | whatever the request, no response and status Unavailable "client side tokens disabled" |
| BuildkitAuth.GetTokenAuthority | buildkit.go:38-40 | whatever the request, no response and status Unavailable "client side tokens disabled" |
| BuildkitAuth.VerifyTokenAuthority | buildkit.go:42-44 | whatever the request, no response and status Unavailable "client side tokens disabled" |
| Prompts.ValidateRequired | prompts.go:12-19 | fails iff the value is empty, with `name is required` |
| Prompts.ValidateProtocol | prompts.go:21-37 | passes iff the value is empty and optional, or some protocol is its prefix; the rejection lists the protocols joined by ", " |
| Prompts.ProtocolOrderIrrelevant | prompts.go:30-34 | acceptance is the same for any reordering of the protocols |
| Prompts.ValidateRemoteBuilderAddress | prompts.go:107 | accepts exactly the empty value and `ssh://` or `tcp://` addresses |
| Prompts.DetectArch | prompts.go:48-56 | `arm64` iff the host architecture is arm64 or arm, else `amd64`; always one of the two select options |
| Prompts.DefaultInputs | prompts.go:58-66 | the form starts with the detected architecture (`arm64` iff the host is arm64 or arm), `Dockerfile` as path and the other fields empty |
| Prompts.ValidateForm | prompts.go:68-109 | the form is accepted iff repo, registry, region and Dockerfile path are non-empty and the remote builder address is valid; an empty repository reports its message first |
| Build.FileExists | fs.go:21-24 | only a not-exist stat result counts as missing; a found file and any other stat error count as present |
| Build.SelectBuilder | main.go:88-95 | Railpack iff the Dockerfile is reported not to exist (other stat errors count as present) |
| Build.PlanBuild | main.go:73-144 | fails iff registry resolution fails, with the same error; otherwise the tag is `host/path:workflowId`, the builder follows the Dockerfile check and the other fields are copied from the inputs |
| Build.NewSolveOpt | main.go:245-282 | one `image` export with name = tag, oci-mediatypes and push true; the frontend is dockerfile.v0 or gateway.v0 by builder; filename and platform always set; source and cmdline only for Railpack; both local dirs are the clone; one session provider with the creds |
| Build.RailpackExtendsDocker | main.go:278-282 | Railpack options equal Docker options except for the frontend and the two Railpack attributes |
| Build.SessionServesOnlyTagHost | main.go:266-271 | for a planned build, the session provider releases the credentials exactly for the host the tag pushes to |
| Build.FinishBuild | main.go:298-323 | succeeds iff both branches succeeded and the descriptor decodes; a solve error is reported as is; the clone is removed iff the build succeeds |
| Scenarios.SinglePathSegmentIsInvalid | aws/ecr.go:51-55 | `https://example.com/onlypart` gives "invalid registry URL" |
| Scenarios.PublicRegistry | aws/ecr.go:59-65 | `public.ecr.aws/r123/app` resolves to `https://public.ecr.aws`, `public.ecr.aws`, `r123/app` |
| Scenarios.PrivateRegistry | aws/ecr.go:67-78 | the sample us-east-1 address resolves to its host, `https://` + host and `myrepo/app`, and tags as `host/myrepo/app:abcd1234` |
| Scenarios.PasswordKeepsLaterColons | aws/ecr.go:116-121 | `user:pass:with:colons` gives user `user` and password `pass:with:colons` |

## Left out

- Url.Parse: covers only the control-character check, the `#`/`?` cut, the authority/path split
  and the port check of `net/url`. Userinfo (`user@`), bracketed IPv6 hosts, percent-escapes (the
  path is not unescaped) and the per-character host check are not modelled.
- Ecr.ErrorMessage: Go's `%q` quoting (used for the input, the URL and the port) is approximated
  by plain double quotes, without escaping.
- AWS SDK calls (`config.LoadDefaultConfig`, both `GetAuthorizationToken` calls). These are
  network calls; their answers are the `AwsSdk` input. Nil pointers inside SDK responses are not
  modelled.
- Ecr.GetEcrToken: an empty regional authorization list is `NoAuthorizationData`. The source
  indexes `[0]` and would panic; the SDK promises the list is never empty.
- Base64 and JSON decoding of the token and of the image descriptor are library calls. They are
  the `decode` and `decodeDescriptor` parameters.
- The concurrent solve/progress pair in `buildImage` (`errgroup`, the status channel,
  `progressui`) and `eg.Wait` are out of scope. `FinishBuild` takes the first error `Wait`
  returns as an input.
- `getBuildkitClient` is not modelled: remote builder connection helpers, Depot build
  registration, machine acquire/release and the five-minute connect timeout are network plumbing.
- The Railpack preparation (`exec.LookPath`, the `railpack prepare` subprocess, the plan-file
  check) is process execution and filesystem access. Its fatal failures are not modelled.
- Cloning, `GenerateUniqueId`, `JoinPath`, `RemoveDir` (git.go, uniq.go, fs.go) and the
  interactive form run are I/O or thin wrappers. Only `FileExists` from fs.go is modelled. Their results (clone directory, workflow id, stat outcome, form answers) are
  inputs.
- `Register` (buildkit.go:30-32) hands the service to a gRPC server. That is framework wiring
  with no logic of its own.
- A failing `form.Run` ends the program through `log.Fatal`. The form run is outside the model.
- Console output (`fmt.Println`, colours) is not modelled.
- Calling `Credentials` twice with the same host gives the same answer because the model's
  functions are pure. There is no separate lemma for it.
