/** prompts.go: the validators attached to the input form, the architecture
    default, and the form's defaults. A validator's `nil` is `None`; an
    error is `Some(message)`. Running the interactive form is not modelled:
    its answers are an input, `PromptResults`. */
module Prompts {
  import opened Results
  import opened Strings

  /** `validateRequired(input)` applied to `value`. */
  function ValidateRequired(input: string, value: string): (r: Option<string>)
    ensures r.None? <==> value != ""
    ensures r.Some? ==> r.value == input + " is required"
  {
    if value == "" then Some(input + " is required") else None
  }

  /** Whether the `validateProtocol` closure accepts `value`. */
  predicate ProtocolAccepted(protocols: seq<string>, optional: bool, value: string) {
    (value == "" && optional) || exists p :: p in protocols && HasPrefix(value, p)
  }

  /** The rejection text of `validateProtocol`. */
  function ProtocolError(input: string, protocols: seq<string>, value: string): string {
    "unsupported " + input + ": " + value + ". Only " + Join(protocols, ", ") + " are supported"
  }

  /** `validateProtocol(input, protocols, optional)` applied to `value`: an
      empty optional value passes; otherwise the value passes exactly when
      one of the protocols is a prefix of it. */
  method ValidateProtocol(input: string, protocols: seq<string>, optional: bool, value: string)
    returns (r: Option<string>)
    ensures r.None? <==> ProtocolAccepted(protocols, optional, value)
    ensures r.Some? ==> r.value == ProtocolError(input, protocols, value)
  {
    if value == "" && optional {
      return None;
    }
    var i := 0;
    while i < |protocols|
      invariant 0 <= i <= |protocols|
      invariant forall j :: 0 <= j < i ==> !HasPrefix(value, protocols[j])
    {
      if HasPrefix(value, protocols[i]) {
        return None;
      }
      i := i + 1;
    }
    return Some(ProtocolError(input, protocols, value));
  }

  /** Acceptance does not depend on the order in which protocols are listed. */
  lemma ProtocolOrderIrrelevant(ps: seq<string>, qs: seq<string>, optional: bool, value: string)
    requires multiset(ps) == multiset(qs)
    ensures ProtocolAccepted(ps, optional, value) == ProtocolAccepted(qs, optional, value)
  {
    forall p
      ensures p in ps <==> p in qs
    {
      assert p in ps <==> p in multiset(ps);
      assert p in qs <==> p in multiset(qs);
    }
  }

  const RemoteBuilderProtocols := ["ssh://", "tcp://"]

  /** The remote builder field's validator: empty, or an `ssh://` or
      `tcp://` address, and nothing else. */
  method ValidateRemoteBuilderAddress(value: string) returns (r: Option<string>)
    ensures r.None? <==> value == "" || HasPrefix(value, "ssh://") || HasPrefix(value, "tcp://")
  {
    r := ValidateProtocol("remote builder address", RemoteBuilderProtocols, true, value);
    assert RemoteBuilderProtocols[0] == "ssh://" && RemoteBuilderProtocols[1] == "tcp://";
  }

  const ArchOptions := ["amd64", "arm64"]

  /** `detectArch`, with `runtime.GOARCH` as the parameter: ARM hosts get
      `arm64`, every other host `amd64`, so the default is always one of
      the form's two options. */
  function DetectArch(goarch: string): (r: string)
    ensures r in ArchOptions
    ensures r == "arm64" <==> goarch == "arm64" || goarch == "arm"
  {
    if goarch == "arm64" || goarch == "arm" then "arm64" else "amd64"
  }

  /** `PromptResults`: the form's answers. */
  datatype PromptResults = PromptResults(
    repo: string,
    registryUrl: string,
    region: string,
    arch: string,
    dockerfilePath: string,
    remoteBuilderAddress: string)

  /** The values the form starts from: the detected architecture and
      `Dockerfile`; every other field empty. */
  function DefaultInputs(goarch: string): (d: PromptResults)
    ensures d.arch in ArchOptions
    ensures d.arch == "arm64" <==> goarch == "arm64" || goarch == "arm"
    ensures d.dockerfilePath == "Dockerfile"
    ensures d.repo == d.registryUrl == d.region == d.remoteBuilderAddress == ""
  {
    PromptResults("", "", "", DetectArch(goarch), "Dockerfile", "")
  }

  /** Runs the form's validators in field order and reports the first
      message; the architecture is a select and needs no validator. The
      form can be submitted exactly when this reports nothing. */
  method ValidateForm(p: PromptResults) returns (err: Option<string>)
    ensures err.None? <==>
              && p.repo != "" && p.registryUrl != "" && p.region != ""
              && p.dockerfilePath != ""
              && (p.remoteBuilderAddress == ""
                  || HasPrefix(p.remoteBuilderAddress, "ssh://")
                  || HasPrefix(p.remoteBuilderAddress, "tcp://"))
    ensures p.repo == "" ==> err == Some("git repository is required")
  {
    err := ValidateRequired("git repository", p.repo);
    if err.Some? {
      assert "git repository" + " is required" == "git repository is required";
      return;
    }
    err := ValidateRequired("registry url", p.registryUrl);
    if err.Some? { return; }
    err := ValidateRequired("region", p.region);
    if err.Some? { return; }
    err := ValidateRequired("Dockerfile path", p.dockerfilePath);
    if err.Some? { return; }
    err := ValidateRemoteBuilderAddress(p.remoteBuilderAddress);
  }
}
