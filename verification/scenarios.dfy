/** Worked addresses and tokens, each an instance of a general lemma. */
module Scenarios {
  import opened Results
  import EcrHost
  import Url
  import Ecr

  /** A single-segment path is "invalid registry URL", not "unsupported
      registry", even though the host is not an ECR host. */
  lemma SinglePathSegmentIsInvalid(input: string)
    requires input == "https://example.com/onlypart"
    ensures Ecr.ExtractEcrRegistry(input) == Err(Ecr.InvalidRegistryUrl)
  {
    var host, segment := "example.com", "onlypart";
    assert Ecr.BareHost(host);
    assert Url.PlainText(segment);
    Ecr.ShortPathIsInvalid(host, segment);
    OnlyPartSpelling();
  }

  lemma OnlyPartSpelling()
    ensures Ecr.ProxyEndpointScheme + ("example.com" + "/" + "onlypart") == "https://example.com/onlypart"
  {
  }

  /** The public registry resolves to its fixed endpoint. */
  lemma PublicRegistry(input: string)
    requires input == "public.ecr.aws/r123/app"
    ensures Ecr.ExtractEcrRegistry(input)
              == Ok(Ecr.EcrRegistry("https://public.ecr.aws", "public.ecr.aws", "r123/app"))
  {
    var path := "r123/app";
    assert Url.PlainText(path);
    assert path[4] == '/';
    Ecr.PublicRegistryResolves(path);
    PublicSpelling();
  }

  lemma PublicSpelling()
    ensures Ecr.EcrPublicName + "/" + "r123/app" == "public.ecr.aws/r123/app"
    ensures Ecr.EcrPublicEndpoint == "https://public.ecr.aws"
  {
  }

  /** A private registry address without a scheme resolves to its host, the
      `https://` endpoint of that host and the trimmed path, and tags as
      `host/path:id`. */
  lemma PrivateRegistry(input: string)
    requires input == "123456789012.dkr.ecr.us-east-1.amazonaws.com/myrepo/app"
    ensures Ecr.ExtractEcrRegistry(input)
              == Ok(Ecr.EcrRegistry("https://" + "123456789012.dkr.ecr.us-east-1.amazonaws.com",
                                    "123456789012.dkr.ecr.us-east-1.amazonaws.com", "myrepo/app"))
    ensures Ecr.ImageTag(Ecr.ExtractEcrRegistry(input).value, "abcd1234")
              == "123456789012.dkr.ecr.us-east-1.amazonaws.com/myrepo/app:abcd1234"
  {
    var parts := EcrHost.HostParts("123456789012", false, "us-east-1", EcrHost.Aws);
    var path := "myrepo/app";
    assert EcrHost.Valid(parts);
    assert Url.PlainText(path);
    assert path[6] == '/';
    Ecr.PrivateRegistryResolves(parts, path);
    PrivateHostSpelling();
    PrivateAddressSpelling();
    PrivateTagSpelling();
    assert Ecr.ProxyEndpointScheme == "https://";
  }

  lemma PrivateHostSpelling()
    ensures EcrHost.Render(EcrHost.HostParts("123456789012", false, "us-east-1", EcrHost.Aws))
              == "123456789012.dkr.ecr.us-east-1.amazonaws.com"
  {
  }

  lemma PrivateAddressSpelling()
    ensures "123456789012.dkr.ecr.us-east-1.amazonaws.com" + "/" + "myrepo/app"
              == "123456789012.dkr.ecr.us-east-1.amazonaws.com/myrepo/app"
  {
  }

  lemma PrivateTagSpelling()
    ensures "123456789012.dkr.ecr.us-east-1.amazonaws.com" + "/" + "myrepo/app" + ":" + "abcd1234"
              == "123456789012.dkr.ecr.us-east-1.amazonaws.com/myrepo/app:abcd1234"
  {
  }

  /** A token splits at its first colon only. */
  lemma PasswordKeepsLaterColons()
    ensures Ecr.SplitToken("user:pass:with:colons") == Ok(Ecr.EcrCreds("user", "pass:with:colons"))
  {
    assert "user" + ":" + "pass:with:colons" == "user:pass:with:colons";
    Ecr.SplitTokenRoundTrip("user", "pass:with:colons");
  }
}
