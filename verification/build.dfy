/** main.go: choosing the builder, assembling `BuildOptions`, building the
    BuildKit solve options from them, and the outcome once the solve and the
    progress display have both finished. The clone, the Railpack subprocess,
    the remote builder connection and the concurrent solve/progress pair are
    not modelled; their observable results are inputs. */
module Build {
  import opened Results
  import opened Strings
  import Ecr
  import BuildkitAuth
  import Prompts

  datatype Builder = Docker | Railpack

  const RailpackVersion := "v0.17.1"
  const RailpackFrontend := "ghcr.io/railwayapp/railpack-frontend:" + RailpackVersion

  /** What `os.Stat` reports for the Dockerfile inside the clone. */
  datatype StatOutcome = Found | NotExist | OtherStatError

  /** `FileExists`: anything but a not-exist error counts as present, so a
      file that cannot be stat'ed for another reason (permissions, say) is
      reported as existing. */
  function FileExists(stat: StatOutcome): (present: bool)
    ensures stat == Found ==> present
    ensures stat == OtherStatError ==> present
    ensures stat == NotExist ==> !present
  {
    stat != NotExist
  }

  /** The builder is Docker unless the Dockerfile is reported missing. */
  function SelectBuilder(dockerfileStat: StatOutcome): (b: Builder)
    ensures b == Railpack <==> dockerfileStat == NotExist
  {
    if !FileExists(dockerfileStat) then Railpack else Docker
  }

  /** `BuildOptions`. */
  datatype BuildOptions = BuildOptions(
    registry: Ecr.EcrRegistry,
    region: string,
    tag: string,
    dockerfilePath: string,
    arch: string,
    repoDirPath: string,
    builder: Builder)

  /** The part of `main` that turns the form's answers into `BuildOptions`:
      resolve the registry (a failure ends the run), choose the builder
      from the Dockerfile's presence in the clone, and tag the image with
      the workflow id. */
  function PlanBuild(inputs: Prompts.PromptResults, workflowId: string, cloneDir: string,
                     dockerfileStat: StatOutcome): (r: Result<BuildOptions, Ecr.ResolveError>)
    ensures var resolved := Ecr.ExtractEcrRegistry(inputs.registryUrl);
            && (r.Err? <==> resolved.Err?)
            && (r.Err? ==> r.error == resolved.error)
            && (r.Ok? ==> r.value.registry == resolved.value)
    ensures r.Ok? ==>
              var o := r.value;
              && Ecr.WellFormed(o.registry)
              && o.tag == o.registry.host + "/" + o.registry.path + ":" + workflowId
              && (o.builder == Railpack <==> dockerfileStat == NotExist)
              && o.repoDirPath == cloneDir && o.dockerfilePath == inputs.dockerfilePath
              && o.region == inputs.region && o.arch == inputs.arch
  {
    match Ecr.ExtractEcrRegistry(inputs.registryUrl)
    case Err(e) => Err(e)
    case Ok(registry) =>
      Ok(BuildOptions(
           registry := registry,
           region := inputs.region,
           tag := Ecr.ImageTag(registry, workflowId),
           dockerfilePath := inputs.dockerfilePath,
           arch := inputs.arch,
           repoDirPath := cloneDir,
           builder := SelectBuilder(dockerfileStat)))
  }

  /** BuildKit's `client.ExportEntry`. */
  datatype ExportEntry = ExportEntry(entryType: string, attrs: map<string, string>)

  /** The fields of BuildKit's `client.SolveOpt` the program sets. */
  datatype SolveOpt = SolveOpt(
    frontend: string,
    frontendAttrs: map<string, string>,
    localDirs: map<string, string>,
    exports: seq<ExportEntry>,
    session: seq<BuildkitAuth.AuthServer>,
    internal: bool)

  /** The image export: push the tagged image with OCI media types. */
  function ImageExport(opts: BuildOptions): ExportEntry {
    ExportEntry("image", map["name" := opts.tag, "oci-mediatypes" := "true", "push" := "true"])
  }

  /** The solve options of `buildImage`, built from the options and the
      fetched credentials. */
  function NewSolveOpt(opts: BuildOptions, creds: Ecr.EcrCreds): (s: SolveOpt)
    ensures |s.exports| == 1 && s.exports[0].entryType == "image"
    ensures s.exports[0].attrs.Keys == {"name", "oci-mediatypes", "push"}
    ensures s.exports[0].attrs["name"] == opts.tag
    ensures s.exports[0].attrs["oci-mediatypes"] == "true" && s.exports[0].attrs["push"] == "true"
    ensures s.frontend == "gateway.v0" <==> opts.builder == Railpack
    ensures s.frontend == "dockerfile.v0" <==> opts.builder == Docker
    ensures {"filename", "platform"} <= s.frontendAttrs.Keys
    ensures s.frontendAttrs["filename"] == opts.dockerfilePath
    ensures s.frontendAttrs["platform"] == "linux/" + opts.arch
    ensures "source" in s.frontendAttrs <==> opts.builder == Railpack
    ensures "cmdline" in s.frontendAttrs <==> opts.builder == Railpack
    ensures opts.builder == Railpack ==>
              s.frontendAttrs["source"] == RailpackFrontend && s.frontendAttrs["cmdline"] == RailpackFrontend
    ensures |s.frontendAttrs| == if opts.builder == Railpack then 4 else 2
    ensures s.localDirs.Keys == {"dockerfile", "context"}
    ensures s.localDirs["dockerfile"] == opts.repoDirPath && s.localDirs["context"] == opts.repoDirPath
    ensures |s.session| == 1 && s.session[0].registry == opts.registry
    ensures Ecr.EcrCreds(s.session[0].username, s.session[0].password) == creds
    ensures s.internal
  {
    var frontendAttrs := map["filename" := opts.dockerfilePath, "platform" := "linux/" + opts.arch];
    var base := SolveOpt(
      frontend := "dockerfile.v0",
      frontendAttrs := frontendAttrs,
      localDirs := map["dockerfile" := opts.repoDirPath, "context" := opts.repoDirPath],
      exports := [ImageExport(opts)],
      session := [BuildkitAuth.NewAuthProvider(creds, opts.registry)],
      internal := true);
    if opts.builder == Railpack then
      base.(frontend := "gateway.v0",
            frontendAttrs := frontendAttrs["source" := RailpackFrontend]["cmdline" := RailpackFrontend])
    else
      assert opts.builder == Docker;
      base
  }

  /** Railpack mode differs from Docker mode only in the frontend and the
      two extra frontend attributes naming the Railpack frontend image. */
  lemma RailpackExtendsDocker(opts: BuildOptions, creds: Ecr.EcrCreds)
    ensures var d := NewSolveOpt(opts.(builder := Docker), creds);
            var r := NewSolveOpt(opts.(builder := Railpack), creds);
            && r.frontendAttrs == d.frontendAttrs["source" := RailpackFrontend]["cmdline" := RailpackFrontend]
            && r == d.(frontend := "gateway.v0", frontendAttrs := r.frontendAttrs)
  {
  }

  /** End to end: for a planned build, the one session provider answers with
      the credentials exactly for the host the image tag pushes to, and with
      an empty pair for every other host. Workflow ids are drawn from an
      alphabet without `:`. */
  lemma SessionServesOnlyTagHost(inputs: Prompts.PromptResults, workflowId: string, cloneDir: string,
                                 stat: StatOutcome, creds: Ecr.EcrCreds, host: string)
    requires PlanBuild(inputs, workflowId, cloneDir, stat).Ok?
    requires ':' !in workflowId
    ensures var opts := PlanBuild(inputs, workflowId, cloneDir, stat).value;
            var reply := BuildkitAuth.Credentials(NewSolveOpt(opts, creds).session[0],
                                                  BuildkitAuth.CredentialsRequest(host)).response;
            && (host == Ecr.SplitTag(opts.tag).0 ==> reply == BuildkitAuth.CredentialsResponse(creds.username, creds.password))
            && (host != Ecr.SplitTag(opts.tag).0 ==> reply == BuildkitAuth.CredentialsResponse("", ""))
  {
    var opts := PlanBuild(inputs, workflowId, cloneDir, stat).value;
    Ecr.ResolvedHostHasNoSlash(inputs.registryUrl);
    Ecr.ImageTagRoundTrip(opts.registry, workflowId);
  }

  /** Go's map index: a missing key reads as "". */
  function Lookup(m: map<string, string>, key: string): (v: string)
    ensures key in m ==> v == m[key]
    ensures key !in m ==> v == ""
  {
    if key in m then m[key] else ""
  }

  /** The descriptor the exporter returns, after base64 and JSON decoding. */
  datatype Descriptor = Descriptor(mediaType: string, digest: string, size: int, rawManifest: string)

  datatype BuildError = SolveFailed(message: string) | DescriptorUndecodable

  /** How `buildImage` ends: its error (if any), whether the clone directory
      was removed, and the image digest it reports. */
  datatype BuildReport = BuildReport(error: Option<BuildError>, cloneRemoved: bool, imageId: string)

  /** The tail of `buildImage` after the solve and the progress display have
      both returned (`waitErr` is the first error either reported). The
      descriptor is decoded even though the image is already pushed, and a
      decoding failure still fails the build; the clone directory is removed
      only on success. */
  function FinishBuild(waitErr: Option<string>, exporterResponse: map<string, string>,
                       decodeDescriptor: string -> Option<Descriptor>): (r: BuildReport)
    ensures r.error.None? <==>
              waitErr.None? && decodeDescriptor(Lookup(exporterResponse, "containerimage.descriptor")).Some?
    ensures waitErr.Some? ==> r.error == Some(SolveFailed(waitErr.value))
    ensures r.cloneRemoved <==> r.error.None?
    ensures r.error.None? ==> r.imageId == Lookup(exporterResponse, "containerimage.digest")
  {
    if waitErr.Some? then BuildReport(Some(SolveFailed(waitErr.value)), false, "")
    else
      var id := Lookup(exporterResponse, "containerimage.digest");
      var encoded := Lookup(exporterResponse, "containerimage.descriptor");
      match decodeDescriptor(encoded)
      case None => BuildReport(Some(DescriptorUndecodable), false, "")
      case Some(_) => BuildReport(None, true, id)
  }
}
