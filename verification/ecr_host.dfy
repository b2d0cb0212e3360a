/** The private Amazon ECR host grammar, written out by hand. It is the
    language of the anchored pattern

      (\d{12}) ".dkr.ecr" ("-fips")? "." ([A-Za-z0-9][A-Za-z0-9_-]*) "."
      (amazonaws.com(.cn)? | sc2s.sgov.gov | c2s.ic.gov | cloud.adc-e.uk | csp.hci.ic.gov)

    A host is described by its `HostParts`; `Render` writes the parts out and
    `Parse` reads them back. Because a region token holds no `.`, a host in
    the language decomposes in exactly one way. */
module EcrHost {
  import opened Results
  import opened Strings

  /** The six partition domain suffixes the pattern accepts. */
  datatype Partition = Aws | AwsCn | AwsIsoB | AwsIso | AwsIsoE | AwsIsoF

  function Suffix(p: Partition): string {
    match p
    case Aws => "amazonaws.com"
    case AwsCn => "amazonaws.com.cn"
    case AwsIsoB => "sc2s.sgov.gov"
    case AwsIso => "c2s.ic.gov"
    case AwsIsoE => "cloud.adc-e.uk"
    case AwsIsoF => "csp.hci.ic.gov"
  }

  /** The partition whose suffix is exactly `s`, if any. */
  function PartitionOf(s: string): (r: Option<Partition>)
    ensures r.Some? ==> Suffix(r.value) == s
    ensures r.None? ==> forall p: Partition :: Suffix(p) != s
  {
    if s == Suffix(Aws) then Some(Aws)
    else if s == Suffix(AwsCn) then Some(AwsCn)
    else if s == Suffix(AwsIsoB) then Some(AwsIsoB)
    else if s == Suffix(AwsIso) then Some(AwsIso)
    else if s == Suffix(AwsIsoE) then Some(AwsIsoE)
    else if s == Suffix(AwsIsoF) then Some(AwsIsoF)
    else None
  }

  /** The pieces of a private registry host: the 12-digit account id, the
      optional FIPS marker, the region token and the partition. */
  datatype HostParts = HostParts(account: string, fips: bool, region: string, partition: Partition)

  predicate IsAlnum(c: char) {
    IsDigit(c) || 'a' <= c <= 'z' || 'A' <= c <= 'Z'
  }

  predicate IsRegionChar(c: char) {
    IsAlnum(c) || c == '-' || c == '_'
  }

  predicate ValidAccount(a: string) {
    |a| == 12 && forall i :: 0 <= i < |a| ==> IsDigit(a[i])
  }

  /** `[A-Za-z0-9][A-Za-z0-9_-]*`. */
  predicate ValidRegion(r: string) {
    |r| >= 1 && IsAlnum(r[0]) && forall i :: 1 <= i < |r| ==> IsRegionChar(r[i])
  }

  predicate Valid(p: HostParts) {
    ValidAccount(p.account) && ValidRegion(p.region)
  }

  const DkrEcr := ".dkr.ecr"
  const FipsMarker := "-fips"

  function FipsText(fips: bool): string {
    if fips then FipsMarker else ""
  }

  /** The host named by `p`. */
  function Render(p: HostParts): string {
    p.account + DkrEcr + RenderAfterEcr(p.fips, p.region, p.partition)
  }

  /** What follows `.dkr.ecr` in a rendered host. */
  function RenderAfterEcr(fips: bool, region: string, partition: Partition): string {
    FipsText(fips) + "." + RenderTail(region, partition)
  }

  /** What follows the `.` after the FIPS marker in a rendered host. */
  function RenderTail(region: string, partition: Partition): string {
    region + "." + Suffix(partition)
  }

  /** Reads a host back into its parts; `None` when the host is not in the
      language. */
  function Parse(h: string): (r: Option<HostParts>)
    ensures r.Some? ==> Valid(r.value) && Render(r.value) == h
  {
    if |h| < 12 || !ValidAccount(h[..12]) || !HasPrefix(h[12..], DkrEcr) then None
    else
      match ParseAfterEcr(h[12..][|DkrEcr|..])
      case None => None
      case Some(rest) =>
        PrefixSplit(h[12..], DkrEcr);
        assert h == h[..12] + h[12..];
        ConcatAssoc(h[..12], DkrEcr, h[12..][|DkrEcr|..]);
        Some(HostParts(h[..12], rest.0, rest.1, rest.2))
  }

  /** Reads `("-fips")? "." region "." suffix`. */
  function ParseAfterEcr(s: string): (r: Option<(bool, string, Partition)>)
    ensures r.Some? ==> ValidRegion(r.value.1) && RenderAfterEcr(r.value.0, r.value.1, r.value.2) == s
  {
    var fips := HasPrefix(s, FipsMarker);
    var afterFips := if fips then s[|FipsMarker|..] else s;
    if |afterFips| == 0 || afterFips[0] != '.' then None
    else
      match ParseTail(afterFips[1..])
      case None => None
      case Some(tail) =>
        PrefixSplit(afterFips, ".");
        FipsSplit(s);
        ConcatAssoc(FipsText(fips), ".", afterFips[1..]);
        Some((fips, tail.0, tail.1))
  }

  /** Reads `region "." suffix`: the region runs up to the first `.`. */
  function ParseTail(s: string): (r: Option<(string, Partition)>)
    ensures r.Some? ==> ValidRegion(r.value.0) && RenderTail(r.value.0, r.value.1) == s
  {
    var k := IndexOf(s, '.');
    if k == |s| || !ValidRegion(s[..k]) then None
    else
      match PartitionOf(s[k + 1..])
      case None => None
      case Some(part) =>
        SplitAround(s, k);
        Some((s[..k], part))
  }

  lemma FipsSplit(s: string)
    ensures var fips := HasPrefix(s, FipsMarker);
            s == FipsText(fips) + (if fips then s[|FipsMarker|..] else s)
  {
    if HasPrefix(s, FipsMarker) {
      PrefixSplit(s, FipsMarker);
    }
  }

  lemma SplitAround(s: string, k: nat)
    requires k < |s| && s[k] == '.'
    ensures s == s[..k] + "." + s[k + 1..]
  {
  }

  /** The host pattern's verdict on `h`. */
  predicate IsEcrHost(h: string) {
    Parse(h).Some?
  }

  lemma RegionHasNoDot(r: string)
    requires ValidRegion(r)
    ensures '.' !in r
  {
    forall i | 0 <= i < |r|
      ensures r[i] != '.'
    {
      if i > 0 { assert IsRegionChar(r[i]); }
    }
  }

  lemma ParseTailRender(region: string, partition: Partition)
    requires ValidRegion(region)
    ensures ParseTail(RenderTail(region, partition)) == Some((region, partition))
  {
    var s := RenderTail(region, partition);
    RegionHasNoDot(region);
    FirstIndexAfter(region, '.', Suffix(partition));
    assert s[..|region|] == region;
    assert s[|region| + 1..] == Suffix(partition);
    PartitionOfSuffix(partition);
  }

  /** Each partition is recognised from its own suffix. */
  lemma PartitionOfSuffix(p: Partition)
    ensures PartitionOf(Suffix(p)) == Some(p)
  {
    match p
    case Aws =>
    case AwsCn =>
    case AwsIsoB =>
    case AwsIso =>
    case AwsIsoE =>
    case AwsIsoF =>
  }

  lemma ParseAfterEcrRender(fips: bool, region: string, partition: Partition)
    requires ValidRegion(region)
    ensures ParseAfterEcr(RenderAfterEcr(fips, region, partition)) == Some((fips, region, partition))
  {
    var s := RenderAfterEcr(fips, region, partition);
    var afterFips := "." + RenderTail(region, partition);
    ConcatAssoc(FipsText(fips), ".", RenderTail(region, partition));
    if fips {
      assert s == FipsMarker + afterFips;
      assert HasPrefix(s, FipsMarker);
      assert s[|FipsMarker|..] == afterFips;
    } else {
      assert s == afterFips;
      assert s[0] == '.';
      assert !HasPrefix(s, FipsMarker);
    }
    assert afterFips[1..] == RenderTail(region, partition);
    ParseTailRender(region, partition);
  }

  /** Reading back a rendered host gives the same parts. */
  lemma ParseRender(p: HostParts)
    requires Valid(p)
    ensures Parse(Render(p)) == Some(p)
  {
    var h := Render(p);
    var rest := RenderAfterEcr(p.fips, p.region, p.partition);
    ConcatAssoc(p.account, DkrEcr, rest);
    assert h[..12] == p.account;
    assert h[12..] == DkrEcr + rest;
    assert h[12..][|DkrEcr|..] == rest;
    ParseAfterEcrRender(p.fips, p.region, p.partition);
  }

  /** The hand-written grammar accepts exactly the rendered hosts. */
  lemma IsEcrHostIff(h: string)
    ensures IsEcrHost(h) <==> exists p :: Valid(p) && Render(p) == h
  {
    if exists p :: Valid(p) && Render(p) == h {
      var p :| Valid(p) && Render(p) == h;
      ParseRender(p);
    }
  }

  /** A host in the language has one decomposition only. */
  lemma RenderInjective(p1: HostParts, p2: HostParts)
    requires Valid(p1) && Valid(p2)
    requires Render(p1) == Render(p2)
    ensures p1 == p2
  {
    ParseRender(p1);
    ParseRender(p2);
  }

  /** `ecrPattern.FindStringSubmatch(h)`: no entries when the host does not
      match, otherwise the whole match followed by the five capture groups
      (account, `-fips`, region, suffix, `.cn`), an unmatched group being "". */
  function Submatches(h: string): (m: seq<string>)
    ensures |m| == 0 <==> !IsEcrHost(h)
    ensures |m| != 0 ==> |m| == 6 && m[0] == h
    ensures |m| != 0 ==> Render(HostParts(m[1], m[2] == FipsMarker, m[3], Parse(h).value.partition)) == h
  {
    match Parse(h)
    case None => []
    case Some(p) =>
      [h, p.account, FipsText(p.fips), p.region, Suffix(p.partition),
       if p.partition == AwsCn then ".cn" else ""]
  }
}
