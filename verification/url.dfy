/** The slice of Go's `net/url` the registry resolver depends on:
    `url.Parse` applied to `"https://" + rest`, and `(*URL).Hostname`.

    Modelled: the control-character rejection, the fragment (`#`) and query
    (`?`) cut, the authority running up to the first `/`, and the port check
    on the authority's last `:`. Not modelled: userinfo (`user@`), bracketed
    IPv6 hosts, percent-escapes and net/url's per-character host validation. */
module Url {
  import opened Results
  import opened Strings

  /** The two fields of a parsed URL that the program reads: `Host` (the
      authority, any `:port` included) and `Path`. */
  datatype Url = Url(host: string, path: string)

  datatype ParseError =
    | InvalidControlCharacter
    | InvalidPort(colonPort: string)

  /** Go's control bytes: below space, or DEL. */
  predicate IsControl(c: char) {
    c < ' ' || c as int == 0x7F
  }

  predicate ContainsControl(s: string) {
    exists i :: 0 <= i < |s| && IsControl(s[i])
  }

  /** net/url's `validOptionalPort`: empty, or `:` followed by digits only. */
  predicate ValidOptionalPort(port: string) {
    port == [] || (port[0] == ':' && forall i :: 1 <= i < |port| ==> IsDigit(port[i]))
  }

  /** The authority's text from its last `:` on (empty when it has none). */
  function PortPart(authority: string): string {
    authority[LastIndexOf(authority, ':')..]
  }

  /** `url.Parse("https://" + rest)`. The result's `host + path` is the
      longest prefix of `rest` free of `?` and `#`, divided at its first `/`. */
  function Parse(rest: string): (r: Result<Url, ParseError>)
    ensures r == Err(InvalidControlCharacter) <==> ContainsControl(Before(rest, '#'))
    ensures r.Err? && r.error.InvalidPort? ==>
              !ValidOptionalPort(r.error.colonPort) && r.error.colonPort[0] == ':'
    ensures r.Ok? ==>
              var u := r.value;
              && HasPrefix(rest, u.host + u.path)
              && '/' !in u.host
              && (u.path == [] || u.path[0] == '/')
              && '?' !in u.host + u.path && '#' !in u.host + u.path
              && (|u.host + u.path| < |rest| ==> rest[|u.host + u.path|] in {'?', '#'})
              && ValidOptionalPort(PortPart(u.host))
    ensures var authority := Before(Before(Before(rest, '#'), '?'), '/');
            && (!ContainsControl(Before(rest, '#')) ==> (r.Ok? <==> ValidOptionalPort(PortPart(authority))))
            && (r.Err? && r.error.InvalidPort? ==> r.error.colonPort == PortPart(authority))
  {
    var beforeFragment := Before(rest, '#');
    if ContainsControl(beforeFragment) then Err(InvalidControlCharacter)
    else
      var beforeQuery := Before(beforeFragment, '?');
      var k := IndexOf(beforeQuery, '/');
      var authority := beforeQuery[..k];
      if !ValidOptionalPort(PortPart(authority)) then Err(InvalidPort(PortPart(authority)))
      else
        assert authority + beforeQuery[k..] == beforeQuery;
        Ok(Url(authority, beforeQuery[k..]))
  }

  /** Text that parsing passes through unchanged: no control character, no
      query and no fragment. */
  predicate PlainText(s: string) {
    forall c :: c in s ==> !IsControl(c) && c != '?' && c != '#'
  }

  /** A URL without query, fragment or control characters parses into its
      authority (up to the first `/`) and its path. */
  lemma ParsePlain(host: string, path: string)
    requires '/' !in host
    requires path == [] || path[0] == '/'
    requires PlainText(host + path)
    requires ValidOptionalPort(PortPart(host))
    ensures Parse(host + path) == Ok(Url(host, path))
  {
    var rest := host + path;
    assert '#' !in rest && '?' !in rest;
    assert Before(rest, '#') == rest;
    assert Before(rest, '?') == rest;
    if path == [] {
      assert rest == host;
    } else {
      assert rest == host + ['/'] + path[1..];
      FirstIndexAfter(host, '/', path[1..]);
    }
    assert rest[..|host|] == host;
    assert rest[|host|..] == path;
  }

  /** `(*URL).Hostname`: the host with a trailing `:port` removed. What is
      removed is always `:` followed by digits, and a host without `:` is
      returned whole. */
  function Hostname(u: Url): (r: string)
    ensures HasPrefix(u.host, r)
    ensures r != u.host ==> u.host[|r|] == ':' && ValidOptionalPort(u.host[|r|..])
    ensures ':' !in u.host ==> r == u.host
    ensures r != u.host ==> ':' !in u.host[|r| + 1..]
    ensures ':' in u.host && ValidOptionalPort(PortPart(u.host)) ==> r != u.host
  {
    var colon := LastIndexOf(u.host, ':');
    if colon < |u.host| && ValidOptionalPort(u.host[colon..]) then u.host[..colon] else u.host
  }
}
