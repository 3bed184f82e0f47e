/**
 Fake hosts: translating an alias URL to its upstream URL, and showing a cached upstream URL as its alias.
 */
module UrlAlias {
  import opened Common

  datatype UrlMap = UrlMap(fakeHost: string, realBase: string)

  function TrimEndSlashes(s: string): (r: string)
    ensures r <= s && (r != "" ==> r[|r| - 1] != '/')
    ensures forall i :: |r| <= i < |s| ==> s[i] == '/'
  {
    if s != "" && s[|s| - 1] == '/' then TrimEndSlashes(s[..|s| - 1]) else s
  }

  function Base(m: UrlMap): string {
    TrimEndSlashes(m.realBase)
  }

  /** `p` is a prefix of `s` that ends where a path segment of `s` ends. */
  predicate AtBoundary(p: string, s: string) {
    p <= s && (|p| == |s| || s[|p|] == '/')
  }

  predicate IsRest(rest: string) {
    rest == "" || rest[0] == '/'
  }

  const HTTP: string := "http://"
  const FTP: string := "ftp://"

  /** One alias spelling of one map, if the URL uses it. */
  function Translate(url: string, scheme: string, m: UrlMap): Option<string> {
    var prefix := scheme + m.fakeHost;
    if prefix <= url && IsRest(url[|prefix|..]) then
      var rest := url[|prefix|..];
      if rest == "" then Some(Base(m)) else Some(Base(m) + rest)
    else None
  }

  function ResolveUrl(url: string, maps: seq<UrlMap>): string {
    if maps == [] then url
    else if Translate(url, HTTP, maps[0]).Some? then Translate(url, HTTP, maps[0]).value
    else if Translate(url, FTP, maps[0]).Some? then Translate(url, FTP, maps[0]).value
    else ResolveUrl(url, maps[1..])
  }

  /** `parsed` is the host and path that a URL parser finds, used when no map applies. */
  function ReverseResolve(url: string, maps: seq<UrlMap>, parsed: (string, string)): (string, string) {
    if maps == [] then parsed
    else
      var base := Base(maps[0]);
      if base <= url && IsRest(url[|base|..]) then (maps[0].fakeHost, url[|base|..])
      else ReverseResolve(url, maps[1..], parsed)
  }

  predicate PlainHosts(maps: seq<UrlMap>) {
    forall i :: 0 <= i < |maps| ==> '/' !in maps[i].fakeHost
  }

  predicate IsFirstFor(maps: seq<UrlMap>, k: nat, host: string) {
    && k < |maps| && maps[k].fakeHost == host
    && forall i :: 0 <= i < k ==> maps[i].fakeHost != host
  }

  predicate IsFirstBase(maps: seq<UrlMap>, j: nat, url: string) {
    && j < |maps| && AtBoundary(Base(maps[j]), url)
    && forall i :: 0 <= i < j ==> !AtBoundary(Base(maps[i]), url)
  }

  // ---- strings ----------------------------------------------------------------------------------

  /** Two boundary prefixes of one string are comparable, at a boundary. */
  lemma PrefixesAreComparable(p: string, q: string, s: string)
    requires AtBoundary(p, s) && AtBoundary(q, s)
    ensures AtBoundary(p, q) || AtBoundary(q, p)
  {
  }

  function HostPart(s: string): string {
    if s == "" || s[0] == '/' then "" else [s[0]] + HostPart(s[1..])
  }

  lemma {:induction false} HostPartEnds(host: string, rest: string)
    requires '/' !in host && IsRest(rest)
    ensures HostPart(host + rest) == host
  {
    if host != "" {
      HostPartEnds(host[1..], rest);
      assert (host + rest)[1..] == host[1..] + rest;
    }
  }

  /** A host without slashes is recognised only as itself. */
  lemma HostIsExact(scheme: string, host: string, fake: string, rest: string)
    requires '/' !in host && '/' !in fake && IsRest(rest)
    ensures var url := scheme + host + rest;
      (scheme + fake <= url && IsRest(url[|scheme + fake|..])) <==> fake == host
  {
    var url := scheme + host + rest;
    if fake == host {
      assert url[|scheme + fake|..] == rest;
    } else if scheme + fake <= url {
      var suffix := url[|scheme + fake|..];
      assert host + rest == url[|scheme|..] == fake + suffix;
      HostPartEnds(host, rest);
      assert IsRest(suffix) ==> HostPart(fake + suffix) == fake by {
        if IsRest(suffix) {
          HostPartEnds(fake, suffix);
        }
      }
    }
  }

  lemma SchemesDiffer(host: string, rest: string, fake: string)
    ensures !(FTP + fake <= HTTP + host + rest) && !(HTTP + fake <= FTP + host + rest)
  {
    assert (FTP + fake)[0] == 'f' && (HTTP + host + rest)[0] == 'h';
    assert (HTTP + fake)[0] == 'h' && (FTP + host + rest)[0] == 'f';
  }

  // ---- resolving --------------------------------------------------------------------------------

  /** The first map of the host wins, for either scheme. */
  lemma {:induction false} ResolveTakesFirst(maps: seq<UrlMap>, k: nat, scheme: string, host: string, rest: string)
    requires PlainHosts(maps) && IsFirstFor(maps, k, host)
    requires scheme in {HTTP, FTP} && IsRest(rest)
    ensures ResolveUrl(scheme + host + rest, maps) == Base(maps[k]) + rest
    decreases |maps|
  {
    var url := scheme + host + rest;
    HostIsExact(scheme, host, maps[0].fakeHost, rest);
    SchemesDiffer(host, rest, maps[0].fakeHost);
    if k == 0 {
      assert url[|scheme + host|..] == rest;
    } else {
      ResolveTakesFirst(maps[1..], k - 1, scheme, host, rest);
    }
  }

  /** A URL of any other host is left alone. */
  lemma {:induction false} ResolveLeavesOthers(maps: seq<UrlMap>, scheme: string, host: string, rest: string)
    requires PlainHosts(maps) && '/' !in host && IsRest(rest) && scheme in {HTTP, FTP}
    requires forall i :: 0 <= i < |maps| ==> maps[i].fakeHost != host
    ensures ResolveUrl(scheme + host + rest, maps) == scheme + host + rest
    decreases |maps|
  {
    if maps != [] {
      HostIsExact(scheme, host, maps[0].fakeHost, rest);
      SchemesDiffer(host, rest, maps[0].fakeHost);
      ResolveLeavesOthers(maps[1..], scheme, host, rest);
    }
  }

  /** Nor is a URL of any other scheme touched. */
  lemma {:induction false} ResolveLeavesSchemes(maps: seq<UrlMap>, url: string)
    requires !("http://" <= url) && !("ftp://" <= url)
    ensures ResolveUrl(url, maps) == url
    decreases |maps|
  {
    if maps != [] {
      PrefixOfPrefix(HTTP, maps[0].fakeHost, url);
      PrefixOfPrefix(FTP, maps[0].fakeHost, url);
      ResolveLeavesSchemes(maps[1..], url);
    }
  }

  lemma PrefixOfPrefix(p: string, q: string, s: string)
    ensures p + q <= s ==> p <= s
  {
    assert p <= p + q;
  }

  // ---- reversing --------------------------------------------------------------------------------

  lemma {:induction false} ReverseTakesFirst(maps: seq<UrlMap>, j: nat, url: string, parsed: (string, string))
    requires IsFirstBase(maps, j, url)
    ensures ReverseResolve(url, maps, parsed) == (maps[j].fakeHost, url[|Base(maps[j])|..])
    decreases |maps|
  {
    assert j > 0 ==> !AtBoundary(Base(maps[0]), url);
    if j > 0 {
      ReverseTakesFirst(maps[1..], j - 1, url, parsed);
    }
  }

  /** A URL under none of the bases is shown as it was parsed. */
  lemma {:induction false} ReverseLeavesOthers(maps: seq<UrlMap>, url: string, parsed: (string, string))
    requires forall i :: 0 <= i < |maps| ==> !AtBoundary(Base(maps[i]), url)
    ensures ReverseResolve(url, maps, parsed) == parsed
    decreases |maps|
  {
    if maps != [] {
      assert !AtBoundary(Base(maps[0]), url);
      ReverseLeavesOthers(maps[1..], url, parsed);
    }
  }

  lemma {:induction false} SomeFirstBase(maps: seq<UrlMap>, k: nat, url: string) returns (j: nat)
    requires k < |maps| && AtBoundary(Base(maps[k]), url)
    ensures j <= k && IsFirstBase(maps, j, url)
    decreases k
  {
    if i :| 0 <= i < k && AtBoundary(Base(maps[i]), url) {
      j := SomeFirstBase(maps, i, url);
    } else {
      j := k;
    }
  }

  ghost predicate RoundTrips(maps: seq<UrlMap>, scheme: string, host: string, rest: string, parsed: (string, string)) {
    ReverseResolve(ResolveUrl(scheme + host + rest, maps), maps, parsed) == (host, rest)
  }

  /** For one path the alias comes back exactly if no earlier base matches the upstream URL. */
  lemma RoundTripAt(maps: seq<UrlMap>, k: nat, scheme: string, rest: string, parsed: (string, string))
    requires PlainHosts(maps) && k < |maps| && IsFirstFor(maps, k, maps[k].fakeHost)
    requires scheme in {HTTP, FTP} && IsRest(rest)
    ensures RoundTrips(maps, scheme, maps[k].fakeHost, rest, parsed)
      <==> forall j :: 0 <= j < k ==> !AtBoundary(Base(maps[j]), Base(maps[k]) + rest)
  {
    var host, url := maps[k].fakeHost, Base(maps[k]) + rest;
    ResolveTakesFirst(maps, k, scheme, host, rest);
    var j := SomeFirstBase(maps, k, url);
    ReverseTakesFirst(maps, j, url, parsed);
    assert url[|Base(maps[k])|..] == rest;
  }

  predicate Comparable(p: string, q: string) {
    AtBoundary(p, q) || AtBoundary(q, p)
  }

  lemma ComparableBreaks(maps: seq<UrlMap>, k: nat, j: nat, scheme: string, parsed: (string, string)) returns (rest: string)
    requires PlainHosts(maps) && j < k < |maps| && IsFirstFor(maps, k, maps[k].fakeHost) && scheme in {HTTP, FTP}
    requires Comparable(Base(maps[j]), Base(maps[k]))
    ensures IsRest(rest) && !RoundTrips(maps, scheme, maps[k].fakeHost, rest, parsed)
  {
    var base := Base(maps[k]);
    rest := if AtBoundary(Base(maps[j]), base) then "" else Base(maps[j])[|base|..];
    assert base + rest == if rest == "" then base else Base(maps[j]);
    RoundTripAt(maps, k, scheme, rest, parsed);
    assert AtBoundary(Base(maps[j]), base + rest);
  }

  lemma IncomparableKeeps(maps: seq<UrlMap>, k: nat, scheme: string, rest: string, parsed: (string, string))
    requires PlainHosts(maps) && k < |maps| && IsFirstFor(maps, k, maps[k].fakeHost) && scheme in {HTTP, FTP}
    requires IsRest(rest) && forall j :: 0 <= j < k ==> !Comparable(Base(maps[j]), Base(maps[k]))
    ensures RoundTrips(maps, scheme, maps[k].fakeHost, rest, parsed)
  {
    var base := Base(maps[k]);
    assert AtBoundary(base, base + rest);
    forall j | 0 <= j < k
      ensures !AtBoundary(Base(maps[j]), base + rest)
    {
      if AtBoundary(Base(maps[j]), base + rest) {
        PrefixesAreComparable(Base(maps[j]), base, base + rest);
      }
    }
    RoundTripAt(maps, k, scheme, rest, parsed);
  }

  /** An alias comes back for every path if and only if no earlier base is comparable to its own. */
  lemma RoundTripIffIncomparable(maps: seq<UrlMap>, k: nat, scheme: string, parsed: (string, string))
    requires PlainHosts(maps) && k < |maps| && IsFirstFor(maps, k, maps[k].fakeHost) && scheme in {HTTP, FTP}
    ensures (forall rest :: IsRest(rest) ==> RoundTrips(maps, scheme, maps[k].fakeHost, rest, parsed))
      <==> forall j :: 0 <= j < k ==> !Comparable(Base(maps[j]), Base(maps[k]))
  {
    if j :| 0 <= j < k && Comparable(Base(maps[j]), Base(maps[k])) {
      var rest := ComparableBreaks(maps, k, j, scheme, parsed);
    } else {
      forall rest | IsRest(rest)
        ensures RoundTrips(maps, scheme, maps[k].fakeHost, rest, parsed)
      {
        IncomparableKeeps(maps, k, scheme, rest, parsed);
      }
    }
  }

  /** The other way round: an upstream URL shown as an alias resolves to itself again exactly if the first
      map of the alias host has the same base. */
  lemma AliasResolvesBack(maps: seq<UrlMap>, j: nat, k: nat, url: string, scheme: string, parsed: (string, string))
    requires PlainHosts(maps) && IsFirstBase(maps, j, url) && scheme in {HTTP, FTP}
    requires IsFirstFor(maps, k, maps[j].fakeHost)
    ensures var (host, path) := ReverseResolve(url, maps, parsed);
      && host == maps[j].fakeHost && IsRest(path)
      && (ResolveUrl(scheme + host + path, maps) == url <==> Base(maps[k]) == Base(maps[j]))
  {
    ReverseTakesFirst(maps, j, url, parsed);
    var path := url[|Base(maps[j])|..];
    ResolveTakesFirst(maps, k, scheme, maps[j].fakeHost, path);
    assert url == Base(maps[j]) + path;
    if Base(maps[k]) + path == url {
      SameTail(Base(maps[k]), Base(maps[j]), path);
    }
  }

  lemma SameTail(p: string, q: string, tail: string)
    requires p + tail == q + tail
    ensures p == q
  {
    assert |p + tail| == |q + tail|;
    assert p == (p + tail)[..|p|] && q == (q + tail)[..|q|];
  }
}
