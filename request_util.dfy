/**
 * `RequestUtil` of the upload module: the protocol and host a request was
 * made to (default ports per sections 4.2.1 and 4.2.2 of RFC 9110), the
 * client IP (IPv4-mapped IPv6 prefix per section 2.5.5.2 of RFC 4291), and
 * the extension id carried by a request path.
 */
module RequestUtil {
  import opened Wrappers
  import opened Text

  // ---------------------------------------------------------------- host and protocol

  /** `normalizeHost`: drops a trailing ":443" under https and a trailing ":80" under any other protocol. */
  function NormalizeHost(host: string, protocol: string): (r: string)
    ensures protocol == "https" && EndsWith(host, ":443") ==> r + ":443" == host
    ensures protocol != "https" && EndsWith(host, ":80") ==> r + ":80" == host
    ensures protocol == "https" && !EndsWith(host, ":443") ==> r == host
    ensures protocol != "https" && !EndsWith(host, ":80") ==> r == host
  {
    var port := if protocol == "https" then ":443" else ":80";
    if EndsWith(host, port) then host[..|host| - |port|] else host
  }

  /** Normalising is not idempotent: a host that ends in the default port twice loses it once per call. */
  lemma NormalizeHostNotIdempotent()
    ensures NormalizeHost("h:443:443", "https") == "h:443"
    ensures NormalizeHost(NormalizeHost("h:443:443", "https"), "https") == "h"
  {
    assert EndsWith("h:443:443", ":443") by { assert "h:443:443"[5..] == ":443"; }
    assert "h:443:443"[..5] == "h:443";
    assert EndsWith("h:443", ":443") by { assert "h:443"[1..] == ":443"; }
    assert "h:443"[..1] == "h";
  }

  /** Normalising twice is normalising once unless the host ends with the default port twice. */
  lemma NormalizeHostIdempotentOnce(host: string, protocol: string)
    requires var port := if protocol == "https" then ":443" else ":80";
      !EndsWith(host, port + port)
    ensures NormalizeHost(NormalizeHost(host, protocol), protocol) == NormalizeHost(host, protocol)
  {
    var port := if protocol == "https" then ":443" else ":80";
    if EndsWith(host, port) {
      StrippedOnce(host, port);
    }
  }

  lemma StrippedOnce(host: string, port: string)
    requires EndsWith(host, port) && !EndsWith(host, port + port)
    ensures !EndsWith(host[..|host| - |port|], port)
  {
    var once := host[..|host| - |port|];
    if |port| <= |once| {
      assert host[|host| - |port + port|..] == once[|once| - |port|..] + port;
    }
  }

  /** Number of leading decimal digits. */
  function LeadingDigits(s: string): (n: nat)
    ensures n <= |s|
    ensures forall i :: 0 <= i < n ==> IsDigit(s[i])
    ensures n < |s| ==> !IsDigit(s[n])
  {
    if s != [] && IsDigit(s[0]) then 1 + LeadingDigits(s[1..]) else 0
  }

  /** `/^\d+\.\d+\.\d+\.\d+/` read from the front: `groups` runs of digits separated by dots. */
  predicate DigitGroups(s: string, groups: nat)
    requires groups >= 1
    decreases groups
  {
    var k := LeadingDigits(s);
    k >= 1 && (groups == 1 || (k < |s| && s[k] == '.' && DigitGroups(s[k + 1..], groups - 1)))
  }

  /** The host looks like a public domain: not local, not an IPv4 address, no explicit port. */
  predicate IsProductionDomain(host: string) {
    !Contains(host, "localhost") && !Contains(host, "127.0.0.1") && !DigitGroups(host, 4) && !Contains(host, ":")
  }

  /** A header value: a string, or the array Node gives for a repeated header. */
  datatype HeaderValue = Text(text: string) | List(items: seq<string>)

  /** `a || b`: the first of two optional strings that is not empty. */
  function OrElse(a: Option<string>, b: Option<string>): Option<string>
  {
    if a.Some? && a.value != "" then a else b
  }

  /** The first element of a comma-separated value, trimmed, when it has a comma. */
  function FirstListed(s: string): string
  {
    if Contains(s, ",") then Trim(Split(s, ',')[0]) else s
  }

  datatype Domain = Domain(protocol: string, host: string)

  /**
   * The protocol a host is served under, read off the host: an explicit
   * ":443" means https and ":80" http; a production domain is https; any
   * other host keeps the requested protocol when it is https, else http.
   */
  function ProtocolFor(host: string, requested: string): (p: string)
    ensures p == "https" || p == "http"
    ensures IsProductionDomain(host) ==> p == "https"
  {
    if Contains(host, ":443") then "https"
    else if Contains(host, ":80") then PortOverridesProduction(host); "http"
    else if IsProductionDomain(host) then "https"
    else if requested == "https" then "https"
    else "http"
  }

  /** A host with a ":" in it is never a production domain, so an explicit port decides alone. */
  lemma PortOverridesProduction(host: string)
    requires Contains(host, ":443") || Contains(host, ":80")
    ensures !IsProductionDomain(host)
  {
    if Contains(host, ":443") {
      var k := IndexOf(host, ":443").value;
      assert host[k..k + 1] == host[k..k + 4][..1];
      ContainsAt(host, ":", k);
    } else {
      var k := IndexOf(host, ":80").value;
      assert host[k..k + 1] == host[k..k + 3][..1];
      ContainsAt(host, ":", k);
    }
  }

  /**
   * The protocol and host of `getRequestDomain`, up to (and excluding) the
   * fallback for local hosts. `forwardedProto` and `requestProtocol` are the
   * `X-Forwarded-Proto` header and Express's `request.protocol`;
   * `forwardedHost` and `hostHeader` the `X-Forwarded-Host` and `Host`
   * headers. The method reassigns `protocol` and `host` step by step.
   */
  method ResolveDomain(forwardedProto: Option<string>, requestProtocol: Option<string>,
                       forwardedHost: Option<HeaderValue>, hostHeader: Option<HeaderValue>)
    returns (r: Option<Domain>)
    ensures r.Some? <==> HostOf(forwardedHost, hostHeader).Some?
    ensures r.Some? ==>
      var h := HostOf(forwardedHost, hostHeader).value;
      var p := ProtocolFor(h, ProtocolOf(forwardedProto, requestProtocol));
      r.value == Domain(p, NormalizeHost(h, p))
  {
    var protocol := ProtocolOf(forwardedProto, requestProtocol);
    var picked := if forwardedHost.Some? && Truthy(forwardedHost.value) then forwardedHost else hostHeader;
    if picked.None? || !Truthy(picked.value) {
      return None;
    }
    var host: string;
    match picked.value {
      case Text(t) => host := t;
      case List(items) =>
        if items == [] {
          return None;
        }
        host := items[0];
    }
    if Contains(host, ",") {
      host := Trim(Split(host, ',')[0]);
    }
    ghost var requested := protocol;
    if IsProductionDomain(host) && protocol != "https" {
      protocol := "https";
    } else {
      protocol := if protocol == "https" then "https" else "http";
    }
    if Contains(host, ":443") {
      protocol := "https";
    } else if Contains(host, ":80") {
      protocol := "http";
    }
    assert protocol == ProtocolFor(host, requested);
    host := NormalizeHost(host, protocol);
    return Some(Domain(protocol, host));
  }

  /** JavaScript truthiness of a header value: an empty string is falsy, an array never is. */
  predicate Truthy(v: HeaderValue) { v.List? || v.text != "" }

  /** The protocol candidate: `X-Forwarded-Proto || request.protocol || "http"`, first listed value. */
  function ProtocolOf(forwardedProto: Option<string>, requestProtocol: Option<string>): string
  {
    var p := OrElse(forwardedProto, requestProtocol);
    FirstListed(if p.Some? && p.value != "" then p.value else "http")
  }

  /** The host candidate before ports are looked at; `None` where `getRequestDomain` returns undefined. */
  function HostOf(forwardedHost: Option<HeaderValue>, hostHeader: Option<HeaderValue>): Option<string>
  {
    var picked := if forwardedHost.Some? && Truthy(forwardedHost.value) then forwardedHost else hostHeader;
    if picked.None? || !Truthy(picked.value) then None
    else match picked.value
      case Text(t) => Some(FirstListed(t))
      case List(items) => if items == [] then None else Some(FirstListed(items[0]))
  }

  // ---------------------------------------------------------------- client IP

  const MappedPrefix: string := "::ffff:"

  /** Drops the IPv4-mapped IPv6 prefix "::ffff:" (seven characters) when present. */
  function StripMapped(ip: string): (r: string)
    ensures StartsWith(ip, MappedPrefix) ==> MappedPrefix + r == ip
    ensures !StartsWith(ip, MappedPrefix) ==> r == ip
  {
    if StartsWith(ip, MappedPrefix) then ip[7..] else ip
  }

  /** An IPv4-mapped address gives back the address it maps. */
  lemma StripMappedRoundTrip(ip: string)
    ensures StripMapped(MappedPrefix + ip) == ip
  {
    assert (MappedPrefix + ip)[..7] == MappedPrefix;
  }

  /**
   * `getClientIP`: the first trimmed `X-Forwarded-For` entry when there is a
   * non-empty one, otherwise the socket address or `request.ip`, otherwise
   * "unknown"; the "::ffff:" prefix is stripped either way.
   */
  function ClientIP(forwardedFor: Option<string>, socketAddress: Option<string>, requestIp: Option<string>): (r: string)
    ensures var first := if forwardedFor.Some? && forwardedFor.value != "" then Trim(Split(forwardedFor.value, ',')[0]) else "";
      (first != "" ==> r == StripMapped(first)) &&
      (first == "" ==>
        var remote := OrElse(socketAddress, requestIp);
        (remote.Some? && remote.value != "" ==> r == StripMapped(remote.value)) &&
        (remote.None? || remote.value == "" ==> r == "unknown"))
  {
    var first := if forwardedFor.Some? && forwardedFor.value != "" then Trim(Split(forwardedFor.value, ',')[0]) else "";
    if first != "" then StripMapped(first)
    else
      var remote := OrElse(socketAddress, requestIp);
      if remote.Some? && StartsWith(remote.value, MappedPrefix) then remote.value[7..]
      else if remote.Some? && remote.value != "" then remote.value
      else "unknown"
  }

  /** A forwarded list picks its first entry, whatever follows it. */
  lemma ClientIPFirstForwarded(entry: string, rest: string, socketAddress: Option<string>, requestIp: Option<string>)
    requires ',' !in entry && Trim(entry) != ""
    ensures ClientIP(Some(entry + "," + rest), socketAddress, requestIp) == StripMapped(Trim(entry))
  {
    SplitSeparated(entry, rest, ',');
    SplitFree(entry, ',');
  }

  // ---------------------------------------------------------------- extension id

  /**
   * `getExtensionIdFromPath`: the path is `originalUrl || url || ""`; the
   * pattern `^/([^/]+)/(api|consoleapi)/` names the extension unless the
   * first segment is itself "api" or "consoleapi".
   */
  function ExtensionIdFromPath(originalUrl: Option<string>, url: Option<string>): (r: Option<string>)
  {
    var p := OrElse(originalUrl, url);
    var path := if p.Some? then p.value else "";
    if |path| < 1 || path[0] != '/' then None
    else
      var id := UpTo(path[1..], '/');
      var rest := path[1 + |id|..];
      if id != [] && (StartsWith(rest, "/api/") || StartsWith(rest, "/consoleapi/")) && id != "api" && id != "consoleapi"
      then Some(id) else None
  }

  /** The path an extension id comes from. */
  function PathOf(originalUrl: Option<string>, url: Option<string>): string
  {
    var p := OrElse(originalUrl, url);
    if p.Some? then p.value else ""
  }

  /**
   * An extracted id is a non-empty, slash-free first segment other than
   * "api"/"consoleapi", followed by "/api/" or "/consoleapi/"; and every
   * such path yields its first segment.
   */
  lemma ExtensionIdFromPathMeaning(originalUrl: Option<string>, url: Option<string>)
    ensures var r := ExtensionIdFromPath(originalUrl, url);
      var path := PathOf(originalUrl, url);
      r.Some? ==> (r.value != "" && '/' !in r.value && r.value != "api" && r.value != "consoleapi" &&
        (StartsWith(path, "/" + r.value + "/api/") || StartsWith(path, "/" + r.value + "/consoleapi/")))
  {
    var path := PathOf(originalUrl, url);
    var r := ExtensionIdFromPath(originalUrl, url);
    if r.Some? {
      var id := r.value;
      var rest := path[1 + |id|..];
      assert path == "/" + id + rest by {
        assert path[1..][..|id|] == id;
      }
      if StartsWith(rest, "/api/") {
        assert ("/" + id + rest)[..|"/" + id + "/api/"|] == "/" + id + rest[..5];
      } else {
        assert ("/" + id + rest)[..|"/" + id + "/consoleapi/"|] == "/" + id + rest[..12];
      }
    }
  }

  lemma ExtensionIdFromPathComplete(path: string, id: string, tail: string, console: bool)
    requires id != "" && '/' !in id && id != "api" && id != "consoleapi"
    requires path == "/" + id + (if console then "/consoleapi/" else "/api/") + tail
    ensures ExtensionIdFromPath(Some(path), None) == Some(id)
  {
    var marker := if console then "/consoleapi/" else "/api/";
    PathPieces(path, id, marker, tail);
    assert (marker + tail)[..|marker|] == marker;
  }

  /** The first segment of `/<id><marker><tail>` is `id`, and what follows it is `<marker><tail>`. */
  lemma PathPieces(path: string, id: string, marker: string, tail: string)
    requires '/' !in id && |marker| >= 1 && marker[0] == '/'
    requires path == "/" + id + marker + tail
    ensures |path| >= 1 + |id| && path[0] == '/'
    ensures UpTo(path[1..], '/') == id && path[1 + |id|..] == marker + tail
  {
    var after := marker[1..] + tail;
    assert path[1..] == id + [marker[0]] + after;
    UpToOf(id, after, '/');
  }

  /** `getEffectiveExtensionId`: an explicitly provided, non-empty id wins over the path. */
  function EffectiveExtensionId(provided: Option<string>, originalUrl: Option<string>, url: Option<string>): (r: Option<string>)
    ensures provided.Some? && provided.value != "" ==> r == provided
    ensures provided.None? || provided.value == "" ==> r == ExtensionIdFromPath(originalUrl, url)
  {
    if provided.Some? && provided.value != "" then provided else ExtensionIdFromPath(originalUrl, url)
  }
}
