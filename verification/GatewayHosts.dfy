/** Rewriting of DingTalk hosts by login region and to the MCP gateway
    (internal/app/direct_runtime.go). Host names are compared case-insensitively, as
    section 3.2.2 of RFC 3986 has it, and are ASCII. */
module GatewayHosts {
  import opened Collections
  import opened GoStrings

  function LowerChar(c: char): char {
    if 'A' <= c <= 'Z' then (c as int + 32) as char else c
  }

  function ToLower(s: string): (r: string)
    ensures |r| == |s|
    ensures forall i | 0 <= i < |s| :: r[i] == LowerChar(s[i])
  {
    seq(|s|, i requires 0 <= i < |s| => LowerChar(s[i]))
  }

  /** The domain with its leading dot. */
  function Domain(international: bool): string {
    if international then ".dingtalk.io" else ".dingtalk.com"
  }

  /** A host of the domain: the bare domain or a name below it. */
  predicate InDomain(host: string, international: bool) {
    var h, suffix := ToLower(host), Domain(international);
    h == suffix[1..] || HasSuffix(h, suffix)
  }

  /** The host moved to the region's domain, when it is in the other one. */
  function RegionHost(host: string, international: bool): string {
    var h, from, to := ToLower(host), Domain(!international), Domain(international);
    if h != from[1..] && !HasSuffix(h, from) then host
    else if h == from[1..] then to[1..]
    else h[..|h| - |from|] + to
  }

  predicate HasGatewayPrefix(host: string) {
    HasPrefix(host, "mcp.") || HasPrefix(host, "pre-mcp.")
  }

  /** The gateway's host for an MCP host. */
  function GatewayHost(host: string): string {
    if host == "mcp.dingtalk.com" then "mcp-gw.dingtalk.com"
    else if HasPrefix(host, "pre-mcp.") then "pre-mcp-gw." + host[8..]
    else if HasPrefix(host, "mcp.") then "mcp-gw." + host[4..]
    else host
  }

  lemma LowerIdempotent(s: string)
    ensures ToLower(ToLower(s)) == ToLower(s)
  {
  }

  lemma LowerConcat(a: string, b: string)
    ensures ToLower(a + b) == ToLower(a) + ToLower(b)
  {
  }

  /** The two domains exclude each other: their last letters differ. */
  lemma DomainsDiffer(host: string)
    ensures !(InDomain(host, true) && InDomain(host, false))
  {
    var h := ToLower(host);
    if InDomain(host, true) {
      assert h[|h| - 1] == 'o' by {
        if HasSuffix(h, Domain(true)) {
          assert h[|h| - 12..][11] == h[|h| - 1];
        }
      }
    }
    if InDomain(host, false) {
      assert h[|h| - 1] == 'm' by {
        if HasSuffix(h, Domain(false)) {
          assert h[|h| - 13..][12] == h[|h| - 1];
        }
      }
    }
  }

  lemma DomainIsLower(international: bool)
    ensures ToLower(Domain(international)) == Domain(international)
    ensures ToLower(Domain(international)[1..]) == Domain(international)[1..]
  {
  }

  /** Where a host goes: into the region's domain if it was in either domain, and
      nowhere otherwise. */
  lemma RegionHostLands(host: string, international: bool)
    ensures InDomain(RegionHost(host, international), international) <==> InDomain(host, true) || InDomain(host, false)
    ensures !InDomain(RegionHost(host, international), !international)
    ensures !InDomain(host, !international) ==> RegionHost(host, international) == host
  {
    var h, from, to := ToLower(host), Domain(!international), Domain(international);
    DomainsDiffer(host);
    DomainsDiffer(RegionHost(host, international));
    DomainIsLower(international);
    if h != from[1..] && HasSuffix(h, from) {
      LowerIdempotent(host);
      LowerConcat(h[..|h| - |from|], to);
      var r := RegionHost(host, international);
      assert ToLower(r)[|r| - |to|..] == to;
    }
  }

  /** A host in the other domain, taken apart: what stands before the domain is kept. */
  lemma RegionHostKeepsStem(host: string, international: bool) returns (stem: string)
    requires InDomain(host, !international) && ToLower(host) != Domain(!international)[1..]
    ensures ToLower(host) == stem + Domain(!international)
    ensures RegionHost(host, international) == stem + Domain(international)
    ensures ToLower(stem) == stem
  {
    var h, from := ToLower(host), Domain(!international);
    stem := h[..|h| - |from|];
    LowerIdempotent(host);
  }

  /** A lower-case name below one domain moves to the other. */
  lemma RegionHostMoves(stem: string, international: bool)
    requires ToLower(stem) == stem
    ensures RegionHost(stem + Domain(!international), international) == stem + Domain(international)
  {
    var from := Domain(!international);
    var host := stem + from;
    LowerConcat(stem, from);
    DomainIsLower(!international);
    assert ToLower(host) == host;
    assert host[|host| - |from|..] == from;
    assert host[..|host| - |from|] == stem;
    assert |host| >= |from| > |from[1..]|;
  }

  /** Absorption: only the last region counts. Up to case this holds for every host, and
      literally for every lower-case one. */
  lemma RegionAbsorbs(host: string, first: bool, last: bool)
    ensures ToLower(RegionHost(RegionHost(host, first), last)) == ToLower(RegionHost(host, last))
    ensures ToLower(host) == host || first == last ==>
              RegionHost(RegionHost(host, first), last) == RegionHost(host, last)
  {
    RegionHostLands(host, first);
    RegionHostLands(host, last);
    if first == last {
      RegionHostLands(RegionHost(host, first), last);
    } else if InDomain(host, last) {
      DomainsDiffer(host);
      if ToLower(host) == Domain(last)[1..] {
        DomainIsLower(first);
        DomainIsLower(last);
      } else {
        var stem := RegionHostKeepsStem(host, first);
        RegionHostMoves(stem, last);
        LowerIdempotent(host);
      }
    }
  }

  /** Names the gateway rule knows. */
  predicate GatewayName(head: string) {
    head == "mcp" || head == "pre-mcp"
  }

  lemma PlainGatewayHost()
    ensures HasPrefix("mcp.dingtalk.com", "mcp.")
    ensures "mcp-gw.dingtalk.com" == "mcp-gw." + "mcp.dingtalk.com"[4..]
  {
    assert "mcp.dingtalk.com"[0..4] == "mcp.";
    assert "mcp.dingtalk.com"[4..] == "dingtalk.com";
  }

  lemma McpHostShape(host: string)
    requires HasPrefix(host, "mcp.")
    ensures GatewayHost(host) == "mcp-gw." + host[4..]
  {
    PlainGatewayHost();
    PrefixChars(host, "mcp.");
    assert host[0] == "mcp."[0] && "pre-mcp."[0] == 'p';
    NotPrefix(host, "pre-mcp.", 0);
  }

  /** The gateway rule inserts `-gw` behind the first label. */
  lemma GatewayHostShape(host: string, head: string)
    requires GatewayName(head) && HasPrefix(host, head + ".")
    ensures GatewayHost(host) == head + "-gw" + host[|head|..]
    ensures HasGatewayPrefix(host)
  {
    var dot := head + ".";
    PrefixChars(host, dot);
    assert host[|head|..] == "." + host[|dot|..];
    if head == "mcp" {
      assert dot == "mcp.";
      McpHostShape(host);
    } else {
      assert dot == "pre-mcp.";
      assert host[0] == 'p';
      assert host != "mcp.dingtalk.com" by { assert "mcp.dingtalk.com"[0] == 'm'; }
    }
  }

  lemma GatewayNameOf(host: string) returns (head: string)
    requires HasGatewayPrefix(host)
    ensures GatewayName(head) && HasPrefix(host, head + ".")
  {
    head := if HasPrefix(host, "mcp.") then "mcp" else "pre-mcp";
    assert "mcp" + "." == "mcp." && "pre-mcp" + "." == "pre-mcp.";
  }

  lemma NoGatewayPrefix(host: string)
    requires !HasGatewayPrefix(host)
    ensures GatewayHost(host) == host
  {
    PlainGatewayHost();
  }

  /** `-gw` is not a label of its own: the rule does not apply to its own results. */
  lemma GatewayHostIdempotent(host: string)
    ensures !HasGatewayPrefix(GatewayHost(host))
    ensures GatewayHost(GatewayHost(host)) == GatewayHost(host)
  {
    if HasGatewayPrefix(host) {
      var head := GatewayNameOf(host);
      GatewayHostShape(host, head);
      var g := GatewayHost(host);
      assert g[|head|] == '-' && forall i | 0 <= i < |head| :: g[i] == head[i];
      assert "mcp."[0] == 'm' && "mcp."[3] == '.' && "pre-mcp."[0] == 'p' && "pre-mcp."[7] == '.';
      NotPrefix(g, "mcp.", if head == "mcp" then 3 else 0);
      NotPrefix(g, "pre-mcp.", if head == "mcp" then 0 else 7);
    }
    NoGatewayPrefix(GatewayHost(host));
  }

  /** Inside a domain suffix a dot stands only behind `k`. */
  lemma DomainDot(international: bool, k: nat)
    requires 1 <= k < |Domain(international)|
    ensures Domain(international)[k] != '.' || Domain(international)[k - 1] == 'k'
  {
    var d := Domain(international);
    assert d[1] != '.' && d[2] != '.' && d[3] != '.' && d[4] != '.' && d[5] != '.' && d[6] != '.' && d[7] != '.'
      && d[8] == 'k';
    assert d[10] != '.' && d[11] != '.' && (international || d[12] != '.');
  }

  /** Whether a name ends in a domain is decided behind its first label, unless that
      label ends in `k`. */
  lemma SuffixBehindDot(head: string, rest: string, international: bool)
    requires head != "" && head[|head| - 1] != 'k'
    ensures HasSuffix(head + "." + rest, Domain(international)) <==> HasSuffix("." + rest, Domain(international))
  {
    var whole, tail, d := head + "." + rest, "." + rest, Domain(international);
    assert whole == head + tail;
    if |tail| >= |d| {
      assert whole[|whole| - |d|..] == tail[|tail| - |d|..];
    } else {
      var i := |d| - |tail|;
      DomainDot(international, i);
      NotSuffix(whole, d, if d[i] != '.' then i else i - 1);
    }
  }

  /** What a first label has to be for the rules not to mix it up with the domain. */
  predicate PlainLabel(head: string) {
    && head != "" && ToLower(head) == head
    && head[0] != 'd' && head[|head| - 1] != 'k'
    && forall k | 0 <= k < |head| :: head[k] != '.'
  }

  lemma GatewayNamesArePlain(head: string)
    requires GatewayName(head)
    ensures PlainLabel(head) && PlainLabel(head + "-gw")
  {
  }

  lemma InDomainBehindLabel(head: string, rest: string, international: bool)
    requires PlainLabel(head)
    ensures InDomain(head + "." + rest, international) <==> HasSuffix("." + ToLower(rest), Domain(international))
  {
    var host, d := head + "." + rest, Domain(international);
    LowerConcat(head + ".", rest);
    LowerConcat(head, ".");
    assert ToLower(host) == head + "." + ToLower(rest);
    SuffixBehindDot(head, ToLower(rest), international);
    assert d[1..][0] == 'd' && ToLower(host)[0] == head[0];
  }

  /** The gateway rule does not move a host between the domains. */
  lemma GatewayKeepsDomain(host: string, international: bool)
    ensures InDomain(GatewayHost(host), international) <==> InDomain(host, international)
  {
    if HasGatewayPrefix(host) {
      var head := GatewayNameOf(host);
      GatewayHostShape(host, head);
      PrefixChars(host, head + ".");
      var rest := host[|head| + 1..];
      GatewayNamesArePlain(head);
      InDomainBehindLabel(head, rest, international);
      InDomainBehindLabel(head + "-gw", rest, international);
      SplitAtDot(host, head, rest);
    } else {
      NoGatewayPrefix(host);
    }
  }

  lemma SplitAtDot(host: string, head: string, rest: string)
    requires |head| < |host| && host[..|head|] == head && host[|head|] == '.' && rest == host[|head| + 1..]
    ensures host == head + "." + rest
    ensures head + "-gw" + host[|head|..] == (head + "-gw") + "." + rest
  {
    assert host[|head|..] == "." + rest;
  }

  lemma PrefixBeforeDomain(stem: string, name: string, international: bool)
    requires GatewayName(name)
    ensures HasPrefix(stem + Domain(international), name + ".") <==> HasPrefix(stem + ".", name + ".")
  {
    var d, p := Domain(international), name + ".";
    var host, dotted := stem + d, stem + ".";
    assert d[0] == '.';
    if |p| <= |dotted| {
      assert host[0..|p|] == dotted[0..|p|];
    } else {
      assert host[|stem|] == '.' && p[|stem|] == name[|stem|] != '.';
      NotPrefix(host, p, |stem|);
    }
  }

  lemma GatewayPrefixBeforeDomain(stem: string, international: bool)
    ensures HasGatewayPrefix(stem + Domain(international)) <==> HasGatewayPrefix(stem + ".")
  {
    PrefixBeforeDomain(stem, "mcp", international);
    PrefixBeforeDomain(stem, "pre-mcp", international);
    assert "mcp" + "." == "mcp." && "pre-mcp" + "." == "pre-mcp.";
  }

  lemma GatewayOfName(head: string, t: string, domain: string)
    requires GatewayName(head) && t + domain != "" && (t + domain)[0] == '.'
    ensures GatewayHost(head + t + domain) == head + "-gw" + t + domain
  {
    var moved := head + t + domain;
    assert moved == head + (t + domain);
    assert moved[0..|head| + 1] == head + ".";
    GatewayHostShape(moved, head);
    assert moved[|head|..] == t + domain;
    assert head + "-gw" + t + domain == head + "-gw" + (t + domain);
  }

  lemma RegionOfLower(host: string, stem: string, international: bool)
    requires ToLower(host) == stem + Domain(!international) && stem != ""
    ensures RegionHost(host, international) == stem + Domain(international)
  {
    var h, from := ToLower(host), Domain(!international);
    assert h[|h| - |from|..] == from && h[..|h| - |from|] == stem;
    assert |h| > |from[1..]|;
  }

  lemma BareHasNoLabel(host: string, head: string, international: bool)
    requires PlainLabel(head) && |head| <= |host| && host[..|head|] == head
    ensures ToLower(host) != Domain(international)[1..]
  {
    assert ToLower(host)[0] == LowerChar(host[0]) == ToLower(head)[0];
    assert Domain(international)[1..][0] == 'd';
  }

  /** A host below a domain, split behind its first label: the label stands wholly
      before the domain. */
  lemma SplitStem(head: string, tail: string, stem: string, from: string) returns (t: string)
    requires ToLower(head) == head && forall k | 0 <= k < |head| :: head[k] != '.'
    requires tail != "" && tail[0] == '.' && from != "" && from[0] == '.'
    requires ToLower(head + tail) == stem + from
    ensures stem == head + t && ToLower(tail) == t + from && (t + from)[0] == '.'
  {
    LowerConcat(head, tail);
    var lower := ToLower(tail);
    assert (head + lower)[|stem|] == '.';
    assert stem[..|head|] == (head + lower)[..|head|] == head;
    t := stem[|head|..];
    assert stem == head + t;
    assert lower == (head + lower)[|head|..] == t + from;
  }

  lemma RegionOfGateway(head: string, tail: string, t: string, international: bool)
    requires GatewayName(head) && ToLower(tail) == t + Domain(!international)
    ensures RegionHost(head + "-gw" + tail, international) == head + "-gw" + t + Domain(international)
  {
    GatewayNamesArePlain(head);
    LowerConcat(head + "-gw", tail);
    assert head + "-gw" + (t + Domain(!international)) == (head + "-gw" + t) + Domain(!international);
    RegionOfLower(head + "-gw" + tail, head + "-gw" + t, international);
  }

  lemma SplitAtLabel(host: string) returns (head: string, tail: string)
    requires HasGatewayPrefix(host)
    ensures GatewayName(head) && PlainLabel(head)
    ensures host == head + tail && tail != "" && tail[0] == '.'
    ensures GatewayHost(host) == head + "-gw" + tail
  {
    head := GatewayNameOf(host);
    GatewayHostShape(host, head);
    PrefixChars(host, head + ".");
    GatewayNamesArePlain(head);
    tail := host[|head|..];
    assert host[..|head|] == head;
  }

  /** Both rules on a host whose gateway name is written in lower case. */
  lemma NamedHostCommutes(host: string, international: bool)
    requires InDomain(host, !international) && HasGatewayPrefix(host)
    ensures GatewayHost(RegionHost(host, international)) == RegionHost(GatewayHost(host), international)
  {
    var head, tail := SplitAtLabel(host);
    BareHasNoLabel(host, head, !international);
    var stem := RegionHostKeepsStem(host, international);
    var t := SplitStem(head, tail, stem, Domain(!international));
    var domain := Domain(international);
    assert (t + domain)[0] == (t + Domain(!international))[0];
    GatewayOfName(head, t, domain);
    RegionOfGateway(head, tail, t, international);
    assert RegionHost(host, international) == head + t + domain;
  }

  /** When the two rules commute: always, except on a host that the region rule lowers
      into one the gateway rule knows while it did not know it before. In particular they
      commute on every lower-case host. */
  lemma RulesCommuteIff(host: string, international: bool)
    ensures GatewayHost(RegionHost(host, international)) == RegionHost(GatewayHost(host), international) <==>
            !InDomain(host, !international) || HasGatewayPrefix(host) || !HasGatewayPrefix(ToLower(host))
  {
    RegionHostLands(host, international);
    RegionHostLands(GatewayHost(host), international);
    GatewayKeepsDomain(host, !international);
    if InDomain(host, !international) {
      if HasGatewayPrefix(host) {
        NamedHostCommutes(host, international);
      } else {
        NoGatewayPrefix(host);
        RegionKeepsGatewayPrefix(host, international);
        var moved := RegionHost(host, international);
        if HasGatewayPrefix(moved) {
          var head := GatewayNameOf(moved);
          GatewayHostShape(moved, head);
          assert |GatewayHost(moved)| == |moved| + 3;
        } else {
          NoGatewayPrefix(moved);
        }
      }
    }
  }

  /** A host in upper case that the region rule lowers: the rules give different hosts. */
  lemma UpperCaseNameDoesNotCommute()
    ensures GatewayHost(RegionHost("MCP.dingtalk.io", false)) != RegionHost(GatewayHost("MCP.dingtalk.io"), false)
  {
    var host, lower := "MCP.dingtalk.io", "mcp.dingtalk.io";
    assert ToLower(host) == lower;
    assert lower[|lower| - |Domain(true)|..] == Domain(true);
    assert lower[0..4] == "mcp.";
    NotPrefix(host, "mcp.", 0);
    NotPrefix(host, "pre-mcp.", 0);
    RulesCommuteIff(host, false);
  }

  lemma RegionKeepsGatewayPrefix(host: string, international: bool)
    requires InDomain(host, !international)
    ensures HasGatewayPrefix(RegionHost(host, international)) <==> HasGatewayPrefix(ToLower(host))
  {
    if ToLower(host) == Domain(!international)[1..] {
      var bare, bare' := Domain(!international)[1..], Domain(international)[1..];
      assert bare[0] == 'd' && bare'[0] == 'd' && "mcp."[0] == 'm' && "pre-mcp."[0] == 'p';
      NotPrefix(bare, "mcp.", 0);
      NotPrefix(bare, "pre-mcp.", 0);
      NotPrefix(bare', "mcp.", 0);
      NotPrefix(bare', "pre-mcp.", 0);
    } else {
      var stem := RegionHostKeepsStem(host, international);
      GatewayPrefixBeforeDomain(stem, international);
      GatewayPrefixBeforeDomain(stem, !international);
    }
  }

  // Base URLs and endpoints

  /** An absolute URL as it is written; `port` is "" when there is none. A query or a
      fragment can be there and be empty, as in "https://host/a?" or "https://host/a#". */
  datatype Url = Url(scheme: string, host: string, port: string, path: string, query: Option<string>,
      fragment: Option<string>)

  /** What URL parsing makes of a configured text. */
  datatype Address = Unusable(text: string) | Absolute(url: Url)

  function TrimSlashes(path: string): string {
    if path != "" && path[|path| - 1] == '/' then TrimSlashes(path[..|path| - 1]) else path
  }

  /** Parsing and printing keep the mark of an empty query and lose that of an empty
      fragment. */
  function Reprinted(u: Url): Url {
    if u.fragment == Some("") then u.(fragment := None) else u
  }

  /** The URL as written, without the slashes it ends in. */
  function WithoutEndSlashes(u: Url): Url {
    match u.fragment
    case Some(fragment) => u.(fragment := Some(TrimSlashes(fragment)))
    case None =>
      match u.query
      case Some(query) => u.(query := Some(TrimSlashes(query)))
      case None => u.(path := TrimSlashes(u.path))
  }

  /** A URL of another place stays as it is written. */
  function RegionUrl(u: Url, international: bool): Url {
    if InDomain(u.host, !international) then Reprinted(u).(host := RegionHost(u.host, international)) else u
  }

  function GatewayUrl(u: Url): Url {
    var query := if u.query == Some("") then u.query else None;
    WithoutEndSlashes(Url(u.scheme, GatewayHost(u.host), u.port, TrimSlashes(u.path), query, None))
  }

  predicate IsGatewayHost(host: string) {
    ToLower(TrimSpace(host)) in
      {"mcp-gw.dingtalk.com", "pre-mcp-gw.dingtalk.com", "mcp-gw.dingtalk.io", "pre-mcp-gw.dingtalk.io"}
  }

  /** The endpoint is moved: it is on a gateway, and there is an active one. */
  predicate Moves(endpoint: Address, base: Address) {
    endpoint.Absolute? && IsGatewayHost(endpoint.url.host) && base.Absolute?
  }

  /** The endpoint of a gateway server, moved to the active gateway. */
  function ActiveEndpoint(endpoint: Address, base: Address): Address {
    if Moves(endpoint, base) then
      var moved := Reprinted(endpoint.url).(scheme := base.url.scheme, host := base.url.host, port := base.url.port);
      Absolute(WithoutEndSlashes(moved))
    else endpoint
  }

  lemma TrimSlashesIdempotent(path: string)
    ensures TrimSlashes(TrimSlashes(path)) == TrimSlashes(path)
  {
  }

  lemma WithoutEndSlashesIdempotent(u: Url)
    ensures WithoutEndSlashes(WithoutEndSlashes(u)) == WithoutEndSlashes(u)
  {
    TrimSlashesIdempotent(u.path);
    if u.fragment.Some? {
      TrimSlashesIdempotent(u.fragment.value);
    } else if u.query.Some? {
      TrimSlashesIdempotent(u.query.value);
    }
  }

  lemma GatewayUrlIdempotent(u: Url)
    ensures GatewayUrl(GatewayUrl(u)) == GatewayUrl(u)
  {
    GatewayHostIdempotent(u.host);
    TrimSlashesIdempotent(u.path);
  }

  lemma RegionUrlIdempotent(u: Url, international: bool)
    ensures RegionUrl(RegionUrl(u, international), international) == RegionUrl(u, international)
  {
    RegionHostLands(u.host, international);
  }

  /** On lower-case hosts the gateway URL of a region is the region's gateway URL. And for
      every URL each rule applied again changes nothing. */
  lemma UrlRulesCommute(u: Url, international: bool)
    ensures ToLower(u.host) == u.host ==>
              GatewayUrl(RegionUrl(u, international)) == RegionUrl(GatewayUrl(u), international)
    ensures GatewayUrl(GatewayUrl(u)) == GatewayUrl(u)
    ensures RegionUrl(RegionUrl(u, international), international) == RegionUrl(u, international)
  {
    GatewayUrlIdempotent(u);
    RegionUrlIdempotent(u, international);
    if ToLower(u.host) == u.host {
      LowerUrlRulesCommute(u, international);
    }
  }

  lemma LowerUrlRulesCommute(u: Url, international: bool)
    requires ToLower(u.host) == u.host
    ensures GatewayUrl(RegionUrl(u, international)) == RegionUrl(GatewayUrl(u), international)
  {
    RulesCommuteIff(u.host, international);
    GatewayKeepsDomain(u.host, !international);
    RegionHostLands(u.host, international);
    RegionHostLands(GatewayHost(u.host), international);
    var gateway := GatewayUrl(u);
    assert gateway.host == GatewayHost(u.host) && Reprinted(gateway) == gateway;
  }

  /** The fragment is nothing but slashes. */
  predicate SlashFragment(u: Url) {
    u.fragment.Some? && u.fragment.value != "" && TrimSlashes(u.fragment.value) == ""
  }

  /** An endpoint that is not on a gateway never moves. Moving one is done once and for
      all unless its fragment is nothing but slashes: trimming them leaves a bare "#",
      which only a second time goes away, with the slashes before it. */
  lemma ActiveEndpointIdempotentIff(endpoint: Address, base: Address)
    ensures ActiveEndpoint(endpoint, base) != endpoint ==> endpoint.Absolute? && IsGatewayHost(endpoint.url.host)
    ensures ActiveEndpoint(ActiveEndpoint(endpoint, base), base) == ActiveEndpoint(endpoint, base) <==>
            !(Moves(endpoint, base) && IsGatewayHost(base.url.host) && SlashFragment(endpoint.url))
  {
    if Moves(endpoint, base) {
      var once := ActiveEndpoint(endpoint, base).url;
      var Url(scheme, host, port, _, _, _) := base.url;
      WithoutEndSlashesIdempotent(Reprinted(endpoint.url).(scheme := scheme, host := host, port := port));
      assert WithoutEndSlashes(once) == once;
    }
  }

  /** An endpoint that comes to rest only after two moves. */
  lemma SlashFragmentMovesTwice()
    ensures
      var url := Url("https", "mcp-gw.dingtalk.com", "", "/a/", None, Some("/"));
      var base := Absolute(Url("https", "mcp-gw.dingtalk.com", "", "", None, None));
      var once := ActiveEndpoint(Absolute(url), base);
      && once == Absolute(url.(fragment := Some("")))
      && ActiveEndpoint(once, base) == Absolute(url.(path := "/a", fragment := None))
  {
    var host := "mcp-gw.dingtalk.com";
    assert TrimLeft(host) == host && TrimRight(host) == host && ToLower(host) == host;
    assert "/a/"[..2] == "/a" && "/"[..0] == "";
    assert TrimSlashes("/a") == "/a" && TrimSlashes("") == "";
    assert TrimSlashes("/") == "" && TrimSlashes("/a/") == "/a";
  }

  /** A moved endpoint has the scheme, host and port of the active gateway and keeps its own
      path, up to trailing slashes. */
  lemma MovedEndpointIs(endpoint: Address, base: Address)
    requires endpoint.Absolute? && base.Absolute? && IsGatewayHost(endpoint.url.host)
    ensures
      var moved := ActiveEndpoint(endpoint, base);
      && moved.Absolute?
      && moved.url.scheme == base.url.scheme && moved.url.host == base.url.host && moved.url.port == base.url.port
      && TrimSlashes(moved.url.path) == TrimSlashes(endpoint.url.path)
      && (moved.url.query.Some? <==> endpoint.url.query.Some?)
      && (endpoint.url.query == None && endpoint.url.fragment == None ==>
            moved.url.path == TrimSlashes(endpoint.url.path) && moved.url.fragment == None)
  {
    TrimSlashesIdempotent(endpoint.url.path);
  }

  /** The gateway URL keeps scheme, port and path and drops query and fragment; the URL of a
      region keeps everything but the host. */
  lemma RewrittenUrlsKeep(u: Url, international: bool)
    ensures GatewayUrl(u).scheme == u.scheme && GatewayUrl(u).host == GatewayHost(u.host)
              && GatewayUrl(u).port == u.port
    ensures GatewayUrl(u).path == TrimSlashes(u.path) && GatewayUrl(u).fragment == None
    ensures u.query != Some("") ==> GatewayUrl(u).query == None
    ensures RegionUrl(u, international).(host := u.host, fragment := u.fragment) == u
    ensures RegionUrl(u, international).host == RegionHost(u.host, international)
  {
    TrimSlashesIdempotent(u.path);
    RegionHostLands(u.host, international);
  }

  /** Trimming takes slashes off the end and nothing else. */
  lemma {:induction false} TrimSlashesMeans(path: string)
    ensures TrimSlashes(path) <= path
    ensures forall k | |TrimSlashes(path)| <= k < |path| :: path[k] == '/'
    ensures TrimSlashes(path) != "" ==> TrimSlashes(path)[|TrimSlashes(path)| - 1] != '/'
  {
    if path != "" && path[|path| - 1] == '/' {
      TrimSlashesMeans(path[..|path| - 1]);
    }
  }
}
