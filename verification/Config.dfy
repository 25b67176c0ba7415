/**
 The agent's configuration and its validation.

 Only the fields that some rule, check or link reads are kept; the purely passed-through options of a
 node (certificates, idle timers, ...) are not part of this model.
 */
module Config {
  import opened Text

  // A protocol as the configuration spells it: one of those known, or any other text.
  datatype Protocol =
    | Mixed | Socks | Socks5 | Http | Vless | Vmess | Trojan | Shadowsocks | Ss | Hysteria2 | Tuic | Anytls | Naive
    | Shadowtls | Tcp | Udp | Direct | ForwardTcp | ForwardUdp
    | OtherProtocol(text: string)

  datatype MatchType =
    | NoMatchType | InboundMatch | Domain | DomainSuffix | DomainKeyword | IpCidr | Geoip | Geosite | ProtocolMatch | PortMatch
    | OtherMatchType(text: string)

  datatype Mode = NoMode | RuleMode | GlobalMode | DirectMode | OtherMode(text: string)

  datatype Inbound = Inbound(
    name: string, protocol: Protocol, port: int, disabled: bool,
    uuid: string, password: string, cipher: string, security: string, serverName: string,
    privateKey: string, handshakeServer: string, handshakePort: int,
    targetHost: string, targetPort: int)

  datatype Outbound = Outbound(
    name: string, protocol: Protocol, address: string, port: int, disabled: bool,
    username: string, uuid: string, password: string, cipher: string,
    flow: string, security: string, network: string, tls: bool, serverName: string, skipCertVerify: bool,
    transport: string, path: string, host: string,
    publicKey: string, shortID: string, fingerprint: string, alpn: string,
    obfs: string, obfsPassword: string, mport: string, upMbps: int, downMbps: int,
    congestion: string, udpRelayMode: string,
    subscription: string, group: string, raw: string)

  datatype Rule = Rule(
    name: string, matchType: MatchType, value: string, inbound: string, outbound: string,
    priority: int, disabled: bool)

  datatype RoutingConfig = RoutingConfig(mode: Mode, preset: string, defaultOutbound: string, rules: seq<Rule>)

  datatype ProxyGroup = ProxyGroup(name: string, proxies: seq<string>)

  datatype Provider = Provider(
    name: string, group: string, renamePrefix: string, renameSuffix: string,
    dedupStrategy: string, preserveUserFields: bool, preserveFields: seq<string>)

  datatype Mihomo = Mihomo(proxyGroups: seq<ProxyGroup>, rules: seq<string>, providers: seq<Provider>)

  datatype KernelConfig = KernelConfig(kind: string, executable: string, configPath: string)

  datatype Config = Config(
    webPort: int, kernel: KernelConfig,
    inbounds: seq<Inbound>, outbounds: seq<Outbound>, routing: RoutingConfig, mihomo: Mihomo)

  function FirstNonEmpty(a: string, b: string): string {
    if a != "" then a else b
  }

  function InboundName(i: Inbound): string { i.name }
  function OutboundName(o: Outbound): string { o.name }

  /* ----- the reading of a rule ----- */

  /** An absent mode is rule mode; `NoMode` is the answer for a mode that is not supported. */
  function RoutingMode(mode: Mode): Mode {
    match mode
    case NoMode => RuleMode
    case OtherMode(_) => NoMode
    case _ => mode
  }

  function RuleMatchType(rule: Rule): MatchType {
    if rule.matchType != NoMatchType then rule.matchType
    else if rule.inbound != "" then InboundMatch
    else DomainSuffix
  }

  function RuleValue(rule: Rule): string {
    if rule.value != "" then rule.value
    else if RuleMatchType(rule).InboundMatch? then rule.inbound
    else ""
  }

  function ProtocolText(p: Protocol): string {
    match p
    case Mixed => "mixed"
    case Socks => "socks"
    case Socks5 => "socks5"
    case Http => "http"
    case Vless => "vless"
    case Vmess => "vmess"
    case Trojan => "trojan"
    case Shadowsocks => "shadowsocks"
    case Ss => "ss"
    case Hysteria2 => "hysteria2"
    case Tuic => "tuic"
    case Anytls => "anytls"
    case Naive => "naive"
    case Shadowtls => "shadowtls"
    case Tcp => "tcp"
    case Udp => "udp"
    case Direct => "direct"
    case ForwardTcp => "forward-tcp"
    case ForwardUdp => "forward-udp"
    case OtherProtocol(text) => text
  }

  function MatchTypeText(t: MatchType): string {
    match t
    case NoMatchType => ""
    case InboundMatch => "inbound"
    case Domain => "domain"
    case DomainSuffix => "domain_suffix"
    case DomainKeyword => "domain_keyword"
    case IpCidr => "ip_cidr"
    case Geoip => "geoip"
    case Geosite => "geosite"
    case ProtocolMatch => "protocol"
    case PortMatch => "port"
    case OtherMatchType(text) => text
  }

  predicate SupportedMatchType(t: MatchType) {
    !t.NoMatchType? && !t.OtherMatchType?
  }

  /* ----- validation of one node ----- */

  predicate ValidPort(port: int) { 1 <= port <= 65535 }

  predicate SupportedInbound(p: Protocol) {
    match p
    case Mixed | Socks | Socks5 | Http | Vless | Anytls | Vmess | Trojan | Shadowtls | Shadowsocks | Ss | ForwardTcp | ForwardUdp => true
    case _ => false
  }

  predicate SupportedOutbound(p: Protocol) {
    match p
    case Direct | Socks | Socks5 | Http | Vless | Vmess | Trojan | Shadowsocks | Ss | Hysteria2 | Tuic | Anytls | Naive
       | Shadowtls | Tcp | Udp => true
    case _ => false
  }

  predicate SupportedSSMethod(cipher: string) {
    cipher in {"2022-blake3-aes-128-gcm", "2022-blake3-aes-256-gcm", "aes-128-gcm", "aes-256-gcm",
               "chacha20-ietf-poly1305", "xchacha20-ietf-poly1305"}
  }

  /** `InboundConfig.Validate` returns no error. */
  predicate InboundOk(i: Inbound) {
    && SupportedInbound(i.protocol)
    && match i.protocol
       case Vless =>
         i.uuid != "" &&
         (i.security == "reality" ==>
            i.privateKey != "" && i.serverName != "" && i.handshakeServer != "" && ValidPort(i.handshakePort))
       case Vmess => i.uuid != ""
       case Trojan => i.password != ""
       case Shadowtls => i.password != "" && i.handshakeServer != ""
       case Anytls => i.password != "" && i.serverName != ""
       case Shadowsocks | Ss => i.password != "" && SupportedSSMethod(i.cipher)
       case ForwardTcp | ForwardUdp => i.targetHost != "" && ValidPort(i.targetPort)
       case _ => true
  }

  /** `OutboundConfig.Validate` returns no error. */
  predicate OutboundOk(o: Outbound) {
    && SupportedOutbound(o.protocol)
    && match o.protocol
       case Vless | Vmess => o.uuid != ""
       case Trojan | Hysteria2 | Anytls | Shadowtls => o.password != ""
       case Tuic => o.uuid != "" && o.password != ""
       case Shadowsocks | Ss =>
         && o.password != "" && SupportedSSMethod(o.cipher)
         && (o.transport == "shadowtls" ==> o.obfsPassword != "")
       case _ => true
  }

  /* ----- what is asked of a node, field by field ----- */

  /**
   An inbound is accepted exactly when its protocol is one of those listed and each field that this protocol
   cannot do without is filled in: the conditions are gathered here by field, where `InboundOk` has them by
   protocol.
   */
  lemma InboundOkIff(i: Inbound)
    ensures
      var p := ProtocolText(i.protocol);
      InboundOk(i) <==>
        && !i.protocol.OtherProtocol?
        && p in {"mixed", "socks", "socks5", "http", "vless", "vmess", "trojan", "anytls", "shadowtls",
                 "shadowsocks", "ss", "forward-tcp", "forward-udp"}
        && (p in {"vless", "vmess"} ==> i.uuid != "")
        && (p in {"trojan", "shadowtls", "anytls", "shadowsocks", "ss"} ==> i.password != "")
        && (p in {"shadowsocks", "ss"} ==> SupportedSSMethod(i.cipher))
        && (p in {"anytls"} || (p in {"vless"} && i.security == "reality") ==> i.serverName != "")
        && (p in {"shadowtls"} || (p in {"vless"} && i.security == "reality") ==> i.handshakeServer != "")
        && (p in {"vless"} && i.security == "reality" ==> i.privateKey != "" && 0 < i.handshakePort < 65536)
        && (p in {"forward-tcp", "forward-udp"} ==> i.targetHost != "" && 0 < i.targetPort < 65536)
  {
    hide SupportedSSMethod;
    match i.protocol
    case _ =>
  }

  /** The same for an outbound. */
  lemma OutboundOkIff(o: Outbound)
    ensures
      var p := ProtocolText(o.protocol);
      OutboundOk(o) <==>
        && !o.protocol.OtherProtocol?
        && p in {"direct", "socks", "socks5", "http", "vless", "vmess", "trojan", "shadowsocks", "ss", "hysteria2",
                 "tuic", "anytls", "naive", "shadowtls", "tcp", "udp"}
        && (p in {"vless", "vmess", "tuic"} ==> o.uuid != "")
        && (p in {"trojan", "hysteria2", "anytls", "shadowtls", "tuic", "shadowsocks", "ss"} ==> o.password != "")
        && (p in {"shadowsocks", "ss"} ==> SupportedSSMethod(o.cipher))
        && (p in {"shadowsocks", "ss"} && o.transport == "shadowtls" ==> o.obfsPassword != "")
  {
    hide SupportedSSMethod;
    match o.protocol
    case _ =>
  }

  /* ----- validation of a configuration ----- */

  predicate Distinct<T>(items: seq<T>, key: T -> string) {
    forall i, j :: 0 <= i < j < |items| ==> key(items[i]) != key(items[j])
  }

  predicate Names<T>(items: seq<T>, key: T -> string, name: string) {
    exists i :: 0 <= i < |items| && key(items[i]) == name
  }

  predicate NodesOk(inbounds: seq<Inbound>, outbounds: seq<Outbound>) {
    && (forall i :: 0 <= i < |inbounds| ==> inbounds[i].name != "" && ValidPort(inbounds[i].port) && InboundOk(inbounds[i]))
    && (forall i :: 0 <= i < |outbounds| ==> outbounds[i].name != "" && ValidPort(outbounds[i].port) && OutboundOk(outbounds[i]))
    && Distinct(inbounds, InboundName)
    && Distinct(outbounds, OutboundName)
  }

  // "direct" is always available; any other outbound has to be configured.
  predicate Reachable(outbounds: seq<Outbound>, name: string) {
    name == "direct" || Names(outbounds, OutboundName, name)
  }

  predicate RuleOk(rule: Rule, inbounds: seq<Inbound>, outbounds: seq<Outbound>) {
    && SupportedMatchType(RuleMatchType(rule))
    && (if RuleMatchType(rule).InboundMatch? then Names(inbounds, InboundName, RuleValue(rule)) else RuleValue(rule) != "")
    && rule.outbound != ""
    && Reachable(outbounds, rule.outbound)
  }

  predicate DistinctRuleNames(rules: seq<Rule>) {
    forall i, j :: 0 <= i < j < |rules| && rules[i].name != "" ==> rules[i].name != rules[j].name
  }

  predicate RoutingOk(routing: RoutingConfig, inbounds: seq<Inbound>, outbounds: seq<Outbound>) {
    && RoutingMode(routing.mode) != NoMode
    && (routing.defaultOutbound != "" ==> Reachable(outbounds, routing.defaultOutbound))
    && (RoutingMode(routing.mode) == RuleMode ==>
          && DistinctRuleNames(routing.rules)
          && forall i :: 0 <= i < |routing.rules| && !routing.rules[i].disabled ==> RuleOk(routing.rules[i], inbounds, outbounds))
  }

  /** What a valid configuration is, independently of the order in which the checks are made. */
  predicate ConfigOk(c: Config) {
    && ValidPort(c.webPort)
    && NodesOk(c.inbounds, c.outbounds)
    && RoutingOk(c.routing, c.inbounds, c.outbounds)
  }

  datatype ConfigError =
    | BadWebPort
    | BadInbound(index: nat)
    | BadOutbound(index: nat)
    | BadMode
    | MissingDefault
    | BadRule(index: nat)

  /** `Config.Validate`: one pass over each list, collecting the names seen. */
  method Validate(c: Config) returns (err: Option<ConfigError>)
    ensures err.None? <==> ConfigOk(c)
  {
    if !ValidPort(c.webPort) {
      return Some(BadWebPort);
    }
    var seenInbound, inboundError := ValidateInbounds(c.inbounds);
    if inboundError.Some? {
      return inboundError;
    }
    var seenOutbound, outboundError := ValidateOutbounds(c.outbounds);
    if outboundError.Some? {
      return outboundError;
    }
    if RoutingMode(c.routing.mode) == NoMode {
      return Some(BadMode);
    }
    var target := c.routing.defaultOutbound;
    if target != "" && target != "direct" && target !in seenOutbound {
      return Some(MissingDefault);
    }
    if RoutingMode(c.routing.mode) == RuleMode {
      err := ValidateRules(c.routing.rules, c.inbounds, c.outbounds, seenInbound, seenOutbound);
    } else {
      err := None;
    }
  }

  method ValidateInbounds(items: seq<Inbound>) returns (seen: set<string>, err: Option<ConfigError>)
    ensures err.None? <==>
      && (forall i :: 0 <= i < |items| ==> items[i].name != "" && ValidPort(items[i].port) && InboundOk(items[i]))
      && Distinct(items, InboundName)
    ensures err.None? ==> forall name :: name in seen <==> Names(items, InboundName, name)
    ensures err.Some? ==> err.value.BadInbound?
  {
    hide InboundOk;
    seen, err := {}, None;
    for i := 0 to |items|
      invariant forall j :: 0 <= j < i ==> items[j].name != "" && ValidPort(items[j].port) && InboundOk(items[j])
      invariant Distinct(items[..i], InboundName)
      invariant forall name :: name in seen <==> Names(items[..i], InboundName, name)
    {
      var item := items[i];
      if item.name in seen {
        var j :| 0 <= j < |items[..i]| && InboundName(items[..i][j]) == item.name;
        assert InboundName(items[j]) == InboundName(items[i]);
        return seen, Some(BadInbound(i));
      }
      if item.name == "" || !ValidPort(item.port) || !InboundOk(item) {
        return seen, Some(BadInbound(i));
      }
      NamesStep(items, InboundName, i);
      seen := seen + {item.name};
    }
    assert items[..|items|] == items;
  }

  method ValidateOutbounds(items: seq<Outbound>) returns (seen: set<string>, err: Option<ConfigError>)
    ensures err.None? <==>
      && (forall i :: 0 <= i < |items| ==> items[i].name != "" && ValidPort(items[i].port) && OutboundOk(items[i]))
      && Distinct(items, OutboundName)
    ensures err.None? ==> forall name :: name in seen <==> Names(items, OutboundName, name)
    ensures err.Some? ==> err.value.BadOutbound?
  {
    hide OutboundOk;
    seen, err := {}, None;
    for i := 0 to |items|
      invariant forall j :: 0 <= j < i ==> items[j].name != "" && ValidPort(items[j].port) && OutboundOk(items[j])
      invariant Distinct(items[..i], OutboundName)
      invariant forall name :: name in seen <==> Names(items[..i], OutboundName, name)
    {
      var item := items[i];
      if item.name in seen {
        var j :| 0 <= j < |items[..i]| && OutboundName(items[..i][j]) == item.name;
        assert OutboundName(items[j]) == OutboundName(items[i]);
        return seen, Some(BadOutbound(i));
      }
      if item.name == "" || !ValidPort(item.port) || !OutboundOk(item) {
        return seen, Some(BadOutbound(i));
      }
      NamesStep(items, OutboundName, i);
      seen := seen + {item.name};
    }
    assert items[..|items|] == items;
  }

  lemma NamesStep<T>(items: seq<T>, key: T -> string, i: nat)
    requires i < |items|
    ensures forall name :: Names(items[..i + 1], key, name) <==> Names(items[..i], key, name) || name == key(items[i])
    ensures Distinct(items[..i], key) && !Names(items[..i], key, key(items[i])) ==> Distinct(items[..i + 1], key)
  {
    var before, now := items[..i], items[..i + 1];
    assert now == before + [items[i]];
    forall name
      ensures Names(now, key, name) <==> Names(before, key, name) || name == key(items[i])
    {
      if Names(before, key, name) {
        var j :| 0 <= j < |before| && key(before[j]) == name;
        assert key(now[j]) == name;
      }
      assert key(now[i]) == key(items[i]);
      if Names(now, key, name) {
        var j :| 0 <= j < |now| && key(now[j]) == name;
        assert j < i ==> key(before[j]) == name;
      }
    }
  }

  method ValidateRules(rules: seq<Rule>, inbounds: seq<Inbound>, outbounds: seq<Outbound>,
                       seenInbound: set<string>, seenOutbound: set<string>)
    returns (err: Option<ConfigError>)
    requires forall name :: name in seenInbound <==> Names(inbounds, InboundName, name)
    requires forall name :: name in seenOutbound <==> Names(outbounds, OutboundName, name)
    ensures err.None? <==>
      && DistinctRuleNames(rules)
      && forall i :: 0 <= i < |rules| && !rules[i].disabled ==> RuleOk(rules[i], inbounds, outbounds)
  {
    var seen: set<string> := {};
    for i := 0 to |rules|
      invariant DistinctRuleNames(rules[..i])
      invariant forall name :: name in seen <==> exists j :: 0 <= j < i && rules[j].name == name && name != ""
      invariant forall j :: 0 <= j < i && !rules[j].disabled ==> RuleOk(rules[j], inbounds, outbounds)
    {
      var rule := rules[i];
      if rule.name != "" {
        if rule.name in seen {
          return Some(BadRule(i));
        }
        seen := seen + {rule.name};
      }
      if rule.disabled {
        continue;
      }
      var matchType := RuleMatchType(rule);
      if !SupportedMatchType(matchType) {
        return Some(BadRule(i));
      }
      if matchType.InboundMatch? {
        if RuleValue(rule) !in seenInbound {
          return Some(BadRule(i));
        }
      } else if RuleValue(rule) == "" {
        return Some(BadRule(i));
      }
      if rule.outbound == "" || (rule.outbound != "direct" && rule.outbound !in seenOutbound) {
        return Some(BadRule(i));
      }
    }
    assert rules[..|rules|] == rules;
    err := None;
  }
}
