/**
 The query of a share link: which entries are printed for a node, and what a parser takes from a query.
 */
module LinkQuery {
  import opened Text
  import opened Config
  import opened Base64
  import opened Url

  function First3(a: string, b: string, c: string): string {
    FirstNonEmpty(a, FirstNonEmpty(b, c))
  }

  function AtoiOr(text: string, fallback: int): int {
    var n := Atoi(text);
    if n.Some? then n.value else fallback
  }

  function XtlsFlow(value: string): string {
    var v := ToLower(TrimSpace(value));
    if v == "2" || v == "vision" || v == "xtls-rprx-vision" then "xtls-rprx-vision"
    else if v == "1" || v == "direct" || v == "xtls-rprx-direct" then "xtls-rprx-direct"
    else TrimSpace(value)
  }

  function TransportOf(query: Values): string {
    var obfs := Get(query, "obfs");
    if obfs == "websocket" then "ws" else if obfs == "h2" then "http" else if obfs == "grpc" then "grpc" else Get(query, "type")
  }

  // The fields that are taken from the query alone.
  function FromQuery(raw: string, query: Values): Outbound {
    var serverName := FirstNonEmpty(First3(Get(query, "peer"), Get(query, "sni"), Get(query, "servername")), Get(query, "host"));
    var publicKey := First3(Get(query, "pbk"), Get(query, "public-key"), Get(query, "public_key"));
    var security := Get(query, "security");
    var reality := EqualFold(security, "reality") || publicKey != "";
    Outbound("", Direct, "", 0, false, "", "", "", "",
             FirstNonEmpty(Get(query, "flow"), XtlsFlow(Get(query, "xtls"))),
             if reality then "reality" else "",
             "",
             Get(query, "tls") == "1" || EqualFold(security, "tls") || reality || serverName != "",
             serverName,
             Get(query, "allowInsecure") == "1" || Get(query, "allow_insecure") == "1" || Get(query, "insecure") == "1",
             TransportOf(query),
             First3(Get(query, "path"), Get(query, "serviceName"), Get(query, "service_name")),
             FirstNonEmpty(Get(query, "obfsParam"), Get(query, "host")),
             publicKey,
             First3(Get(query, "sid"), Get(query, "short-id"), Get(query, "short_id")),
             FirstNonEmpty(Get(query, "fp"), Get(query, "fingerprint")),
             Get(query, "alpn"),
             Get(query, "obfs"),
             FirstNonEmpty(Get(query, "obfs-password"), Get(query, "obfs_password")),
             Get(query, "mport"),
             AtoiOr(FirstNonEmpty(Get(query, "upmbps"), Get(query, "up")), 0),
             AtoiOr(FirstNonEmpty(Get(query, "downmbps"), Get(query, "down")), 0),
             Get(query, "congestion_control"), Get(query, "udp_relay_mode"),
             "", Get(query, "group"), raw)
  }

  lemma FirstOfTwo(a: string, b: string)
    ensures FirstNonEmpty(a, b) == if a != "" then a else b
  {}

  function Add(values: Values, key: string, value: string): Values {
    if value == "" then values else Set(values, key, value)
  }

  function AddTransport(values: Values, transport: string, path: string, host: string): Values {
    var v := if transport != "" && transport != "tcp" then Set(values, "type", transport) else values;
    Add(Add(v, "path", path), "host", host)
  }

  function VlessQuery(o: Outbound): Values {
    var v := Set([], "encryption", "none");
    var w :=
      if o.security == "reality" then
        Add(Add(Add(Add(Set(v, "security", "reality"), "sni", o.serverName), "pbk", o.publicKey), "sid", o.shortID), "fp", o.fingerprint)
      else if o.tls || o.serverName != "" then Add(Set(v, "security", "tls"), "sni", o.serverName)
      else Set(v, "security", "none");
    AddTransport(Add(w, "flow", o.flow), o.transport, o.path, o.host)
  }

  function TrojanQuery(o: Outbound): Values {
    var v := if o.tls || o.serverName != "" then Add(Set([], "security", "tls"), "sni", o.serverName) else [];
    AddTransport(v, o.transport, o.path, o.host)
  }

  function AnytlsQuery(o: Outbound): Values {
    Add([], "peer", o.serverName)
  }

  function Hysteria2Query(o: Outbound): Values {
    var v := Add(Add(Add(Add([], "peer", o.serverName), "obfs", o.obfs), "obfs-password", o.obfsPassword), "mport", o.mport);
    var w := if o.upMbps > 0 then Set(v, "upmbps", Itoa(o.upMbps)) else v;
    if o.downMbps > 0 then Set(w, "downmbps", Itoa(o.downMbps)) else w
  }

  function TuicQuery(o: Outbound): Values {
    Add(Add(Add(Add([], "peer", o.serverName), "congestion_control", o.congestion), "udp_relay_mode", o.udpRelayMode), "alpn", o.alpn)
  }

  function Query(o: Outbound): Values {
    match o.protocol
    case Vless => VlessQuery(o)
    case Trojan => TrojanQuery(o)
    case Anytls => AnytlsQuery(o)
    case Hysteria2 => Hysteria2Query(o)
    case Tuic => TuicQuery(o)
    case _ => []
  }

  ghost predicate BytesOutbound(o: Outbound) {
    && IsBytes(o.name) && IsBytes(o.uuid) && IsBytes(o.password) && IsBytes(o.cipher)
    && IsBytes(o.serverName) && IsBytes(o.publicKey) && IsBytes(o.shortID) && IsBytes(o.fingerprint)
    && IsBytes(o.flow) && IsBytes(o.transport) && IsBytes(o.path) && IsBytes(o.host) && IsBytes(o.alpn)
    && IsBytes(o.obfs) && IsBytes(o.obfsPassword) && IsBytes(o.mport) && IsBytes(o.congestion) && IsBytes(o.udpRelayMode)
  }

  lemma GetAdd(values: Values, key: string, value: string, other: string)
    ensures Get(Add(values, key, value), other) == if other == key && value != "" then value else Get(values, other)
  {
    GetSet(values, key, value, other);
  }

  lemma AddBytes(values: Values, key: string, value: string)
    requires BytesValues(values) && IsBytes(key) && IsBytes(value)
    ensures BytesValues(Add(values, key, value)) && BytesValues(Set(values, key, value))
  {
    SetBytes(values, key, value);
  }

  lemma DecimalBytes(n: nat)
    ensures IsBytes(Decimal(n))
  {
    DecimalValue(n);
  }

  lemma TransportQuery(v: Values, transport: string, path: string, host: string)
    requires BytesValues(v) && IsBytes(transport) && IsBytes(path) && IsBytes(host)
    ensures BytesValues(AddTransport(v, transport, path, host))
    ensures forall key :: key != "type" && key != "path" && key != "host" ==> Get(AddTransport(v, transport, path, host), key) == Get(v, key)
  {
    hide Set, Get, Add, BytesValues;
    var w := if transport != "" && transport != "tcp" then Set(v, "type", transport) else v;
    AddBytes(v, "type", transport);
    AddBytes(w, "path", path);
    AddBytes(Add(w, "path", path), "host", host);
    forall key | key != "type" && key != "path" && key != "host"
      ensures Get(AddTransport(v, transport, path, host), key) == Get(v, key)
    {
      GetSet(v, "type", transport, key);
      GetAdd(w, "path", path, key);
      GetAdd(Add(w, "path", path), "host", host, key);
    }
  }

  // The query of a printed link has no name in it, and is made of bytes.
  ghost predicate Nameless(v: Values) {
    BytesValues(v) && Get(v, "remarks") == "" && Get(v, "name") == ""
  }

  lemma AddNameless(v: Values, key: string, value: string)
    requires Nameless(v) && key != "remarks" && key != "name" && IsBytes(key) && IsBytes(value)
    ensures Nameless(Add(v, key, value)) && Nameless(Set(v, key, value))
  {
    hide Set, Get, Add, BytesValues, IsBytes;
    AddBytes(v, key, value);
    GetAdd(v, key, value, "remarks");
    GetAdd(v, key, value, "name");
    GetSet(v, key, value, "remarks");
    GetSet(v, key, value, "name");
  }

  lemma TransportNameless(v: Values, transport: string, path: string, host: string)
    requires Nameless(v) && IsBytes(transport) && IsBytes(path) && IsBytes(host)
    ensures Nameless(AddTransport(v, transport, path, host))
  {
    hide AddTransport;
    TransportQuery(v, transport, path, host);
  }

  lemma VlessNameless(o: Outbound)
    requires BytesOutbound(o)
    ensures Nameless(VlessQuery(o))
  {
    hide Nameless, AddTransport, Set, Add;
    assert Nameless([]) by { EmptyNameless(); }
    var v := Set([], "encryption", "none");
    AddNameless([], "encryption", "none");
    AddNameless(v, "security", "reality");
    AddNameless(v, "security", "tls");
    AddNameless(v, "security", "none");
    var r, t := Set(v, "security", "reality"), Set(v, "security", "tls");
    AddNameless(t, "sni", o.serverName);
    AddNameless(r, "sni", o.serverName);
    AddNameless(Add(r, "sni", o.serverName), "pbk", o.publicKey);
    AddNameless(Add(Add(r, "sni", o.serverName), "pbk", o.publicKey), "sid", o.shortID);
    AddNameless(Add(Add(Add(r, "sni", o.serverName), "pbk", o.publicKey), "sid", o.shortID), "fp", o.fingerprint);
    var w :=
      if o.security == "reality" then
        Add(Add(Add(Add(Set(v, "security", "reality"), "sni", o.serverName), "pbk", o.publicKey), "sid", o.shortID), "fp", o.fingerprint)
      else if o.tls || o.serverName != "" then Add(Set(v, "security", "tls"), "sni", o.serverName)
      else Set(v, "security", "none");
    AddNameless(w, "flow", o.flow);
    TransportNameless(Add(w, "flow", o.flow), o.transport, o.path, o.host);
  }

  lemma EmptyNameless()
    ensures Nameless([])
  {}

  lemma OthersNameless(o: Outbound)
    requires BytesOutbound(o)
    ensures Nameless(TrojanQuery(o)) && Nameless(AnytlsQuery(o)) && Nameless(TuicQuery(o))
  {
    hide Nameless, AddTransport, Set, Add;
    EmptyNameless();
    AddNameless([], "security", "tls");
    AddNameless(Set([], "security", "tls"), "sni", o.serverName);
    TransportNameless(Add(Set([], "security", "tls"), "sni", o.serverName), o.transport, o.path, o.host);
    TransportNameless([], o.transport, o.path, o.host);
    AddNameless([], "peer", o.serverName);
    var v := Add([], "peer", o.serverName);
    AddNameless(v, "congestion_control", o.congestion);
    AddNameless(Add(v, "congestion_control", o.congestion), "udp_relay_mode", o.udpRelayMode);
    AddNameless(Add(Add(v, "congestion_control", o.congestion), "udp_relay_mode", o.udpRelayMode), "alpn", o.alpn);
  }

  lemma Hysteria2Nameless(o: Outbound)
    requires BytesOutbound(o)
    ensures Nameless(Hysteria2Query(o))
  {
    hide Nameless, Set, Add;
    EmptyNameless();
    AddNameless([], "peer", o.serverName);
    var v := Add([], "peer", o.serverName);
    AddNameless(v, "obfs", o.obfs);
    AddNameless(Add(v, "obfs", o.obfs), "obfs-password", o.obfsPassword);
    var w := Add(Add(v, "obfs", o.obfs), "obfs-password", o.obfsPassword);
    AddNameless(w, "mport", o.mport);
    var x := Add(w, "mport", o.mport);
    if o.upMbps > 0 {
      DecimalBytes(o.upMbps);
      AddNameless(x, "upmbps", Itoa(o.upMbps));
    }
    if o.downMbps > 0 {
      DecimalBytes(o.downMbps);
      AddNameless(if o.upMbps > 0 then Set(x, "upmbps", Itoa(o.upMbps)) else x, "downmbps", Itoa(o.downMbps));
    }
  }

  lemma QueryNameless(o: Outbound)
    requires BytesOutbound(o)
    ensures Nameless(Query(o))
  {
    hide Nameless, VlessQuery, TrojanQuery, AnytlsQuery, Hysteria2Query, TuicQuery, BytesOutbound;
    EmptyNameless();
    VlessNameless(o);
    OthersNameless(o);
    Hysteria2Nameless(o);
  }

  /** What a reality link says in its query. */
  lemma RealityQuery(o: Outbound)
    requires o.security == "reality"
    ensures var q := VlessQuery(o);
      && Get(q, "security") == "reality"
      && Get(q, "peer") == "" && Get(q, "sni") == o.serverName
      && Get(q, "pbk") == o.publicKey && Get(q, "public-key") == "" && Get(q, "public_key") == ""
      && Get(q, "sid") == o.shortID && Get(q, "short-id") == "" && Get(q, "short_id") == ""
      && Get(q, "fp") == o.fingerprint && Get(q, "fingerprint") == ""
  {
    hide VlessQuery, Get;
    GetVless(o, "security");
    GetVless(o, "peer");
    GetVless(o, "sni");
    GetVless(o, "pbk");
    GetVless(o, "public-key");
    GetVless(o, "public_key");
    GetVless(o, "sid");
    GetVless(o, "short-id");
    GetVless(o, "short_id");
    GetVless(o, "fp");
    GetVless(o, "fingerprint");
  }

  lemma GetNothing(key: string)
    ensures Get([], key) == ""
  {}

  lemma SSQuery(o: Outbound)
    requires o.protocol.Shadowsocks? || o.protocol.Ss?
    ensures Query(o) == []
  {}

  lemma NothingToTrim()
    ensures TrimSpace("") == ""
  {}

  /* ----- what a parser takes from a printed query ----- */

  function SecurityPrinted(o: Outbound): string {
    match o.protocol
    case Vless => if o.security == "reality" then "reality" else if o.tls || o.serverName != "" then "tls" else "none"
    case Trojan => if o.tls || o.serverName != "" then "tls" else ""
    case _ => ""
  }

  // The entry of a printed query under a key, "" when there is none.
  function QueryValue(o: Outbound, key: string): string {
    match o.protocol
    case Vless => VlessValue(o, key)
    case Trojan => TrojanValue(o, key)
    case Anytls => if key == "peer" then o.serverName else ""
    case Hysteria2 =>
      if key == "peer" then o.serverName
      else if key == "obfs" then o.obfs
      else if key == "obfs-password" then o.obfsPassword
      else if key == "mport" then o.mport
      else if key == "upmbps" && o.upMbps > 0 then Itoa(o.upMbps)
      else if key == "downmbps" && o.downMbps > 0 then Itoa(o.downMbps)
      else ""
    case Tuic =>
      if key == "peer" then o.serverName
      else if key == "congestion_control" then o.congestion
      else if key == "udp_relay_mode" then o.udpRelayMode
      else if key == "alpn" then o.alpn
      else ""
    case _ => ""
  }

  function TransportValue(o: Outbound, key: string): string {
    if key == "type" then (if o.transport == "tcp" then "" else o.transport)
    else if key == "path" then o.path
    else if key == "host" then o.host
    else ""
  }

  function VlessValue(o: Outbound, key: string): string {
    if key == "encryption" then "none"
    else if key == "security" then (if o.security == "reality" then "reality" else if o.tls || o.serverName != "" then "tls" else "none")
    else if key == "sni" then o.serverName
    else if key == "pbk" then (if o.security == "reality" then o.publicKey else "")
    else if key == "sid" then (if o.security == "reality" then o.shortID else "")
    else if key == "fp" then (if o.security == "reality" then o.fingerprint else "")
    else if key == "flow" then o.flow
    else TransportValue(o, key)
  }

  function TrojanValue(o: Outbound, key: string): string {
    if key == "security" then (if o.tls || o.serverName != "" then "tls" else "")
    else if key == "sni" then o.serverName
    else TransportValue(o, key)
  }

  lemma GetTransport(v: Values, o: Outbound, key: string)
    ensures Get(AddTransport(v, o.transport, o.path, o.host), key) ==
            if key in {"type", "path", "host"} && TransportValue(o, key) != "" then TransportValue(o, key) else Get(v, key)
  {
    hide Set, Get, Add;
    var w := if o.transport != "" && o.transport != "tcp" then Set(v, "type", o.transport) else v;
    GetSet(v, "type", o.transport, key);
    GetAdd(w, "path", o.path, key);
    GetAdd(Add(w, "path", o.path), "host", o.host, key);
  }

  lemma GetVless(o: Outbound, key: string)
    ensures Get(VlessQuery(o), key) == VlessValue(o, key)
  {
    hide AddTransport, Set, Add, Get;
    GetNothing(key);
    var v := Set([], "encryption", "none");
    GetSet([], "encryption", "none", key);
    GetSet(v, "security", "reality", key);
    GetSet(v, "security", "tls", key);
    GetSet(v, "security", "none", key);
    GetAdd(Set(v, "security", "tls"), "sni", o.serverName, key);
    var a := Set(v, "security", "reality");
    var b := Add(a, "sni", o.serverName);
    var c := Add(b, "pbk", o.publicKey);
    var e := Add(c, "sid", o.shortID);
    GetAdd(a, "sni", o.serverName, key);
    GetAdd(b, "pbk", o.publicKey, key);
    GetAdd(c, "sid", o.shortID, key);
    GetAdd(e, "fp", o.fingerprint, key);
    var w :=
      if o.security == "reality" then Add(e, "fp", o.fingerprint)
      else if o.tls || o.serverName != "" then Add(Set(v, "security", "tls"), "sni", o.serverName)
      else Set(v, "security", "none");
    GetAdd(w, "flow", o.flow, key);
    GetTransport(Add(w, "flow", o.flow), o, key);
  }

  lemma GetTrojan(o: Outbound, key: string)
    ensures Get(TrojanQuery(o), key) == TrojanValue(o, key)
  {
    hide AddTransport, Set, Add, Get;
    GetNothing(key);
    GetSet([], "security", "tls", key);
    GetAdd(Set([], "security", "tls"), "sni", o.serverName, key);
    GetTransport(if o.tls || o.serverName != "" then Add(Set([], "security", "tls"), "sni", o.serverName) else [], o, key);
  }

  lemma GetHysteria2(o: Outbound, key: string)
    ensures Get(Hysteria2Query(o), key) == QueryValue(o.(protocol := Hysteria2), key)
  {
    hide Set, Add, Get, Itoa;
    GetNothing(key);
    var a := Add([], "peer", o.serverName);
    var b := Add(a, "obfs", o.obfs);
    var c := Add(b, "obfs-password", o.obfsPassword);
    var e := Add(c, "mport", o.mport);
    GetAdd([], "peer", o.serverName, key);
    GetAdd(a, "obfs", o.obfs, key);
    GetAdd(b, "obfs-password", o.obfsPassword, key);
    GetAdd(c, "mport", o.mport, key);
    GetSet(e, "upmbps", Itoa(o.upMbps), key);
    GetSet(if o.upMbps > 0 then Set(e, "upmbps", Itoa(o.upMbps)) else e, "downmbps", Itoa(o.downMbps), key);
  }

  lemma GetTuic(o: Outbound, key: string)
    ensures Get(TuicQuery(o), key) == QueryValue(o.(protocol := Tuic), key)
  {
    hide Set, Add, Get;
    GetNothing(key);
    var a := Add([], "peer", o.serverName);
    var b := Add(a, "congestion_control", o.congestion);
    var c := Add(b, "udp_relay_mode", o.udpRelayMode);
    GetAdd([], "peer", o.serverName, key);
    GetAdd(a, "congestion_control", o.congestion, key);
    GetAdd(b, "udp_relay_mode", o.udpRelayMode, key);
    GetAdd(c, "alpn", o.alpn, key);
  }

  /** A printed query has exactly these entries, under their own keys. */
  lemma GetQuery(o: Outbound, key: string)
    ensures Get(Query(o), key) == QueryValue(o, key)
  {
    hide VlessQuery, TrojanQuery, Hysteria2Query, TuicQuery, VlessValue, TrojanValue, Get;
    GetNothing(key);
    match o.protocol {
      case Vless => GetVless(o, key);
      case Trojan => GetTrojan(o, key);
      case Anytls => GetAdd([], "peer", o.serverName, key);
      case Hysteria2 => GetHysteria2(o, key);
      case Tuic => GetTuic(o, key);
      case _ =>
    }
  }

  lemma ServerNameEntries(o: Outbound)
    ensures var q := Query(o);
      && Get(q, "peer") == (if (o.protocol.Anytls? || o.protocol.Hysteria2? || o.protocol.Tuic?) then o.serverName else "")
      && Get(q, "sni") == (if (o.protocol.Vless? || o.protocol.Trojan?) then o.serverName else "")
      && Get(q, "servername") == ""
      && Get(q, "host") == (if (o.protocol.Vless? || o.protocol.Trojan?) then o.host else "")
  {
    hide Get, Query, Itoa;
    GetQuery(o, "peer");
    GetQuery(o, "sni");
    GetQuery(o, "servername");
    GetQuery(o, "host");
  }

  lemma KeyEntries(o: Outbound)
    ensures var q := Query(o);
      && Get(q, "pbk") == (if (o.protocol.Vless? && o.security == "reality") then o.publicKey else "")
      && Get(q, "public-key") == ""
      && Get(q, "public_key") == ""
      && Get(q, "sid") == (if (o.protocol.Vless? && o.security == "reality") then o.shortID else "")
      && Get(q, "short-id") == ""
      && Get(q, "short_id") == ""
  {
    hide Get, Query, Itoa;
    GetQuery(o, "pbk");
    GetQuery(o, "public-key");
    GetQuery(o, "public_key");
    GetQuery(o, "sid");
    GetQuery(o, "short-id");
    GetQuery(o, "short_id");
  }

  lemma SecurityEntries(o: Outbound)
    ensures var q := Query(o);
      && Get(q, "fp") == (if (o.protocol.Vless? && o.security == "reality") then o.fingerprint else "")
      && Get(q, "fingerprint") == ""
      && Get(q, "tls") == ""
      && Get(q, "xtls") == ""
      && Get(q, "flow") == (if o.protocol.Vless? then o.flow else "")
      && Get(q, "security") == SecurityPrinted(o)
  {
    hide Get, Query, Itoa;
    GetQuery(o, "fp");
    GetQuery(o, "fingerprint");
    GetQuery(o, "tls");
    GetQuery(o, "xtls");
    GetQuery(o, "flow");
    GetQuery(o, "security");
  }

  lemma InsecureEntries(o: Outbound)
    ensures var q := Query(o);
      && Get(q, "allowInsecure") == ""
      && Get(q, "allow_insecure") == ""
      && Get(q, "insecure") == ""
      && Get(q, "group") == ""
      && Get(q, "alpn") == (if o.protocol.Tuic? then o.alpn else "")
  {
    hide Get, Query, Itoa;
    GetQuery(o, "allowInsecure");
    GetQuery(o, "allow_insecure");
    GetQuery(o, "insecure");
    GetQuery(o, "group");
    GetQuery(o, "alpn");
  }

  lemma TransportEntries(o: Outbound)
    ensures var q := Query(o);
      && Get(q, "type") == (if (o.protocol.Vless? || o.protocol.Trojan?) && o.transport != "tcp" then o.transport else "")
      && Get(q, "path") == (if (o.protocol.Vless? || o.protocol.Trojan?) then o.path else "")
      && Get(q, "serviceName") == ""
      && Get(q, "service_name") == ""
      && Get(q, "obfsParam") == ""
  {
    hide Get, Query, Itoa;
    GetQuery(o, "type");
    GetQuery(o, "path");
    GetQuery(o, "serviceName");
    GetQuery(o, "service_name");
    GetQuery(o, "obfsParam");
  }

  lemma ObfsEntries(o: Outbound)
    ensures var q := Query(o);
      && Get(q, "obfs") == (if o.protocol.Hysteria2? then o.obfs else "")
      && Get(q, "obfs-password") == (if o.protocol.Hysteria2? then o.obfsPassword else "")
      && Get(q, "obfs_password") == ""
      && Get(q, "mport") == (if o.protocol.Hysteria2? then o.mport else "")
      && Get(q, "congestion_control") == (if o.protocol.Tuic? then o.congestion else "")
      && Get(q, "udp_relay_mode") == (if o.protocol.Tuic? then o.udpRelayMode else "")
  {
    hide Get, Query, Itoa;
    GetQuery(o, "obfs");
    GetQuery(o, "obfs-password");
    GetQuery(o, "obfs_password");
    GetQuery(o, "mport");
    GetQuery(o, "congestion_control");
    GetQuery(o, "udp_relay_mode");
  }

  lemma RateEntries(o: Outbound)
    ensures var q := Query(o);
      && Get(q, "upmbps") == (if o.protocol.Hysteria2? && o.upMbps > 0 then Itoa(o.upMbps) else "")
      && Get(q, "up") == ""
      && Get(q, "downmbps") == (if o.protocol.Hysteria2? && o.downMbps > 0 then Itoa(o.downMbps) else "")
      && Get(q, "down") == ""
  {
    hide Get, Query, Itoa;
    GetQuery(o, "upmbps");
    GetQuery(o, "up");
    GetQuery(o, "downmbps");
    GetQuery(o, "down");
  }

  /* ----- the fields that come back ----- */

  // The server name a parser ends up with: it takes the transport's host where there is none.
  function ServerNameRead(o: Outbound): string {
    match o.protocol
    case Vless | Trojan => FirstNonEmpty(o.serverName, o.host)
    case Anytls | Hysteria2 | Tuic => o.serverName
    case _ => ""
  }

  function TransportRead(o: Outbound): string {
    match o.protocol
    case Vless | Trojan => if o.transport == "tcp" then "" else o.transport
    case Hysteria2 => if o.obfs == "websocket" then "ws" else if o.obfs == "h2" then "http" else if o.obfs == "grpc" then "grpc" else ""
    case _ => ""
  }

  function Rate(n: int): int { if n > 0 then n else 0 }

  /** What a parser takes from the printed query of a node, field by field; everything else is as in an empty node. */
  function QueryFields(raw: string, o: Outbound): Outbound {
    var reality := o.protocol.Vless? && o.security == "reality";
    var web := o.protocol.Vless? || o.protocol.Trojan?;
    Outbound("", Direct, "", 0, false, "", "", "", "",
             if o.protocol.Vless? then o.flow else "",
             if reality then "reality" else "",
             "",
             SecurityPrinted(o) == "reality" || SecurityPrinted(o) == "tls" || ServerNameRead(o) != "",
             ServerNameRead(o),
             false,
             TransportRead(o),
             if web then o.path else "",
             if web then o.host else "",
             if reality then o.publicKey else "",
             if reality then o.shortID else "",
             if reality then o.fingerprint else "",
             if o.protocol.Tuic? then o.alpn else "",
             if o.protocol.Hysteria2? then o.obfs else "",
             if o.protocol.Hysteria2? then o.obfsPassword else "",
             if o.protocol.Hysteria2? then o.mport else "",
             if o.protocol.Hysteria2? then Rate(o.upMbps) else 0,
             if o.protocol.Hysteria2? then Rate(o.downMbps) else 0,
             if o.protocol.Tuic? then o.congestion else "",
             if o.protocol.Tuic? then o.udpRelayMode else "",
             "", "", raw)
  }

  lemma RateRead(n: int)
    requires n <= MAX_INT
    ensures AtoiOr(FirstNonEmpty(if n > 0 then Itoa(n) else "", ""), 0) == Rate(n)
  {
    if n > 0 {
      AtoiDecimal(n);
    }
  }

  lemma NoRate()
    ensures AtoiOr(FirstNonEmpty("", ""), 0) == 0
  {}

  lemma NoFlow()
    ensures XtlsFlow("") == ""
  {
    NothingToTrim();
  }

  lemma SecurityFolds(o: Outbound)
    ensures var s := SecurityPrinted(o);
      (EqualFold(s, "reality") <==> s == "reality") && (EqualFold(s, "tls") <==> s == "tls")
    ensures SecurityPrinted(o) == "reality" <==> o.protocol.Vless? && o.security == "reality"
  {
    FoldsApart();
  }

  lemma FoldsApart()
    ensures EqualFold("reality", "reality") && !EqualFold("tls", "reality") && !EqualFold("none", "reality") && !EqualFold("", "reality")
    ensures EqualFold("tls", "tls") && !EqualFold("reality", "tls") && !EqualFold("none", "tls") && !EqualFold("", "tls")
  {
    assert ToLower("none")[0] == 'n' && ToLower("tls")[0] == 't';
    assert |ToLower("none")| == 4 && |ToLower("tls")| == 3 && |ToLower("reality")| == 7;
  }

  /** Reading a printed query gives exactly these fields. */
  lemma QueryRoundTrip(raw: string, o: Outbound)
    requires o.upMbps <= MAX_INT && o.downMbps <= MAX_INT
    ensures FromQuery(raw, Query(o)) == QueryFields(raw, o)
  {
    hide Get, Query, XtlsFlow, AtoiOr, EqualFold, SecurityPrinted, Itoa;
    ServerNameEntries(o);
    KeyEntries(o);
    SecurityEntries(o);
    InsecureEntries(o);
    TransportEntries(o);
    ObfsEntries(o);
    RateEntries(o);
    RateRead(o.upMbps);
    RateRead(o.downMbps);
    NoRate();
    NoFlow();
    SecurityFolds(o);
  }

  /* ----- other spellings ----- */

  lemma GetOne(k: string, v: string, key: string)
    ensures Get([(k, v)], key) == if key == k then v else ""
  {}

  /** A server name is read under any of four keys, a key of reality and a path under three. */
  lemma NameAliases(raw: string, k: string, v: string)
    ensures k in {"peer", "sni", "servername", "host"} ==> FromQuery(raw, [(k, v)]).serverName == v
    ensures k in {"pbk", "public-key", "public_key"} ==> FromQuery(raw, [(k, v)]).publicKey == v
    ensures k in {"path", "serviceName", "service_name"} ==> FromQuery(raw, [(k, v)]).path == v
  {
    hide Get, XtlsFlow, AtoiOr, EqualFold, TransportOf;
    GetOne(k, v, "peer");
    GetOne(k, v, "sni");
    GetOne(k, v, "servername");
    GetOne(k, v, "host");
    GetOne(k, v, "pbk");
    GetOne(k, v, "public-key");
    GetOne(k, v, "public_key");
    GetOne(k, v, "path");
    GetOne(k, v, "serviceName");
    GetOne(k, v, "service_name");
  }

  /** A short id is read under three keys, a fingerprint, a host and the password of an obfuscation under two. */
  lemma KeyAliases(raw: string, k: string, v: string)
    ensures k in {"sid", "short-id", "short_id"} ==> FromQuery(raw, [(k, v)]).shortID == v
    ensures k in {"fp", "fingerprint"} ==> FromQuery(raw, [(k, v)]).fingerprint == v
    ensures k in {"obfsParam", "host"} ==> FromQuery(raw, [(k, v)]).host == v
    ensures k in {"obfs-password", "obfs_password"} ==> FromQuery(raw, [(k, v)]).obfsPassword == v
  {
    hide Get, XtlsFlow, AtoiOr, EqualFold, TransportOf;
    GetOne(k, v, "sid");
    GetOne(k, v, "short-id");
    GetOne(k, v, "short_id");
    GetOne(k, v, "fp");
    GetOne(k, v, "fingerprint");
    GetOne(k, v, "obfsParam");
    GetOne(k, v, "host");
    GetOne(k, v, "obfs-password");
    GetOne(k, v, "obfs_password");
  }

  /** Certificates go unchecked exactly when one of three keys is "1". */
  lemma InsecureAliases(raw: string, k: string, v: string)
    ensures FromQuery(raw, [(k, v)]).skipCertVerify <==> k in {"allowInsecure", "allow_insecure", "insecure"} && v == "1"
  {
    hide Get, XtlsFlow, AtoiOr, EqualFold, TransportOf;
    GetOne(k, v, "allowInsecure");
    GetOne(k, v, "allow_insecure");
    GetOne(k, v, "insecure");
  }

  /** TLS is on for "1" under its key, and for a security of tls or reality in any case. */
  lemma TlsKeys(raw: string, k: string, v: string)
    ensures k == "tls" ==> (FromQuery(raw, [(k, v)]).tls <==> v == "1")
    ensures k == "security" ==> (FromQuery(raw, [(k, v)]).tls <==> EqualFold(v, "tls") || EqualFold(v, "reality"))
    ensures k == "security" ==> FromQuery(raw, [(k, v)]).security == (if EqualFold(v, "reality") then "reality" else "")
  {
    hide Get, XtlsFlow, AtoiOr, EqualFold, TransportOf;
    if k == "tls" || k == "security" {
      NoNamesIn(k, v);
      GetOne(k, v, "security");
      GetOne(k, v, "tls");
      FoldsApart();
    }
  }

  lemma NoNamesIn(k: string, v: string)
    requires k == "tls" || k == "security"
    ensures var q := [(k, v)];
      && Get(q, "peer") == "" && Get(q, "sni") == "" && Get(q, "servername") == "" && Get(q, "host") == ""
      && Get(q, "pbk") == "" && Get(q, "public-key") == "" && Get(q, "public_key") == ""
  {
    hide Get;
    GetOne(k, v, "peer");
    GetOne(k, v, "sni");
    GetOne(k, v, "servername");
    GetOne(k, v, "host");
    GetOne(k, v, "pbk");
    GetOne(k, v, "public-key");
    GetOne(k, v, "public_key");
  }

  /** Rates are read under two keys each. */
  lemma RateAliases(raw: string, k: string, v: string)
    ensures k in {"upmbps", "up"} ==> FromQuery(raw, [(k, v)]).upMbps == AtoiOr(v, 0)
    ensures k in {"downmbps", "down"} ==> FromQuery(raw, [(k, v)]).downMbps == AtoiOr(v, 0)
  {
    hide Get, XtlsFlow, AtoiOr, EqualFold, TransportOf;
    GetOne(k, v, "upmbps");
    GetOne(k, v, "up");
    GetOne(k, v, "downmbps");
    GetOne(k, v, "down");
  }

  /** The flow of an xtls link is given by a number, a short name or in full. */
  lemma FlowNames()
    ensures XtlsFlow("2") == XtlsFlow("vision") == "xtls-rprx-vision" && XtlsFlow("1") == XtlsFlow("direct") == "xtls-rprx-direct"
  {
    hide ToLower, TrimSpace;
    Untouched("2");
    Untouched("1");
    Untouched("vision");
    Untouched("direct");
  }

  lemma Untouched(s: string)
    requires Trimmed(s) && forall c :: c in s ==> LowerChar(c) == c
    ensures ToLower(TrimSpace(s)) == s && TrimSpace(s) == s
  {
    TrimSpaceProperties(s);
    LowerIs(s);
  }

  /** The transport is given by the name of the obfuscation, or by its own. */
  lemma TransportNames(v: string)
    ensures TransportOf([("type", v)]) == v
    ensures TransportOf([("obfs", "websocket")]) == "ws" && TransportOf([("obfs", "h2")]) == "http" && TransportOf([("obfs", "grpc")]) == "grpc"
  {
    hide Get;
    GetOne("type", v, "obfs");
    GetOne("type", v, "type");
    GetOne("obfs", "websocket", "obfs");
    GetOne("obfs", "h2", "obfs");
    GetOne("obfs", "grpc", "obfs");
  }
}
