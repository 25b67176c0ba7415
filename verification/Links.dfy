/**
 Share links: printing an outbound as a link, parsing links and texts full of links.

 The JSON forms of a link are read by decoders that are parameters here.
 */
module Links {
  import opened Text
  import opened Config
  import opened Base64
  import opened Url
  import opened LinkQuery

  // share: (protocol, payload, link) of a JSON share; shadow: password and host of a shadow-tls object.
  datatype Decoders = Decoders(share: (string, string, string) -> Option<Outbound>, shadow: string -> Option<(string, string)>)

  /* ----- reading the parts of a link ----- */

  // How the user information of a link is used.
  datatype LinkKind = UuidLink | PasswordLink | TuicLink | SsLink | NaiveLink | PlainLink

  function KindOf(scheme: string): LinkKind {
    if scheme == "vless" || scheme == "vmess" then UuidLink
    else if scheme == "trojan" || scheme == "hysteria2" || scheme == "hy2" || scheme == "anytls" || scheme == "shadowtls" then PasswordLink
    else if scheme == "tuic" then TuicLink
    else if scheme == "ss" then SsLink
    else if scheme == "http2" || scheme == "http3" || scheme == "naive" || scheme == "https" || scheme == "naive+https" || scheme == "naive+quic"
    then NaiveLink
    else PlainLink
  }

  /** `normalizeLinkProtocol`. */
  function ProtocolOf(scheme: string): Protocol {
    if scheme == "hy2" || scheme == "hysteria2" then Hysteria2
    else if scheme == "ss" || scheme == "shadowsocks" then Shadowsocks
    else if KindOf(scheme).NaiveLink? then Naive
    else if scheme == "vless" then Vless
    else if scheme == "vmess" then Vmess
    else if scheme == "trojan" then Trojan
    else if scheme == "anytls" then Anytls
    else if scheme == "shadowtls" then Shadowtls
    else if scheme == "tuic" then Tuic
    else if scheme == "http" then Http
    else if scheme == "socks" then Socks
    else if scheme == "socks5" then Socks5
    else if scheme == "tcp" then Tcp
    else if scheme == "udp" then Udp
    else if scheme == "direct" then Direct
    else if scheme == "mixed" then Mixed
    else OtherProtocol(scheme)
  }

  /** `linkName`: from the query, else from the fragment, which is unescaped a second time, else made up. */
  function LinkName(u: Url, query: Values): string {
    var remarks, name, fragment := TrimSpace(Get(query, "remarks")), TrimSpace(Get(query, "name")), TrimSpace(u.fragment);
    if remarks != "" then remarks
    else if name != "" then name
    else if fragment != "" then Again(fragment)
    else u.scheme + "-" + FirstNonEmpty(Hostname(u.host), u.scheme)
  }

  function Again(fragment: string): string {
    var d := Unescape(QueryPart, fragment);
    if d.Some? then d.value else fragment
  }

  // `parsePort`: the library's number parser stops at the largest integer.
  function PortNumber(text: string): int
    requires AllDigits(text)
  {
    var n: int := Value(text);
    if n > MAX_INT then MAX_INT else n
  }

  /** `parseSSUserinfo`. */
  function SSUserinfo(user: string, password: string): (string, string) {
    var d := DecodeAny(user);
    var u := if d.Some? && ':' in d.value then d.value else user;
    if password != "" || ':' !in u then (u, password) else (BeforeFirst(u, ':'), AfterFirst(u, ':'))
  }

  lemma PortTextDigits(host: string)
    ensures AllDigits(PortText(host))
  {}

  // What the user information adds, by kind of link.
  function WithUser(o: Outbound, kind: LinkKind, scheme: string, user: string, password: string, query: Values, d: Decoders): Outbound {
    match kind
    case UuidLink =>
      o.(uuid := FirstNonEmpty(password, user),
         security := FirstNonEmpty(o.security, FirstNonEmpty(First3(Get(query, "security"), Get(query, "encryption"), Get(query, "cipher")), "auto")))
    case PasswordLink => o.(password := FirstNonEmpty(password, user))
    case TuicLink => o.(uuid := user, password := password)
    case SsLink =>
      var (cipher, pass) := SSUserinfo(user, password);
      WithShadow(o.(cipher := cipher, password := pass), Get(query, "shadow-tls"), d)
    case NaiveLink => o.(protocol := Naive, username := user, password := password, transport := scheme)
    case PlainLink => o
  }

  function WithShadow(o: Outbound, shadowTLS: string, d: Decoders): Outbound {
    if shadowTLS == "" then o
    else
      var t := o.(transport := "shadowtls");
      var decoded := DecodeAny(shadowTLS);
      if decoded.None? then t
      else
        var shadow := d.shadow(decoded.value);
        if shadow.None? then t.(obfsPassword := decoded.value)
        else t.(obfsPassword := shadow.value.0, serverName := FirstNonEmpty(t.serverName, shadow.value.1), tls := true)
  }

  /** The link as it stands, without decoding any of it as a link of its own. */
  function Build(u: Url, raw: string, d: Decoders): Option<Outbound> {
    var query := ParseQuery(u.rawQuery);
    var user := if u.user.Some? then u.user.value.name else "";
    var password := if u.user.Some? && u.user.value.password.Some? then u.user.value.password.value else "";
    PortTextDigits(u.host);
    var port := PortNumber(PortText(u.host));
    var address := Hostname(u.host);
    var base := FromQuery(raw, query).(
                  name := LinkName(u, query), protocol := ProtocolOf(u.scheme), address := address, port := port);
    if port == 0 || address == "" then None
    else Some(WithUser(base, KindOf(u.scheme), u.scheme, user, password, query, d))
  }

  predicate LooksLikeJson(text: string) {
    var t := TrimSpace(text);
    t != "" && t[0] == '{'
  }

  function Rebuilt(u: Url, decoded: string): string {
    u.scheme + "://" + decoded + "?" + u.rawQuery + "#" + u.rawFragment
  }

  // What a link can still be decoded from.
  function Payload(raw: string): nat {
    var u := Parse(raw);
    if u.None? then 0 else |u.value.host| + |u.value.nonHierarchical|
  }

  lemma {:induction false} ParsedScheme(raw: string)
    ensures var u := Parse(raw); u.Some? ==> ValidScheme(u.value.scheme) && ToLower(u.value.scheme) == u.value.scheme
  {
    hide Unescape, ParseAuthority, Index;
    var u := BeforeFirst(raw, '#');
    if Parse(raw).Some? {
      LowerScheme(u[..Index(u, ':')]);
    }
  }

  lemma LowerScheme(s: string)
    requires ValidScheme(s)
    ensures ValidScheme(ToLower(s)) && ToLower(ToLower(s)) == ToLower(s)
  {
    assert s[0] in s;
    forall c | c in ToLower(s)
      ensures SchemeChar(c)
    {
      var i :| 0 <= i < |s| && ToLower(s)[i] == c;
      assert s[i] in s;
    }
  }

  /** Decoding shortens the payload of a link, although the link that is rebuilt may be longer. */
  lemma RebuiltPayloadShrinks(raw: string, payload: string)
    requires Parse(raw).Some? && DecodeAny(payload).Some? && |payload| <= Payload(raw)
    ensures Payload(Rebuilt(Parse(raw).value, DecodeAny(payload).value)) < Payload(raw)
  {
    hide DecodeAny, Parse;
    var u, decoded := Parse(raw).value, DecodeAny(payload).value;
    DecodeAnyShortens(payload);
    ParsedScheme(raw);
    RebuiltHost(u.scheme, decoded, u.rawQuery, u.rawFragment);
  }

  /** `parseOutboundLink`. */
  function ParseOutboundLink(raw: string, d: Decoders): Option<Outbound>
    decreases Payload(raw)
  {
    var p := Parse(raw);
    if p.None? then None
    else
      var u := p.value;
      var whole := if u.host == "" && u.nonHierarchical != "" then DecodeAny(u.nonHierarchical) else None;
      if whole.Some? then
        if LooksLikeJson(whole.value) then d.share(u.scheme, whole.value, raw)
        else
          RebuiltPayloadShrinks(raw, u.nonHierarchical);
          ParseOutboundLink(Rebuilt(u, whole.value), d)
      else if u.scheme == "v2rayn" then
        var payload := DecodeAny(if u.path != "" && u.path[0] == '/' then u.path[1..] else u.path);
        if payload.None? then None else d.share(u.host, payload.value, raw)
      else
        var host := DecodeAny(u.host);
        if host.Some? && '@' in host.value then
          RebuiltPayloadShrinks(raw, u.host);
          ParseOutboundLink(Rebuilt(u, host.value), d)
        else if host.Some? && LooksLikeJson(host.value) then d.share(u.scheme, host.value, raw)
        else Build(u, raw, d)
  }

  /** `parseOutboundLink`, a record filled in and patched. */
  method ReadLink(raw: string, d: Decoders) returns (parsed: Option<Outbound>)
    ensures parsed == ParseOutboundLink(raw, d)
    decreases Payload(raw)
  {
    hide Parse, DecodeAny, Payload, Build, LooksLikeJson;
    var p := Parse(raw);
    if p.None? {
      return None;
    }
    var u := p.value;
    if u.host == "" && u.nonHierarchical != "" {
      var decoded := DecodeBase64String(u.nonHierarchical);
      if decoded.Some? {
        if LooksLikeJson(decoded.value) {
          return d.share(u.scheme, decoded.value, raw);
        }
        assert |u.nonHierarchical| <= Payload(raw) by { PayloadParts(raw); }
        RebuiltPayloadShrinks(raw, u.nonHierarchical);
        parsed := ReadLink(Rebuilt(u, decoded.value), d);
        return;
      }
    }
    if u.scheme == "v2rayn" {
      var payload := DecodeBase64String(if u.path != "" && u.path[0] == '/' then u.path[1..] else u.path);
      if payload.None? {
        return None;
      }
      return d.share(u.host, payload.value, raw);
    }
    var decoded := DecodeBase64String(u.host);
    if decoded.Some? {
      if '@' in decoded.value {
        assert |u.host| <= Payload(raw) by { PayloadParts(raw); }
        RebuiltPayloadShrinks(raw, u.host);
        parsed := ReadLink(Rebuilt(u, decoded.value), d);
        return;
      }
      if LooksLikeJson(decoded.value) {
        return d.share(u.scheme, decoded.value, raw);
      }
    }
    parsed := ReadPlainLink(u, raw, d);
  }

  lemma PayloadParts(raw: string)
    requires Parse(raw).Some?
    ensures Payload(raw) == |Parse(raw).value.host| + |Parse(raw).value.nonHierarchical|
  {}

  method ReadPlainLink(u: Url, raw: string, d: Decoders) returns (built: Option<Outbound>)
    ensures built == Build(u, raw, d)
  {
    hide Get, ParseQuery, LinkName, ProtocolOf, Hostname, PortText, FromQuery, WithUser, Value, AllDigits;
    var query := ParseQuery(u.rawQuery);
    PortTextDigits(u.host);
    var user, password := "", "";
    if u.user.Some? {
      user := u.user.value.name;
      if u.user.value.password.Some? {
        password := u.user.value.password.value;
      }
    }
    var out := FillFields(LinkName(u, query), ProtocolOf(u.scheme), Hostname(u.host), PortNumber(PortText(u.host)), raw, query);
    FieldsKept(out, KindOf(u.scheme), u.scheme, user, password, query, d);
    out := PatchCredentials(out, KindOf(u.scheme), u.scheme, user, password, query, d);
    if out.port == 0 || out.address == "" {
      return None;
    }
    return Some(out);
  }

  lemma FieldsKept(o: Outbound, kind: LinkKind, scheme: string, user: string, password: string, query: Values, d: Decoders)
    ensures var r := WithUser(o, kind, scheme, user, password, query, d);
      r.port == o.port && r.address == o.address
  {}

  method FillFields(name: string, protocol: Protocol, address: string, port: int, raw: string, query: Values) returns (out: Outbound)
    ensures out == FromQuery(raw, query).(name := name, protocol := protocol, address := address, port := port)
  {
    hide Get, XtlsFlow, AtoiOr, First3, EqualFold, TransportOf;
    out := Outbound(
      name, protocol, address, port, false, "", "", "", "",
      FirstNonEmpty(Get(query, "flow"), XtlsFlow(Get(query, "xtls"))), "", "", false,
      FirstNonEmpty(First3(Get(query, "peer"), Get(query, "sni"), Get(query, "servername")), Get(query, "host")),
      false, "", First3(Get(query, "path"), Get(query, "serviceName"), Get(query, "service_name")),
      FirstNonEmpty(Get(query, "obfsParam"), Get(query, "host")),
      First3(Get(query, "pbk"), Get(query, "public-key"), Get(query, "public_key")),
      First3(Get(query, "sid"), Get(query, "short-id"), Get(query, "short_id")),
      FirstNonEmpty(Get(query, "fp"), Get(query, "fingerprint")),
      Get(query, "alpn"), Get(query, "obfs"), FirstNonEmpty(Get(query, "obfs-password"), Get(query, "obfs_password")), Get(query, "mport"),
      AtoiOr(FirstNonEmpty(Get(query, "upmbps"), Get(query, "up")), 0), AtoiOr(FirstNonEmpty(Get(query, "downmbps"), Get(query, "down")), 0),
      Get(query, "congestion_control"), Get(query, "udp_relay_mode"), "", Get(query, "group"), raw);
    if Get(query, "tls") == "1" || EqualFold(Get(query, "security"), "tls") || EqualFold(Get(query, "security"), "reality") || out.serverName != "" {
      out := out.(tls := true);
    }
    if Get(query, "allowInsecure") == "1" || Get(query, "allow_insecure") == "1" || Get(query, "insecure") == "1" {
      out := out.(skipCertVerify := true);
    }
    if EqualFold(Get(query, "security"), "reality") || out.publicKey != "" {
      out := out.(security := "reality", tls := true);
    }
    out := out.(transport := TransportOf(query));
  }

  method PatchCredentials(before: Outbound, kind: LinkKind, scheme: string, user: string, password: string, query: Values, d: Decoders)
    returns (out: Outbound)
    ensures out == WithUser(before, kind, scheme, user, password, query, d)
  {
    hide Get, First3, FirstNonEmpty, DecodeAny, SSUserinfo;
    out := before;
    match kind {
      case UuidLink =>
        out := out.(uuid := FirstNonEmpty(password, user),
                    security := FirstNonEmpty(out.security, FirstNonEmpty(First3(Get(query, "security"), Get(query, "encryption"), Get(query, "cipher")), "auto")));
      case PasswordLink =>
        out := out.(password := user);
        if password != "" {
          out := out.(password := password);
        }
        assert FirstNonEmpty(password, user) == out.password by { FirstOfTwo(password, user); }
      case TuicLink =>
        out := out.(uuid := user);
        out := out.(password := password);
      case SsLink =>
        var (cipher, pass) := SSUserinfo(user, password);
        out := out.(cipher := cipher, password := pass);
        if Get(query, "shadow-tls") != "" {
          out := out.(transport := "shadowtls");
          var decoded := DecodeBase64String(Get(query, "shadow-tls"));
          if decoded.Some? {
            var shadow := d.shadow(decoded.value);
            if shadow.Some? {
              out := out.(obfsPassword := shadow.value.0);
              out := out.(serverName := FirstNonEmpty(out.serverName, shadow.value.1));
              out := out.(tls := true);
            } else {
              out := out.(obfsPassword := decoded.value);
            }
          }
        }
      case NaiveLink =>
        out := out.(protocol := Naive, username := user, password := password, transport := scheme);
      case PlainLink =>
    }
  }

  /* ----- printing ----- */

  function HostPort(o: Outbound): string {
    (if ':' in o.address then "[" + o.address + "]" else o.address) + ":" + Itoa(o.port)
  }

  function LinkText(scheme: string, userinfo: string, o: Outbound, suffix: string): string {
    scheme + "://" + (userinfo + "@" + HostPort(o)) + suffix + "#" + QueryEscape(o.name)
  }

  predicate PrintsRaw(o: Outbound) {
    TrimSpace(o.raw) != "" && Contains(o.raw, "://")
  }

  function SchemeOf(p: Protocol): string {
    match p
    case Vless => "vless"
    case Trojan => "trojan"
    case Shadowsocks | Ss => "ss"
    case Anytls => "anytls"
    case Hysteria2 => "hysteria2"
    case Tuic => "tuic"
    case _ => ""
  }

  predicate Printable(p: Protocol) {
    SchemeOf(p) != ""
  }

  function Userinfo(o: Outbound): string {
    match o.protocol
    case Vless => QueryEscape(o.uuid)
    case Shadowsocks | Ss => EncodeRaw(UrlSafe, o.cipher + ":" + o.password)
    case Tuic => QueryEscape(o.uuid) + ":" + QueryEscape(o.password)
    case _ => QueryEscape(o.password)
  }

  function Suffix(o: Outbound): string {
    if o.protocol.Shadowsocks? || o.protocol.Ss? then "" else "?" + EncodeValues(Query(o))
  }

  /** `outboundShareLink`; `others` prints the protocols that are not part of this model. */
  function ShareLink(o: Outbound, others: Outbound -> Option<string>): Option<string> {
    if PrintsRaw(o) then Some(TrimSpace(o.raw))
    else if o.address == "" || o.port <= 0 then None
    else if !Printable(o.protocol) then others(o)
    else Some(LinkText(SchemeOf(o.protocol), Userinfo(o), o, Suffix(o)))
  }

  /** `outboundShareLink`, the query set entry by entry. */
  method PrintLink(o: Outbound, others: Outbound -> Option<string>) returns (link: Option<string>)
    ensures link == ShareLink(o, others)
  {
    hide Set, Add, AddTransport, EncodeValues, Escape, EncodeRaw, HostPort, TrimSpace, Contains;
    if TrimSpace(o.raw) != "" && Contains(o.raw, "://") {
      return Some(TrimSpace(o.raw));
    }
    if o.address == "" || o.port <= 0 {
      return None;
    }
    var values: Values := [];
    var userinfo := QueryEscape(o.password);
    match o.protocol {
      case Vless =>
        values := Set(values, "encryption", "none");
        if o.security == "reality" {
          values := Set(values, "security", "reality");
          values := Add(values, "sni", o.serverName);
          values := Add(values, "pbk", o.publicKey);
          values := Add(values, "sid", o.shortID);
          values := Add(values, "fp", o.fingerprint);
        } else if o.tls || o.serverName != "" {
          values := Set(values, "security", "tls");
          values := Add(values, "sni", o.serverName);
        } else {
          values := Set(values, "security", "none");
        }
        values := Add(values, "flow", o.flow);
        values := AddTransport(values, o.transport, o.path, o.host);
        userinfo := QueryEscape(o.uuid);
      case Trojan =>
        if o.tls || o.serverName != "" {
          values := Set(values, "security", "tls");
          values := Add(values, "sni", o.serverName);
        }
        values := AddTransport(values, o.transport, o.path, o.host);
      case Shadowsocks | Ss =>
        return Some(LinkText("ss", EncodeRaw(UrlSafe, o.cipher + ":" + o.password), o, ""));
      case Anytls =>
        values := Add(values, "peer", o.serverName);
      case Hysteria2 =>
        values := Add(values, "peer", o.serverName);
        values := Add(values, "obfs", o.obfs);
        values := Add(values, "obfs-password", o.obfsPassword);
        values := Add(values, "mport", o.mport);
        if o.upMbps > 0 {
          values := Set(values, "upmbps", Itoa(o.upMbps));
        }
        if o.downMbps > 0 {
          values := Set(values, "downmbps", Itoa(o.downMbps));
        }
      case Tuic =>
        values := Add(values, "peer", o.serverName);
        values := Add(values, "congestion_control", o.congestion);
        values := Add(values, "udp_relay_mode", o.udpRelayMode);
        values := Add(values, "alpn", o.alpn);
        userinfo := QueryEscape(o.uuid) + ":" + QueryEscape(o.password);
      case _ =>
        return others(o);
    }
    return Some(LinkText(SchemeOf(o.protocol), userinfo, o, "?" + EncodeValues(values)));
  }

  /* ----- printing, then parsing ----- */

  // A host that needs neither brackets nor escapes.
  predicate PlainHost(host: string) {
    host != "" && forall c :: c in host ==> Unreserved(c)
  }

  // The nodes the round trip is about: printed from their fields, to a plain host and a valid port, under some name.
  ghost predicate Shared(o: Outbound) {
    && Printable(o.protocol) && !PrintsRaw(o)
    && PlainHost(o.address) && ValidPort(o.port)
    && o.name != "" && Trimmed(o.name)
    && BytesOutbound(o) && o.upMbps <= MAX_INT && o.downMbps <= MAX_INT
    && ((o.protocol.Shadowsocks? || o.protocol.Ss?) ==> ':' !in o.cipher)
  }

  /** The name a link carries, once it has been unescaped twice. */
  function RecoveredName(name: string): string {
    Again(PlusForSpace(name))
  }

  /* ----- the authority that is printed ----- */

  // The user information as the parser gets to see it.
  function UserSeen(o: Outbound): User {
    match o.protocol
    case Vless => User(PlusForSpace(o.uuid), None)
    case Shadowsocks | Ss => User(EncodeRaw(UrlSafe, o.cipher + ":" + o.password), None)
    case Tuic => User(PlusForSpace(o.uuid), Some(PlusForSpace(o.password)))
    case _ => User(PlusForSpace(o.password), None)
  }

  // The characters of a printed user information.
  predicate UserinfoSafe(c: char) {
    EscapedChar(c) || c == ':'
  }

  lemma SafeUserinfo(c: char)
    requires UserinfoSafe(c)
    ensures UserinfoChar(c) && c != '@' && c != '#' && c != '/' && c != '?' && !Control(c)
  {}

  lemma ColonIsNotEscaped()
    ensures !EscapedChar(':') && UserinfoSafe(':')
  {}

  lemma UrlSafeChars(s: string)
    ensures forall c :: c in EncodeRaw(UrlSafe, s) ==> Unreserved(c) && EscapedChar(c)
  {
    hide EncodeRaw;
    EncodeRawChars(UrlSafe, s);
  }

  // One escaped word, or two with a colon between.
  lemma ParseOneWord(text: string, word: string)
    requires forall c :: c in text ==> EscapedChar(c)
    requires Unescape(UserPart, text) == Some(word)
    ensures ParseUser(text) == Some(User(word, None))
    ensures forall c :: c in text ==> UserinfoSafe(c)
  {
    hide Unescape, EscapedChar;
    ColonIsNotEscaped();
    forall c | c in text
      ensures UserinfoChar(c)
    {
      SafeUserinfo(c);
    }
  }

  lemma ParseTwoWords(a: string, b: string)
    requires IsBytes(a) && IsBytes(b)
    ensures ParseUser(QueryEscape(a) + ":" + QueryEscape(b)) == Some(User(PlusForSpace(a), Some(PlusForSpace(b))))
    ensures forall c :: c in QueryEscape(a) + ":" + QueryEscape(b) ==> UserinfoSafe(c)
  {
    hide Unescape, Escape, EscapedChar;
    ColonIsNotEscaped();
    QueryEscapeChars(a);
    QueryEscapeChars(b);
    UnescapeQueryEscape(UserPart, a);
    UnescapeQueryEscape(UserPart, b);
    var text := QueryEscape(a) + ":" + QueryEscape(b);
    assert text == QueryEscape(a) + [':'] + QueryEscape(b);
    CutAt(QueryEscape(a), ':', QueryEscape(b));
    assert ':' in text by { assert text[|QueryEscape(a)|] == ':'; }
    forall c | c in text
      ensures UserinfoChar(c)
    {
      SafeUserinfo(c);
    }
  }

  lemma UserRoundTrip(o: Outbound)
    requires Shared(o)
    ensures ParseUser(Userinfo(o)) == Some(UserSeen(o))
    ensures forall c :: c in Userinfo(o) ==> UserinfoSafe(c)
  {
    hide Unescape, Escape, ParseUser, EscapedChar, UserinfoSafe, EncodeRaw;
    match o.protocol {
      case Vless =>
        QueryEscapeChars(o.uuid);
        UnescapeQueryEscape(UserPart, o.uuid);
        ParseOneWord(QueryEscape(o.uuid), PlusForSpace(o.uuid));
      case Shadowsocks | Ss =>
        var text := EncodeRaw(UrlSafe, o.cipher + ":" + o.password);
        UrlSafeChars(o.cipher + ":" + o.password);
        UnescapePlain(UserPart, text);
        ParseOneWord(text, text);
      case Tuic => ParseTwoWords(o.uuid, o.password);
      case _ =>
        QueryEscapeChars(o.password);
        UnescapeQueryEscape(UserPart, o.password);
        ParseOneWord(QueryEscape(o.password), PlusForSpace(o.password));
    }
  }

  lemma PlainHostChars(host: string)
    requires PlainHost(host)
    ensures forall c :: c in host ==> Unreserved(c) && c != ':' && c != '@' && c != '[' && c != '#' && c != '/' && c != '?' && !Control(c)
  {}

  lemma DigitIsUnreserved(c: char)
    requires IsDigit(c)
    ensures Unreserved(c) && c != ':' && c != '@' && c != '[' && c != '#' && c != '/' && c != '?' && !Control(c)
  {}

  // The text of host and port that is printed for a plain host.
  lemma HostPortParts(o: Outbound)
    requires Shared(o)
    ensures HostPort(o) == o.address + [':'] + Decimal(o.port)
    ensures forall c :: c in HostPort(o) ==> (Unreserved(c) || c == ':') && c != '@' && c != '[' && c != '#' && c != '/' && c != '?' && !Control(c)
    ensures LastIndex(HostPort(o), ':') == |o.address|
    ensures AllDigits(Decimal(o.port)) && Value(Decimal(o.port)) == o.port
  {
    hide Unreserved, Control, LastIndex;
    PlainHostChars(o.address);
    DecimalValue(o.port);
    forall c | c in Decimal(o.port)
      ensures Unreserved(c) && c != ':' && c != '@' && c != '[' && c != '#' && c != '/' && c != '?' && !Control(c)
    {
      DigitIsUnreserved(c);
    }
    LastIndexAt(o.address, ':', Decimal(o.port));
    assert HostPort(o) == o.address + [':'] + Decimal(o.port);
    assert !Control(':') by { ColonIsNoControl(); assert HasControl([':']) <== ':' in [':'] && Control(':'); }
  }

  lemma HostRoundTrip(o: Outbound)
    requires Shared(o)
    ensures ParseHost(HostPort(o)) == Some(HostPort(o))
    ensures Hostname(HostPort(o)) == o.address
    ensures PortText(HostPort(o)) == Decimal(o.port)
    ensures DecodeAny(HostPort(o)) == None
  {
    hide Unreserved, Control, LastIndex, Unescape, DecodeAny, BytesOutbound;
    HostPortParts(o);
    var h := HostPort(o);
    PlainHostChars(o.address);
    assert h[..|o.address|] == o.address && h[|o.address| + 1..] == Decimal(o.port);
    UnescapePlain(HostPart, h);
    assert o.address[0] != '[' by { assert o.address[0] in o.address; }
    assert h[|o.address|] == ':';
    ForeignCharacterIsRefused(h, ':');
  }

  lemma AuthorityRoundTrip(o: Outbound)
    requires Shared(o)
    ensures var a := Userinfo(o) + "@" + HostPort(o);
      && ParseAuthority(a) == Some((Some(UserSeen(o)), HostPort(o)))
      && (forall c :: c in a ==> c != '#' && c != '/' && c != '?' && !Control(c))
  {
    hide Unreserved, Control, LastIndex, ParseHost, ParseUser, Userinfo, HostPort, UserSeen, Shared, UserinfoSafe;
    var user, host := Userinfo(o), HostPort(o);
    UserRoundTrip(o);
    HostPortParts(o);
    HostRoundTrip(o);
    var a := user + "@" + host;
    assert a == user + ['@'] + host;
    LastIndexAt(user, '@', host);
    assert a[..|user|] == user && a[|user| + 1..] == host;
    forall c | c in a
      ensures c != '#' && c != '/' && c != '?' && !Control(c)
    {
      if c in user {
        SafeUserinfo(c);
      } else if c !in host {
        AtIsPlain();
      }
    }
  }

  lemma AtIsPlain()
    ensures !Control('@')
  {}

  /* ----- the round trip ----- */

  lemma SuffixRoundTrip(o: Outbound)
    requires Shared(o)
    ensures QuerySuffix(Suffix(o)) && !HasControl(Suffix(o)) && '#' !in Suffix(o)
    ensures ParseQuery(QueryOf(Suffix(o))) == Query(o)
  {
    hide Query, EncodeValues, ParseQuery;
    QueryNameless(o);
    if Suffix(o) == "" {
      assert Query(o) == [] by { SSQuery(o); }
      assert EncodeValues([]) == "" by { NoValues(); }
      ParseEncodedValues([]);
    } else {
      ParseEncodedValues(Query(o));
      assert Suffix(o)[1..] == EncodeValues(Query(o));
    }
  }

  lemma NoValues()
    ensures EncodeValues([]) == ""
  {}

  // The printed link, taken apart.
  lemma PrintedLinkParses(o: Outbound)
    requires Shared(o)
    ensures var u := Parse(LinkText(SchemeOf(o.protocol), Userinfo(o), o, Suffix(o)));
      && u.Some?
      && u.value.scheme == SchemeOf(o.protocol) && u.value.nonHierarchical == "" && u.value.path == ""
      && u.value.user == Some(UserSeen(o)) && u.value.host == HostPort(o)
      && ParseQuery(u.value.rawQuery) == Query(o)
      && u.value.fragment == PlusForSpace(o.name)
  {
    hide ParseAuthority, Unescape, Escape, Userinfo, HostPort, UserSeen, Suffix, Query, ParseQuery, Parse, HasControl, QuerySuffix, QueryOf, Control;
    AuthorityRoundTrip(o);
    SuffixRoundTrip(o);
    UnescapeQueryEscape(FragmentPart, o.name);
    var a := Userinfo(o) + "@" + HostPort(o);
    assert !HasControl(a) by { NoControl(a); }
    SchemesAreValid(o.protocol);
    ParseLink(SchemeOf(o.protocol), a, Suffix(o), QueryEscape(o.name));
  }

  lemma NoControl(s: string)
    requires forall c :: c in s ==> !Control(c)
    ensures !HasControl(s)
  {}

  lemma SchemesAreValid(p: Protocol)
    requires Printable(p)
    ensures ValidScheme(SchemeOf(p)) && ToLower(SchemeOf(p)) == SchemeOf(p) && SchemeOf(p) != "v2rayn"
    ensures ProtocolOf(SchemeOf(p)) == if p.Ss? then Shadowsocks else p
    ensures KindOf(SchemeOf(p)) == match p
      case Vless => UuidLink
      case Tuic => TuicLink
      case Shadowsocks | Ss => SsLink
      case _ => PasswordLink
  {}

  lemma PlusIsTrimmed(name: string)
    requires name != "" && Trimmed(name)
    ensures PlusForSpace(name) != "" && TrimSpace(PlusForSpace(name)) == PlusForSpace(name)
  {
    TrimSpaceProperties(PlusForSpace(name));
  }

  // The credentials a parsed link must have.
  predicate SameCredentials(o: Outbound, r: Outbound) {
    match o.protocol
    case Vless => r.uuid == PlusForSpace(o.uuid)
    case Shadowsocks | Ss => r.cipher == o.cipher && r.password == o.password
    case Tuic => r.uuid == PlusForSpace(o.uuid) && r.password == PlusForSpace(o.password)
    case _ => r.password == PlusForSpace(o.password)
  }

  /** The encoded user information is read as the cipher and the password exactly when the cipher has no colon. */
  lemma SSUserinfoRoundTrip(cipher: string, password: string)
    requires IsBytes(cipher) && IsBytes(password)
    ensures SSUserinfo(EncodeRaw(UrlSafe, cipher + ":" + password), "") == (cipher, password) <==> ':' !in cipher
  {
    hide DecodeAny, EncodeRaw;
    var text := cipher + ":" + password;
    assert text == cipher + [':'] + password && text[|cipher|] == ':';
    DecodeAnyInvertsAll(Encoding(UrlSafe, false), text);
    if ':' !in cipher {
      CutAt(cipher, ':', password);
    } else {
      assert ':' !in BeforeFirst(text, ':');
    }
  }

  /**
   A node as it is read back from its printed link `raw`, under some name: the fields that the query carries, and the
   credentials with a plus for each space.
   */
  function AsPrinted(raw: string, name: string, o: Outbound): Outbound {
    WithCredentials(QueryFields(raw, o).(
                      name := name, protocol := if o.protocol.Ss? then Shadowsocks else o.protocol, address := o.address, port := o.port), o)
  }

  function WithCredentials(r: Outbound, o: Outbound): Outbound {
    var ss := o.protocol.Shadowsocks? || o.protocol.Ss?;
    r.(uuid := if o.protocol.Vless? || o.protocol.Tuic? then PlusForSpace(o.uuid) else r.uuid,
       password := if ss then o.password else if o.protocol.Vless? then r.password else PlusForSpace(o.password),
       cipher := if ss then o.cipher else r.cipher,
       security := if o.protocol.Vless? then SecurityPrinted(o) else r.security)
  }

  lemma BuiltLink(u: Url, raw: string, o: Outbound, d: Decoders)
    requires Shared(o)
    requires u.scheme == SchemeOf(o.protocol) && u.user == Some(UserSeen(o)) && u.host == HostPort(o)
    requires ParseQuery(u.rawQuery) == Query(o)
    ensures Build(u, raw, d) == Some(AsPrinted(raw, LinkName(u, Query(o)), o))
  {
    hide Query, ParseQuery, FromQuery, QueryFields, HostPort, Hostname, PortText, RecoveredName, LinkName, WithUser, WithCredentials, UserSeen,
         SchemeOf, KindOf, ProtocolOf, Value, Decimal, AllDigits;
    HostRoundTrip(o);
    HostPortParts(o);
    SchemesAreValid(o.protocol);
    QueryRoundTrip(raw, o);
    var base := QueryFields(raw, o).(
                  name := LinkName(u, Query(o)), protocol := ProtocolOf(u.scheme), address := Hostname(u.host), port := PortNumber(PortText(u.host)));
    assert base.security == QueryFields(raw, o).security;
    RecoveredCredentials(raw, base, o, d);
  }

  lemma RecoveredLinkName(u: Url, o: Outbound)
    requires Shared(o) && u.fragment == PlusForSpace(o.name)
    ensures LinkName(u, Query(o)) == RecoveredName(o.name)
  {
    hide Query, Again, PlusForSpace, TrimSpace, Hostname, Get;
    QueryNameless(o);
    PlusIsTrimmed(o.name);
    NothingToTrim();
  }

  lemma RecoveredCredentials(raw: string, base: Outbound, o: Outbound, d: Decoders)
    requires Shared(o)
    requires base.security == QueryFields(raw, o).security
    ensures var user := UserSeen(o);
      var password := if user.password.Some? then user.password.value else "";
      WithUser(base, KindOf(SchemeOf(o.protocol)), SchemeOf(o.protocol), user.name, password, Query(o), d) == WithCredentials(base, o)
  {
    hide Query, PlusForSpace, EncodeRaw, SSUserinfo, SchemeOf, KindOf, ProtocolOf, DecodeAny, Get;
    SchemesAreValid(o.protocol);
    if o.protocol.Shadowsocks? || o.protocol.Ss? {
      SSQuery(o);
      GetNothing("shadow-tls");
      SSUserinfoRoundTrip(o.cipher, o.password);
    } else if o.protocol.Vless? {
      SecurityEntries(o);
    }
  }

  // What printing and parsing keeps, apart from the name and the link itself.
  predicate Recovered(o: Outbound, r: Outbound) {
    r == AsPrinted(r.raw, r.name, o)
  }

  /** What that means for the fields of a node, protocol by protocol. */
  lemma RecoveredFields(o: Outbound, r: Outbound)
    requires Recovered(o, r) && Printable(o.protocol)
    ensures r.protocol == (if o.protocol.Ss? then Shadowsocks else o.protocol) && r.address == o.address && r.port == o.port && SameCredentials(o, r)
    ensures o.protocol.Vless? || o.protocol.Trojan? ==>
      && r.path == o.path && r.host == o.host && r.transport == (if o.transport == "tcp" then "" else o.transport)
      && r.serverName == (if o.serverName != "" then o.serverName else o.host)
    ensures o.protocol.Vless? ==> r.flow == o.flow
    ensures o.protocol.Anytls? || o.protocol.Hysteria2? || o.protocol.Tuic? ==> r.serverName == o.serverName
    ensures o.protocol.Hysteria2? ==>
      && r.obfs == o.obfs && r.obfsPassword == o.obfsPassword && r.mport == o.mport
      && (o.upMbps >= 0 ==> r.upMbps == o.upMbps) && (o.downMbps >= 0 ==> r.downMbps == o.downMbps)
    ensures o.protocol.Tuic? ==> r.congestion == o.congestion && r.udpRelayMode == o.udpRelayMode && r.alpn == o.alpn
    ensures o.protocol.Vless? && o.security == "reality" ==>
      r.security == "reality" && r.publicKey == o.publicKey && r.shortID == o.shortID && r.fingerprint == o.fingerprint
    ensures !r.disabled && !r.skipCertVerify && r.group == "" && r.subscription == ""
  {
    hide RecoveredName, PlusForSpace;
  }

  /**
   The TLS setting comes back except where a node without TLS has a server name or, with vless and trojan, a host of its
   transport, which are taken for one; and where a node with TLS has neither, unless it is vless or trojan.
   */
  lemma TlsSurvivesIff(o: Outbound, r: Outbound)
    requires Recovered(o, r) && Printable(o.protocol)
    ensures var web := o.protocol.Vless? || o.protocol.Trojan?;
      var named := !o.protocol.Shadowsocks? && !o.protocol.Ss? && (o.serverName != "" || (web && o.host != ""));
      r.tls == o.tls <==> if o.tls then web || named else !named && !(o.protocol.Vless? && o.security == "reality")
  {
    hide RecoveredName, PlusForSpace;
  }

  /**
   Printing a node and parsing the link gives back exactly the fields of `AsPrinted`; `RecoveredFields` says which these
   are.  A space in a credential comes back as a plus; what becomes of the name is said by `RecoveredName`.
   */
  lemma PrintThenParse(o: Outbound, others: Outbound -> Option<string>, d: Decoders)
    requires Shared(o)
    ensures ShareLink(o, others).Some?
    ensures var r := ParseOutboundLink(ShareLink(o, others).value, d);
      r.Some? && r.value.name == RecoveredName(o.name) && Recovered(o, r.value)
  {
    hide Parse, LinkText, Userinfo, Suffix, UserSeen, Query, ParseQuery, Build, HostPort, DecodeAny, RecoveredName, Recovered, AsPrinted, PlusForSpace,
         TrimSpace, Contains, SchemeOf;
    var raw := LinkText(SchemeOf(o.protocol), Userinfo(o), o, Suffix(o));
    assert ShareLink(o, others) == Some(raw);
    PrintedLinkParses(o);
    HostRoundTrip(o);
    SchemesAreValid(o.protocol);
    var u := Parse(raw).value;
    assert HostPort(o) != "" by { HostPortParts(o); }
    assert ParseOutboundLink(raw, d) == Build(u, raw, d);
    BuiltLink(u, raw, o, d);
    RecoveredLinkName(u, o);
    RecoveredPrinted(o, raw, RecoveredName(o.name));
  }

  const WEBSOCKET := Outbound("n", Vless, "h", 80, false, "", "u", "", "", "", "", "", false, "", false, "ws", "/", "c",
                              "", "", "", "", "", "", "", 0, 0, "", "", "", "", "")

  lemma WebsocketIsPlain()
    ensures PlainHost(WEBSOCKET.address) && Trimmed(WEBSOCKET.name)
  {}

  lemma WebsocketIsShared()
    ensures OutboundOk(WEBSOCKET) && Shared(WEBSOCKET)
  {
    hide TrimSpace, Contains, Trimmed, PlainHost, SupportedSSMethod;
    NothingToTrim();
    WebsocketIsPlain();
  }

  /** An instance of a lost setting: a websocket node without TLS comes back with TLS, under the host of its transport. */
  lemma HostTurnsTlsOn(others: Outbound -> Option<string>, d: Decoders)
    ensures OutboundOk(WEBSOCKET) && !WEBSOCKET.tls && ShareLink(WEBSOCKET, others).Some?
    ensures var r := ParseOutboundLink(ShareLink(WEBSOCKET, others).value, d);
      r.Some? && r.value.tls && r.value.serverName == WEBSOCKET.host
  {
    hide OutboundOk, Shared, ParseOutboundLink, ShareLink, AsPrinted, Recovered, RecoveredName;
    WebsocketIsShared();
    PrintThenParse(WEBSOCKET, others, d);
    var r := ParseOutboundLink(ShareLink(WEBSOCKET, others).value, d).value;
    RecoveredFields(WEBSOCKET, r);
    TlsSurvivesIff(WEBSOCKET, r);
  }

  lemma RecoveredPrinted(o: Outbound, raw: string, name: string)
    ensures Recovered(o, AsPrinted(raw, name, o)) && AsPrinted(raw, name, o).name == name
  {
    hide RecoveredName, PlusForSpace, SecurityPrinted, ServerNameRead, TransportRead;
  }

  /* ----- which links give acceptable nodes ----- */

  /** The protocol of a node read from a link, by the spelling of its scheme. */
  lemma ProtocolRead(scheme: string)
    ensures ProtocolText(ProtocolOf(scheme)) ==
            if scheme == "hy2" then "hysteria2"
            else if scheme == "ss" then "shadowsocks"
            else if scheme in {"http2", "http3", "https", "naive+https", "naive+quic"} then "naive"
            else scheme
  {
    hide KindOf;
    NaiveSchemes(scheme);
  }

  lemma NaiveSchemes(scheme: string)
    ensures KindOf(scheme).NaiveLink? <==> scheme in {"http2", "http3", "naive", "https", "naive+https", "naive+quic"}
  {}

  // The credentials that the link's scheme needs are there.
  predicate Credited(scheme: string, user: string, password: string, r: Outbound) {
    if scheme in {"vless", "vmess", "trojan", "hysteria2", "hy2", "anytls", "shadowtls"} then user != "" || password != ""
    else if scheme == "tuic" then user != "" && password != ""
    else if scheme == "ss" then r.password != "" && SupportedSSMethod(r.cipher) && (r.transport == "shadowtls" ==> r.obfsPassword != "")
    else scheme in {"http", "socks", "socks5", "naive", "http2", "http3", "https", "naive+https", "naive+quic", "tcp", "udp", "direct"}
  }

  // What the kind of a link says about the protocol of its node.
  lemma KindMeaning(scheme: string)
    ensures var k, p := KindOf(scheme), ProtocolOf(scheme);
      && (k.UuidLink? <==> scheme in {"vless", "vmess"}) && (k.UuidLink? ==> p.Vless? || p.Vmess?)
      && (k.PasswordLink? <==> scheme in {"trojan", "hysteria2", "hy2", "anytls", "shadowtls"})
      && (k.PasswordLink? ==> p.Trojan? || p.Hysteria2? || p.Anytls? || p.Shadowtls?)
      && (k.TuicLink? <==> scheme == "tuic") && (k.TuicLink? ==> p.Tuic?)
      && (k.SsLink? <==> scheme == "ss") && (k.SsLink? ==> p.Shadowsocks?)
  {}

  lemma PlainKindMeaning(scheme: string)
    ensures var k, p := KindOf(scheme), ProtocolOf(scheme);
      && (k.NaiveLink? <==> scheme in {"http2", "http3", "naive", "https", "naive+https", "naive+quic"})
      && (k.PlainLink? ==>
            && (SupportedOutbound(p) && !p.Shadowsocks? <==> scheme in {"http", "socks", "socks5", "tcp", "udp", "direct"})
            && (SupportedOutbound(p) ==> p.Shadowsocks? || p.Http? || p.Socks? || p.Socks5? || p.Tcp? || p.Udp? || p.Direct?))
  {}

  lemma CreditedUser(o: Outbound, scheme: string, user: string, password: string, query: Values, d: Decoders)
    requires o.protocol == ProtocolOf(scheme) && o.uuid == "" && o.password == "" && o.cipher == ""
    ensures var r := WithUser(o, KindOf(scheme), scheme, user, password, query, d);
      OutboundOk(r) <==> Credited(scheme, user, password, r)
  {
    hide Get, SSUserinfo, DecodeAny, SupportedSSMethod, First3, KindOf, ProtocolOf;
    KindMeaning(scheme);
    PlainKindMeaning(scheme);
    NoMethod();
    match KindOf(scheme) {
      case SsLink => hide Credited; CreditedSs(o, scheme, user, password, query, d);
      case _ =>
    }
  }

  lemma CreditedSs(o: Outbound, scheme: string, user: string, password: string, query: Values, d: Decoders)
    requires o.protocol == Shadowsocks && scheme == "ss"
    ensures var r := WithUser(o, SsLink, scheme, user, password, query, d);
      OutboundOk(r) <==> Credited(scheme, user, password, r)
  {
    hide Get, SSUserinfo, DecodeAny, SupportedSSMethod, First3, KindOf, ProtocolOf;
  }

  lemma NoMethod()
    ensures !SupportedSSMethod("")
  {}

  /**
   A link is refused exactly when it has no port or no host, and the node it gives passes validation exactly when the
   credentials are there that its scheme needs.
   */
  lemma BuiltIsAcceptableIff(u: Url, raw: string, d: Decoders)
    ensures AllDigits(PortText(u.host))
    ensures Build(u, raw, d).None? <==> PortNumber(PortText(u.host)) == 0 || Hostname(u.host) == ""
    ensures var r := Build(u, raw, d);
      var user := if u.user.Some? then u.user.value.name else "";
      var password := if u.user.Some? && u.user.value.password.Some? then u.user.value.password.value else "";
      r.Some? ==> (OutboundOk(r.value) <==> Credited(u.scheme, user, password, r.value))
  {
    hide WithUser, FromQuery, ParseQuery, LinkName, ProtocolOf, KindOf, Credited, OutboundOk, Value, Hostname, PortText;
    PortTextDigits(u.host);
    var query := ParseQuery(u.rawQuery);
    var user := if u.user.Some? then u.user.value.name else "";
    var password := if u.user.Some? && u.user.value.password.Some? then u.user.value.password.value else "";
    var base := FromQuery(raw, query).(
                  name := LinkName(u, query), protocol := ProtocolOf(u.scheme), address := Hostname(u.host), port := PortNumber(PortText(u.host)));
    assert FromQuery(raw, query).uuid == "" && FromQuery(raw, query).password == "" && FromQuery(raw, query).cipher == "" by { NoCredentialsInQuery(raw, query); }
    CreditedUser(base, u.scheme, user, password, query, d);
  }

  lemma NoCredentialsInQuery(raw: string, query: Values)
    ensures var r := FromQuery(raw, query); r.uuid == "" && r.password == "" && r.cipher == ""
  {
    hide Get, XtlsFlow, AtoiOr, EqualFold;
  }

  /* ----- when the name comes back ----- */

  predicate EscapeAt(s: string, i: nat)
    requires i < |s|
  {
    i + 2 < |s| && IsHex(s[i + 1]) && IsHex(s[i + 2])
  }

  // Some "%" is not followed by two hexadecimal digits.
  predicate Malformed(s: string) {
    exists i :: 0 <= i < |s| && s[i] == '%' && !EscapeAt(s, i)
  }

  lemma MalformedAfter(s: string, n: nat)
    requires n <= |s| && forall i :: 0 <= i < n && s[i] == '%' ==> EscapeAt(s, i)
    ensures Malformed(s) <==> Malformed(s[n..])
  {
    forall i | 0 <= i < |s[n..]|
      ensures s[n..][i] == s[n + i] && (EscapeAt(s[n..], i) <==> EscapeAt(s, n + i))
    {}
    if Malformed(s) {
      var i :| 0 <= i < |s| && s[i] == '%' && !EscapeAt(s, i);
      assert s[n..][i - n] == '%' && !EscapeAt(s[n..], i - n);
    }
    if Malformed(s[n..]) {
      var i :| 0 <= i < |s[n..]| && s[n..][i] == '%' && !EscapeAt(s[n..], i);
      assert s[n + i] == '%' && !EscapeAt(s, n + i);
    }
  }

  lemma {:induction false} UnescapeFailsIff(s: string)
    ensures Unescape(QueryPart, s).None? <==> Malformed(s)
  {
    if s == [] {
    } else if s[0] != '%' {
      UnescapeFailsIff(s[1..]);
      MalformedAfter(s, 1);
    } else if EscapeAt(s, 0) {
      assert s[1] != '%' && s[2] != '%';
      UnescapeFailsIff(s[3..]);
      MalformedAfter(s, 3);
    }
  }

  lemma {:induction false} UnescapeIdentityIff(s: string)
    ensures Unescape(QueryPart, s) == Some(s) <==> '%' !in s && '+' !in s
    ensures '%' !in s ==> Unescape(QueryPart, s).Some?
    ensures '%' in s && Unescape(QueryPart, s).Some? ==> |Unescape(QueryPart, s).value| < |s|
  {
    if s != [] {
      assert s == [s[0]] + s[1..];
      if s[0] == '%' {
        if |s| >= 3 {
          UnescapeShortens(QueryPart, s[3..]);
        }
      } else {
        UnescapeIdentityIff(s[1..]);
      }
    }
  }

  /**
   The name survives exactly when it has neither "+" nor "%" in it, or, if some "%" in it is not an escape, when it
   has no space in it.
   */
  lemma NameSurvivesIff(name: string)
    ensures RecoveredName(name) == name <==>
            if Malformed(PlusForSpace(name)) then ' ' !in name else '%' !in name && '+' !in name
  {
    hide Unescape, Malformed;
    var g := PlusForSpace(name);
    UnescapeFailsIff(g);
    UnescapeIdentityIff(g);
    PlusForSpaceIff(name);
    if !Malformed(g) {
      PlusRead(name);
      assert '%' in g <==> '%' in name by { SamePercent(name); }
    }
  }

  /** A node called "a+b" comes back as "a b". */
  lemma PlusDoesNotSurvive()
    ensures RecoveredName("a+b") == "a b"
  {
    assert PlusForSpace("a+b") == "a+b";
    assert "a+b"[1..] == "+b" && "+b"[1..] == "b" && "b"[1..] == "";
  }

  lemma PlusForSpaceIff(s: string)
    ensures PlusForSpace(s) == s <==> ' ' !in s
  {
    if ' ' in s {
      var i :| 0 <= i < |s| && s[i] == ' ';
      assert PlusForSpace(s)[i] == '+';
    }
  }

  lemma SamePercent(s: string)
    ensures '%' in PlusForSpace(s) <==> '%' in s
  {
    if '%' in s {
      var i :| 0 <= i < |s| && s[i] == '%';
      assert PlusForSpace(s)[i] == '%';
    }
  }

  // Without a "%", reading turns every "+" into a space, those that were spaces and those that were not.
  lemma {:induction false} PlusRead(s: string)
    ensures '%' !in s ==> Unescape(QueryPart, PlusForSpace(s)).Some? && (Unescape(QueryPart, PlusForSpace(s)).value == s <==> '+' !in s)
    ensures '%' in s && Unescape(QueryPart, PlusForSpace(s)).Some? ==> |Unescape(QueryPart, PlusForSpace(s)).value| < |s|
  {
    UnescapeIdentityIff(PlusForSpace(s));
    SamePercent(s);
    if s != [] && '%' !in s {
      var g := PlusForSpace(s);
      assert g[1..] == PlusForSpace(s[1..]);
      assert s == [s[0]] + s[1..];
      PlusRead(s[1..]);
      assert g[0] != '%';
    }
  }
}
