/**
 Links whose user information, host and port are encoded as one word, as some clients write them: the parser decodes
 the word, puts the link together again and starts over.
 */
module Wrapping {
  import opened Text
  import opened Config
  import opened Base64
  import opened Url
  import opened LinkQuery
  import opened Links

  // The word in the place of the host.
  function Wrapped(o: Outbound): string {
    EncodeRaw(UrlSafe, Userinfo(o) + "@" + HostPort(o))
  }

  function WrappedLink(o: Outbound): string {
    SchemeOf(o.protocol) + "://" + Wrapped(o) + Suffix(o) + "#" + QueryEscape(o.name)
  }

  // The fragment that the parser keeps for the rebuilt link: none, unless it is not the library's own way to write it.
  function KeptFragment(name: string): string {
    RawFragment(PlusForSpace(name), QueryEscape(name))
  }

  lemma AuthorityBytes(o: Outbound)
    requires Shared(o)
    ensures IsBytes(Userinfo(o) + "@" + HostPort(o))
  {
    hide UserinfoSafe, Userinfo, HostPort;
    UserRoundTrip(o);
    HostPortParts(o);
    var a := Userinfo(o) + "@" + HostPort(o);
    forall c | c in a
      ensures c as int < 256
    {
      if c in Userinfo(o) {
        SafeIsByte(c);
      }
    }
  }

  lemma SafeIsByte(c: char)
    requires UserinfoSafe(c)
    ensures c as int < 256
  {}

  // The word is read as a host without user information or port.
  lemma WrappedAuthority(o: Outbound)
    requires Shared(o)
    ensures ParseAuthority(Wrapped(o)) == Some((None, Wrapped(o))) && Wrapped(o) != ""
    ensures DecodeAny(Wrapped(o)) == Some(Userinfo(o) + "@" + HostPort(o))
    ensures forall c :: c in Wrapped(o) ==> c != '#' && c != '/' && c != '?' && !Control(c)
  {
    hide EncodeRaw, DecodeAny, Userinfo, HostPort, Unescape;
    var text := Userinfo(o) + "@" + HostPort(o);
    AuthorityBytes(o);
    DecodeAnyInvertsAll(Encoding(UrlSafe, false), text);
    EncodeRawChars(UrlSafe, text);
    UrlSafeChars(text);
    var w := EncodeRaw(UrlSafe, text);
    WordChars(w);
    LastIndexNone(w, '@');
    LastIndexNone(w, ':');
    UnescapePlain(HostPart, w);
    assert w[0..] == w;
  }

  lemma WordChars(w: string)
    requires forall c :: c in w ==> InAlphabet(UrlSafe, c)
    ensures forall c :: c in w ==> Unreserved(c) && c != '@' && c != ':' && c != '[' && c != '#' && c != '/' && c != '?' && !Control(c)
  {}

  lemma LastIndexNone(s: string, c: char)
    requires c !in s
    ensures LastIndex(s, c) == -1
  {
    assert forall i :: 0 <= i < |s| ==> s[i] in s;
  }

  lemma WrappedParses(o: Outbound)
    requires Shared(o)
    ensures var u := Parse(WrappedLink(o));
      && u.Some?
      && u.value.scheme == SchemeOf(o.protocol) && u.value.nonHierarchical == "" && u.value.host == Wrapped(o)
      && u.value.rawQuery == QueryOf(Suffix(o)) && u.value.rawFragment == KeptFragment(o.name)
  {
    hide ParseAuthority, Unescape, Escape, Wrapped, Suffix, Parse, HasControl, QuerySuffix, QueryOf, Control, RawFragment;
    WrappedAuthority(o);
    SuffixRoundTrip(o);
    UnescapeQueryEscape(FragmentPart, o.name);
    assert !HasControl(Wrapped(o)) by { NoControl(Wrapped(o)); }
    SchemesAreValid(o.protocol);
    ParseLink(SchemeOf(o.protocol), Wrapped(o), Suffix(o), QueryEscape(o.name));
  }

  // The link that is put together again.
  function Rewritten(o: Outbound): string {
    SchemeOf(o.protocol) + "://" + (Userinfo(o) + "@" + HostPort(o)) + "?" + QueryOf(Suffix(o)) + "#" + KeptFragment(o.name)
  }

  lemma FragmentRead(o: Outbound)
    requires Shared(o)
    ensures Unescape(FragmentPart, KeptFragment(o.name)) == Some(if KeptFragment(o.name) == "" then "" else PlusForSpace(o.name))
  {
    hide Escape, Unescape, PlusForSpace;
    UnescapeQueryEscape(FragmentPart, o.name);
    UnescapePlain(FragmentPart, "");
  }

  lemma QuerySuffixAgain(o: Outbound)
    requires Shared(o)
    ensures QuerySuffix("?" + QueryOf(Suffix(o))) && !HasControl("?" + QueryOf(Suffix(o))) && '#' !in "?" + QueryOf(Suffix(o))
    ensures QueryOf("?" + QueryOf(Suffix(o))) == QueryOf(Suffix(o))
    ensures ParseQuery(QueryOf(Suffix(o))) == Query(o)
  {
    hide Suffix, ParseQuery, Query;
    SuffixRoundTrip(o);
    assert ("?" + QueryOf(Suffix(o)))[1..] == QueryOf(Suffix(o));
    if Suffix(o) != "" {
      assert "?" + QueryOf(Suffix(o)) == Suffix(o);
    }
  }

  lemma RewrittenParses(o: Outbound)
    requires Shared(o)
    ensures var u := Parse(Rewritten(o));
      && u.Some?
      && u.value.scheme == SchemeOf(o.protocol) && u.value.nonHierarchical == ""
      && u.value.user == Some(UserSeen(o)) && u.value.host == HostPort(o)
      && ParseQuery(u.value.rawQuery) == Query(o)
      && u.value.fragment == if KeptFragment(o.name) == "" then "" else PlusForSpace(o.name)
  {
    hide ParseAuthority, Unescape, Escape, Userinfo, HostPort, UserSeen, Suffix, Query, ParseQuery, Parse, HasControl, QuerySuffix, QueryOf, Control, KeptFragment,
         PlusForSpace;
    AuthorityRoundTrip(o);
    QuerySuffixAgain(o);
    FragmentRead(o);
    var a := Userinfo(o) + "@" + HostPort(o);
    assert !HasControl(a) by { NoControl(a); }
    SchemesAreValid(o.protocol);
    ParseLink(SchemeOf(o.protocol), a, "?" + QueryOf(Suffix(o)), KeptFragment(o.name));
    assert Rewritten(o) == SchemeOf(o.protocol) + "://" + a + ("?" + QueryOf(Suffix(o))) + "#" + KeptFragment(o.name);
  }

  // The name a wrapped link gives its node.
  function WrappedName(o: Outbound): string {
    if KeptFragment(o.name) == "" then SchemeOf(o.protocol) + "-" + o.address else RecoveredName(o.name)
  }

  lemma WrappedLinkName(u: Url, o: Outbound)
    requires Shared(o) && u.scheme == SchemeOf(o.protocol) && u.host == HostPort(o)
    requires u.fragment == if KeptFragment(o.name) == "" then "" else PlusForSpace(o.name)
    ensures LinkName(u, Query(o)) == WrappedName(o)
  {
    hide Query, Again, PlusForSpace, TrimSpace, Hostname, Get, HostPort, KeptFragment, SchemeOf;
    QueryNameless(o);
    PlusIsTrimmed(o.name);
    NothingToTrim();
    HostRoundTrip(o);
  }

  /**
   Parsing the wrapped link of a node gives the same fields as parsing its plain link does; only the name is that of the
   scheme and the address instead, whenever the fragment is written the way the library writes it.
   */
  lemma WrappedReadsSame(o: Outbound, d: Decoders)
    requires Shared(o)
    ensures var r := ParseOutboundLink(WrappedLink(o), d);
      r.Some? && Recovered(o, r.value) && r.value.name == WrappedName(o)
  {
    hide Parse, Wrapped, WrappedLink, Rewritten, Userinfo, Suffix, UserSeen, Query, ParseQuery, Build, HostPort, DecodeAny, Recovered, AsPrinted, PlusForSpace,
         WrappedName, KeptFragment, SchemeOf, QueryOf;
    WrappedParses(o);
    WrappedAuthority(o);
    SchemesAreValid(o.protocol);
    var u, text := Parse(WrappedLink(o)).value, Userinfo(o) + "@" + HostPort(o);
    assert '@' in text by { assert text[|Userinfo(o)|] == '@'; }
    assert Rebuilt(u, text) == Rewritten(o) by { RewrittenIs(o, u); }
    RebuiltPayloadShrinks(WrappedLink(o), u.host);
    assert ParseOutboundLink(WrappedLink(o), d) == ParseOutboundLink(Rewritten(o), d);
    RewrittenReads(o, d);
  }

  lemma RewrittenIs(o: Outbound, u: Url)
    requires u.scheme == SchemeOf(o.protocol) && u.rawQuery == QueryOf(Suffix(o)) && u.rawFragment == KeptFragment(o.name)
    ensures Rebuilt(u, Userinfo(o) + "@" + HostPort(o)) == Rewritten(o)
  {
    hide SchemeOf, QueryOf, Suffix, KeptFragment, Userinfo, HostPort;
  }

  lemma RewrittenReads(o: Outbound, d: Decoders)
    requires Shared(o)
    ensures var r := ParseOutboundLink(Rewritten(o), d);
      r.Some? && Recovered(o, r.value) && r.value.name == WrappedName(o)
  {
    hide Parse, Rewritten, UserSeen, Query, ParseQuery, Build, HostPort, DecodeAny, Recovered, AsPrinted, PlusForSpace, WrappedName, KeptFragment, SchemeOf;
    RewrittenParses(o);
    HostRoundTrip(o);
    SchemesAreValid(o.protocol);
    var raw := Rewritten(o);
    var u := Parse(raw).value;
    assert HostPort(o) != "" by { HostPortParts(o); }
    assert ParseOutboundLink(raw, d) == Build(u, raw, d);
    BuiltLink(u, raw, o, d);
    WrappedLinkName(u, o);
    RecoveredPrinted(o, raw, WrappedName(o));
  }

  lemma UnreservedStays(c: char)
    requires Unreserved(c)
    ensures c != ' ' && EscapeChar(FragmentPart, c) == [c] && EscapeChar(QueryPart, c) == [c]
  {}

  lemma {:induction false} PlainEscapes(name: string)
    requires forall c :: c in name ==> Unreserved(c)
    ensures Escape(FragmentPart, name) == name && QueryEscape(name) == name && PlusForSpace(name) == name
  {
    hide Unreserved, HexDigit;
    if name != [] {
      UnreservedStays(name[0]);
      assert name[0] in name && forall c :: c in name[1..] ==> c in name;
      PlainEscapes(name[1..]);
      assert name == [name[0]] + name[1..];
      assert ' ' !in name;
    }
  }

  /** The plainest of names are lost: those of letters, digits, "-", "_", "." and "~" alone. */
  lemma PlainNamesAreLost(o: Outbound, d: Decoders)
    requires Shared(o) && forall c :: c in o.name ==> Unreserved(c)
    ensures ParseOutboundLink(WrappedLink(o), d).Some? && ParseOutboundLink(WrappedLink(o), d).value.name == SchemeOf(o.protocol) + "-" + o.address
  {
    hide ParseOutboundLink, WrappedLink, Shared, SchemeOf, Escape, Unreserved;
    WrappedReadsSame(o, d);
    PlainEscapes(o.name);
  }

  /* ----- links that hold a document ----- */

  lemma ParseBare(scheme: string, authority: string, path: string)
    requires ValidScheme(scheme) && ToLower(scheme) == scheme
    requires forall c :: c in authority ==> c != '#' && c != '/' && c != '?'
    requires forall c :: c in path ==> c != '#' && c != '?'
    requires !HasControl(authority) && !HasControl(path) && (path == "" || path[0] == '/')
    requires ParseAuthority(authority).Some? && Unescape(PathPart, path).Some?
    ensures var u := Parse(scheme + "://" + authority + path);
      && u.Some?
      && u.value.scheme == scheme && u.value.nonHierarchical == ""
      && (u.value.user, u.value.host) == ParseAuthority(authority).value
      && u.value.path == Unescape(PathPart, path).value
  {
    hide ParseAuthority, Unescape, ValidScheme, HasControl, AuthorityOf, PathOf, ToLower, Index, BeforeFirst, AfterFirst, ParseFragmented, RawFragment;
    var rest := "//" + authority + path;
    var u := scheme + [':'] + rest;
    SchemeLower(scheme);
    assert scheme + "://" + authority + path == u;
    NoCut(u, '#');
    ParseSchemed(scheme, rest, "");
    ControlAppend("//" + authority, path);
    ControlAppend("//", authority);
    ColonIsNoControl();
    NoCut(rest, '?');
    HierarchyParts(authority, path);
    assert Unescape(FragmentPart, "") == Some("") by { UnescapePlain(FragmentPart, ""); }
  }

  lemma EncodedHost(e: Encoding, text: string)
    requires IsBytes(text) && text != "" && '/' !in Encode(e, text)
    ensures ParseAuthority(Encode(e, text)) == Some((None, Encode(e, text))) && Encode(e, text) != ""
    ensures forall c :: c in Encode(e, text) ==> c != '#' && c != '/' && c != '?' && !Control(c)
  {
    hide EncodeRaw, Unescape;
    var w := Encode(e, text);
    EncodeRawChars(e.alphabet, text);
    HostWordChars(e.alphabet, w);
    LastIndexNone(w, '@');
    LastIndexNone(w, ':');
    UnescapeHostWord(w);
    assert w[0..] == w;
  }

  lemma HostWordChars(a: Alphabet, w: string)
    requires forall c :: c in w ==> (InAlphabet(a, c) || c == '=') && c != '/'
    ensures forall c :: c in w ==>
      PlainInHost(c) && c != '%' && c != '@' && c != ':' && c != '[' && c != '#' && c != '?' && !Control(c)
  {}

  lemma {:induction false} UnescapeHostWord(w: string)
    requires forall c :: c in w ==> PlainInHost(c) && c != '%'
    ensures Unescape(HostPart, w) == Some(w)
  {
    if w != [] {
      assert w[0] in w && forall c :: c in w[1..] ==> c in w;
      UnescapeHostWord(w[1..]);
      assert w == [w[0]] + w[1..];
    }
  }

  /**
   A link that is a JSON document in any of the four encodings, as those of vmess are, is handed to the document's
   decoder under its scheme, provided that no "/" is in the encoding, at which the host would end, and no "@" in the
   document, which would be taken for a link.
   */
  lemma DocumentLinkReads(scheme: string, e: Encoding, text: string, d: Decoders)
    requires ValidScheme(scheme) && ToLower(scheme) == scheme && scheme != "v2rayn"
    requires IsBytes(text) && LooksLikeJson(text) && '@' !in text && '/' !in Encode(e, text)
    ensures var raw := scheme + "://" + Encode(e, text); ParseOutboundLink(raw, d) == d.share(scheme, text, raw)
  {
    hide Parse, DecodeAny, Encode, Build, ValidScheme, ToLower, ParseAuthority, TrimSpace;
    assert text != "" by { NothingToTrim(); }
    EncodedHost(e, text);
    DecodeAnyInvertsAll(e, text);
    var w := Encode(e, text);
    assert !HasControl(w) by { NoControl(w); }
    assert !HasControl("") by { NoControl(""); }
    assert Unescape(PathPart, "") == Some("") by { UnescapePlain(PathPart, ""); }
    ParseBare(scheme, w, "");
    assert scheme + "://" + w + "" == scheme + "://" + w;
  }

  /** A link of v2rayn names the protocol in the place of the host and holds the document behind the slash. */
  lemma V2raynLinkReads(protocol: string, text: string, d: Decoders)
    requires protocol != "" && forall c :: c in protocol ==> Unreserved(c)
    requires IsBytes(text) && text != ""
    ensures var raw := "v2rayn://" + protocol + "/" + EncodeRaw(UrlSafe, text);
      ParseOutboundLink(raw, d) == d.share(protocol, text, raw)
  {
    hide Parse, DecodeAny, EncodeRaw, Build, ParseAuthority, Unescape;
    var w := EncodeRaw(UrlSafe, text);
    var path := "/" + w;
    DecodeAnyInvertsAll(Encoding(UrlSafe, false), text);
    EncodeRawChars(UrlSafe, text);
    UrlSafeChars(text);
    WordChars(w);
    ProtocolAuthority(protocol);
    assert !HasControl(path) by { NoControl(w); ControlAppend("/", w); SlashIsPlain(); }
    assert Unescape(PathPart, path) == Some(path) by { UnescapeSlash(w); }
    V2raynScheme();
    ParseBare("v2rayn", protocol, path);
    assert "v2rayn" + "://" + protocol + path == "v2rayn://" + protocol + "/" + w;
    assert path[1..] == w && path[0] == '/';
  }

  lemma V2raynScheme()
    ensures ValidScheme("v2rayn") && ToLower("v2rayn") == "v2rayn"
  {
    LowerIs("v2rayn");
  }

  lemma SlashIsPlain()
    ensures !HasControl("/")
  {}

  lemma UnescapeSlash(w: string)
    requires forall c :: c in w ==> Unreserved(c)
    ensures Unescape(PathPart, "/" + w) == Some("/" + w)
  {
    UnescapePlain(PathPart, w);
    assert ("/" + w)[1..] == w;
  }

  lemma ProtocolAuthority(protocol: string)
    requires protocol != "" && forall c :: c in protocol ==> Unreserved(c)
    ensures ParseAuthority(protocol) == Some((None, protocol)) && !HasControl(protocol)
    ensures forall c :: c in protocol ==> c != '#' && c != '/' && c != '?'
  {
    hide Unescape;
    assert '@' !in protocol && ':' !in protocol && '[' !in protocol;
    LastIndexNone(protocol, '@');
    LastIndexNone(protocol, ':');
    UnescapePlain(HostPart, protocol);
    assert protocol[0..] == protocol;
  }
}
