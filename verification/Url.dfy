/**
 The parts of Go's net/url that share links go through: percent-encoding (section 2.1 of RFC 3986), the authority
 (section 3.2) and query strings.

 Only URLs with a scheme are told apart from errors, since a link without one is refused either way; a host in
 brackets is taken as it stands.
 */
module Url {
  import opened Text
  import opened Base64

  datatype Part = QueryPart | FragmentPart | UserPart | HostPart | PathPart

  /* ----- percent-encoding ----- */

  predicate IsLetter(c: char) { 'a' <= c <= 'z' || 'A' <= c <= 'Z' }

  predicate Unreserved(c: char) {
    IsLetter(c) || IsDigit(c) || c == '-' || c == '_' || c == '.' || c == '~'
  }

  // What `escape` leaves alone in a query component, respectively in a fragment.
  predicate Plain(part: Part, c: char) {
    Unreserved(c) || (part.FragmentPart? && c in "$&+,/:;=?@!()*")
  }

  // What may stand unescaped in a host.
  predicate PlainInHost(c: char) {
    Unreserved(c) || c in "!$&'()*+,;=:[]<>\"" || c as int >= 128
  }

  function HexDigit(n: nat): char {
    var d := n % 16;
    if d < 10 then ('0' as int + d) as char else ('A' as int + d - 10) as char
  }

  predicate IsHex(c: char) {
    IsDigit(c) || 'a' <= c <= 'f' || 'A' <= c <= 'F'
  }

  function Unhex(c: char): (n: nat)
    requires IsHex(c)
    ensures n < 16
  {
    if IsDigit(c) then c as int - '0' as int
    else if 'a' <= c <= 'f' then c as int - 'a' as int + 10
    else c as int - 'A' as int + 10
  }

  function EscapeChar(part: Part, c: char): string {
    if c == ' ' && part.QueryPart? then "+"
    else if Plain(part, c) then [c]
    else ['%', HexDigit(c as int / 16), HexDigit(c as int)]
  }

  function Escape(part: Part, s: string): string {
    if s == [] then "" else EscapeChar(part, s[0]) + Escape(part, s[1..])
  }

  function QueryEscape(s: string): string {
    Escape(QueryPart, s)
  }

  function Unescape(part: Part, s: string): Option<string> {
    if s == [] then Some("")
    else if s[0] == '%' then
      if |s| < 3 || !IsHex(s[1]) || !IsHex(s[2]) then None
      else
        var c := (Unhex(s[1]) * 16 + Unhex(s[2])) as char;
        if part.HostPart? && Unhex(s[1]) < 8 && s[..3] != "%25" then None
        else Prepend(c, Unescape(part, s[3..]))
    else if part.HostPart? && !PlainInHost(s[0]) then None
    else Prepend(if s[0] == '+' && part.QueryPart? then ' ' else s[0], Unescape(part, s[1..]))
  }

  function Prepend(c: char, s: Option<string>): Option<string> {
    if s.None? then None else Some([c] + s.value)
  }

  lemma {:induction false} UnescapeShortens(part: Part, s: string)
    ensures var d := Unescape(part, s); d.Some? ==> |d.value| <= |s|
  {
    if s == [] {
    } else if s[0] == '%' {
      if |s| >= 3 {
        UnescapeShortens(part, s[3..]);
      }
    } else {
      UnescapeShortens(part, s[1..]);
    }
  }

  lemma HexRoundTrip(c: char)
    requires c as int < 256
    ensures IsHex(HexDigit(c as int / 16)) && IsHex(HexDigit(c as int))
    ensures (Unhex(HexDigit(c as int / 16)) * 16 + Unhex(HexDigit(c as int))) as char == c
  {
    HexDigitValue(c as int / 16);
    HexDigitValue(c as int);
  }

  lemma HexDigitValue(n: nat)
    ensures IsHex(HexDigit(n)) && Unhex(HexDigit(n)) == n % 16
  {}

  function PlusForSpace(s: string): string {
    seq(|s|, i requires 0 <= i < |s| => if s[i] == ' ' then '+' else s[i])
  }

  // What comes back of a query-escaped text that is unescaped as another part of a URL: only there "+" is a space.
  function ReadAs(part: Part, s: string): string {
    if part.QueryPart? then s else PlusForSpace(s)
  }

  lemma UnescapeChar(part: Part, c: char, rest: string)
    requires c as int < 256 && !part.HostPart?
    ensures Unescape(part, EscapeChar(QueryPart, c) + rest) ==
            Prepend(if c == ' ' && !part.QueryPart? then '+' else c, Unescape(part, rest))
  {
    hide HexDigit, Unhex, IsHex;
    var e := EscapeChar(QueryPart, c);
    HexRoundTrip(c);
    assert (e + rest)[|e|..] == rest;
    assert (e + rest)[0] == e[0];
    if |e| == 3 {
      assert (e + rest)[1] == e[1] && (e + rest)[2] == e[2];
    }
  }

  lemma {:induction false} UnescapeQueryEscape(part: Part, s: string)
    requires IsBytes(s) && !part.HostPart?
    ensures Unescape(part, QueryEscape(s)) == Some(ReadAs(part, s))
  {
    hide EscapeChar, Unescape;
    if s == [] {
      assert Unescape(part, "") == Some("") by { UnescapePlain(part, ""); }
    } else {
      var c, rest := s[0], s[1..];
      assert c in s && forall x :: x in rest ==> x in s;
      UnescapeQueryEscape(part, rest);
      UnescapeChar(part, c, QueryEscape(rest));
      assert [c] + rest == s;
      assert ReadAs(part, s) == [if c == ' ' && !part.QueryPart? then '+' else c] + ReadAs(part, rest);
    }
  }

  // The characters a query-escaped text is made of.
  predicate EscapedChar(c: char) {
    Unreserved(c) || c == '%' || c == '+'
  }

  lemma {:induction false} QueryEscapeChars(s: string)
    ensures forall c :: c in QueryEscape(s) ==> EscapedChar(c)
  {
    if s != [] {
      QueryEscapeChars(s[1..]);
      HexDigitValue(s[0] as int / 16);
      HexDigitValue(s[0] as int);
    }
  }

  lemma UnreservedIsPlain(c: char)
    requires Unreserved(c) || c == ':'
    ensures PlainInHost(c) && c != '%' && c != '+'
  {}

  lemma {:induction false} UnescapePlain(part: Part, s: string)
    requires forall c :: c in s ==> Unreserved(c) || c == ':'
    ensures Unescape(part, s) == Some(s)
  {
    hide Unreserved, IsHex, Unhex;
    if s != [] {
      UnreservedIsPlain(s[0]);
      assert s[0] in s && forall c :: c in s[1..] ==> c in s;
      UnescapePlain(part, s[1..]);
      assert s == [s[0]] + s[1..];
    }
  }

  /* ----- query strings ----- */

  // A query as the sorted list of its keys and values.
  type Values = seq<(string, string)>

  /** `Values.Set`, keeping the keys in order. */
  function Set(values: Values, key: string, value: string): Values {
    if values == [] || Less(key, values[0].0) then [(key, value)] + values
    else if values[0].0 == key then [(key, value)] + values[1..]
    else [values[0]] + Set(values[1..], key, value)
  }

  /** `Values.Get`. */
  function Get(values: Values, key: string): string {
    if values == [] then "" else if values[0].0 == key then values[0].1 else Get(values[1..], key)
  }

  lemma {:induction false} GetSet(values: Values, key: string, value: string, other: string)
    ensures Get(Set(values, key, value), other) == if other == key then value else Get(values, other)
  {
    if values != [] && !Less(key, values[0].0) && values[0].0 != key {
      GetSet(values[1..], key, value, other);
    }
  }

  ghost predicate BytesValues(values: Values) {
    forall i :: 0 <= i < |values| ==> IsBytes(values[i].0) && IsBytes(values[i].1)
  }

  lemma {:induction false} SetBytes(values: Values, key: string, value: string)
    requires BytesValues(values) && IsBytes(key) && IsBytes(value)
    ensures BytesValues(Set(values, key, value))
  {
    if values != [] && !Less(key, values[0].0) && values[0].0 != key {
      SetBytes(values[1..], key, value);
    }
  }

  function EncodePair(pair: (string, string)): string {
    QueryEscape(pair.0) + "=" + QueryEscape(pair.1)
  }

  /** `Values.Encode`. */
  function EncodeValues(values: Values): string {
    if values == [] then ""
    else if |values| == 1 then EncodePair(values[0])
    else EncodePair(values[0]) + "&" + EncodeValues(values[1..])
  }

  function ParsePair(text: string): Option<(string, string)> {
    var key := Unescape(QueryPart, BeforeFirst(text, '='));
    var value := Unescape(QueryPart, AfterFirst(text, '='));
    if text == "" || ';' in text || key.None? || value.None? then None else Some((key.value, value.value))
  }

  function ParsePairs(texts: seq<string>): Values {
    if texts == [] then []
    else
      var pair := ParsePair(texts[0]);
      (if pair.None? then [] else [pair.value]) + ParsePairs(texts[1..])
  }

  /** `url.ParseQuery`; what cannot be read is left out. */
  function ParseQuery(query: string): Values {
    ParsePairs(Split(query, '&'))
  }

  lemma ParseEncodedPair(pair: (string, string))
    requires IsBytes(pair.0) && IsBytes(pair.1)
    ensures ParsePair(EncodePair(pair)) == Some(pair)
    ensures forall c :: c in EncodePair(pair) ==> EscapedChar(c) || c == '='
  {
    hide EscapeChar, Escape;
    QueryEscapeChars(pair.0);
    QueryEscapeChars(pair.1);
    assert EncodePair(pair) == QueryEscape(pair.0) + ['='] + QueryEscape(pair.1);
    CutAt(QueryEscape(pair.0), '=', QueryEscape(pair.1));
    UnescapeQueryEscape(QueryPart, pair.0);
    UnescapeQueryEscape(QueryPart, pair.1);
  }

  lemma {:induction false} ParseEncodedValues(values: Values)
    requires BytesValues(values)
    ensures ParseQuery(EncodeValues(values)) == values
    ensures forall c :: c in EncodeValues(values) ==> EscapedChar(c) || c == '=' || c == '&'
  {
    hide ParsePair, EncodePair, EscapedChar;
    if values == [] {
      assert ParsePairs([""]) == (if ParsePair("").None? then [] else [ParsePair("").value]) + ParsePairs([]);
      NoPairInNothing();
    } else {
      var head, rest := EncodePair(values[0]), values[1..];
      ParseEncodedPair(values[0]);
      assert '&' !in head by { AmpersandIsNotEscaped(); }
      if rest == [] {
        SplitNone(head, '&');
        assert ParsePairs([head]) == [values[0]] + ParsePairs([]);
      } else {
        ParseEncodedValues(rest);
        SplitFirst(head, '&', EncodeValues(rest));
        assert head + "&" + EncodeValues(rest) == head + ['&'] + EncodeValues(rest);
        assert ([head] + Split(EncodeValues(rest), '&'))[1..] == Split(EncodeValues(rest), '&');
      }
    }
  }

  lemma NoPairInNothing()
    ensures ParsePair("").None?
  {}

  lemma AmpersandIsNotEscaped()
    ensures !EscapedChar('&')
  {}

  /* ----- URLs ----- */

  datatype User = User(name: string, password: Option<string>)

  datatype Url = Url(scheme: string, nonHierarchical: string, user: Option<User>, host: string, path: string, rawQuery: string,
                     fragment: string, rawFragment: string)

  predicate SchemeChar(c: char) {
    IsLetter(c) || IsDigit(c) || c == '+' || c == '-' || c == '.'
  }

  predicate ValidScheme(s: string) {
    s != [] && IsLetter(s[0]) && forall c :: c in s ==> SchemeChar(c)
  }

  predicate Control(c: char) {
    c as int < 32 || c as int == 127
  }

  function LastIndex(s: string, c: char): (i: int)
    ensures -1 <= i < |s|
    ensures i >= 0 ==> s[i] == c
    ensures forall j :: i < j < |s| ==> s[j] != c
  {
    if s == [] then -1 else if s[|s| - 1] == c then |s| - 1 else LastIndex(s[..|s| - 1], c)
  }

  lemma LastIndexAt(a: string, c: char, b: string)
    requires c !in b
    ensures LastIndex(a + [c] + b, c) == |a|
  {
    hide LastIndex;
    var s := a + [c] + b;
    assert s[|a|] == c;
    assert s[|a| + 1..] == b;
    forall j | |a| < j < |s|
      ensures s[j] != c
    {
      assert s[j] == s[|a| + 1..][j - |a| - 1];
      assert b[j - |a| - 1] in b;
    }
  }

  predicate UserinfoChar(c: char) {
    IsLetter(c) || IsDigit(c) || c in "-._:~!$&'()*+,;=%@"
  }

  function ParseUser(userinfo: string): Option<User> {
    if exists c :: c in userinfo && !UserinfoChar(c) then None
    else if ':' !in userinfo then
      var name := Unescape(UserPart, userinfo);
      if name.None? then None else Some(User(name.value, None))
    else
      var name := Unescape(UserPart, BeforeFirst(userinfo, ':'));
      var password := Unescape(UserPart, AfterFirst(userinfo, ':'));
      if name.None? || password.None? then None else Some(User(name.value, password))
  }

  /** `parseHost`: at most one colon, and a number behind it. */
  function ParseHost(host: string): Option<string> {
    if '[' in host then Some(host)
    else
      var i := LastIndex(host, ':');
      if i >= 0 && (!AllDigits(host[i + 1..]) || ':' in host[..i]) then None else Unescape(HostPart, host)
  }

  function ParseAuthority(authority: string): Option<(Option<User>, string)> {
    var at := LastIndex(authority, '@');
    var host := ParseHost(authority[at + 1..]);
    if host.None? then None
    else if at < 0 then Some((None, host.value))
    else
      var user := ParseUser(authority[..at]);
      if user.None? then None else Some((user, host.value))
  }

  // The part between the scheme and the query: opaque, or an authority and a path.
  function AuthorityOf(hier: string): string {
    if |hier| >= 2 && hier[..2] == "//" then BeforeFirst(hier[2..], '/') else ""
  }

  function PathOf(hier: string): string {
    if |hier| >= 2 && hier[..2] == "//" then hier[2..][Index(hier[2..], '/')..] else hier
  }

  function ParseHierarchy(scheme: string, hier: string, query: string, fragment: string, rawFragment: string): Option<Url> {
    if hier == [] || hier[0] != '/' then Some(Url(scheme, hier, None, "", "", query, fragment, rawFragment))
    else
      var a := ParseAuthority(AuthorityOf(hier));
      var path := Unescape(PathPart, PathOf(hier));
      if a.None? || path.None? then None
      else Some(Url(scheme, "", a.value.0, a.value.1, path.value, query, fragment, rawFragment))
  }

  predicate HasControl(s: string) {
    exists c :: c in s && Control(c)
  }

  function ParseFragmented(u: string, frag: string): Option<Url> {
    var colon := Index(u, ':');
    var fragment := Unescape(FragmentPart, frag);
    if HasControl(u) || colon == |u| || !ValidScheme(u[..colon]) || fragment.None? then None
    else
      var rest := u[colon + 1..];
      ParseHierarchy(ToLower(u[..colon]), BeforeFirst(rest, '?'), AfterFirst(rest, '?'), fragment.value, RawFragment(fragment.value, frag))
  }

  // Kept only when it is not the default spelling of the fragment.
  function RawFragment(fragment: string, frag: string): string {
    if Escape(FragmentPart, fragment) == frag then "" else frag
  }

  /** `url.Parse` of a URL with a scheme. */
  function Parse(raw: string): Option<Url> {
    ParseFragmented(BeforeFirst(raw, '#'), AfterFirst(raw, '#'))
  }

  function StripBrackets(host: string): string {
    if |host| >= 2 && host[0] == '[' && host[|host| - 1] == ']' then host[1..|host| - 1] else host
  }

  function Hostname(host: string): string {
    var i := LastIndex(host, ':');
    StripBrackets(if i >= 0 && AllDigits(host[i + 1..]) then host[..i] else host)
  }

  function PortText(host: string): string {
    var i := LastIndex(host, ':');
    if i >= 0 && AllDigits(host[i + 1..]) then host[i + 1..] else ""
  }

  /* ----- reading a link that was put together ----- */

  lemma BeforeFirstAppend(a: string, b: string, c: char)
    requires c !in a
    ensures BeforeFirst(a + b, c) == a + BeforeFirst(b, c) && AfterFirst(a + b, c) == AfterFirst(b, c)
  {
    var i := Index(b, c);
    assert (a + b)[..|a| + i] == a + b[..i];
    IndexIs(a + b, c, |a| + i);
  }

  // The query with its question mark, if there is one.
  predicate QuerySuffix(s: string) {
    s == "" || s[0] == '?'
  }

  function QueryOf(suffix: string): string {
    if suffix == "" then "" else suffix[1..]
  }

  lemma SchemeLower(scheme: string)
    requires ValidScheme(scheme)
    ensures ':' !in scheme && '#' !in scheme && !HasControl(scheme)
  {}

  lemma ControlAppend(a: string, b: string)
    ensures HasControl(a + b) <==> HasControl(a) || HasControl(b)
  {
    if HasControl(a) {
      var c :| c in a && Control(c);
      assert c in a + b;
    }
    if HasControl(b) {
      var c :| c in b && Control(c);
      assert c in a + b;
    }
  }

  lemma ParseSchemed(scheme: string, rest: string, frag: string)
    requires ValidScheme(scheme) && ToLower(scheme) == scheme
    ensures ParseFragmented(scheme + [':'] + rest, frag) ==
      if HasControl(rest) || Unescape(FragmentPart, frag).None? then None
      else ParseHierarchy(scheme, BeforeFirst(rest, '?'), AfterFirst(rest, '?'), Unescape(FragmentPart, frag).value,
                          RawFragment(Unescape(FragmentPart, frag).value, frag))
  {
    hide Unescape, ParseHierarchy, Index, ToLower, BeforeFirst, AfterFirst, RawFragment;
    var u := scheme + [':'] + rest;
    SchemeLower(scheme);
    CutAt(scheme, ':', rest);
    assert u[..|scheme|] == scheme && u[|scheme| + 1..] == rest;
    hide ValidScheme, HasControl;
    ControlAppend(scheme + [':'], rest);
    ControlAppend(scheme, [':']);
    assert !HasControl([':']) by { ColonIsNoControl(); }
  }

  lemma ColonIsNoControl()
    ensures !HasControl([':']) && !HasControl("//")
  {}

  lemma HierarchyParts(authority: string, path: string)
    requires '/' !in authority && (path == "" || path[0] == '/')
    ensures AuthorityOf("//" + authority + path) == authority && PathOf("//" + authority + path) == path
  {
    var hier := "//" + authority + path;
    var tail := hier[2..];
    assert tail == authority + path;
    assert tail[..|authority|] == authority;
    IndexIs(tail, '/', |authority|);
  }

  /** A link made of a scheme, an authority, a query and a fragment is taken apart into these. */
  lemma ParseLink(scheme: string, authority: string, suffix: string, frag: string)
    requires ValidScheme(scheme) && ToLower(scheme) == scheme && QuerySuffix(suffix)
    requires forall c :: c in authority ==> c != '#' && c != '/' && c != '?'
    requires !HasControl(authority) && !HasControl(suffix) && '#' !in suffix
    requires ParseAuthority(authority).Some? && Unescape(FragmentPart, frag).Some?
    ensures var u := Parse(scheme + "://" + authority + suffix + "#" + frag);
      && u.Some?
      && u.value.scheme == scheme && u.value.nonHierarchical == "" && u.value.path == ""
      && (u.value.user, u.value.host) == ParseAuthority(authority).value
      && u.value.rawQuery == QueryOf(suffix)
      && u.value.fragment == Unescape(FragmentPart, frag).value
      && u.value.rawFragment == RawFragment(u.value.fragment, frag)
  {
    hide ParseAuthority, Unescape, ValidScheme, HasControl, AuthorityOf, PathOf, ToLower, Index, BeforeFirst, AfterFirst, QuerySuffix, QueryOf,
         ParseFragmented, RawFragment;
    var rest := "//" + authority + suffix;
    var u := scheme + [':'] + rest;
    SchemeLower(scheme);
    assert scheme + "://" + authority + suffix + "#" + frag == u + ['#'] + frag;
    CutAt(u, '#', frag);
    ParseSchemed(scheme, rest, frag);
    ControlAppend("//" + authority, suffix);
    ControlAppend("//", authority);
    ColonIsNoControl();
    CutQuery("//" + authority, suffix);
    assert "//" + authority + "" == "//" + authority;
    HierarchyParts(authority, "");
    assert Unescape(PathPart, "") == Some("") by { UnescapePlain(PathPart, ""); }
  }

  lemma CutQuery(hier: string, suffix: string)
    requires '?' !in hier && QuerySuffix(suffix)
    ensures BeforeFirst(hier + suffix, '?') == hier && AfterFirst(hier + suffix, '?') == QueryOf(suffix)
  {
    if suffix == "" {
      assert hier + suffix == hier;
      NoCut(hier, '?');
    } else {
      assert hier + suffix == hier + ['?'] + suffix[1..];
      CutAt(hier, '?', suffix[1..]);
    }
  }

  /* ----- a link put together from decoded text ----- */

  lemma {:induction false} ParseHostShortens(host: string)
    ensures ParseHost(host).Some? ==> |ParseHost(host).value| <= |host|
  {
    UnescapeShortens(HostPart, host);
  }

  // The part of the decoded text that comes before the query of a rebuilt link.
  lemma RebuiltHierarchy(decoded: string, query: string, frag: string)
    ensures |BeforeFirst(BeforeFirst(decoded + "?" + query + "#" + frag, '#'), '?')| <= |decoded|
  {
    var tail := decoded + "?" + query + "#" + frag;
    var x := BeforeFirst(tail, '#');
    assert |x| > |decoded| ==> x[|decoded|] == tail[|decoded|] == '?';
  }

  lemma ParseHierarchyShort(scheme: string, y: string, query: string, fragment: string, rawFragment: string)
    ensures var u := ParseHierarchy(scheme, "//" + y, query, fragment, rawFragment);
      u.Some? ==> u.value.nonHierarchical == "" && |u.value.host| <= |y|
  {
    hide Unescape, ParseAuthority, Index, AuthorityOf, PathOf, BeforeFirst;
    var authority := BeforeFirst(y, '/');
    assert AuthorityOf("//" + y) == authority && |authority| <= |y| by { AuthorityOfRebuilt(y); }
    ParseAuthorityShortens(authority);
  }

  lemma ParseAuthorityShortens(authority: string)
    ensures var a := ParseAuthority(authority); a.Some? ==> |a.value.1| <= |authority|
  {
    hide ParseHost, ParseUser, LastIndex;
    ParseHostShortens(authority[LastIndex(authority, '@') + 1..]);
  }

  lemma AuthorityOfRebuilt(y: string)
    ensures AuthorityOf("//" + y) == BeforeFirst(y, '/') && |BeforeFirst(y, '/')| <= |y|
  {
    assert ("//" + y)[2..] == y && ("//" + y)[..2] == "//";
  }

  /** However the decoded text is cut when a link is rebuilt from it, the host that comes out of it is not longer. */
  lemma RebuiltHost(scheme: string, decoded: string, query: string, frag: string)
    requires ValidScheme(scheme) && ToLower(scheme) == scheme
    ensures var u := Parse(scheme + "://" + decoded + "?" + query + "#" + frag);
      u.Some? ==> u.value.nonHierarchical == "" && |u.value.host| <= |decoded|
  {
    hide Unescape, ValidScheme, ParseHierarchy, Index, ToLower, BeforeFirst, AfterFirst, HasControl, RawFragment, ParseFragmented;
    var tail := decoded + "?" + query + "#" + frag;
    var x, f := BeforeFirst(tail, '#'), AfterFirst(tail, '#');
    SchemeLower(scheme);
    assert scheme + "://" + decoded + "?" + query + "#" + frag == (scheme + "://") + tail;
    BeforeFirstAppend(scheme + "://", tail, '#');
    assert scheme + "://" + x == scheme + [':'] + ("//" + x);
    ParseSchemed(scheme, "//" + x, f);
    BeforeFirstAppend("//", x, '?');
    RebuiltHierarchy(decoded, query, frag);
    if Unescape(FragmentPart, f).Some? {
      var fragment := Unescape(FragmentPart, f).value;
      ParseHierarchyShort(scheme, BeforeFirst(x, '?'), AfterFirst("//" + x, '?'), fragment, RawFragment(fragment, f));
    }
  }

  /** How the library writes some characters in a query and in a fragment. */
  lemma EscapeExamples()
    ensures EscapeChar(QueryPart, ' ') == "+" && EscapeChar(QueryPart, '/') == "%2F" && EscapeChar(QueryPart, '~') == "~"
    ensures EscapeChar(QueryPart, '%') == "%25" && EscapeChar(QueryPart, 0xE9 as char) == "%E9"
    ensures EscapeChar(FragmentPart, ' ') == "%20" && EscapeChar(FragmentPart, '/') == "/" && EscapeChar(FragmentPart, '#') == "%23"
  {}
}
