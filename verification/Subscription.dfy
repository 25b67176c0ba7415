/**
 Texts full of share links: what a subscription serves, or what a user pastes.

 YAML and JSON documents are read by a decoder that is a parameter here.
 */
module Subscription {
  import opened Text
  import opened Config
  import opened Base64
  import opened Url
  import opened Store
  import opened Import
  import opened LinkQuery
  import opened Links

  // The outbounds listed by a YAML or JSON document, none when the text is no such document.
  type Documents = string -> seq<Outbound>

  /* ----- words ----- */

  function WordLength(s: string): (n: nat)
    ensures n <= |s|
    ensures s != [] && !IsSpace(s[0]) ==> 0 < n
  {
    if s == [] || IsSpace(s[0]) then 0 else 1 + WordLength(s[1..])
  }

  /** `strings.Fields`. */
  function Fields(s: string): seq<string>
    decreases |s|
  {
    if s == [] then []
    else if IsSpace(s[0]) then Fields(s[1..])
    else [s[..WordLength(s)]] + Fields(s[WordLength(s)..])
  }

  predicate IsQuote(c: char) { c == '"' || c == '\'' }

  function TrimLeftQuotes(s: string): string {
    if s != [] && IsQuote(s[0]) then TrimLeftQuotes(s[1..]) else s
  }

  function TrimRightQuotes(s: string): string {
    if s != [] && IsQuote(s[|s| - 1]) then TrimRightQuotes(s[..|s| - 1]) else s
  }

  function Unquoted(word: string): string {
    TrimSpace(TrimRightQuotes(TrimLeftQuotes(word)))
  }

  /* ----- links in a text ----- */

  function Candidates(words: seq<string>): seq<string> {
    if words == [] then []
    else
      var front, line := Candidates(words[..|words| - 1]), Unquoted(words[|words| - 1]);
      if Contains(line, "://") then front + [line] else front
  }

  /** A link in quotes, single or double, is read as the link. */
  lemma QuotesFallAway(link: string, first: char, last: char)
    requires link != "" && Trimmed(link) && first in {'"', '\''} && last in {'"', '\''}
    requires link[0] !in {'"', '\''} && link[|link| - 1] !in {'"', '\''}
    ensures Unquoted([first] + link + [last]) == link && Unquoted(link) == link
  {
    hide TrimSpace;
    var word := [first] + link + [last];
    var rest := link + [last];
    assert word[1..] == rest && rest[0] == link[0] && rest[..|link|] == link;
    assert TrimLeftQuotes(word) == TrimLeftQuotes(rest) == rest;
    assert TrimRightQuotes(rest) == TrimRightQuotes(link) == link;
    TrimSpaceProperties(link);
  }

  /** `extractLinkCandidates`: a text without links is decoded and looked at again. */
  function Extract(text: string): seq<string>
    decreases |text|
  {
    var found, decoded := Candidates(Fields(text)), DecodeAny(text);
    if found != [] || decoded.None? then found
    else
      DecodeAnyShortens(text);
      Extract(decoded.value)
  }

  method ExtractLinkCandidates(text: string) returns (candidates: seq<string>)
    ensures candidates == Extract(text)
    decreases |text|
  {
    var words := Fields(text);
    candidates := [];
    for i := 0 to |words|
      invariant candidates == Candidates(words[..i])
    {
      assert words[..i + 1][..i] == words[..i];
      var line := Unquoted(words[i]);
      if Contains(line, "://") {
        candidates := candidates + [line];
      }
    }
    assert words[..|words|] == words;
    if |candidates| > 0 {
      return;
    }
    var decoded := DecodeBase64String(text);
    if decoded.Some? {
      DecodeAnyShortens(text);
      candidates := ExtractLinkCandidates(decoded.value);
    }
  }

  // Which candidate was refused, counted from one; 0 stands for an empty text.
  datatype ParseError = ParseError(index: nat, input: string)

  datatype Parsed = Parsed(outbounds: seq<Outbound>, errors: seq<ParseError>)

  /** `redactLongInput`. */
  function Redacted(value: string): string {
    var v := TrimSpace(value);
    if |v| > 160 then v[..160] + "..." else v
  }

  function ParseItems(items: seq<string>, d: Decoders): Parsed {
    if items == [] then Parsed([], [])
    else
      var n := |items| - 1;
      var front, o := ParseItems(items[..n], d), ParseOutboundLink(items[n], d);
      if o.None? then front.(errors := front.errors + [ParseError(|items|, Redacted(items[n]))])
      else front.(outbounds := front.outbounds + [o.value])
  }

  /**
   Every candidate is accounted for, in order: it gives the next outbound, or the next error, which bears its number
   from one on and what it begins with.
   */
  lemma {:induction false} ItemsAccounted(items: seq<string>, d: Decoders, k: nat)
    requires k < |items|
    ensures var all, before := ParseItems(items, d), ParseItems(items[..k], d);
      && |all.outbounds| + |all.errors| == |items|
      && |before.outbounds| + |before.errors| == k
      && before.outbounds <= all.outbounds && before.errors <= all.errors
      && match ParseOutboundLink(items[k], d)
         case Some(o) => |before.outbounds| < |all.outbounds| && all.outbounds[|before.outbounds|] == o
         case None =>
           && |before.errors| < |all.errors| && all.errors[|before.errors|].index == k + 1
           && (|TrimSpace(items[k])| <= 160 ==> all.errors[|before.errors|].input == TrimSpace(items[k]))
           && (|TrimSpace(items[k])| > 160 ==> all.errors[|before.errors|].input == TrimSpace(items[k])[..160] + "...")
  {
    hide ParseOutboundLink, TrimSpace;
    var n := |items| - 1;
    if k < n {
      ItemsAccounted(items[..n], d, k);
      assert items[..n][..k] == items[..k];
    } else if n > 0 {
      ItemsAccounted(items[..n], d, 0);
    }
  }

  /* ----- making names differ ----- */

  function BaseName(o: Outbound): string {
    var name := TrimSpace(o.name);
    if name == "" then ProtocolText(o.protocol) + "-" + o.address else name
  }

  function Occurrences(items: seq<Outbound>, name: string): nat {
    if items == [] then 0
    else Occurrences(items[..|items| - 1], name) + if BaseName(items[|items| - 1]) == name then 1 else 0
  }

  // The second item of a name is numbered 2, the third 3.
  function Numbered(items: seq<Outbound>, i: nat): string
    requires i < |items|
  {
    var base := BaseName(items[i]);
    var before := Occurrences(items[..i], base);
    if before == 0 then base else Candidate(base, before + 1)
  }

  function Uniquely(items: seq<Outbound>): (unique: seq<Outbound>)
    ensures |unique| == |items|
  {
    seq(|items|, i requires 0 <= i < |items| => items[i].(name := SanitizeName(Numbered(items, i))))
  }

  /** `uniqueOutbounds`: the counter of a name is the number of its occurrences so far. */
  method UniqueOutbounds(items: array<Outbound>)
    modifies items
    ensures items[..] == Uniquely(old(items[..]))
  {
    hide SanitizeName, BaseName, Occurrences, Candidate;
    ghost var given := items[..];
    var seen: map<string, nat> := map[];
    forall name
      ensures Occurrences(given[..0], name) == 0
    {
      NoOccurrence(name);
    }
    for i := 0 to items.Length
      invariant forall name :: (if name in seen then seen[name] else 0) == Occurrences(given[..i], name)
      invariant forall k :: 0 <= k < i ==> items[k] == given[k].(name := SanitizeName(Numbered(given, k)))
      invariant forall k :: i <= k < items.Length ==> items[k] == given[k]
    {
      assert given[..i + 1] == given[..i] + [given[i]];
      forall name
        ensures Occurrences(given[..i + 1], name) == Occurrences(given[..i], name) + if BaseName(given[i]) == name then 1 else 0
      {
        OccurrencesSnoc(given[..i], given[i], name);
      }
      var name := BaseName(items[i]);
      var count := if name in seen then seen[name] else 0;
      if count > 0 {
        seen := seen[name := count + 1];
        items[i] := items[i].(name := Candidate(name, count + 1));
      } else {
        seen := seen[name := 1];
        items[i] := items[i].(name := name);
      }
      items[i] := items[i].(name := SanitizeName(items[i].name));
    }
  }

  /** `ParseOutboundLinksDetailed`. */
  function ParseText(text: string, d: Decoders, documents: Documents): Parsed
    decreases |text|
  {
    var t := TrimSpace(text);
    TrimSpaceProperties(text);
    if t == "" then Parsed([], [ParseError(0, "")])
    else if documents(t) != [] then Parsed(Uniquely(documents(t)), [])
    else
      var p, decoded := ParseItems(Extract(t), d), DecodeAny(t);
      if p.outbounds == [] && decoded.Some? then
        DecodeAnyShortens(t);
        ParseText(decoded.value, d, documents)
      else Parsed(Uniquely(p.outbounds), p.errors)
  }

  method ParseOutboundLinksDetailed(text: string, d: Decoders, documents: Documents)
    returns (outbounds: array<Outbound>, errors: seq<ParseError>)
    ensures fresh(outbounds)
    ensures Parsed(outbounds[..], errors) == ParseText(text, d, documents)
    decreases |text|
  {
    hide Uniquely, DecodeAny, Extract, ParseOutboundLink, Redacted;
    TrimSpaceProperties(text);
    var t := TrimSpace(text);
    if t == "" {
      outbounds := new Outbound[0];
      return outbounds, [ParseError(0, "")];
    }
    var listed := documents(t);
    if |listed| > 0 {
      outbounds := FromSeq(listed);
      UniqueOutbounds(outbounds);
      return outbounds, [];
    }
    var items := ExtractLinkCandidates(t);
    var found: seq<Outbound> := [];
    errors := [];
    for i := 0 to |items|
      invariant Parsed(found, errors) == ParseItems(items[..i], d)
    {
      assert items[..i + 1][..i] == items[..i];
      var parsed := ReadLink(items[i], d);
      if parsed.None? {
        errors := errors + [ParseError(i + 1, Redacted(items[i]))];
        continue;
      }
      found := found + [parsed.value];
    }
    assert items[..|items|] == items;
    if |found| == 0 {
      var decoded := DecodeBase64String(t);
      if decoded.Some? {
        DecodeAnyShortens(t);
        outbounds, errors := ParseOutboundLinksDetailed(decoded.value, d, documents);
        return;
      }
    }
    outbounds := FromSeq(found);
    UniqueOutbounds(outbounds);
  }

  method FromSeq(items: seq<Outbound>) returns (a: array<Outbound>)
    ensures fresh(a) && a[..] == items
  {
    a := new Outbound[|items|](i requires 0 <= i < |items| => items[i]);
  }

  /* ----- whether the names differ ----- */

  lemma {:induction false} OccurrencesMember(items: seq<Outbound>, i: nat)
    requires i < |items|
    ensures Occurrences(items, BaseName(items[i])) > Occurrences(items[..i], BaseName(items[i]))
  {
    hide BaseName;
    var front := items[..|items| - 1];
    if i < |front| {
      OccurrencesMember(front, i);
      assert front[..i] == items[..i];
    }
  }

  // An item of the name that none before it has.
  lemma {:induction false} FirstOccurrence(items: seq<Outbound>, j: nat) returns (first: nat)
    requires j < |items|
    ensures first <= j && BaseName(items[first]) == BaseName(items[j]) && Occurrences(items[..first], BaseName(items[j])) == 0
  {
    hide BaseName;
    if Occurrences(items[..j], BaseName(items[j])) == 0 {
      first := j;
    } else {
      var k := SomeOccurrence(items[..j], BaseName(items[j]));
      first := FirstOccurrence(items, k);
    }
  }

  lemma {:induction false} SomeOccurrence(items: seq<Outbound>, name: string) returns (k: nat)
    requires Occurrences(items, name) > 0
    ensures k < |items| && BaseName(items[k]) == name
  {
    hide BaseName;
    k := |items| - 1;
    if BaseName(items[k]) != name {
      k := SomeOccurrence(items[..k], name);
    }
  }

  lemma CandidateParts(a: string, i: nat, b: string, j: nat)
    requires Candidate(a, i) == Candidate(b, j)
    ensures a == b && i == j
  {
    DecimalValue(i);
    DecimalValue(j);
    assert Candidate(a, i) == a + ['-'] + Decimal(i) && Candidate(b, j) == b + ['-'] + Decimal(j);
    LastIndexAt(a, '-', Decimal(i));
    LastIndexAt(b, '-', Decimal(j));
    assert Candidate(a, i)[..|a|] == a && Candidate(b, j)[..|b|] == b;
    CandidatesInjective(a, i, j);
  }

  // Some item is called already what a repetition of another name is numbered as.
  ghost predicate NumberTaken(items: seq<Outbound>) {
    exists i, j :: 0 <= i < |items| && 0 <= j < |items| && Repeats(items, i) && BaseName(items[j]) == Numbered(items, i)
  }

  predicate Repeats(items: seq<Outbound>, i: nat)
    requires i < |items|
  {
    Occurrences(items[..i], BaseName(items[i])) > 0
  }

  // No number is cut off, and no line end replaced, when the names are made safe.
  ghost predicate Unaltered(items: seq<Outbound>) {
    forall i :: 0 <= i < |items| ==> SanitizeName(Numbered(items, i)) == Numbered(items, i)
  }

  lemma SameNumbered(items: seq<Outbound>, i: nat, j: nat)
    requires i < j < |items| && Numbered(items, i) == Numbered(items, j)
    ensures Repeats(items, i) != Repeats(items, j)
  {
    hide BaseName, Candidate;
    if Repeats(items, i) && Repeats(items, j) {
      CandidateParts(BaseName(items[i]), Occurrences(items[..i], BaseName(items[i])) + 1,
                     BaseName(items[j]), Occurrences(items[..j], BaseName(items[j])) + 1);
    }
    if Repeats(items, i) == Repeats(items, j) {
      assert items[..j][..i] == items[..i];
      OccurrencesMember(items[..j], i);
    }
  }

  /**
   Numbering repeated names makes all names differ exactly when no item bears such a numbered name already, as the
   third does in a, a, a-2.
   */
  lemma NumberingSeparatesIff(items: seq<Outbound>)
    requires Unaltered(items)
    ensures Distinct(Uniquely(items), OutboundName) <==> !NumberTaken(items)
  {
    hide *;
    if NumberTaken(items) {
      NumberTakenCollides(items);
    }
    CollisionTakesNumber(items);
  }

  lemma NumberTakenCollides(items: seq<Outbound>)
    requires NumberTaken(items)
    ensures !Distinct(Uniquely(items), OutboundName)
  {
    hide BaseName, SanitizeName, Numbered, Repeats, Occurrences;
    var i, j :| 0 <= i < |items| && 0 <= j < |items| && Repeats(items, i) && BaseName(items[j]) == Numbered(items, i);
    var first := FirstOccurrence(items, j);
    NumberedFirst(items, i, first);
    var a, b := if i < first then i else first, if i < first then first else i;
    assert OutboundName(Uniquely(items)[a]) == OutboundName(Uniquely(items)[b]);
  }

  lemma CollisionTakesNumber(items: seq<Outbound>)
    requires Unaltered(items)
    ensures !Distinct(Uniquely(items), OutboundName) ==> NumberTaken(items)
  {
    hide BaseName, SanitizeName, Numbered, Repeats, Occurrences;
    if !Distinct(Uniquely(items), OutboundName) {
      var i, j :| 0 <= i < j < |items| && OutboundName(Uniquely(items)[i]) == OutboundName(Uniquely(items)[j]);
      assert Numbered(items, i) == Numbered(items, j);
      hide Uniquely, Distinct, Unaltered;
      SameNumbered(items, i, j);
      NotRepeated(items, i);
      NotRepeated(items, j);
    }
  }

  lemma NotRepeated(items: seq<Outbound>, i: nat)
    requires i < |items|
    ensures !Repeats(items, i) ==> Numbered(items, i) == BaseName(items[i])
  {}

  lemma NumberedFirst(items: seq<Outbound>, i: nat, first: nat)
    requires i < |items| && first < |items| && Repeats(items, i)
    requires Occurrences(items[..first], BaseName(items[first])) == 0
    ensures i != first && Numbered(items, first) == BaseName(items[first])
  {}

  /** Two nodes of one long name are given one name: the number is cut off. */
  lemma LongNamesCollide(items: seq<Outbound>, i: nat, j: nat)
    requires i < |items| && j < |items| && BaseName(items[i]) == BaseName(items[j])
    requires Trimmed(BaseName(items[i])) && |BaseName(items[i])| >= 80
    ensures Uniquely(items)[i].name == Uniquely(items)[j].name
  {
    hide BaseName;
    CutNumber(BaseName(items[i]), Occurrences(items[..i], BaseName(items[i])) + 1);
    CutNumber(BaseName(items[j]), Occurrences(items[..j], BaseName(items[j])) + 1);
  }

  lemma CutNumber(base: string, n: nat)
    requires Trimmed(base) && |base| >= 80
    ensures SanitizeName(Candidate(base, n)) == SanitizeName(base)
  {
    DecimalValue(n);
    var name := Candidate(base, n);
    assert name[|name| - 1] in Decimal(n);
    TrimSpaceProperties(name);
    TrimSpaceProperties(base);
    assert ReplaceNewlines(name)[..80] == ReplaceNewlines(base)[..80];
  }

  lemma PlainBase(o: Outbound, name: string)
    requires name != "" && Trimmed(name)
    ensures BaseName(o.(name := name)) == name
  {
    TrimSpaceProperties(name);
  }

  lemma PlainSafe(name: string)
    requires Trimmed(name) && '\n' !in name && |name| <= 80
    ensures SanitizeName(name) == name
  {
    TrimSpaceProperties(name);
  }

  lemma OccurrencesSnoc(items: seq<Outbound>, o: Outbound, name: string)
    ensures Occurrences(items + [o], name) == Occurrences(items, name) + if BaseName(o) == name then 1 else 0
  {
    hide BaseName;
    assert (items + [o])[..|items|] == items;
  }

  /** The names a, a, a-2 become a, a-2, a-2. */
  lemma NamesCanCollide(o: Outbound)
    ensures var a, b := o.(name := "a"), o.(name := "a-2");
      Uniquely([a, a, b])[1].name == "a-2" == Uniquely([a, a, b])[2].name
  {
    hide BaseName, SanitizeName, Occurrences;
    var a, b := o.(name := "a"), o.(name := "a-2");
    var items := [a, a, b];
    PlainBase(o, "a");
    PlainBase(o, "a-2");
    PlainSafe("a-2");
    assert items[..1] == [] + [a] && items[..2] == [a] + [a];
    assert Occurrences([], "a") == 0 && Occurrences([], "a-2") == 0 by { NoOccurrence("a"); NoOccurrence("a-2"); }
    OccurrencesSnoc([], a, "a");
    OccurrencesSnoc([], a, "a-2");
    OccurrencesSnoc([a], a, "a-2");
    assert items[..1] == [a] && items[..2] == [a, a] && [a] + [a] == [a, a] && [] + [a] == [a];
    assert Decimal(2) == "2" && Candidate("a", 2) == "a-2";
    assert Numbered(items, 1) == "a-2";
    assert Numbered(items, 2) == "a-2";
  }

  lemma NoOccurrence(name: string)
    ensures Occurrences([], name) == 0
  {}

  /* ----- reading an encoded text ----- */

  predicate Word(s: string) {
    s != "" && forall c :: c in s ==> !IsSpace(c)
  }

  lemma {:induction false} WordLengthOf(a: string, rest: string)
    requires forall c :: c in a ==> !IsSpace(c)
    requires rest == [] || IsSpace(rest[0])
    ensures WordLength(a + rest) == |a|
  {
    if a == [] {
      assert a + rest == rest;
    } else {
      assert a[0] in a && (a + rest)[1..] == a[1..] + rest;
      WordLengthOf(a[1..], rest);
    }
  }

  lemma FieldsWord(a: string, rest: string)
    requires Word(a) && (rest == [] || IsSpace(rest[0]))
    ensures Fields(a + rest) == [a] + Fields(rest)
  {
    WordLengthOf(a, rest);
    assert a[0] in a;
    assert (a + rest)[..|a|] == a && (a + rest)[|a|..] == rest;
  }

  lemma {:induction false} WordStops(s: string)
    ensures WordLength(s) < |s| ==> IsSpace(s[WordLength(s)])
    ensures forall c :: c in s[..WordLength(s)] ==> !IsSpace(c)
  {
    if s != [] && !IsSpace(s[0]) {
      var n := WordLength(s[1..]);
      WordStops(s[1..]);
      assert WordLength(s) == 1 + n && s[..1 + n] == [s[0]] + s[1..][..n];
    }
  }

  lemma {:induction false} FieldsSpaceAtEnd(s: string, space: char)
    requires IsSpace(space)
    ensures Fields(s + [space]) == Fields(s)
    decreases |s|
  {
    if s == [] {
      assert ([] + [space])[1..] == [];
    } else if IsSpace(s[0]) {
      assert (s + [space])[1..] == s[1..] + [space];
      FieldsSpaceAtEnd(s[1..], space);
    } else {
      var n := WordLength(s);
      WordStops(s);
      FieldsSpaceAtEnd(s[n..], space);
      assert s + [space] == s[..n] + (s[n..] + [space]);
      assert s[..n][0] == s[0];
      FieldsWord(s[..n], s[n..] + [space]);
    }
  }

  lemma {:induction false} FieldsTrimmed(s: string)
    ensures Fields(TrimRight(s)) == Fields(s) && Fields(TrimLeft(s)) == Fields(s)
  {
    hide Fields;
    if s != [] && IsSpace(s[|s| - 1]) {
      FieldsTrimmed(s[..|s| - 1]);
      FieldsSpaceAtEnd(s[..|s| - 1], s[|s| - 1]);
      assert s == s[..|s| - 1] + [s[|s| - 1]];
    }
    if s != [] && IsSpace(s[0]) {
      FieldsTrimmed(s[1..]);
      FieldsSpaceAtFront(s);
    }
  }

  lemma FieldsSpaceAtFront(s: string)
    requires s != [] && IsSpace(s[0])
    ensures Fields(s) == Fields(s[1..])
  {}

  lemma ExtractTrimmed(text: string)
    ensures Extract(TrimSpace(text)) == Extract(text) && DecodeAny(TrimSpace(text)) == DecodeAny(text)
  {
    hide Fields, Candidates, FirstDecoding;
    FieldsTrimmed(text);
    FieldsTrimmed(TrimLeft(text));
    TrimSpaceProperties(text);
    TrimSpaceProperties(TrimSpace(text));
  }

  lemma {:induction false} QuotesMembers(s: string)
    ensures forall c :: c in TrimLeftQuotes(s) ==> c in s
    ensures forall c :: c in TrimRightQuotes(s) ==> c in s
  {
    if s != [] {
      if IsQuote(s[0]) {
        QuotesMembers(s[1..]);
      }
      if IsQuote(s[|s| - 1]) {
        QuotesMembers(s[..|s| - 1]);
      }
    }
  }

  lemma {:induction false} ContainsMember(s: string, sub: string, c: char)
    requires Contains(s, sub) && c in sub
    ensures c in s
  {
    if s[..|sub|] == sub {
      assert c in s[..|sub|];
    } else {
      ContainsMember(s[1..], sub, c);
    }
  }

  lemma NoLinkWithoutColon(word: string)
    requires ':' !in word
    ensures !Contains(Unquoted(word), "://")
  {
    QuotesMembers(word);
    QuotesMembers(TrimLeftQuotes(word));
    TrimSpaceProperties(TrimRightQuotes(TrimLeftQuotes(word)));
    if Contains(Unquoted(word), "://") {
      ContainsMember(Unquoted(word), "://", ':');
    }
  }

  lemma EncodedChars(e: Encoding, text: string)
    requires text != ""
    ensures Word(Encode(e, text)) && ':' !in Encode(e, text)
  {
    hide EncodeRaw;
    EncodeRawChars(e.alphabet, text);
  }

  // An encoded text is one word and no link, so it is decoded.
  lemma ExtractEncoded(e: Encoding, text: string)
    requires IsBytes(text) && text != ""
    ensures DecodeAny(Encode(e, text)) == Some(text)
    ensures Extract(Encode(e, text)) == Extract(text)
    ensures TrimSpace(Encode(e, text)) == Encode(e, text) != ""
  {
    hide DecodeAny, Unquoted, Contains, TrimSpace;
    var code := Encode(e, text);
    EncodedChars(e, text);
    DecodeAnyInvertsAll(e, text);
    FieldsWord(code, "");
    assert code + "" == code && Fields("") == [];
    NoLinkWithoutColon(code);
    assert [code][..0] == [] && Candidates([code]) == [];
    assert code[0] in code && code[|code| - 1] in code;
    TrimSpaceProperties(code);
  }

  /**
   Whichever of the four encoders a subscription is served in, it is read as the text that was encoded, unless one of
   the two is itself a document, the text one with links in it.
   */
  lemma EncodedSubscriptionReadsSame(e: Encoding, text: string, d: Decoders, documents: Documents)
    requires IsBytes(text) && text != ""
    requires documents(Encode(e, text)) == []
    requires documents(TrimSpace(text)) == [] || ParseItems(Extract(text), d).outbounds == []
    ensures ParseText(Encode(e, text), d, documents) == ParseText(text, d, documents)
  {
    hide Extract, DecodeAny, ParseItems, Uniquely, TrimSpace, Encode;
    ExtractEncoded(e, text);
    ExtractTrimmed(text);
    if TrimSpace(text) == "" {
      BlankHasNoLinks(text, d);
    }
  }

  lemma BlankHasNoLinks(text: string, d: Decoders)
    requires TrimSpace(text) == ""
    ensures ParseItems(Extract(text), d).outbounds == []
  {
    ExtractTrimmed(text);
    assert Extract("") == [] by { NothingToExtract(); }
  }

  lemma NothingToExtract()
    ensures Extract("") == []
  {
    assert Fields("") == [] && Candidates([]) == [];
    if DecodeAny("").Some? {
      DecodeAnyShortens("");
    }
  }

  /* ----- a text of printed links ----- */

  // A link that is found as it stands.
  predicate PlainLink(link: string) {
    Word(link) && Unquoted(link) == link && Contains(link, "://")
  }

  function LinesOf(links: seq<string>): string {
    if links == [] then ""
    else if |links| == 1 then links[0]
    else links[0] + ("\n" + LinesOf(links[1..]))
  }

  lemma {:induction false} FieldsOfLines(links: seq<string>)
    requires forall i :: 0 <= i < |links| ==> Word(links[i])
    ensures Fields(LinesOf(links)) == links
  {
    hide Word, Fields;
    if links == [] {
      NoFields();
    } else if |links| == 1 {
      NoFields();
      FieldsWord(links[0], "");
      assert links[0] + "" == links[0];
    } else {
      var rest := "\n" + LinesOf(links[1..]);
      FieldsOfLines(links[1..]);
      FieldsWord(links[0], rest);
      FieldsSpaceAtFront(rest);
      assert rest[1..] == LinesOf(links[1..]);
    }
  }

  lemma NoFields()
    ensures Fields("") == []
  {}

  lemma {:induction false} CandidatesOfLinks(links: seq<string>)
    requires forall i :: 0 <= i < |links| ==> PlainLink(links[i])
    ensures Candidates(links) == links
  {
    hide Unquoted, Word, Contains;
    if links != [] {
      CandidatesOfLinks(links[..|links| - 1]);
      assert links == links[..|links| - 1] + [links[|links| - 1]];
    }
  }

  lemma ExtractOfLines(links: seq<string>)
    requires links != [] && forall i :: 0 <= i < |links| ==> PlainLink(links[i])
    ensures Extract(LinesOf(links)) == links && TrimSpace(LinesOf(links)) != ""
  {
    hide Fields, Candidates, LinesOf, Unquoted, Word, Contains, DecodeAny, TrimSpace;
    assert forall i :: 0 <= i < |links| ==> Word(links[i]);
    FieldsOfLines(links);
    CandidatesOfLinks(links);
    ExtractTrimmed(LinesOf(links));
    NothingToExtract();
  }

  predicate LinkChar(c: char) {
    EscapedChar(c) || c == ':' || c == '/' || c == '@' || c == '?' || c == '=' || c == '&' || c == '#'
  }

  lemma LinkCharIsPlain(c: char)
    requires LinkChar(c)
    ensures !IsSpace(c) && !IsQuote(c)
  {}

  lemma UnreservedIsLinkChar(c: char)
    requires Unreserved(c) || EscapedChar(c) || UserinfoSafe(c)
    ensures LinkChar(c)
  {}

  lemma {:induction false} ContainsAt(a: string, sub: string, b: string)
    ensures Contains(a + sub + b, sub)
  {
    var s := a + sub + b;
    if a == [] {
      assert s[..|sub|] == sub;
    } else {
      ContainsAt(a[1..], sub, b);
      assert s[1..] == a[1..] + sub + b;
    }
  }

  lemma SchemeChars(p: Protocol)
    requires Printable(p)
    ensures forall c :: c in SchemeOf(p) + "://" ==> LinkChar(c)
  {}

  lemma SuffixChars(o: Outbound)
    requires Shared(o)
    ensures forall c :: c in Suffix(o) ==> LinkChar(c)
  {
    hide Query, EncodeValues, ParseQuery, EscapedChar;
    QueryNameless(o);
    ParseEncodedValues(Query(o));
  }

  lemma PrintedLinkIsPlain(o: Outbound)
    requires Shared(o)
    ensures PlainLink(LinkText(SchemeOf(o.protocol), Userinfo(o), o, Suffix(o)))
  {
    hide LinkChar, SchemeOf, Userinfo, HostPort, Suffix, Escape, Contains, TrimLeft, TrimRight, TrimSpace, UserinfoSafe, EscapedChar, Unreserved;
    var link := LinkText(SchemeOf(o.protocol), Userinfo(o), o, Suffix(o));
    SchemeChars(o.protocol);
    UserRoundTrip(o);
    HostPortParts(o);
    SuffixChars(o);
    QueryEscapeChars(o.name);
    var front, tail := SchemeOf(o.protocol) + "://", (Userinfo(o) + "@" + HostPort(o)) + Suffix(o) + "#" + QueryEscape(o.name);
    assert link == front + tail;
    forall c | c in link
      ensures LinkChar(c) && !IsSpace(c) && !IsQuote(c)
    {
      SeparatorsAreLinkChars();
      if c in front || c in Suffix(o) || c in ":@#" {
      } else {
        assert c in Userinfo(o) || c in HostPort(o) || c in QueryEscape(o.name);
        UnreservedIsLinkChar(c);
      }
      LinkCharIsPlain(c);
    }
    ContainsAt(SchemeOf(o.protocol), "://", tail);
    assert link[0] in link && link[|link| - 1] in link;
    TrimSpaceProperties(link);
  }

  lemma SeparatorsAreLinkChars()
    ensures LinkChar(':') && LinkChar('@') && LinkChar('#')
  {}

  /* ----- export, then import ----- */

  function Printed(o: Outbound, others: Outbound -> Option<string>): string {
    var link := ShareLink(o, others);
    if link.Some? then link.value else ""
  }

  function AllPrinted(nodes: seq<Outbound>, others: Outbound -> Option<string>): (links: seq<string>)
    ensures |links| == |nodes|
  {
    seq(|nodes|, i requires 0 <= i < |nodes| => Printed(nodes[i], others))
  }

  ghost predicate AllShared(nodes: seq<Outbound>) {
    forall i :: 0 <= i < |nodes| ==> Shared(nodes[i])
  }

  function Reread(o: Outbound, others: Outbound -> Option<string>, d: Decoders): Outbound {
    var r := ParseOutboundLink(Printed(o, others), d);
    if r.Some? then r.value else o
  }

  lemma PrintedThenRead(o: Outbound, others: Outbound -> Option<string>, d: Decoders)
    requires Shared(o)
    ensures PlainLink(Printed(o, others))
    ensures ParseOutboundLink(Printed(o, others), d) == Some(Reread(o, others, d))
    ensures Recovered(o, Reread(o, others, d)) && Reread(o, others, d).name == RecoveredName(o.name)
  {
    hide Recovered, RecoveredName, ParseOutboundLink, LinkText, PlainLink, TrimSpace, Contains;
    PrintThenParse(o, others, d);
    PrintedLinkIsPlain(o);
  }

  lemma {:induction false} ItemsReread(nodes: seq<Outbound>, others: Outbound -> Option<string>, d: Decoders, read: seq<Outbound>)
    requires AllShared(nodes) && |read| == |nodes| && forall i :: 0 <= i < |nodes| ==> read[i] == Reread(nodes[i], others, d)
    ensures ParseItems(AllPrinted(nodes, others), d) == Parsed(read, [])
  {
    hide Shared, Printed, Reread, ParseOutboundLink, Redacted, Recovered, PlainLink;
    if nodes != [] {
      var n := |nodes| - 1;
      assert AllPrinted(nodes, others)[..n] == AllPrinted(nodes[..n], others);
      ItemsReread(nodes[..n], others, d, read[..n]);
      PrintedThenRead(nodes[n], others, d);
      assert read == read[..n] + [read[n]];
    }
  }

  /**
   Nodes that are exported as links, a line each, are all imported again, in order, without an error; only names that
   occur twice are numbered.
   */
  lemma ExportedNodesComeBack(nodes: seq<Outbound>, others: Outbound -> Option<string>, d: Decoders, documents: Documents)
    returns (read: seq<Outbound>)
    requires nodes != [] && AllShared(nodes)
    ensures |read| == |nodes|
    ensures var text := LinesOf(AllPrinted(nodes, others));
      documents(TrimSpace(text)) == [] ==> ParseText(text, d, documents) == Parsed(Uniquely(read), [])
    ensures forall i :: 0 <= i < |nodes| ==> Recovered(nodes[i], Uniquely(read)[i]) && read[i].name == RecoveredName(nodes[i].name)
  {
    hide Shared, Printed, Reread, ParseOutboundLink, Recovered, RecoveredName, PlainLink, Extract, TrimSpace, LinesOf, DecodeAny, ParseItems, SanitizeName,
         Numbered;
    var links := AllPrinted(nodes, others);
    read := seq(|nodes|, i requires 0 <= i < |nodes| => Reread(nodes[i], others, d));
    forall i | 0 <= i < |nodes|
      ensures PlainLink(links[i])
      ensures Recovered(nodes[i], Uniquely(read)[i]) && read[i].name == RecoveredName(nodes[i].name)
    {
      PrintedThenRead(nodes[i], others, d);
      NameIsNotRecovered(nodes[i], read[i], SanitizeName(Numbered(read, i)));
    }
    ItemsReread(nodes, others, d, read);
    ExtractOfLines(links);
    ExtractTrimmed(LinesOf(links));
  }

  lemma NameIsNotRecovered(o: Outbound, r: Outbound, name: string)
    requires Recovered(o, r)
    ensures Recovered(o, r.(name := name))
  {
    hide PlusForSpace, SecurityPrinted, QueryFields;
  }

  // A name that neither a link nor the import changes.
  predicate SafeName(name: string) {
    RecoveredName(name) == name && name != "" && Trimmed(name) && '\n' !in name && |name| <= 80
  }

  lemma DistinctUnnumbered(items: seq<Outbound>, i: nat)
    requires i < |items| && Distinct(items, OutboundName) && forall k :: 0 <= k < |items| ==> SafeName(items[k].name)
    ensures SanitizeName(Numbered(items, i)) == items[i].name
  {
    hide Occurrences, SanitizeName, RecoveredName, Trimmed;
    forall k | 0 <= k <= i
      ensures BaseName(items[k]) == items[k].name
    {
      PlainBase(items[k], items[k].name);
    }
    assert forall k :: 0 <= k < i ==> OutboundName(items[k]) != OutboundName(items[i]);
    if Occurrences(items[..i], BaseName(items[i])) > 0 {
      var k := SomeOccurrence(items[..i], BaseName(items[i]));
    }
    PlainSafe(items[i].name);
  }

  /** Under distinct names that survive a link, they come back under these names. */
  lemma ExportedNamesComeBack(nodes: seq<Outbound>, others: Outbound -> Option<string>, d: Decoders, documents: Documents)
    requires nodes != [] && AllShared(nodes)
    requires Distinct(nodes, OutboundName) && forall i :: 0 <= i < |nodes| ==> SafeName(nodes[i].name)
    ensures var text := LinesOf(AllPrinted(nodes, others));
      var r := ParseText(text, d, documents);
      documents(TrimSpace(text)) == [] ==>
        && r.errors == [] && |r.outbounds| == |nodes|
        && forall i :: 0 <= i < |nodes| ==> Recovered(nodes[i], r.outbounds[i]) && r.outbounds[i].name == nodes[i].name
  {
    hide Shared, Recovered, RecoveredName, ParseText, TrimSpace, LinesOf, AllPrinted, SanitizeName, Numbered, Trimmed;
    var read := ExportedNodesComeBack(nodes, others, d, documents);
    forall i | 0 <= i < |nodes|
      ensures Uniquely(read)[i].name == nodes[i].name
    {
      DistinctUnnumbered(read, i);
    }
  }

  /* ----- importing what was parsed ----- */

  predicate Visible(name: string) {
    name != "" && !IsSpace(name[0])
  }

  lemma BaseNameVisible(o: Outbound)
    ensures TrimSpace(BaseName(o)) != ""
  {
    TrimSpaceProperties(o.name);
    TrimSpaceProperties(TrimSpace(o.name));
    if TrimSpace(o.name) == "" {
      var name := ProtocolText(o.protocol) + "-" + o.address;
      TrimSpaceVisible(name);
      assert name[|ProtocolText(o.protocol)|] == '-';
      assert '-' in name && !IsSpace('-');
    }
  }

  lemma SanitizedVisible(name: string)
    requires TrimSpace(name) != ""
    ensures Visible(SanitizeName(name))
  {
    TrimSpaceProperties(name);
  }

  lemma CandidateVisible(base: string, n: nat)
    ensures TrimSpace(Candidate(base, n)) != ""
  {
    var name := Candidate(base, n);
    TrimSpaceVisible(name);
    assert name[|base|] == '-';
    assert '-' in name && !IsSpace('-');
  }

  lemma UniquelyVisible(items: seq<Outbound>, i: nat)
    requires i < |items|
    ensures Visible(Uniquely(items)[i].name)
  {
    hide SanitizeName, BaseName, Visible, Candidate, TrimSpace;
    BaseNameVisible(items[i]);
    CandidateVisible(BaseName(items[i]), Occurrences(items[..i], BaseName(items[i])) + 1);
    SanitizedVisible(Numbered(items, i));
  }

  lemma {:induction false} ParsedVisible(text: string, d: Decoders, documents: Documents)
    ensures forall o :: o in ParseText(text, d, documents).outbounds ==> Visible(o.name)
    decreases |text|
  {
    hide Visible, Uniquely, ParseItems, Extract, DecodeAny, TrimSpace;
    TrimSpaceProperties(text);
    var t := TrimSpace(text);
    forall items: seq<Outbound>, o | o in Uniquely(items)
      ensures Visible(o.name)
    {
      var i :| 0 <= i < |items| && Uniquely(items)[i] == o;
      UniquelyVisible(items, i);
    }
    var p := ParseItems(Extract(t), d);
    if t != "" && documents(t) == [] && p.outbounds == [] && DecodeAny(t).Some? {
      DecodeAnyShortens(t);
      ParsedVisible(DecodeAny(t).value, d, documents);
    }
  }

  lemma PreparedNamed(o: Outbound, opts: Options, parse: Parser)
    requires Visible(o.name)
    ensures TrimSpace(Named(Prepared(o, opts, parse)).name) != ""
  {
    hide TrimSpace;
    var p := opts.provider;
    var name := if opts.fromSubscription then p.renamePrefix + o.name + p.renameSuffix else o.name;
    assert Named(Prepared(o, opts, parse)).name == name by { hide Contains; }
    TrimSpaceVisible(name);
    assert o.name[0] in o.name && o.name[0] in name;
  }

  /** Every item parsed from any text has a name that is not blank, under all import options. */
  lemma ParsedItemsAreNamed(text: string, d: Decoders, documents: Documents, opts: Options, parse: Parser)
    ensures AllNamed(ParseText(text, d, documents).outbounds, opts, parse)
  {
    hide ParseText, Visible, TrimSpace, Named, Prepared;
    var batch := ParseText(text, d, documents).outbounds;
    ParsedVisible(text, d, documents);
    forall i | 0 <= i < |batch|
      ensures TrimSpace(Named(Prepared(batch[i], opts, parse)).name) != ""
    {
      assert batch[i] in batch;
      PreparedNamed(batch[i], opts, parse);
    }
  }

  /** Importing what any text parses to, stopped or not, leaves a valid configuration valid. */
  lemma ImportOfTextLeavesValid(s: State, text: string, d: Decoders, documents: Documents, opts: Options, parse: Parser, pick: Picker)
    requires ConfigOk(s.cfg) && Consistent(s) && Picks(pick)
    ensures ConfigOk(LeftBy(ImportBatch(s, ParseText(text, d, documents).outbounds, opts, parse, pick)).cfg)
  {
    hide ConfigOk, Consistent, ParseText, ImportBatch, AllNamed;
    ParsedItemsAreNamed(text, d, documents, opts, parse);
    NamedImportLeavesValid(s, ParseText(text, d, documents).outbounds, opts, parse, pick);
  }
}
