/**
 Base 64 (sections 4 and 5 of RFC 4648) as Go's library reads and writes it, and the agent's decoder, which does not
 know which alphabet it is given.

 Bytes are chars below 256.
 */
module Base64 {
  import opened Text

  predicate IsBytes(s: string) {
    forall c :: c in s ==> c as int < 256
  }

  datatype Alphabet = Standard | UrlSafe

  datatype Encoding = Encoding(alphabet: Alphabet, padded: bool)

  /* ----- characters ----- */

  function EncodeChar(a: Alphabet, n: nat): char
    requires n < 64
  {
    if n < 26 then ('A' as int + n) as char
    else if n < 52 then ('a' as int + n - 26) as char
    else if n < 62 then ('0' as int + n - 52) as char
    else if n == 62 then (if a.Standard? then '+' else '-')
    else if a.Standard? then '/' else '_'
  }

  predicate InAlphabet(a: Alphabet, c: char) {
    'A' <= c <= 'Z' || 'a' <= c <= 'z' || '0' <= c <= '9' || c == (if a.Standard? then '+' else '-') || c == (if a.Standard? then '/' else '_')
  }

  function DecodeChar(a: Alphabet, c: char): (n: nat)
    requires InAlphabet(a, c)
    ensures n < 64 && EncodeChar(a, n) == c
  {
    if 'A' <= c <= 'Z' then c as int - 'A' as int
    else if 'a' <= c <= 'z' then c as int - 'a' as int + 26
    else if '0' <= c <= '9' then c as int - '0' as int + 52
    else if c == '+' || c == '-' then 62
    else 63
  }

  lemma EncodedChar(a: Alphabet, n: nat)
    requires n < 64
    ensures InAlphabet(a, EncodeChar(a, n)) && DecodeChar(a, EncodeChar(a, n)) == n
  {}

  /* ----- strings ----- */

  function Byte(c: char): nat { c as int % 256 }

  function EncodeRaw(a: Alphabet, s: string): string {
    if s == [] then ""
    else
      var x := Byte(s[0]);
      if |s| == 1 then [EncodeChar(a, x / 4), EncodeChar(a, x % 4 * 16)]
      else
        var y := Byte(s[1]);
        if |s| == 2 then [EncodeChar(a, x / 4), EncodeChar(a, x % 4 * 16 + y / 16), EncodeChar(a, y % 16 * 4)]
        else
          var z := Byte(s[2]);
          [EncodeChar(a, x / 4), EncodeChar(a, x % 4 * 16 + y / 16), EncodeChar(a, y % 16 * 4 + z / 64), EncodeChar(a, z % 64)]
          + EncodeRaw(a, s[3..])
  }

  function Pad(s: string): string {
    s + if |s| % 4 == 2 then "==" else if |s| % 4 == 3 then "=" else ""
  }

  function Encode(e: Encoding, s: string): string {
    var raw := EncodeRaw(e.alphabet, s);
    if e.padded then Pad(raw) else raw
  }

  // Bits beyond the last whole byte are ignored.
  function DecodeRaw(a: Alphabet, s: string): Option<string> {
    if s == [] then Some("")
    else if |s| == 1 || !InAlphabet(a, s[0]) || !InAlphabet(a, s[1]) then None
    else
      var p, q := DecodeChar(a, s[0]), DecodeChar(a, s[1]);
      var x := (p * 4 + q / 16) as char;
      if |s| == 2 then Some([x])
      else if !InAlphabet(a, s[2]) then None
      else
        var r := DecodeChar(a, s[2]);
        var y := (q % 16 * 16 + r / 4) as char;
        if |s| == 3 then Some([x, y])
        else if !InAlphabet(a, s[3]) then None
        else
          var z := (r % 4 * 64 + DecodeChar(a, s[3])) as char;
          var rest := DecodeRaw(a, s[4..]);
          if rest.None? then None else Some([x, y, z] + rest.value)
  }

  function Decode(e: Encoding, s: string): Option<string> {
    if !e.padded then DecodeRaw(e.alphabet, s)
    else if |s| % 4 != 0 then None
    else if |s| >= 2 && s[|s| - 2..] == "==" then DecodeRaw(e.alphabet, s[..|s| - 2])
    else if |s| >= 1 && s[|s| - 1] == '=' then DecodeRaw(e.alphabet, s[..|s| - 1])
    else DecodeRaw(e.alphabet, s)
  }

  // Three bytes cut into four groups of six bits, and put together again.
  lemma SixBits(x: nat, y: nat, z: nat)
    requires x < 256 && y < 256 && z < 256
    ensures x / 4 < 64 && x % 4 * 16 + y / 16 < 64 && y % 16 * 4 + z / 64 < 64 && z % 64 < 64
    ensures x / 4 * 4 + (x % 4 * 16 + y / 16) / 16 == x
    ensures (x % 4 * 16 + y / 16) % 16 * 16 + (y % 16 * 4 + z / 64) / 4 == y
    ensures (y % 16 * 4 + z / 64) % 4 * 64 + z % 64 == z
  {}

  lemma ByteAt(s: string, i: nat)
    requires IsBytes(s) && i < |s|
    ensures Byte(s[i]) == s[i] as int < 256 && Byte(s[i]) as char == s[i]
  {
    assert s[i] in s;
  }

  // A last group of one byte, and of two.
  lemma OneInverts(a: Alphabet, s: string)
    requires IsBytes(s) && |s| == 1
    ensures DecodeRaw(a, EncodeRaw(a, s)) == Some(s)
  {
    hide EncodeChar, DecodeChar, InAlphabet, Byte, IsBytes;
    ByteAt(s, 0);
    var x := Byte(s[0]);
    SixBits(x, 0, 0);
    EncodedChar(a, x / 4);
    EncodedChar(a, x % 4 * 16);
    assert s == [x as char];
  }

  lemma TwoInvert(a: Alphabet, s: string)
    requires IsBytes(s) && |s| == 2
    ensures DecodeRaw(a, EncodeRaw(a, s)) == Some(s)
  {
    hide EncodeChar, DecodeChar, InAlphabet, Byte, IsBytes;
    ByteAt(s, 0);
    ByteAt(s, 1);
    var x, y := Byte(s[0]), Byte(s[1]);
    SixBits(x, y, 0);
    EncodedChar(a, x / 4);
    EncodedChar(a, x % 4 * 16 + y / 16);
    EncodedChar(a, y % 16 * 4);
    assert s == [x as char, y as char];
  }

  lemma GroupInverts(a: Alphabet, s: string)
    requires IsBytes(s) && 3 <= |s|
    requires DecodeRaw(a, EncodeRaw(a, s[3..])) == Some(s[3..])
    ensures DecodeRaw(a, EncodeRaw(a, s)) == Some(s)
  {
    hide EncodeChar, DecodeChar, InAlphabet, DecodeRaw, EncodeRaw, Byte, IsBytes;
    ByteAt(s, 0);
    ByteAt(s, 1);
    ByteAt(s, 2);
    var x, y, z := Byte(s[0]), Byte(s[1]), Byte(s[2]);
    SixBits(x, y, z);
    EncodeGroup(a, s);
    Regroup(a, x / 4, x % 4 * 16 + y / 16, y % 16 * 4 + z / 64, z % 64, EncodeRaw(a, s[3..]));
    assert [x as char, y as char, z as char] + s[3..] == s;
  }

  // Four groups of six bits, written and read.
  lemma Regroup(a: Alphabet, p: nat, q: nat, r: nat, t: nat, rest: string)
    requires p < 64 && q < 64 && r < 64 && t < 64 && DecodeRaw(a, rest).Some?
    ensures DecodeRaw(a, [EncodeChar(a, p), EncodeChar(a, q), EncodeChar(a, r), EncodeChar(a, t)] + rest) ==
            Some([(p * 4 + q / 16) as char, (q % 16 * 16 + r / 4) as char, (r % 4 * 64 + t) as char] + DecodeRaw(a, rest).value)
  {
    hide EncodeChar, DecodeChar, InAlphabet, DecodeRaw;
    EncodedChar(a, p);
    EncodedChar(a, q);
    EncodedChar(a, r);
    EncodedChar(a, t);
    var chars := [EncodeChar(a, p), EncodeChar(a, q), EncodeChar(a, r), EncodeChar(a, t)];
    assert (chars + rest)[4..] == rest;
    DecodeGroup(a, chars + rest);
  }

  lemma EncodeGroup(a: Alphabet, s: string)
    requires 3 <= |s|
    ensures var x, y, z := Byte(s[0]), Byte(s[1]), Byte(s[2]);
      EncodeRaw(a, s) ==
      [EncodeChar(a, x / 4), EncodeChar(a, x % 4 * 16 + y / 16), EncodeChar(a, y % 16 * 4 + z / 64), EncodeChar(a, z % 64)]
      + EncodeRaw(a, s[3..])
  {}

  lemma DecodeGroup(a: Alphabet, e: string)
    requires 4 <= |e| && InAlphabet(a, e[0]) && InAlphabet(a, e[1]) && InAlphabet(a, e[2]) && InAlphabet(a, e[3])
    requires DecodeRaw(a, e[4..]).Some?
    ensures var p, q, r, t := DecodeChar(a, e[0]), DecodeChar(a, e[1]), DecodeChar(a, e[2]), DecodeChar(a, e[3]);
      DecodeRaw(a, e) == Some([(p * 4 + q / 16) as char, (q % 16 * 16 + r / 4) as char, (r % 4 * 64 + t) as char] + DecodeRaw(a, e[4..]).value)
  {}

  lemma {:induction false} DecodeRawInverts(a: Alphabet, s: string)
    requires IsBytes(s)
    ensures DecodeRaw(a, EncodeRaw(a, s)) == Some(s)
  {
    if s == [] {
    } else if |s| == 1 {
      OneInverts(a, s);
    } else if |s| == 2 {
      TwoInvert(a, s);
    } else {
      assert forall c :: c in s[3..] ==> c in s;
      DecodeRawInverts(a, s[3..]);
      GroupInverts(a, s);
    }
  }

  lemma {:induction false} EncodeRawChars(a: Alphabet, s: string)
    ensures forall c :: c in EncodeRaw(a, s) ==> InAlphabet(a, c)
    ensures s != [] ==> EncodeRaw(a, s) != []
  {
    hide EncodeChar, InAlphabet;
    forall n: nat | n < 64
      ensures InAlphabet(a, EncodeChar(a, n))
    {
      EncodedChar(a, n);
    }
    if |s| > 2 {
      EncodeRawChars(a, s[3..]);
    }
  }

  lemma {:induction false} DecodeRawProperties(a: Alphabet, s: string)
    ensures var d := DecodeRaw(a, s);
      d.Some? ==> IsBytes(d.value) && 4 * |d.value| <= 3 * |s| && forall c :: c in s ==> InAlphabet(a, c)
  {
    if 4 <= |s| {
      DecodeRawProperties(a, s[4..]);
      assert s == s[..4] + s[4..];
      assert forall c :: c in s[..4] ==> c == s[0] || c == s[1] || c == s[2] || c == s[3];
    }
  }

  // A text of one alphabet that the other accepts means the same in both.
  lemma {:induction false} AlphabetsAgree(a: Alphabet, b: Alphabet, s: string)
    requires forall c :: c in s ==> InAlphabet(a, c)
    ensures DecodeRaw(b, s).Some? ==> DecodeRaw(b, s) == DecodeRaw(a, s)
  {
    if 4 <= |s| {
      assert s[4..] == s[4..];
      AlphabetsAgree(a, b, s[4..]);
      assert s[0] in s && s[1] in s && s[2] in s && s[3] in s;
    } else {
      assert forall i :: 0 <= i < |s| ==> s[i] in s;
    }
  }

  /* ----- the decoder that guesses ----- */

  function Without(s: string, c: char): string {
    if s == [] then [] else (if s[0] == c then [] else [s[0]]) + Without(s[1..], c)
  }

  function TrimRightOf(s: string, c: char): string {
    if s != [] && s[|s| - 1] == c then TrimRightOf(s[..|s| - 1], c) else s
  }

  function Stripped(value: string): string {
    TrimRightOf(Without(Without(TrimSpace(value), '\n'), '\r'), '=')
  }

  const GUESSES := [Encoding(UrlSafe, false), Encoding(Standard, false), Encoding(UrlSafe, true), Encoding(Standard, true)]

  function FirstDecoding(encodings: seq<Encoding>, s: string): Option<string> {
    if encodings == [] then None
    else
      var d := Decode(encodings[0], s);
      if d.Some? && d.value != "" then d else FirstDecoding(encodings[1..], s)
  }

  /** `decodeBase64String`. */
  function DecodeAny(value: string): Option<string> {
    FirstDecoding(GUESSES, Stripped(value))
  }

  /** The loop over the encodings. */
  method DecodeBase64String(value: string) returns (decoded: Option<string>)
    ensures decoded == DecodeAny(value)
  {
    var s := Stripped(value);
    for i := 0 to |GUESSES|
      invariant FirstDecoding(GUESSES, s) == FirstDecoding(GUESSES[i..], s)
    {
      assert GUESSES[i..][1..] == GUESSES[i + 1..];
      var d := Decode(GUESSES[i], s);
      if d.Some? && |d.value| > 0 {
        return d;
      }
    }
    return None;
  }

  lemma {:induction false} WithoutAbsent(s: string, c: char)
    requires c !in s
    ensures Without(s, c) == s
  {
    if s != [] {
      WithoutAbsent(s[1..], c);
      assert s == [s[0]] + s[1..];
    }
  }

  lemma {:induction false} WithoutMembers(s: string, c: char)
    ensures |Without(s, c)| <= |s|
    ensures forall x :: x in s && x != c ==> x in Without(s, c)
  {
    if s != [] {
      WithoutMembers(s[1..], c);
      assert s == [s[0]] + s[1..];
    }
  }

  lemma {:induction false} TrimRightOfMembers(s: string, c: char)
    ensures |TrimRightOf(s, c)| <= |s|
    ensures forall x :: x in s && x != c ==> x in TrimRightOf(s, c)
  {
    if s != [] && s[|s| - 1] == c {
      TrimRightOfMembers(s[..|s| - 1], c);
      assert s == s[..|s| - 1] + [c];
    }
  }

  // What is stripped is white space, line ends and padding; nothing else disappears.
  lemma StrippedMembers(value: string)
    ensures |Stripped(value)| <= |value|
    ensures forall x :: x in value && !IsSpace(x) && x != '=' ==> x in Stripped(value)
  {
    TrimSpaceProperties(value);
    TrimLeftMembers(value);
    TrimRightMembers(TrimLeft(value));
    var a := TrimSpace(value);
    WithoutMembers(a, '\n');
    WithoutMembers(Without(a, '\n'), '\r');
    TrimRightOfMembers(Without(Without(a, '\n'), '\r'), '=');
  }

  predicate Coded(c: char) {
    InAlphabet(Standard, c) || InAlphabet(UrlSafe, c) || c == '='
  }

  lemma AlphabetIsCoded(a: Alphabet, s: string)
    requires forall c :: c in s ==> InAlphabet(a, c)
    ensures forall c :: c in s ==> Coded(c)
  {}

  lemma DecodeOneProperties(e: Encoding, s: string)
    ensures var d := Decode(e, s);
      d.Some? ==> IsBytes(d.value) && 4 * |d.value| <= 3 * |s| && forall c :: c in s ==> Coded(c)
  {
    hide Decode, DecodeRaw, InAlphabet, IsBytes, Coded;
    if Decode(e, s).Some? {
      var raw := Unpadded(e, s);
      DecodeRawProperties(e.alphabet, raw);
      AlphabetIsCoded(e.alphabet, raw);
      EqualsIsCoded();
    }
  }

  lemma EqualsIsCoded()
    ensures Coded('=')
  {}

  lemma Unpadded(e: Encoding, s: string) returns (raw: string)
    requires Decode(e, s).Some?
    ensures Decode(e, s) == DecodeRaw(e.alphabet, raw) && |raw| <= |s|
    ensures forall c :: c in s ==> c in raw || c == '='
  {
    hide DecodeRaw;
    raw := s;
    if e.padded && |s| >= 2 && s[|s| - 2..] == "==" {
      raw := s[..|s| - 2];
      assert s == raw + "==";
    } else if e.padded && |s| >= 1 && s[|s| - 1] == '=' {
      raw := s[..|s| - 1];
      assert s == raw + "=";
    }
  }

  lemma {:induction false} DecodeProperties(encodings: seq<Encoding>, s: string)
    ensures var d := FirstDecoding(encodings, s);
      d.Some? ==> IsBytes(d.value) && d.value != "" && 4 * |d.value| <= 3 * |s| && forall c :: c in s ==> Coded(c)
  {
    hide Decode, Coded, IsBytes;
    if encodings != [] {
      DecodeProperties(encodings[1..], s);
      DecodeOneProperties(encodings[0], s);
    }
  }

  /** What is decoded is bytes, and at most three quarters of what it was decoded from. */
  lemma DecodeAnyShortens(value: string)
    ensures var d := DecodeAny(value); d.Some? ==> IsBytes(d.value) && 0 < |d.value| && 4 * |d.value| <= 3 * |value|
  {
    DecodeProperties(GUESSES, Stripped(value));
    StrippedMembers(value);
  }

  /** A text with a character of neither alphabet in it, such as the colon of host:port, is never decoded. */
  lemma ForeignCharacterIsRefused(value: string, c: char)
    requires c in value && !IsSpace(c) && c != '=' && !InAlphabet(Standard, c) && !InAlphabet(UrlSafe, c)
    ensures DecodeAny(value) == None
  {
    DecodeProperties(GUESSES, Stripped(value));
    StrippedMembers(value);
  }

  lemma AlphabetIsPlain(a: Alphabet, s: string)
    requires forall c :: c in s ==> InAlphabet(a, c)
    ensures Trimmed(s) && '\n' !in s && '\r' !in s && TrimRightOf(s, '=') == s
  {
    if s != [] {
      assert s[0] in s && s[|s| - 1] in s;
    }
  }

  lemma StrippedEncoding(e: Encoding, s: string)
    requires IsBytes(s) && s != ""
    ensures Stripped(Encode(e, s)) == EncodeRaw(e.alphabet, s)
  {
    hide EncodeRaw, InAlphabet;
    var raw, full := EncodeRaw(e.alphabet, s), Encode(e, s);
    EncodeRawChars(e.alphabet, s);
    AlphabetIsPlain(e.alphabet, raw);
    assert full == raw || full == raw + "=" || full == raw + "==";
    assert full[0] == raw[0] && (full[|full| - 1] == '=' || full == raw);
    TrimSpaceProperties(full);
    assert '\n' !in full && '\r' !in full;
    WithoutAbsent(full, '\n');
    WithoutAbsent(full, '\r');
    PaddingTrimmed(raw);
  }

  lemma PaddingTrimmed(raw: string)
    requires TrimRightOf(raw, '=') == raw
    ensures TrimRightOf(raw + "=", '=') == raw && TrimRightOf(raw + "==", '=') == raw
  {
    assert (raw + "=")[..|raw|] == raw;
    assert (raw + "==")[..|raw| + 1] == raw + "=";
  }

  /** Whichever of the four encoders wrote it, the decoder returns the bytes. */
  lemma DecodeAnyInvertsAll(e: Encoding, s: string)
    requires IsBytes(s) && s != ""
    ensures DecodeAny(Encode(e, s)) == Some(s)
  {
    hide DecodeRaw, EncodeRaw, Stripped;
    var raw := EncodeRaw(e.alphabet, s);
    StrippedEncoding(e, s);
    EncodeRawChars(e.alphabet, s);
    DecodeRawInverts(e.alphabet, s);
    AlphabetsAgree(e.alphabet, UrlSafe, raw);
    assert Decode(GUESSES[0], raw) == DecodeRaw(UrlSafe, raw) && GUESSES[1..][0] == GUESSES[1];
    assert Decode(GUESSES[1], raw) == DecodeRaw(Standard, raw);
    assert FirstDecoding(GUESSES[1..], raw) == Some(s) || e.alphabet == UrlSafe;
  }

  lemma OneByte(a: Alphabet, x: char)
    requires x as int < 256
    ensures EncodeRaw(a, [x]) == [EncodeChar(a, x as int / 4), EncodeChar(a, x as int % 4 * 16)]
  {}

  lemma ThreeBytes(a: Alphabet, x: char, y: char, z: char)
    requires x as int < 256 && y as int < 256 && z as int < 256
    ensures EncodeRaw(a, [x, y, z]) ==
            [EncodeChar(a, x as int / 4), EncodeChar(a, x as int % 4 * 16 + y as int / 16),
             EncodeChar(a, y as int % 16 * 4 + z as int / 64), EncodeChar(a, z as int % 64)]
  {
    hide EncodeChar;
    EncodeGroup(a, [x, y, z]);
    assert [x, y, z][3..] == "" && EncodeRaw(a, "") == "";
  }

  /** Vectors of section 10 of RFC 4648. */
  lemma RfcVectors()
    ensures Encode(Encoding(Standard, true), "f") == "Zg==" && Encode(Encoding(UrlSafe, false), "f") == "Zg"
    ensures Encode(Encoding(Standard, true), "foo") == "Zm9v"
  {
    hide EncodeRaw;
    OneByte(Standard, 'f');
    OneByte(UrlSafe, 'f');
    ThreeBytes(Standard, 'f', 'o', 'o');
    assert "f" == ['f'] && "foo" == ['f', 'o', 'o'];
  }

  /** The characters in which the two alphabets of sections 4 and 5 of RFC 4648 differ. */
  lemma AlphabetsDiffer()
    ensures var s := [0xFB as char, 0xFF as char, 0xBF as char];
      Encode(Encoding(Standard, true), s) == "+/+/" && Encode(Encoding(UrlSafe, true), s) == "-_-_"
  {
    hide EncodeRaw;
    ThreeBytes(Standard, 0xFB as char, 0xFF as char, 0xBF as char);
    ThreeBytes(UrlSafe, 0xFB as char, 0xFF as char, 0xBF as char);
  }

  lemma {:induction false} WithoutAppend(s: string, t: string, c: char)
    ensures Without(s + t, c) == Without(s, c) + Without(t, c)
  {
    if s == [] {
      assert s + t == t;
    } else {
      assert (s + t)[1..] == s[1..] + t;
      WithoutAppend(s[1..], t, c);
    }
  }

  /** A line break inside an encoded text makes no difference. */
  lemma LineBreaksIgnored(a: string, b: string, c: char)
    requires a != "" && b != "" && !IsSpace(a[0]) && !IsSpace(b[|b| - 1]) && (c == '\n' || c == '\r')
    ensures DecodeAny(a + [c] + b) == DecodeAny(a + b)
  {
    hide Without, FirstDecoding;
    var broken, whole := a + [c] + b, a + b;
    assert broken[0] == a[0] == whole[0] && broken[|broken| - 1] == b[|b| - 1] == whole[|whole| - 1];
    TrimSpaceProperties(broken);
    TrimSpaceProperties(whole);
    if c == '\n' {
      BreakGone(a, b, c);
    } else {
      WithoutAppend(a + [c], b, '\n');
      WithoutAppend(a, [c], '\n');
      WithoutAppend(a, b, '\n');
      WithoutAbsent([c], '\n');
      BreakGone(Without(a, '\n'), Without(b, '\n'), c);
      assert Without(broken, '\n') == Without(a, '\n') + [c] + Without(b, '\n');
    }
  }

  lemma BreakGone(a: string, b: string, c: char)
    ensures Without(a + [c] + b, c) == Without(a + b, c)
  {
    WithoutAppend(a + [c], b, c);
    WithoutAppend(a, [c], c);
    WithoutAppend(a, b, c);
    assert Without([c], c) == [] by { assert Without([], c) == []; }
  }
}
