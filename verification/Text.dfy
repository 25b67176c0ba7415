/**
 String operations of the Go standard library that the agent relies on.

 A Go string is a sequence of bytes; here a `char` stands for one byte.  Case folding and white space
 are those of ASCII.
 */
module Text {

  datatype Option<+T> = None | Some(value: T)

  predicate IsSpace(c: char) {
    c == ' ' || c == '\t' || c == '\n' || c == '\r' || c == '\U{0B}' || c == '\U{0C}'
  }

  function TrimLeft(s: string): string {
    if s != [] && IsSpace(s[0]) then TrimLeft(s[1..]) else s
  }

  function TrimRight(s: string): string {
    if s != [] && IsSpace(s[|s| - 1]) then TrimRight(s[..|s| - 1]) else s
  }

  function TrimSpace(s: string): string {
    TrimRight(TrimLeft(s))
  }

  // True of exactly the strings that TrimSpace leaves alone.
  predicate Trimmed(s: string) {
    s != [] ==> !IsSpace(s[0]) && !IsSpace(s[|s| - 1])
  }

  lemma TrimSpaceProperties(s: string)
    ensures Trimmed(TrimSpace(s))
    ensures |TrimSpace(s)| <= |s|
    ensures forall c :: c in TrimSpace(s) ==> c in s
    ensures Trimmed(s) <==> TrimSpace(s) == s
  {
    TrimLeftProperties(s);
    TrimRightProperties(TrimLeft(s));
  }

  lemma TrimLeftProperties(s: string)
    ensures |TrimLeft(s)| <= |s|
    ensures TrimLeft(s) != [] ==> !IsSpace(TrimLeft(s)[0])
    ensures forall c :: c in TrimLeft(s) ==> c in s
    ensures TrimLeft(s) != s ==> s != [] && IsSpace(s[0])
  {}

  lemma TrimRightProperties(s: string)
    ensures |TrimRight(s)| <= |s| && TrimRight(s) == s[..|TrimRight(s)|]
    ensures TrimRight(s) != [] ==> !IsSpace(TrimRight(s)[|TrimRight(s)| - 1])
    ensures TrimRight(s) != s ==> s != [] && IsSpace(s[|s| - 1])
  {}

  lemma {:induction false} TrimLeftMembers(s: string)
    ensures forall x :: x in s && !IsSpace(x) ==> x in TrimLeft(s)
  {
    if s != [] && IsSpace(s[0]) {
      TrimLeftMembers(s[1..]);
      assert s == [s[0]] + s[1..];
    }
  }

  lemma {:induction false} TrimRightMembers(s: string)
    ensures forall x :: x in s && !IsSpace(x) ==> x in TrimRight(s)
  {
    if s != [] && IsSpace(s[|s| - 1]) {
      TrimRightMembers(s[..|s| - 1]);
      assert s == s[..|s| - 1] + [s[|s| - 1]];
    }
  }

  /** Only white space is trimmed to nothing. */
  lemma TrimSpaceVisible(s: string)
    ensures TrimSpace(s) != "" <==> exists c :: c in s && !IsSpace(c)
  {
    TrimSpaceProperties(s);
    TrimLeftMembers(s);
    TrimRightMembers(TrimLeft(s));
    if TrimSpace(s) != "" {
      assert TrimSpace(s)[0] in s;
    }
  }

  /* ----- searching and splitting ----- */

  /** The position of the first `c` in `s`, or `|s|` when there is none. */
  function Index(s: string, c: char): (i: nat)
    ensures i <= |s|
    ensures c !in s[..i] && forall j :: 0 <= j < i ==> s[j] != c
    ensures i < |s| ==> s[i] == c
  {
    if s == [] || s[0] == c then 0
    else
      var i := 1 + Index(s[1..], c);
      assert forall j :: 1 <= j < i ==> s[j] == s[1..][j - 1];
      i
  }

  lemma IndexIs(s: string, c: char, i: nat)
    requires i <= |s| && c !in s[..i] && (i < |s| ==> s[i] == c)
    ensures Index(s, c) == i
  {
    forall k | 0 <= k < i
      ensures s[k] != c
    {
      assert s[k] in s[..i];
    }
  }

  // What `strings.Cut` returns on the two sides of the first separator.
  function BeforeFirst(s: string, c: char): string { s[..Index(s, c)] }
  function AfterFirst(s: string, c: char): string { if Index(s, c) < |s| then s[Index(s, c) + 1..] else "" }

  lemma CutAt(a: string, c: char, b: string)
    requires c !in a
    ensures Index(a + [c] + b, c) == |a|
    ensures BeforeFirst(a + [c] + b, c) == a && AfterFirst(a + [c] + b, c) == b
  {
    var s := a + [c] + b;
    assert s[..|a|] == a;
    IndexIs(s, c, |a|);
    assert s[|a| + 1..] == b;
  }

  lemma NoCut(a: string, c: char)
    requires c !in a
    ensures Index(a, c) == |a| && BeforeFirst(a, c) == a && AfterFirst(a, c) == ""
  {
    assert a[..|a|] == a;
    IndexIs(a, c, |a|);
  }

  predicate Contains(s: string, sub: string) {
    |sub| <= |s| && (s[..|sub|] == sub || (s != [] && Contains(s[1..], sub)))
  }

  /** `strings.Split` with a one-byte separator. */
  function Split(s: string, sep: char): (parts: seq<string>)
    ensures |parts| >= 1
    ensures forall i :: 0 <= i < |parts| ==> sep !in parts[i]
  {
    if s == [] then [""]
    else
      var rest := Split(s[1..], sep);
      if s[0] == sep then [""] + rest else [[s[0]] + rest[0]] + rest[1..]
  }

  lemma {:induction false} SplitNone(s: string, sep: char)
    requires sep !in s
    ensures Split(s, sep) == [s]
  {
    if s != [] {
      SplitNone(s[1..], sep);
      assert [s[0]] + s[1..] == s;
    }
  }

  lemma {:induction false} SplitFirst(a: string, sep: char, b: string)
    requires sep !in a
    ensures Split(a + [sep] + b, sep) == [a] + Split(b, sep)
  {
    var s := a + [sep] + b;
    if a == [] {
      assert s[1..] == b;
    } else {
      assert s[1..] == a[1..] + [sep] + b;
      SplitFirst(a[1..], sep, b);
      assert [a[0]] + a[1..] == a;
    }
  }

  function NonEmptyTrimmed(parts: seq<string>): (out: seq<string>)
    ensures forall i :: 0 <= i < |out| ==> out[i] != "" && exists j :: 0 <= j < |parts| && out[i] == TrimSpace(parts[j])
  {
    if parts == [] then []
    else
      var rest := NonEmptyTrimmed(parts[1..]);
      var head := TrimSpace(parts[0]);
      if head == "" then rest else [head] + rest
  }

  /** The items of a comma separated list, trimmed, empty ones dropped. */
  function SplitCSV(value: string): seq<string> {
    NonEmptyTrimmed(Split(value, ','))
  }

  // A string that is one item of a comma separated list, and reads back as itself.
  predicate Clean(s: string) {
    s != "" && ',' !in s && Trimmed(s)
  }

  lemma SplitCSVItemsClean(value: string)
    ensures forall i :: 0 <= i < |SplitCSV(value)| ==> Clean(SplitCSV(value)[i])
  {
    var parts := Split(value, ',');
    var out := NonEmptyTrimmed(parts);
    forall i | 0 <= i < |out|
      ensures Clean(out[i])
    {
      var j :| 0 <= j < |parts| && out[i] == TrimSpace(parts[j]);
      TrimSpaceProperties(parts[j]);
    }
  }

  lemma SplitCSVClean(value: string)
    requires Clean(value)
    ensures SplitCSV(value) == [value]
  {
    SplitNone(value, ',');
    TrimSpaceProperties(value);
    assert NonEmptyTrimmed([value]) == [value] + NonEmptyTrimmed([]);
  }

  function JoinCSV(items: seq<string>): string {
    if items == [] then ""
    else if |items| == 1 then items[0]
    else items[0] + [','] + JoinCSV(items[1..])
  }

  lemma {:induction false} SplitJoinCSV(items: seq<string>)
    requires forall i :: 0 <= i < |items| ==> Clean(items[i])
    ensures SplitCSV(JoinCSV(items)) == items
  {
    if items == [] {
    } else if |items| == 1 {
      SplitCSVClean(items[0]);
    } else {
      SplitFirst(items[0], ',', JoinCSV(items[1..]));
      TrimSpaceProperties(items[0]);
      SplitJoinCSV(items[1..]);
      var rest := Split(JoinCSV(items[1..]), ',');
      assert ([items[0]] + rest)[1..] == rest;
    }
  }

  /* ----- order and case ----- */

  // Go's `<` on strings: lexicographic over bytes.
  predicate Less(a: string, b: string) {
    b != [] && (a == [] || a[0] < b[0] || (a[0] == b[0] && Less(a[1..], b[1..])))
  }

  lemma {:induction false} LessTrichotomy(a: string, b: string)
    ensures Less(a, b) || a == b || Less(b, a)
    ensures !(Less(a, b) && Less(b, a))
    ensures a == b ==> !Less(a, b)
  {
    if a != [] && b != [] && a[0] == b[0] {
      LessTrichotomy(a[1..], b[1..]);
      assert a == [a[0]] + a[1..] && b == [b[0]] + b[1..];
    }
  }

  lemma {:induction false} LessTransitive(a: string, b: string, c: string)
    requires Less(a, b) && Less(b, c)
    ensures Less(a, c)
  {
    if a != [] && a[0] == b[0] == c[0] {
      LessTransitive(a[1..], b[1..], c[1..]);
    }
  }

  function LowerChar(c: char): char {
    if 'A' <= c <= 'Z' then (c as int + 32) as char else c
  }

  function UpperChar(c: char): char {
    if 'a' <= c <= 'z' then (c as int - 32) as char else c
  }

  function ToLower(s: string): (r: string)
    ensures |r| == |s|
  {
    seq(|s|, i requires 0 <= i < |s| => LowerChar(s[i]))
  }

  function ToUpper(s: string): (r: string)
    ensures |r| == |s|
  {
    seq(|s|, i requires 0 <= i < |s| => UpperChar(s[i]))
  }

  predicate EqualFold(a: string, b: string) {
    ToLower(a) == ToLower(b)
  }

  lemma UpperIsFoldEqual(s: string)
    ensures ToLower(ToUpper(s)) == ToLower(s)
  {}

  /* ----- decimal numbers ----- */

  const MAX_INT := 9223372036854775807
  const MIN_INT := -9223372036854775808

  predicate IsDigit(c: char) { '0' <= c <= '9' }
  predicate AllDigits(s: string) { forall c :: c in s ==> IsDigit(c) }

  function DigitOf(c: char): nat
    requires IsDigit(c)
  {
    c as int - '0' as int
  }

  function Value(digits: string): nat
    requires AllDigits(digits)
  {
    if digits == [] then 0
    else
      assert digits[|digits| - 1] in digits;
      10 * Value(digits[..|digits| - 1]) + DigitOf(digits[|digits| - 1])
  }

  /** `strconv.Itoa` of a number that is not negative. */
  function Decimal(n: nat): (s: string)
    ensures s != []
  {
    if n < 10 then [('0' as int + n) as char] else Decimal(n / 10) + [('0' as int + n % 10) as char]
  }

  lemma {:induction false} DecimalValue(n: nat)
    ensures AllDigits(Decimal(n)) && Value(Decimal(n)) == n
  {
    var s := Decimal(n);
    if 10 <= n {
      DecimalValue(n / 10);
      assert s[..|s| - 1] == Decimal(n / 10);
    } else {
      assert s[..0] == [];
    }
  }

  lemma DecimalInjective(m: nat, n: nat)
    requires Decimal(m) == Decimal(n)
    ensures m == n
  {
    DecimalValue(m);
    DecimalValue(n);
  }

  function Itoa(n: int): string {
    if n < 0 then "-" + Decimal(-n) else Decimal(n)
  }

  /** `strconv.Atoi`: a decimal number with an optional sign, refused when it leaves 64 bits. */
  function Atoi(s: string): Option<int> {
    var negative := s != [] && s[0] == '-';
    var digits := if s != [] && (s[0] == '-' || s[0] == '+') then s[1..] else s;
    if digits == [] || !AllDigits(digits) then None
    else
      var magnitude: int := Value(digits);
      var n := if negative then -magnitude else magnitude;
      if MIN_INT <= n <= MAX_INT then Some(n) else None
  }

  lemma AtoiDecimal(n: nat)
    requires n <= MAX_INT
    ensures Atoi(Decimal(n)) == Some(n)
  {
    DecimalValue(n);
    assert Decimal(n)[0] in Decimal(n);
  }

  lemma LowerIs(s: string)
    requires forall c :: c in s ==> LowerChar(c) == c
    ensures ToLower(s) == s
  {
    forall i | 0 <= i < |s|
      ensures ToLower(s)[i] == s[i]
    {
      assert s[i] in s;
    }
  }
}
