/** ASCII string helpers standing in for Go's `strings` package and `len`.
    Strings are `seq<char>`; whitespace and case handling are restricted to
    ASCII, and lengths are measured in UTF-8 bytes as Go's `len` does. */
module Text {
  import opened Wrappers

  predicate IsDigit(c: char) { '0' <= c <= '9' }
  predicate IsLower(c: char) { 'a' <= c <= 'z' }
  predicate IsUpper(c: char) { 'A' <= c <= 'Z' }
  predicate IsLetter(c: char) { IsLower(c) || IsUpper(c) }
  predicate IsAscii(c: char) { c as int < 0x80 }

  /** The ASCII white space Go's `strings.TrimSpace` removes. */
  predicate IsSpace(c: char) {
    c == ' ' || c == '\t' || c == '\n' || c == '\U{0B}' || c == '\U{0C}' || c == '\r'
  }

  const Digits: string := "0123456789"
  const LowerLetters: string := "abcdefghijklmnopqrstuvwxyz"
  const UpperLetters: string := "ABCDEFGHIJKLMNOPQRSTUVWXYZ"

  predicate HasDigit(s: string) { exists i | 0 <= i < |s| :: IsDigit(s[i]) }
  predicate HasLower(s: string) { exists i | 0 <= i < |s| :: IsLower(s[i]) }
  predicate HasUpper(s: string) { exists i | 0 <= i < |s| :: IsUpper(s[i]) }

  /** Go's `strings.ContainsAny(s, chars)`: some character of `s` occurs in `chars`. */
  function ContainsAny(s: string, chars: string): (r: bool)
    ensures r <==> exists i :: 0 <= i < |s| && s[i] in chars
  {
    if s == [] then false
    else if s[0] in chars then true
    else
      var r := ContainsAny(s[1..], chars);
      assert forall i :: 1 <= i < |s| ==> s[i] == s[1..][i - 1];
      r
  }

  lemma DigitsAreDigits(c: char)
    ensures c in Digits <==> IsDigit(c)
  {
  }

  lemma LowerLettersAreLower(c: char)
    ensures c in LowerLetters <==> IsLower(c)
  {
  }

  lemma UpperLettersAreUpper(c: char)
    ensures c in UpperLetters <==> IsUpper(c)
  {
  }

  /** `ContainsAny` with the three class strings the validators use agrees with
      the class predicates. */
  lemma ContainsAnyClasses(s: string)
    ensures ContainsAny(s, Digits) <==> HasDigit(s)
    ensures ContainsAny(s, LowerLetters) <==> HasLower(s)
    ensures ContainsAny(s, UpperLetters) <==> HasUpper(s)
  {
    forall c: char ensures (c in Digits <==> IsDigit(c)) && (c in LowerLetters <==> IsLower(c))
                           && (c in UpperLetters <==> IsUpper(c)) {
      DigitsAreDigits(c);
      LowerLettersAreLower(c);
      UpperLettersAreUpper(c);
    }
  }

  // ---------------------------------------------------------------------------
  // Byte length

  /** Number of bytes of the UTF-8 encoding of `c`. */
  function Utf8Width(c: char): (w: nat)
    ensures 1 <= w <= 4
    ensures w == 1 <==> IsAscii(c)
  {
    if c as int < 0x80 then 1
    else if c as int < 0x800 then 2
    else if c as int < 0x10000 then 3
    else 4
  }

  /** Go's `len(s)` on a string: the length of its UTF-8 encoding in bytes. */
  function ByteLen(s: string): (n: nat)
    ensures |s| <= n <= 4 * |s|
    ensures (forall i :: 0 <= i < |s| ==> IsAscii(s[i])) ==> n == |s|
  {
    if s == [] then 0 else Utf8Width(s[0]) + ByteLen(s[1..])
  }

  lemma {:induction false} ByteLenEmpty(s: string)
    ensures ByteLen(s) == 0 <==> s == []
  {
  }

  // ---------------------------------------------------------------------------
  // Case mapping

  function ToLowerChar(c: char): (d: char)
    ensures IsUpper(c) ==> IsLower(d) && d as int == c as int + 32
    ensures !IsUpper(c) ==> d == c
  {
    if IsUpper(c) then (c as int + 32) as char else c
  }

  /** Go's `strings.ToLower`, restricted to ASCII: every upper-case ASCII letter
      becomes its lower-case partner, every other character is kept. */
  function ToLower(s: string): (r: string)
    ensures |r| == |s|
    ensures forall i :: 0 <= i < |s| ==> r[i] == ToLowerChar(s[i])
  {
    if s == [] then [] else [ToLowerChar(s[0])] + ToLower(s[1..])
  }

  lemma ToLowerHasNoUpper(s: string)
    ensures !HasUpper(ToLower(s))
  {
  }

  // ---------------------------------------------------------------------------
  // Trimming

  /** Neither end of `s` is white space. */
  predicate IsTrimmed(s: string) {
    s == [] || (!IsSpace(s[0]) && !IsSpace(s[|s| - 1]))
  }

  /** Number of white-space characters at the front of `s`. */
  function LeadingSpace(s: string): (n: nat)
    ensures n <= |s|
    ensures forall i :: 0 <= i < n ==> IsSpace(s[i])
    ensures n < |s| ==> !IsSpace(s[n])
  {
    if s == [] || !IsSpace(s[0]) then 0
    else
      var n := LeadingSpace(s[1..]);
      assert forall i :: 1 <= i < n + 1 ==> s[i] == s[1..][i - 1];
      n + 1
  }

  /** Number of white-space characters at the back of `s`. */
  function TrailingSpace(s: string): (n: nat)
    ensures n <= |s|
    ensures forall i :: |s| - n <= i < |s| ==> IsSpace(s[i])
    ensures n < |s| ==> !IsSpace(s[|s| - n - 1])
  {
    if s == [] || !IsSpace(s[|s| - 1]) then 0
    else 1 + TrailingSpace(s[..|s| - 1])
  }

  /** Go's `strings.TrimSpace` over ASCII white space: `s` without the white
      space at either end (`TrimSpaceDropsOnlySpace` says exactly what goes). */
  function TrimSpace(s: string): (r: string)
    ensures IsTrimmed(r)
    ensures |r| <= |s|
    ensures IsTrimmed(s) ==> r == s
  {
    var t := s[LeadingSpace(s)..];
    t[..|t| - TrailingSpace(t)]
  }

  /** `TrimSpace` keeps the infix of `s` that starts at its first non-space
      character, and everything it drops is white space. */
  lemma TrimSpaceDropsOnlySpace(s: string)
    ensures var a, r := LeadingSpace(s), TrimSpace(s);
      && a + |r| <= |s|
      && r == s[a..a + |r|]
      && (forall i :: 0 <= i < a ==> IsSpace(s[i]))
      && (forall i :: a + |r| <= i < |s| ==> IsSpace(s[i]))
  {
    var a := LeadingSpace(s);
    var t := s[a..];
    var b := TrailingSpace(t);
    assert forall i :: a + |t| - b <= i < |s| ==> s[i] == t[i - a];
  }

  /** Lower-casing neither creates nor removes white space at the ends. */
  lemma ToLowerKeepsTrimmed(s: string)
    requires IsTrimmed(s)
    ensures IsTrimmed(ToLower(s))
  {
  }

  lemma TrimSpaceIdempotent(s: string)
    ensures TrimSpace(TrimSpace(s)) == TrimSpace(s)
  {
  }

  // ---------------------------------------------------------------------------
  // Searching

  /** Position of the first `c` in `s`. */
  function IndexOf(s: string, c: char): (r: Option<nat>)
    ensures r.None? <==> c !in s
    ensures r.Some? ==> r.value < |s| && s[r.value] == c && c !in s[..r.value]
  {
    if s == [] then None
    else if s[0] == c then Some(0)
    else match IndexOf(s[1..], c)
      case None => None
      case Some(i) =>
        assert s[1..][..i] == s[1..i + 1];
        Some(i + 1)
  }

  /** Position of the last `c` in `s`. */
  function LastIndexOf(s: string, c: char): (r: Option<nat>)
    ensures r.None? <==> c !in s
    ensures r.Some? ==> r.value < |s| && s[r.value] == c && c !in s[r.value + 1..]
  {
    if s == [] then None
    else if s[|s| - 1] == c then Some(|s| - 1)
    else
      var r := LastIndexOf(s[..|s| - 1], c);
      assert s == s[..|s| - 1] + [s[|s| - 1]];
      r
  }

  // ---------------------------------------------------------------------------
  // Joining and counting

  /** Go's `strings.Join(parts, sep)`; `JoinEnds` and `CountJoin` say what it
      produces. */
  function Join(parts: seq<string>, sep: string): string
  {
    if parts == [] then ""
    else if |parts| == 1 then parts[0]
    else parts[0] + sep + Join(parts[1..], sep)
  }

  /** Joining no parts gives the empty string; otherwise the result starts
      with the first part and ends with the last. */
  lemma {:induction false} JoinEnds(parts: seq<string>, sep: string)
    ensures parts == [] ==> Join(parts, sep) == ""
    ensures parts != [] ==>
      var r, first, last := Join(parts, sep), parts[0], parts[|parts| - 1];
      && |first| <= |r| && r[..|first|] == first
      && |last| <= |r| && r[|r| - |last|..] == last
  {
    if |parts| > 1 {
      var rest := Join(parts[1..], sep);
      var r := parts[0] + sep + rest;
      JoinEnds(parts[1..], sep);
      assert r[..|parts[0]|] == parts[0];
      assert r[|r| - |rest|..] == rest;
    }
  }

  /** Number of occurrences of `c` in `s`. */
  function Count(s: string, c: char): nat
  {
    if s == [] then 0 else (if s[0] == c then 1 else 0) + Count(s[1..], c)
  }

  lemma {:induction false} CountAppend(a: string, b: string, c: char)
    ensures Count(a + b, c) == Count(a, c) + Count(b, c)
  {
    if a == [] {
      assert a + b == b;
    } else {
      assert (a + b)[1..] == a[1..] + b;
      CountAppend(a[1..], b, c);
    }
  }

  lemma CountAppend3(a: string, b: string, d: string, c: char)
    ensures Count(a + b + d, c) == Count(a, c) + Count(b, c) + Count(d, c)
  {
    CountAppend(a, b, c);
    CountAppend(a + b, d, c);
  }

  lemma {:induction false} CountAbsent(s: string, c: char)
    requires c !in s
    ensures Count(s, c) == 0
  {
    if s != [] {
      assert c !in s[1..];
      CountAbsent(s[1..], c);
    }
  }

  /** Sum of `Count(p, c)` over the parts. */
  function CountAll(parts: seq<string>, c: char): nat
  {
    if parts == [] then 0 else Count(parts[0], c) + CountAll(parts[1..], c)
  }

  /** Joining with a separator free of `c` adds no occurrence of `c`. */
  lemma {:induction false} CountJoin(parts: seq<string>, sep: string, c: char)
    requires Count(sep, c) == 0
    ensures Count(Join(parts, sep), c) == CountAll(parts, c)
  {
    if |parts| > 1 {
      var rest := Join(parts[1..], sep);
      assert Join(parts, sep) == parts[0] + sep + rest;
      CountJoin(parts[1..], sep, c);
      CountAppend3(parts[0], sep, rest, c);
    }
  }

  // ---------------------------------------------------------------------------
  // Decimal notation

  function DigitChar(d: nat): (c: char)
    requires d < 10
    ensures IsDigit(c) && c as int - '0' as int == d
  {
    ('0' as int + d) as char
  }

  /** Go's `fmt.Sprintf("%d", n)` for a non-negative `n`. */
  function Decimal(n: nat): (s: string)
    ensures s != []
    ensures forall i :: 0 <= i < |s| ==> IsDigit(s[i])
    decreases n
  {
    if n < 10 then [DigitChar(n)] else Decimal(n / 10) + [DigitChar(n % 10)]
  }

  /** The value of a string of decimal digits. */
  function DecimalValue(s: string): nat
    requires forall i :: 0 <= i < |s| ==> IsDigit(s[i])
  {
    if s == [] then 0
    else
      assert IsDigit(s[|s| - 1]);
      10 * DecimalValue(s[..|s| - 1]) + (s[|s| - 1] as int - '0' as int)
  }

  /** Reading back the decimal rendering gives the number. */
  lemma {:induction false} DecimalRoundTrip(n: nat)
    ensures DecimalValue(Decimal(n)) == n
    decreases n
  {
    if n >= 10 {
      var s := Decimal(n);
      assert s[..|s| - 1] == Decimal(n / 10);
      DecimalRoundTrip(n / 10);
    }
  }

  /** Three-digit numbers render as exactly three digits. */
  lemma DecimalThreeDigits(n: nat)
    requires 100 <= n <= 999
    ensures |Decimal(n)| == 3
  {
    assert Decimal(n) == Decimal(n / 10) + [DigitChar(n % 10)];
    assert Decimal(n / 10) == Decimal(n / 100) + [DigitChar((n / 10) % 10)];
  }
}
