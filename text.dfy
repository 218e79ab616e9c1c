/**
 * String helpers shared by the parsers: ASCII whitespace trimming, splitting on
 * one separator character, prefix tests and decimal numerals. Strings are
 * sequences of characters, one character per byte of the source's strings.
 */
module Text {
  import opened Wrappers

  /** The six ASCII whitespace characters of C's isspace in the "C" locale. */
  predicate IsSpace(c: char) {
    c == ' ' || c == '\t' || c == '\n' || c == '\r' || c as int == 11 || c as int == 12
  }

  /**
   * Unicode whitespace, the set both Go's unicode.IsSpace (behind
   * strings.TrimSpace) and Qt's QChar::isSpace (behind QString::trimmed)
   * accept: the ASCII six, U+0085, U+00A0, U+1680, U+2000 to U+200A,
   * U+2028, U+2029, U+202F, U+205F and U+3000.
   */
  predicate IsWhiteSpace(c: char) {
    IsSpace(c) || c as int == 0x85 || c as int == 0xA0 || c as int == 0x1680 ||
    (0x2000 <= c as int <= 0x200A) || c as int == 0x2028 || c as int == 0x2029 ||
    c as int == 0x202F || c as int == 0x205F || c as int == 0x3000
  }

  predicate IsDigit(c: char) { '0' <= c <= '9' }

  predicate AllDigits(s: string) { forall i :: 0 <= i < |s| ==> IsDigit(s[i]) }

  /** The bytes of one character's UTF-8 encoding. */
  function Utf8Width(c: char): nat
  {
    if c as int < 0x80 then 1 else if c as int < 0x800 then 2 else if c as int < 0x10000 then 3 else 4
  }

  /** Go's len of a string: the bytes of its UTF-8 encoding, one to four per character. */
  function Utf8Len(s: string): (n: nat)
    ensures |s| <= n <= 4 * |s|
    ensures n == 0 <==> s == ""
  {
    if |s| == 0 then 0 else Utf8Width(s[0]) + Utf8Len(s[1..])
  }

  /** Drops leading whitespace. */
  function TrimLeft(s: string): (r: string)
    ensures |r| <= |s|
  {
    if |s| > 0 && IsWhiteSpace(s[0]) then TrimLeft(s[1..]) else s
  }

  /** TrimLeft drops exactly the leading whitespace: a suffix of s, preceded by spaces, that starts with a non-space. */
  lemma {:induction false} TrimLeftSpec(s: string)
    ensures TrimLeft(s) == s[|s| - |TrimLeft(s)|..]
    ensures TrimLeft(s) == [] || !IsWhiteSpace(TrimLeft(s)[0])
    ensures forall i :: 0 <= i < |s| - |TrimLeft(s)| ==> IsWhiteSpace(s[i])
    decreases |s|
  {
    if |s| > 0 && IsWhiteSpace(s[0]) {
      TrimLeftSpec(s[1..]);
      assert forall i :: 1 <= i < |s| ==> s[1..][i - 1] == s[i];
    }
  }

  /** Drops trailing whitespace. */
  function TrimRight(s: string): (r: string)
    ensures |r| <= |s|
  {
    if |s| > 0 && IsWhiteSpace(s[|s| - 1]) then TrimRight(s[..|s| - 1]) else s
  }

  lemma {:induction false} TrimRightSpec(s: string)
    ensures TrimRight(s) == s[..|TrimRight(s)|]
    ensures TrimRight(s) == [] || !IsWhiteSpace(TrimRight(s)[|TrimRight(s)| - 1])
    ensures forall i :: |TrimRight(s)| <= i < |s| ==> IsWhiteSpace(s[i])
    decreases |s|
  {
    if |s| > 0 && IsWhiteSpace(s[|s| - 1]) {
      TrimRightSpec(s[..|s| - 1]);
      assert forall i :: 0 <= i < |s| - 1 ==> s[..|s| - 1][i] == s[i];
    }
  }

  /** Number of leading whitespace characters. */
  function LeadingSpaces(s: string): nat
  {
    |s| - |TrimLeft(s)|
  }

  /**
   * Drops whitespace at both ends (QString::trimmed, strings.TrimSpace).
   */
  function Trim(s: string): (r: string)
    ensures |r| <= |s|
  {
    TrimRight(TrimLeft(s))
  }

  /**
   * The trim is the slice of s that starts after the leading whitespace and
   * stops before the trailing whitespace, and neither end is whitespace.
   */
  lemma TrimSpec(s: string)
    ensures Trim(s) == [] || (!IsWhiteSpace(Trim(s)[0]) && !IsWhiteSpace(Trim(s)[|Trim(s)| - 1]))
    ensures LeadingSpaces(s) + |Trim(s)| <= |s|
    ensures Trim(s) == s[LeadingSpaces(s)..LeadingSpaces(s) + |Trim(s)|]
    ensures forall i :: 0 <= i < LeadingSpaces(s) ==> IsWhiteSpace(s[i])
    ensures forall i :: LeadingSpaces(s) + |Trim(s)| <= i < |s| ==> IsWhiteSpace(s[i])
  {
    var l := TrimLeft(s);
    var r := TrimRight(l);
    var k := |s| - |l|;
    TrimLeftSpec(s);
    TrimRightSpec(l);
    assert r == l[..|r|];
    assert r == s[k..k + |r|];
    if r != [] {
      assert r[0] == l[0];
    }
    forall i | k + |r| <= i < |s| ensures IsWhiteSpace(s[i]) {
      assert s[i] == l[i - k];
    }
  }

  lemma TrimIdempotent(s: string)
    ensures Trim(Trim(s)) == Trim(s)
  {
    TrimSpec(s);
    TrimOfTrimmed(Trim(s));
  }

  /** A string with no whitespace at either end is its own trim. */
  lemma TrimOfTrimmed(s: string)
    requires s == [] || (!IsWhiteSpace(s[0]) && !IsWhiteSpace(s[|s| - 1]))
    ensures Trim(s) == s
  {
  }

  /** Index of the first occurrence of c, or -1 (std::string::find with npos as -1). */
  function Find(s: string, c: char): (k: int)
    ensures -1 <= k < |s|
  {
    if |s| == 0 then -1
    else if s[0] == c then 0
    else
      var k := Find(s[1..], c);
      if k == -1 then -1 else k + 1
  }

  /** Find gives the first occurrence, and -1 exactly when c does not occur. */
  lemma {:induction false} FindSpec(s: string, c: char)
    ensures Find(s, c) == -1 <==> c !in s
    ensures Find(s, c) >= 0 ==> s[Find(s, c)] == c && c !in s[..Find(s, c)]
  {
    if |s| > 0 && s[0] != c {
      var k := Find(s[1..], c);
      FindSpec(s[1..], c);
      assert s == [s[0]] + s[1..];
      if k != -1 {
        assert s[..k + 1] == [s[0]] + s[1..][..k];
      }
    }
  }

  /** The first occurrence is where Find says. */
  lemma FindAt(s: string, c: char, n: int)
    requires 0 <= n < |s| && s[n] == c && c !in s[..n]
    ensures Find(s, c) == n
  {
    FindSpec(s, c);
  }

  /** Joins parts with sep between consecutive parts. */
  function Join(parts: seq<string>, sep: char): string
  {
    if |parts| == 0 then ""
    else if |parts| == 1 then parts[0]
    else parts[0] + [sep] + Join(parts[1..], sep)
  }

  /**
   * Splits on every occurrence of sep, keeping empty parts (strings.Split,
   * QString::split with KeepEmptyParts). The empty string splits into one empty part.
   */
  function Split(s: string, sep: char): (parts: seq<string>)
    ensures |parts| >= 1
    decreases |s|
  {
    var k := Find(s, sep);
    if k == -1 then [s] else [s[..k]] + Split(s[k + 1..], sep)
  }

  /** Splitting loses nothing: the parts are separator-free and joining them gives the string back. */
  lemma SplitSound(s: string, sep: char)
    ensures forall i :: 0 <= i < |Split(s, sep)| ==> sep !in Split(s, sep)[i]
    ensures Join(Split(s, sep), sep) == s
  {
    SplitSepFree(s, sep);
    SplitJoinBack(s, sep);
  }

  lemma {:induction false} SplitSepFree(s: string, sep: char)
    ensures forall i :: 0 <= i < |Split(s, sep)| ==> sep !in Split(s, sep)[i]
    decreases |s|
  {
    var k := Find(s, sep);
    FindSpec(s, sep);
    var parts := Split(s, sep);
    if k == -1 {
      assert parts == [s];
    } else {
      var rest := Split(s[k + 1..], sep);
      SplitSepFree(s[k + 1..], sep);
      assert parts == [s[..k]] + rest;
      forall i | 0 <= i < |parts|
        ensures sep !in parts[i]
      {
        if i > 0 {
          assert parts[i] == rest[i - 1];
        }
      }
    }
  }

  lemma {:induction false} SplitJoinBack(s: string, sep: char)
    ensures Join(Split(s, sep), sep) == s
    decreases |s|
  {
    var k := Find(s, sep);
    if k != -1 {
      var parts, rest := Split(s, sep), Split(s[k + 1..], sep);
      SplitJoinBack(s[k + 1..], sep);
      FindSpec(s, sep);
      assert parts == [s[..k]] + rest;
      assert parts[1..] == rest;
      assert Join(parts, sep) == s[..k] + [sep] + Join(rest, sep);
      assert s == s[..k] + [sep] + s[k + 1..];
    }
  }

  /** The other half of the round trip: splitting a join of separator-free parts gives the parts back. */
  lemma {:induction false} SplitJoin(parts: seq<string>, sep: char)
    requires |parts| >= 1
    requires forall i :: 0 <= i < |parts| ==> sep !in parts[i]
    ensures Split(Join(parts, sep), sep) == parts
  {
    if |parts| == 1 {
      FindSpec(parts[0], sep);
    } else {
      var s := Join(parts, sep);
      assert s == parts[0] + [sep] + Join(parts[1..], sep);
      var n := |parts[0]|;
      assert s[n] == sep && s[..n] == parts[0];
      FindAt(s, sep, n);
      assert s[n + 1..] == Join(parts[1..], sep);
      assert sep !in parts[1] && forall i :: 1 <= i < |parts[1..]| ==> parts[1..][i] == parts[i + 1];
      SplitJoin(parts[1..], sep);
      assert Split(s, sep) == [parts[0]] + parts[1..];
    }
  }

  /** Splitting at any separator of s splits the text on each side separately. */
  lemma {:induction false} SplitAt(s: string, n: int, sep: char)
    requires 0 <= n < |s| && s[n] == sep
    ensures Split(s, sep) == Split(s[..n], sep) + Split(s[n + 1..], sep)
    decreases n
  {
    var head, rest := s[..n], s[n + 1..];
    var k := Find(head, sep);
    FindSpec(head, sep);
    if k == -1 {
      FindAt(s, sep, n);
      assert Split(head, sep) == [head];
      assert Split(s, sep) == [head] + Split(rest, sep);
    } else {
      assert head[..k] == s[..k];
      FindAt(s, sep, k);
      var t := s[k + 1..];
      SplitAt(t, n - k - 1, sep);
      assert t[..n - k - 1] == head[k + 1..];
      assert t[n - k..] == rest;
      calc {
        Split(s, sep);
        [s[..k]] + Split(t, sep);
        [s[..k]] + (Split(head[k + 1..], sep) + Split(rest, sep));
        ([head[..k]] + Split(head[k + 1..], sep)) + Split(rest, sep);
        Split(head, sep) + Split(rest, sep);
      }
    }
  }

  /** Splitting at a separator between two strings splits each side separately. */
  lemma SplitConcat(a: string, b: string, sep: char)
    ensures Split(a + [sep] + b, sep) == Split(a, sep) + Split(b, sep)
  {
    var s := a + [sep] + b;
    SplitAt(s, |a|, sep);
    assert s[..|a|] == a && s[|a| + 1..] == b;
  }

  /** Number of parts is one more than the number of separators. */
  function Count(s: string, c: char): nat
  {
    if |s| == 0 then 0 else (if s[0] == c then 1 else 0) + Count(s[1..], c)
  }

  lemma {:induction false} SplitCount(s: string, sep: char)
    ensures |Split(s, sep)| == Count(s, sep) + 1
    decreases |s|
  {
    var k := Find(s, sep);
    FindSpec(s, sep);
    if k == -1 {
      CountAbsent(s, sep);
    } else {
      SplitCount(s[k + 1..], sep);
      CountAppend(s[..k + 1], s[k + 1..], sep);
      assert s[..k + 1] + s[k + 1..] == s;
      CountAppend(s[..k], [sep], sep);
      assert s[..k] + [sep] == s[..k + 1];
      CountAbsent(s[..k], sep);
    }
  }

  lemma {:induction false} CountAbsent(s: string, c: char)
    requires c !in s
    ensures Count(s, c) == 0
  {
    if |s| > 0 {
      CountAbsent(s[1..], c);
    }
  }

  lemma {:induction false} CountAppend(a: string, b: string, c: char)
    ensures Count(a + b, c) == Count(a, c) + Count(b, c)
  {
    if |a| > 0 {
      assert (a + b)[1..] == a[1..] + b;
      CountAppend(a[1..], b, c);
    } else {
      assert a + b == b;
    }
  }

  /** Keeps the non-empty parts (QString::split with SkipEmptyParts). */
  function NonEmpty(parts: seq<string>): (r: seq<string>)
    ensures forall i :: 0 <= i < |r| ==> r[i] != [] && r[i] in parts
    ensures forall p :: p in parts && p != [] ==> p in r
  {
    if |parts| == 0 then []
    else (if parts[0] == [] then [] else [parts[0]]) + NonEmpty(parts[1..])
  }

  predicate StartsWith(s: string, p: string) {
    |p| <= |s| && s[..|p|] == p
  }

  /** strings.TrimPrefix: drops p once when s starts with it, otherwise returns s itself. */
  function TrimPrefix(s: string, p: string): (r: string)
    ensures StartsWith(s, p) ==> p + r == s
    ensures !StartsWith(s, p) ==> r == s
  {
    if StartsWith(s, p) then
      assert s == s[..|p|] + s[|p|..];
      s[|p|..]
    else s
  }

  /** Removes every whitespace character. */
  function RemoveSpaces(s: string): (r: string)
    ensures forall i :: 0 <= i < |r| ==> !IsSpace(r[i]) && r[i] in s
    ensures forall i :: 0 <= i < |s| && !IsSpace(s[i]) ==> s[i] in r
  {
    if |s| == 0 then ""
    else (if IsSpace(s[0]) then "" else [s[0]]) + RemoveSpaces(s[1..])
  }

  lemma {:induction false} RemoveSpacesOfClean(s: string)
    requires forall i :: 0 <= i < |s| ==> !IsSpace(s[i])
    ensures RemoveSpaces(s) == s
  {
    if |s| > 0 {
      RemoveSpacesOfClean(s[1..]);
    }
  }

  // Decimal numerals

  function DigitChar(d: nat): (c: char)
    requires d < 10
    ensures IsDigit(c) && c as int - '0' as int == d
  {
    ('0' as int + d) as char
  }

  function DigitValue(c: char): nat
    requires IsDigit(c)
  {
    c as int - '0' as int
  }

  /** Value of a string of decimal digits, most significant first. */
  function DigitsValue(s: string): nat
    requires AllDigits(s)
  {
    if |s| == 0 then 0 else 10 * DigitsValue(s[..|s| - 1]) + DigitValue(s[|s| - 1])
  }

  /** Shortest decimal numeral of n (printf's %u / %d for non-negative values). */
  function FormatNat(n: nat): (s: string)
    ensures |s| >= 1 && AllDigits(s)
    ensures |s| > 1 ==> s[0] != '0'
  {
    if n < 10 then [DigitChar(n)]
    else FormatNat(n / 10) + [DigitChar(n % 10)]
  }

  lemma {:induction false} FormatNatValue(n: nat)
    ensures DigitsValue(FormatNat(n)) == n
  {
    if n >= 10 {
      var s := FormatNat(n);
      assert s[..|s| - 1] == FormatNat(n / 10);
      FormatNatValue(n / 10);
    }
  }

  function Zeros(k: nat): (s: string)
    ensures |s| == k && AllDigits(s)
  {
    if k == 0 then "" else "0" + Zeros(k - 1)
  }

  /** printf's %0*d with a non-negative value: the numeral left-padded with '0' to width w. */
  function PadDecimal(n: nat, w: nat): (s: string)
    ensures AllDigits(s)
    ensures |s| == if |FormatNat(n)| >= w then |FormatNat(n)| else w
  {
    var d := FormatNat(n);
    if |d| >= w then d else Zeros(w - |d|) + d
  }

  lemma {:induction false} LeadingZeros(z: string, d: string)
    requires AllDigits(z) && AllDigits(d)
    requires forall i :: 0 <= i < |z| ==> z[i] == '0'
    ensures AllDigits(z + d) && DigitsValue(z + d) == DigitsValue(d)
    decreases |d|
  {
    if |d| == 0 {
      assert z + d == z;
      AllZeros(z);
    } else {
      assert (z + d)[..|z + d| - 1] == z + d[..|d| - 1];
      LeadingZeros(z, d[..|d| - 1]);
    }
  }

  lemma {:induction false} AllZeros(z: string)
    requires forall i :: 0 <= i < |z| ==> z[i] == '0'
    ensures AllDigits(z) && DigitsValue(z) == 0
  {
    if |z| > 0 {
      AllZeros(z[..|z| - 1]);
    }
  }

  /** A zero-padded field reads back as the value it printed. */
  lemma PadDecimalValue(n: nat, w: nat)
    ensures DigitsValue(PadDecimal(n, w)) == n
  {
    var d := FormatNat(n);
    FormatNatValue(n);
    if |d| < w {
      var z := Zeros(w - |d|);
      assert forall i :: 0 <= i < |z| ==> z[i] == '0' by { ZerosAreZero(w - |d|); }
      LeadingZeros(z, d);
    }
  }

  lemma {:induction false} ZerosAreZero(k: nat)
    ensures forall i :: 0 <= i < k ==> Zeros(k)[i] == '0'
  {
    if k > 0 {
      ZerosAreZero(k - 1);
    }
  }

  const INT32_MIN: int := -0x8000_0000
  const INT32_MAX: int := 0x7FFF_FFFF

  /**
   * QString::toInt in base 10 on an already trimmed string: an optional sign
   * followed by at least one digit, with the value inside the 32-bit range.
   */
  function ParseInt(s: string): (r: Option<int>)
    ensures r.Some? ==> INT32_MIN <= r.value <= INT32_MAX
    ensures s == [] ==> r.None?
  {
    if |s| > 0 && (s[0] == '-' || s[0] == '+') then
      var body := s[1..];
      if |body| == 0 || !AllDigits(body) then None
      else
        var m: int := DigitsValue(body);
        var v := if s[0] == '-' then 0 - m else m;
        if INT32_MIN <= v <= INT32_MAX then Some(v) else None
    else if |s| == 0 || !AllDigits(s) then None
    else
      var v := DigitsValue(s);
      if v <= INT32_MAX then Some(v) else None
  }

  /** printf's %d. */
  function FormatInt(v: int): (s: string)
  {
    if v < 0 then "-" + FormatNat(-v) else FormatNat(v)
  }

  /** Every 32-bit value printed with %d parses back to itself. */
  lemma ParseFormatInt(v: int)
    requires INT32_MIN <= v <= INT32_MAX
    ensures ParseInt(FormatInt(v)) == Some(v)
  {
    var s := FormatInt(v);
    if v < 0 {
      var d := FormatNat(-v);
      FormatNatValue(-v);
      assert s == "-" + d;
      assert s[0] == '-' && s[1..] == d;
      assert DigitsValue(s[1..]) == -v;
    } else {
      var d := FormatNat(v);
      FormatNatValue(v);
      assert s == d && IsDigit(s[0]);
    }
  }

  // std::string::find and substr on a 64-bit size_t

  /** std::string::npos, the largest size_t. */
  const NPOS: int := 0xFFFF_FFFF_FFFF_FFFF

  /**
   * sample_id = s.substr(0, pos) and uuid = s.substr(pos + 1) with
   * pos = s.find(','): the first count is clamped to the length, and
   * pos + 1 wraps around to 0 when find returns npos.
   */
  function SplitUserMessage(s: string): (r: (string, string))
    requires |s| < NPOS
  {
    var k := Find(s, ',');
    var pos := if k == -1 then NPOS else k;
    var start := if pos == NPOS then 0 else pos + 1;
    (s[..if pos < |s| then pos else |s|], s[start..])
  }

  /** With a comma, sample_id is the text before the first one and uuid everything after it. */
  lemma SplitUserMessageAtComma(a: string, b: string)
    requires ',' !in a && |a + "," + b| < NPOS
    ensures SplitUserMessage(a + "," + b) == (a, b)
  {
    var s := a + "," + b;
    assert s[|a|] == ',' && s[..|a|] == a;
    FindAt(s, ',', |a|);
    assert s[|a| + 1..] == b;
  }

  /** Without a comma, npos + 1 wraps to 0, so sample_id and uuid are both the whole message. */
  lemma SplitUserMessageNoComma(s: string)
    requires ',' !in s && |s| < NPOS
    ensures SplitUserMessage(s) == (s, s)
  {
    FindSpec(s, ',');
    assert s[..|s|] == s && s[0..] == s;
  }
}
