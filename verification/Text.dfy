/**
 Strings as the driver handles them: splitting and joining, trimming, the order of `sort.Strings`,
 and decimal numerals.
 */
module Text {
  import opened Wrappers

  // ---------------------------------------------------------------- prefixes

  predicate HasPrefix(s: string, prefix: string) {
    prefix <= s
  }

  // ---------------------------------------------------------------- joining and splitting

  /** strings.Join(parts, string(sep)). */
  function Join(parts: seq<string>, sep: char): string {
    if |parts| == 0 then ""
    else if |parts| == 1 then parts[0]
    else parts[0] + [sep] + Join(parts[1..], sep)
  }

  /** strings.Split(s, string(sep)): the empty string splits into one empty part. */
  function Split(s: string, sep: char): (parts: seq<string>)
    ensures |parts| >= 1
    ensures forall part | part in parts :: sep !in part
  {
    if s == "" then [""]
    else if s[0] == sep then [""] + Split(s[1..], sep)
    else
      var rest := Split(s[1..], sep);
      [[s[0]] + rest[0]] + rest[1..]
  }

  lemma {:induction false} SplitPart(part: string, sep: char)
    requires sep !in part
    ensures Split(part, sep) == [part]
  {
    if part != "" {
      SplitPart(part[1..], sep);
      assert part == [part[0]] + part[1..];
    }
  }

  lemma {:induction false} SplitFirst(part: string, rest: string, sep: char)
    requires sep !in part
    ensures Split(part + [sep] + rest, sep) == [part] + Split(rest, sep)
  {
    var s := part + [sep] + rest;
    if part == "" {
      assert s[1..] == rest;
    } else {
      assert s[1..] == part[1..] + [sep] + rest;
      SplitFirst(part[1..], rest, sep);
      assert part == [part[0]] + part[1..];
    }
  }

  /** Splitting what was joined gives the parts back, for a non-empty list of separator-free parts. */
  lemma {:induction false} SplitJoin(parts: seq<string>, sep: char)
    requires |parts| >= 1
    requires forall part | part in parts :: sep !in part
    ensures Split(Join(parts, sep), sep) == parts
  {
    assert parts[0] in parts;
    if |parts| == 1 {
      SplitPart(parts[0], sep);
    } else {
      forall part | part in parts[1..] ensures sep !in part {
        assert part in parts;
      }
      SplitJoin(parts[1..], sep);
      SplitFirst(parts[0], Join(parts[1..], sep), sep);
    }
  }

  // ---------------------------------------------------------------- trimming

  /** unicode.IsSpace. */
  predicate IsSpace(c: char) {
    || '\U{09}' <= c <= '\U{0D}' || c == ' ' || c == '\U{85}' || c == '\U{A0}' || c == '\U{1680}'
    || '\U{2000}' <= c <= '\U{200A}' || c == '\U{2028}' || c == '\U{2029}' || c == '\U{202F}'
    || c == '\U{205F}' || c == '\U{3000}'
  }

  /** The first index from i on that is not a space. */
  function SkipSpaces(s: string, i: nat): (start: nat)
    requires i <= |s|
    ensures i <= start <= |s| && (start < |s| ==> !IsSpace(s[start]))
    ensures forall k | i <= k < start :: IsSpace(s[k])
    decreases |s| - i
  {
    if i < |s| && IsSpace(s[i]) then SkipSpaces(s, i + 1) else i
  }

  /** The end of what is left before j when spaces are dropped, not below i. */
  function DropSpaces(s: string, i: nat, j: nat): (end: nat)
    requires i <= j <= |s|
    ensures i <= end <= j && (end > i ==> !IsSpace(s[end - 1]))
    ensures forall k | end <= k < j :: IsSpace(s[k])
  {
    if j > i && IsSpace(s[j - 1]) then DropSpaces(s, i, j - 1) else j
  }

  /** strings.TrimSpace. */
  function TrimSpace(s: string): (r: string)
    ensures r != "" ==> !IsSpace(r[0]) && !IsSpace(r[|r| - 1])
    ensures forall c | c in r :: c in s
  {
    var start := SkipSpaces(s, 0);
    var end := DropSpaces(s, start, |s|);
    s[start..end]
  }

  /** What is trimmed is the spaces at both ends, and nothing else. */
  lemma TrimSpaceMeans(s: string) returns (i: nat, j: nat)
    ensures i <= j <= |s| && TrimSpace(s) == s[i..j]
    ensures forall k | 0 <= k < i || j <= k < |s| :: IsSpace(s[k])
    ensures i < j ==> !IsSpace(s[i]) && !IsSpace(s[j - 1])
  {
    i := SkipSpaces(s, 0);
    j := DropSpaces(s, i, |s|);
  }

  /** Blanks, tabs and line ends are spaces; what options, filesystem types and names are made of is not. */
  lemma CommonSpaces(c: char)
    ensures c in " \t\n\r" ==> IsSpace(c)
    ensures '!' <= c <= '~' ==> !IsSpace(c)
  {
  }

  /** A string without space at either end is left alone; so trimming twice is trimming once. */
  lemma TrimSpaceFixes(s: string)
    requires s == "" || (!IsSpace(s[0]) && !IsSpace(s[|s| - 1]))
    ensures TrimSpace(s) == s
  {
  }

  // ---------------------------------------------------------------- the order of sort.Strings

  predicate Less(a: string, b: string) {
    b != "" && (a == "" || a[0] < b[0] || (a[0] == b[0] && Less(a[1..], b[1..])))
  }

  /** The strings agree up to i, and there the first has the smaller character. */
  ghost predicate SmallerAt(a: string, b: string, i: int) {
    0 <= i < |a| && i < |b| && (forall k | 0 <= k < i :: a[k] == b[k]) && a[i] < b[i]
  }

  lemma SmallerLater(a: string, b: string, i: int)
    requires a != "" && b != "" && a[0] == b[0] && i >= 0
    ensures SmallerAt(a, b, i + 1) <==> SmallerAt(a[1..], b[1..], i)
  {
    if SmallerAt(a[1..], b[1..], i) {
      forall k | 0 < k < i + 1 ensures a[k] == b[k] {
        assert a[1..][k - 1] == b[1..][k - 1];
      }
    }
  }

  /** A string is less than another where it is first smaller, or if it is a proper beginning of it. */
  lemma {:induction false} LessMeans(a: string, b: string)
    ensures Less(a, b) <==> a < b || exists i :: SmallerAt(a, b, i)
  {
    if a != "" && b != "" && a[0] == b[0] {
      LessMeans(a[1..], b[1..]);
      forall i | i >= 0 ensures SmallerAt(a, b, i + 1) <==> SmallerAt(a[1..], b[1..], i) {
        SmallerLater(a, b, i);
      }
      if exists i :: SmallerAt(a, b, i) {
        var i :| SmallerAt(a, b, i);
        assert SmallerAt(a[1..], b[1..], i - 1) by { SmallerLater(a, b, i - 1); }
      }
      if exists i :: SmallerAt(a[1..], b[1..], i) {
        var i :| SmallerAt(a[1..], b[1..], i);
        SmallerLater(a, b, i);
      }
      assert a < b <==> a[1..] < b[1..];
    } else if a != "" && b != "" && a[0] < b[0] {
      assert SmallerAt(a, b, 0);
    }
  }

  lemma {:induction false} LessTransitive(a: string, b: string, c: string)
    requires Less(a, b) && Less(b, c)
    ensures Less(a, c)
  {
    if a != "" && a[0] == b[0] == c[0] {
      LessTransitive(a[1..], b[1..], c[1..]);
    }
  }

  lemma {:induction false} LessIrreflexive(a: string)
    ensures !Less(a, a)
  {
    if a != "" {
      LessIrreflexive(a[1..]);
    }
  }

  lemma {:induction false} LessTotal(a: string, b: string)
    ensures a == b || Less(a, b) || Less(b, a)
  {
    if a != "" && b != "" && a[0] == b[0] {
      LessTotal(a[1..], b[1..]);
      assert a == [a[0]] + a[1..] && b == [b[0]] + b[1..];
    }
  }

  ghost predicate StrictlySorted(s: seq<string>) {
    forall i, j | 0 <= i < j < |s| :: Less(s[i], s[j])
  }

  /** A strictly sorted list is determined by its elements. */
  lemma {:induction false} SortedUnique(a: seq<string>, b: seq<string>)
    requires StrictlySorted(a) && StrictlySorted(b)
    requires forall v :: v in a <==> v in b
    ensures a == b
  {
    assert a != [] ==> a[0] in a;
    assert b != [] ==> b[0] in b;
    if a != [] && b != [] {
      var i :| 0 <= i < |b| && b[i] == a[0];
      var j :| 0 <= j < |a| && a[j] == b[0];
      if a[0] != b[0] {
        assert Less(b[0], b[i]) && Less(a[0], a[j]);
        LessTransitive(a[0], b[0], a[0]);
        LessIrreflexive(a[0]);
      }
      forall v ensures v in a[1..] <==> v in b[1..] {
        LessIrreflexive(a[0]);
        if v in a[1..] {
          var k :| 0 <= k < |a| - 1 && a[1..][k] == v;
          assert Less(a[0], a[k + 1]) && a[k + 1] == v && v in a;
          var m :| 0 <= m < |b| && b[m] == v;
          assert m > 0 && b[1..][m - 1] == v;
        }
        if v in b[1..] {
          var k :| 0 <= k < |b| - 1 && b[1..][k] == v;
          assert Less(b[0], b[k + 1]) && b[k + 1] == v && v in b;
          var m :| 0 <= m < |a| && a[m] == v;
          assert m > 0 && a[1..][m - 1] == v;
        }
      }
      SortedUnique(a[1..], b[1..]);
      assert a == [a[0]] + a[1..] && b == [b[0]] + b[1..];
    }
  }

  /** sort.Strings over the keys of a set: insertion, one key at a time, in any order of the keys. */
  method SortStrings(keys: set<string>) returns (sorted: seq<string>)
    ensures StrictlySorted(sorted)
    ensures forall v :: v in sorted <==> v in keys
  {
    sorted := [];
    var rest := keys;
    while rest != {}
      invariant rest <= keys
      invariant StrictlySorted(sorted)
      invariant forall v :: v in sorted <==> v in keys - rest
    {
      var key :| key in rest;
      sorted := Insert(sorted, key);
      rest := rest - {key};
    }
  }

  method Insert(sorted: seq<string>, key: string) returns (result: seq<string>)
    requires StrictlySorted(sorted) && key !in sorted
    ensures StrictlySorted(result)
    ensures forall v :: v in result <==> v == key || v in sorted
  {
    var i := 0;
    while i < |sorted| && Less(sorted[i], key)
      invariant 0 <= i <= |sorted|
      invariant forall j | 0 <= j < i :: Less(sorted[j], key)
    {
      i := i + 1;
    }
    result := sorted[..i] + [key] + sorted[i..];
    forall j | i <= j < |sorted| ensures Less(key, sorted[j]) {
      LessTotal(sorted[i], key);
      if i < j { LessTransitive(key, sorted[i], sorted[j]); }
    }
    forall v ensures v in result <==> v == key || v in sorted {
      if v == key { assert result[i] == key; }
      if v in sorted {
        var j :| 0 <= j < |sorted| && sorted[j] == v;
        assert result[if j < i then j else j + 1] == v;
      }
    }
  }

  // ---------------------------------------------------------------- decimal numerals

  function Digit(d: nat): char
    requires d < 10
  {
    "0123456789"[d]
  }

  predicate IsDigit(c: char) {
    '0' <= c <= '9'
  }

  function DigitValue(c: char): (d: nat)
    requires IsDigit(c)
    ensures d < 10 && Digit(d) == c
  {
    (c - '0') as nat
  }

  /** The decimal numeral of n, without leading zeros. */
  function Numeral(n: nat): (s: string)
    ensures s != "" && forall c | c in s :: IsDigit(c)
  {
    if n < 10 then [Digit(n)] else Numeral(n / 10) + [Digit(n % 10)]
  }

  /** The number that a string of digits denotes. */
  function NumeralValue(s: string): nat
    requires forall c | c in s :: IsDigit(c)
  {
    if s == "" then 0 else 10 * NumeralValue(s[..|s| - 1]) + DigitValue(s[|s| - 1])
  }

  lemma {:induction false} NumeralRoundTrip(n: nat)
    ensures NumeralValue(Numeral(n)) == n
  {
    if n >= 10 {
      NumeralRoundTrip(n / 10);
      var s := Numeral(n);
      assert s[..|s| - 1] == Numeral(n / 10);
    }
  }

  const MAX_INT64: int := 0x7FFF_FFFF_FFFF_FFFF
  const MIN_INT64: int := -0x8000_0000_0000_0000

  /** strconv.FormatInt(n, 10). */
  function FormatInt(n: int): string {
    if n < 0 then "-" + Numeral(-n) else Numeral(n)
  }

  /** Numbers are printed without leading zeros, and with a sign only when negative. */
  lemma {:induction false} FormatCanonical(n: int)
    ensures n >= 0 ==> (forall c | c in FormatInt(n) :: IsDigit(c)) && (FormatInt(n)[0] == '0' ==> n == 0 && FormatInt(n) == "0")
    ensures n < 0 ==> FormatInt(n) == "-" + FormatInt(-n)
  {
    if n >= 10 {
      FormatCanonical(n / 10);
      assert FormatInt(n)[0] == FormatInt(n / 10)[0];
    }
  }

  /** strconv.ParseInt(s, 10, 64): an optional sign, at least one digit, nothing else, and no overflow. */
  function ParseInt64(s: string): Option<int> {
    var digits := if s != "" && (s[0] == '-' || s[0] == '+') then s[1..] else s;
    if digits == "" || exists c | c in digits :: !IsDigit(c) then None
    else
      var magnitude: int := NumeralValue(digits);
      var n: int := if s[0] == '-' then -magnitude else magnitude;
      if MIN_INT64 <= n <= MAX_INT64 then Some(n) else None
  }

  /** The string is the digits with at most one sign before them, and stands for n. */
  ghost predicate Denotes(s: string, digits: string, n: int) {
    && digits != "" && (forall c | c in digits :: IsDigit(c))
    && ((s in {digits, "+" + digits} && n == NumeralValue(digits))
        || (s == "-" + digits && -n == NumeralValue(digits)))
  }

  lemma ParsedDenotes(s: string, n: int)
    requires ParseInt64(s) == Some(n)
    ensures exists digits :: Denotes(s, digits, n)
  {
    var digits := if s[0] == '-' || s[0] == '+' then s[1..] else s;
    assert s == [s[0]] + s[1..];
    assert Denotes(s, digits, n);
  }

  lemma DenotedParses(s: string, digits: string, n: int)
    requires Denotes(s, digits, n) && MIN_INT64 <= n <= MAX_INT64
    ensures ParseInt64(s) == Some(n)
  {
    assert digits[0] in digits;
    assert ("+" + digits)[1..] == digits && ("-" + digits)[1..] == digits;
  }

  /** What is read as a number: digits, with at most one sign before them, of a value that fits. */
  lemma ParseMeans(s: string, n: int)
    ensures ParseInt64(s) == Some(n) <==> MIN_INT64 <= n <= MAX_INT64 && exists digits :: Denotes(s, digits, n)
  {
    if ParseInt64(s) == Some(n) {
      ParsedDenotes(s, n);
    }
    if MIN_INT64 <= n <= MAX_INT64 && exists digits :: Denotes(s, digits, n) {
      var digits :| Denotes(s, digits, n);
      DenotedParses(s, digits, n);
    }
  }

  const MAX_UINT64: int := 0xFFFF_FFFF_FFFF_FFFF

  /** A decimal numeral that fits 64 bits without a sign. */
  function ParseUint64(s: string): Option<nat> {
    if s == "" || exists c | c in s :: !IsDigit(c) then None
    else if NumeralValue(s) <= MAX_UINT64 then Some(NumeralValue(s)) else None
  }

  lemma FormatParseUint(n: nat)
    requires n <= MAX_UINT64
    ensures ParseUint64(FormatInt(n)) == Some(n)
  {
    NumeralRoundTrip(n);
  }

  /** Parsing a printed number gives it back exactly when it fits 64 bits. */
  lemma FormatParse(n: int)
    ensures ParseInt64(FormatInt(n)) == if MIN_INT64 <= n <= MAX_INT64 then Some(n) else None
  {
    var s := FormatInt(n);
    if n < 0 {
      NumeralRoundTrip(-n);
      assert s[1..] == Numeral(-n);
    } else {
      NumeralRoundTrip(n);
      assert IsDigit(s[0]);
    }
  }
}
