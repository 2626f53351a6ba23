/** String helpers standing in for the Python `str` methods and `re` patterns
    the crawler uses: whitespace classes, strip, lower-casing, substring search,
    joining, code-point ordering and decimal numerals. */
module Text {
  import opened Wrappers

  /** Python's `str.isspace()`, which is also what `\s` matches in a `re` pattern over `str`. */
  predicate IsSpace(c: char) {
    c == ' ' || ('\t' <= c <= '\r') || ('\U{1C}' <= c <= '\U{1F}')
    || c == '\U{85}' || c == '\U{A0}' || c == '\U{1680}'
    || ('\U{2000}' <= c <= '\U{200A}') || c == '\U{2028}' || c == '\U{2029}'
    || c == '\U{202F}' || c == '\U{205F}' || c == '\U{3000}'
  }

  /** `\d`, restricted to the ASCII digits. */
  predicate IsDigit(c: char) {
    '0' <= c <= '9'
  }

  /** The two character classes the parsers trim: `\s` and `[:\s]`. */
  datatype CharClass = Blank | ColonOrBlank

  predicate InClass(c: char, k: CharClass) {
    IsSpace(c) || (k == ColonOrBlank && c == ':')
  }

  /** Removes the longest prefix made of characters of class `k` (`re.sub(r'^[...]+', '', s)`). */
  function TrimStart(s: string, k: CharClass): (r: string)
    ensures |r| <= |s|
    ensures r == [] || !InClass(r[0], k)
    ensures s != [] && InClass(s[0], k) ==> |r| < |s|
  {
    if s != [] && InClass(s[0], k) then TrimStart(s[1..], k) else s
  }

  /** What `TrimStart` cuts off is all of class `k`, and what it keeps is a suffix. */
  lemma {:induction false} TrimStartSuffix(s: string, k: CharClass)
    ensures TrimStart(s, k) == s[|s| - |TrimStart(s, k)|..]
    ensures forall i :: 0 <= i < |s| - |TrimStart(s, k)| ==> InClass(s[i], k)
  {
    if s != [] && InClass(s[0], k) {
      TrimStartSuffix(s[1..], k);
    }
  }

  /** Removes the longest suffix made of characters of class `k` (`re.sub(r'[...]+$', '', s)`). */
  function TrimEnd(s: string, k: CharClass): (r: string)
    ensures |r| <= |s|
    ensures r == [] || !InClass(r[|r| - 1], k)
  {
    if s != [] && InClass(s[|s| - 1], k) then TrimEnd(s[..|s| - 1], k) else s
  }

  /** What `TrimEnd` cuts off is all of class `k`, and what it keeps is a prefix. */
  lemma {:induction false} TrimEndPrefix(s: string, k: CharClass)
    ensures TrimEnd(s, k) == s[..|TrimEnd(s, k)|]
    ensures forall i :: |TrimEnd(s, k)| <= i < |s| ==> InClass(s[i], k)
  {
    if s != [] && InClass(s[|s| - 1], k) {
      TrimEndPrefix(s[..|s| - 1], k);
    }
  }

  /** `str.strip()` */
  function Strip(s: string): string {
    TrimEnd(TrimStart(s, Blank), Blank)
  }

  /** A stripped string neither starts nor ends with whitespace. */
  lemma StripEnds(s: string)
    ensures Strip(s) == [] || (!IsSpace(Strip(s)[0]) && !IsSpace(Strip(s)[|Strip(s)| - 1]))
  {
    var t := TrimStart(s, Blank);
    TrimEndPrefix(t, Blank);
  }

  /** Stripping keeps a string single-spaced: it only cuts off both ends. */
  lemma StripSingleSpaced(s: string)
    requires SingleSpaced(s)
    ensures SingleSpaced(Strip(s))
  {
    var t := TrimStart(s, Blank);
    TrimStartSuffix(s, Blank);
    TrimEndPrefix(t, Blank);
    SingleSpacedSlice(s, |s| - |t|, |s|);
    SingleSpacedSlice(t, 0, |TrimEnd(t, Blank)|);
  }

  /** No whitespace character other than ' ', and never two whitespace characters in a row. */
  predicate SingleSpaced(s: string) {
    forall i :: 0 <= i < |s| ==>
      (IsSpace(s[i]) ==> s[i] == ' ') && (i + 1 < |s| ==> !(IsSpace(s[i]) && IsSpace(s[i + 1])))
  }

  /** `re.sub(r'\s+', ' ', s)`: each maximal run of whitespace becomes a single space. */
  function CollapseSpaces(s: string): (r: string)
    ensures |r| <= |s|
    ensures s == [] <==> r == []
    ensures s != [] ==> r[0] == (if IsSpace(s[0]) then ' ' else s[0])
    ensures SingleSpaced(r)
    decreases |s|
  {
    if s == [] then []
    else if IsSpace(s[0]) then [' '] + CollapseSpaces(TrimStart(s, Blank))
    else [s[0]] + CollapseSpaces(s[1..])
  }

  lemma SingleSpacedSlice(s: string, a: nat, b: nat)
    requires SingleSpaced(s) && a <= b <= |s|
    ensures SingleSpaced(s[a..b])
  {
    forall i | 0 <= i < b - a
      ensures (IsSpace(s[a..b][i]) ==> s[a..b][i] == ' ')
      ensures (i + 1 < b - a ==> !(IsSpace(s[a..b][i]) && IsSpace(s[a..b][i + 1])))
    {
      assert s[a..b][i] == s[a + i];
      if i + 1 < b - a { assert s[a..b][i + 1] == s[a + i + 1]; }
    }
  }

  /** Collapsing a string that is already single-spaced changes nothing. */
  lemma {:induction false} CollapseSingleSpaced(s: string)
    requires SingleSpaced(s)
    ensures CollapseSpaces(s) == s
    decreases |s|
  {
    if s != [] {
      SingleSpacedSlice(s, 1, |s|);
      if IsSpace(s[0]) {
        assert s[0] == ' ';
        assert |s| == 1 || !IsSpace(s[1]);
        TrimStartNoop(s[1..], Blank);
        assert TrimStart(s, Blank) == s[1..];
        CollapseSingleSpaced(s[1..]);
      } else {
        CollapseSingleSpaced(s[1..]);
      }
    }
  }

  lemma TrimStartNoop(s: string, k: CharClass)
    requires s == [] || !InClass(s[0], k)
    ensures TrimStart(s, k) == s
  {
  }

  lemma TrimEndNoop(s: string, k: CharClass)
    requires s == [] || !InClass(s[|s| - 1], k)
    ensures TrimEnd(s, k) == s
  {
  }

  /** ASCII upper case to lower case; every other character is kept. */
  function LowerChar(c: char): char {
    if 'A' <= c <= 'Z' then (c as int + 32) as char else c
  }

  /** `str.lower()`, for the ASCII letters. */
  function Lower(s: string): (r: string)
    ensures |r| == |s|
  {
    seq(|s|, i requires 0 <= i < |s| => LowerChar(s[i]))
  }

  predicate StartsWith(s: string, p: string) {
    |p| <= |s| && s[..|p|] == p
  }

  /** `p in s` for two strings. */
  predicate Contains(s: string, p: string)
    decreases |s|
  {
    StartsWith(s, p) || (s != [] && Contains(s[1..], p))
  }

  lemma {:induction false} ContainsAt(s: string, p: string, i: nat)
    requires i + |p| <= |s| && s[i..i + |p|] == p
    ensures Contains(s, p)
    decreases i
  {
    if i == 0 {
      assert s[..|p|] == p;
    } else {
      assert s[1..][i - 1..i - 1 + |p|] == s[i..i + |p|];
      ContainsAt(s[1..], p, i - 1);
    }
  }

  lemma {:induction false} ContainsWitness(s: string, p: string) returns (i: nat)
    requires Contains(s, p)
    ensures i + |p| <= |s| && s[i..i + |p|] == p
    decreases |s|
  {
    if StartsWith(s, p) {
      i := 0;
    } else {
      var j := ContainsWitness(s[1..], p);
      assert s[1..][j..j + |p|] == s[j + 1..j + 1 + |p|];
      i := j + 1;
    }
  }

  /** `sep.join(parts)` */
  function Join(sep: string, parts: seq<string>): string
    decreases |parts|
  {
    if |parts| == 0 then ""
    else if |parts| == 1 then parts[0]
    else parts[0] + sep + Join(sep, parts[1..])
  }

  /** Python's `<` on `str`: code point by code point, a proper prefix first. */
  predicate Less(a: string, b: string)
    decreases |a|
  {
    if a == [] then b != []
    else if b == [] then false
    else if a[0] != b[0] then a[0] < b[0]
    else Less(a[1..], b[1..])
  }

  lemma {:induction false} LessIrreflexive(a: string)
    ensures !Less(a, a)
    decreases |a|
  {
    if a != [] { LessIrreflexive(a[1..]); }
  }

  lemma {:induction false} LessTransitive(a: string, b: string, c: string)
    requires Less(a, b) && Less(b, c)
    ensures Less(a, c)
    decreases |a|
  {
    if a != [] && b != [] && c != [] && a[0] == b[0] && b[0] == c[0] {
      LessTransitive(a[1..], b[1..], c[1..]);
    }
  }

  lemma {:induction false} LessTotal(a: string, b: string)
    ensures a == b || Less(a, b) || Less(b, a)
    decreases |a|
  {
    if a != [] && b != [] && a[0] == b[0] {
      LessTotal(a[1..], b[1..]);
      if a[1..] == b[1..] {
        assert a == [a[0]] + a[1..] && b == [b[0]] + b[1..];
      }
    }
  }

  lemma {:induction false} LessAsymmetric(a: string, b: string)
    requires Less(a, b)
    ensures !Less(b, a)
    decreases |a|
  {
    if a != [] && b != [] && a[0] == b[0] {
      LessAsymmetric(a[1..], b[1..]);
    }
  }

  predicate StrictlyAscending(s: seq<string>) {
    forall i, j :: 0 <= i < j < |s| ==> Less(s[i], s[j])
  }

  /** `m` is the least element of `s`. */
  predicate IsLeast(m: string, s: set<string>) {
    m in s && forall x :: x in s ==> x == m || Less(m, x)
  }

  lemma {:induction false} LeastExists(s: set<string>)
    requires s != {}
    ensures exists m :: IsLeast(m, s)
    decreases |s|
  {
    var y :| y in s;
    if s != {y} {
      LeastExists(s - {y});
      var m' :| IsLeast(m', s - {y});
      LessTotal(y, m');
      if Less(y, m') {
        forall x | x in s ensures x == y || Less(y, x) {
          if x != y && x != m' { LessTransitive(y, m', x); }
        }
        assert IsLeast(y, s);
      } else {
        assert IsLeast(m', s);
      }
    } else {
      assert IsLeast(y, s);
    }
  }

  lemma LeastUnique(s: set<string>)
    ensures forall m, n :: IsLeast(m, s) && IsLeast(n, s) ==> m == n
  {
    forall m, n | IsLeast(m, s) && IsLeast(n, s) ensures m == n {
      if m != n { LessAsymmetric(m, n); }
    }
  }

  /** `sorted(s)` for a set of strings. */
  function SortStrings(s: set<string>): (r: seq<string>)
    ensures |r| == |s|
    ensures forall x :: x in r <==> x in s
    ensures StrictlyAscending(r)
    decreases |s|
  {
    if s == {} then []
    else
      LeastExists(s);
      LeastUnique(s);
      var m :| IsLeast(m, s);
      var rest := SortStrings(s - {m});
      assert forall j :: 0 <= j < |rest| ==> Less(m, rest[j]) by {
        forall j | 0 <= j < |rest| ensures Less(m, rest[j]) {
          assert rest[j] in s - {m};
        }
      }
      [m] + rest
  }

  predicate AllDigits(s: string) {
    s != [] && forall i :: 0 <= i < |s| ==> IsDigit(s[i])
  }

  /** The value of a numeral of ASCII digits. */
  function DigitsValue(s: string): nat
    requires forall i :: 0 <= i < |s| ==> IsDigit(s[i])
  {
    if s == [] then 0
    else
      assert IsDigit(s[|s| - 1]);
      DigitsValue(s[..|s| - 1]) * 10 + (s[|s| - 1] as nat - '0' as nat)
  }

  /** `int(s)` for decimal numerals: surrounding whitespace and one sign are allowed. */
  function ParseInt(s: string): Option<int> {
    var t := Strip(s);
    if |t| > 0 && (t[0] == '-' || t[0] == '+') then
      if AllDigits(t[1..]) then Some(if t[0] == '-' then -(DigitsValue(t[1..]) as int) else DigitsValue(t[1..])) else None
    else if AllDigits(t) then Some(DigitsValue(t))
    else None
  }

  function DigitChar(d: nat): char
    requires d < 10
  {
    ('0' as int + d) as char
  }

  /** `str(n)` for a natural number. */
  function NatToString(n: nat): string
  {
    if n < 10 then [DigitChar(n)] else NatToString(n / 10) + [DigitChar(n % 10)]
  }

  /** `str(i)` for an integer. */
  function IntToString(i: int): string {
    if i < 0 then "-" + NatToString(-i) else NatToString(i)
  }

  lemma {:induction false} NatToStringDigits(n: nat)
    ensures AllDigits(NatToString(n)) && DigitsValue(NatToString(n)) == n
  {
    if n >= 10 {
      NatToStringDigits(n / 10);
      var p := NatToString(n / 10);
      var s := p + [DigitChar(n % 10)];
      assert s[..|s| - 1] == p;
      assert forall i :: 0 <= i < |s| ==> IsDigit(s[i]) by {
        forall i | 0 <= i < |s| ensures IsDigit(s[i]) {
          if i < |p| { assert s[i] == p[i]; }
        }
      }
    }
  }

  /** `int(str(i)) == i`: the numeral `IntToString` writes parses back to the same integer. */
  lemma ParseIntRoundTrip(i: int)
    ensures ParseInt(IntToString(i)) == Some(i)
  {
    var n: nat := if i < 0 then -i else i;
    NatToStringDigits(n);
    var d := NatToString(n);
    var t := IntToString(i);
    assert !IsSpace(d[0]) && !IsSpace(d[|d| - 1]);
    if i < 0 {
      assert t == "-" + d;
      assert t[1..] == d;
    }
    TrimStartNoop(t, Blank);
    TrimEndNoop(t, Blank);
    assert Strip(t) == t;
  }
}
