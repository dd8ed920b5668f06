/** The handful of Python `str` operations the backend relies on: `isspace`,
    `strip`/`lstrip`, `split` on one character, `in`, `startswith`, `count`,
    and the conversions between integers and their decimal text (`str(int)`
    and `int(str)`). */
module PyText {
  import opened Wrappers

  /** Python's `str.isspace()` for one character (also what `\s` matches in a
      `str` regular expression): the ASCII controls 9-13 and 28-31, the space,
      and the Unicode separators. */
  predicate IsSpace(c: char) {
    var n := c as int;
    (9 <= n <= 13) || (28 <= n <= 32) || n == 0x85 || n == 0xA0 || n == 0x1680
    || (0x2000 <= n <= 0x200A) || n == 0x2028 || n == 0x2029 || n == 0x202F
    || n == 0x205F || n == 0x3000
  }

  /** The whitespace of C's `isspace`: tab, line feed, vertical tab, form
      feed, carriage return and space. */
  predicate IsAsciiSpace(c: char) {
    var n := c as int;
    (9 <= n <= 13) || n == 32
  }

  /** The whitespace `int()` skips around its digits. CPython keeps every
      code point below 127 as it is, turns the other `str.isspace` characters
      into spaces and then skips C's `isspace` whitespace, so the separators
      28-31 never count, whatever else the string holds. */
  predicate IsIntSpace(c: char) {
    IsAsciiSpace(c) || (127 <= c as int && IsSpace(c))
  }

  /** Which characters count as whitespace: `str.isspace`, or the ones
      `int()` skips. */
  datatype Whitespace = Unicode | IntLiteral

  predicate IsSpaceOf(ws: Whitespace, c: char) {
    match ws
    case Unicode => IsSpace(c)
    case IntLiteral => IsIntSpace(c)
  }

  /** r is a suffix of s. */
  predicate IsSuffix(r: string, s: string) {
    |r| <= |s| && r == s[|s| - |r|..]
  }

  /** Drops the leading whitespace of kind `ws`. */
  function LStripBy(s: string, ws: Whitespace): (r: string)
    ensures IsSuffix(r, s)
    ensures forall k :: 0 <= k < |s| - |r| ==> IsSpaceOf(ws, s[k])
    ensures r == [] || !IsSpaceOf(ws, r[0])
  {
    if s != [] && IsSpaceOf(ws, s[0]) then
      var r := LStripBy(s[1..], ws);
      assert s[1..][|s| - 1 - |r|..] == s[|s| - |r|..];
      r
    else s
  }

  /** Drops the trailing whitespace of kind `ws`. */
  function RStripBy(s: string, ws: Whitespace): (r: string)
    ensures r <= s
    ensures forall k :: |r| <= k < |s| ==> IsSpaceOf(ws, s[k])
    ensures r == [] || !IsSpaceOf(ws, r[|r| - 1])
  {
    if s != [] && IsSpaceOf(ws, s[|s| - 1]) then RStripBy(s[..|s| - 1], ws) else s
  }

  /** `s.lstrip()`: drops the leading whitespace, and nothing else. */
  function LStrip(s: string): (r: string)
    ensures IsSuffix(r, s)
    ensures forall k :: 0 <= k < |s| - |r| ==> IsSpace(s[k])
    ensures r == [] || !IsSpace(r[0])
  {
    LStripBy(s, Unicode)
  }

  /** `s.rstrip()`: drops the trailing whitespace, and nothing else. */
  function RStrip(s: string): (r: string)
    ensures r <= s
    ensures forall k :: |r| <= k < |s| ==> IsSpace(s[k])
    ensures r == [] || !IsSpace(r[|r| - 1])
  {
    RStripBy(s, Unicode)
  }

  /** `s.strip()`. */
  function Strip(s: string): string {
    RStrip(LStrip(s))
  }

  /** `s.count(c)` for a one-character `c`. */
  function CountChar(s: string, c: char): (n: nat)
    ensures n <= |s|
    ensures n == 0 <==> c !in s
  {
    if s == [] then 0 else (if s[0] == c then 1 else 0) + CountChar(s[1..], c)
  }

  /** `s.split(sep)` for a one-character separator: the pieces between the
      separators, empty pieces included. */
  function Split(s: string, sep: char): (pieces: seq<string>)
    ensures |pieces| >= 1
  {
    if s == [] then [""]
    else
      var rest := Split(s[1..], sep);
      if s[0] == sep then [""] + rest else [[s[0]] + rest[0]] + rest[1..]
  }

  /** `sep.join(pieces)`. */
  function Join(pieces: seq<string>, sep: string): string {
    if pieces == [] then ""
    else if |pieces| == 1 then pieces[0]
    else pieces[0] + sep + Join(pieces[1..], sep)
  }

  /** `split` gives one more piece than there are separators. */
  lemma {:induction false} SplitCount(s: string, sep: char)
    ensures |Split(s, sep)| == CountChar(s, sep) + 1
  {
    if s != [] {
      SplitCount(s[1..], sep);
    }
  }

  /** No piece of a `split` holds the separator. */
  lemma {:induction false} SplitNoSeparator(s: string, sep: char)
    ensures forall i :: 0 <= i < |Split(s, sep)| ==> sep !in Split(s, sep)[i]
  {
    if s != [] {
      SplitNoSeparator(s[1..], sep);
      var rest := Split(s[1..], sep);
      var pieces := Split(s, sep);
      if s[0] == sep {
        assert pieces == [""] + rest;
      } else {
        assert pieces == [[s[0]] + rest[0]] + rest[1..];
        forall i | 0 <= i < |pieces| ensures sep !in pieces[i] {
          if i > 0 { assert pieces[i] == rest[i]; }
        }
      }
    }
  }

  /** Joining a first piece in front of more pieces puts a separator between. */
  lemma JoinCons(first: string, rest: seq<string>, sep: string)
    requires |rest| >= 1
    ensures Join([first] + rest, sep) == first + sep + Join(rest, sep)
  {
    assert ([first] + rest)[1..] == rest;
  }

  /** Prefixing the first piece with c prefixes the joined text with c. */
  lemma JoinHead(c: char, rest: seq<string>, sep: string)
    requires |rest| >= 1
    ensures Join([[c] + rest[0]] + rest[1..], sep) == [c] + Join(rest, sep)
  {
    if |rest| > 1 {
      JoinCons([c] + rest[0], rest[1..], sep);
      JoinCons(rest[0], rest[1..], sep);
      assert rest == [rest[0]] + rest[1..];
    }
  }

  /** Joining the pieces with the separator gives the text back. */
  lemma {:induction false} SplitJoin(s: string, sep: char)
    ensures Join(Split(s, sep), [sep]) == s
  {
    if s != [] {
      var rest := Split(s[1..], sep);
      SplitJoin(s[1..], sep);
      if s[0] == sep {
        assert Split(s, sep) == [""] + rest;
        JoinCons("", rest, [sep]);
      } else {
        assert Split(s, sep) == [[s[0]] + rest[0]] + rest[1..];
        JoinHead(s[0], rest, [sep]);
      }
      assert s == [s[0]] + s[1..];
    }
  }


  /** `s.split(sep)`: one more piece than separators, none holding one, and
      joining them restores s. */
  lemma SplitPieces(s: string, sep: char)
    ensures |Split(s, sep)| == CountChar(s, sep) + 1
    ensures forall i :: 0 <= i < |Split(s, sep)| ==> sep !in Split(s, sep)[i]
    ensures Join(Split(s, sep), [sep]) == s
  {
    SplitCount(s, sep);
    SplitNoSeparator(s, sep);
    SplitJoin(s, sep);
  }


  /** `prefix in s` read as "s starts with prefix": `s.startswith(prefix)`. */
  predicate StartsWith(s: string, prefix: string) {
    |prefix| <= |s| && s[..|prefix|] == prefix
  }

  /** Python's substring test `sub in s`. */
  predicate Contains(s: string, sub: string)
    decreases |s|
  {
    StartsWith(s, sub) || (s != [] && Contains(s[1..], sub))
  }

  /** A substring of a prefix of `s` is a substring of `s`. */
  lemma {:induction false} ContainsInPrefix(s: string, n: nat, sub: string)
    requires n <= |s| && Contains(s[..n], sub)
    ensures Contains(s, sub)
    decreases n
  {
    if !StartsWith(s[..n], sub) {
      assert s[..n][1..] == s[1..][..n - 1];
      ContainsInPrefix(s[1..], n - 1, sub);
    }
  }

  /** `in` is transitive: a substring of a substring of `s` is a substring of `s`. */
  lemma {:induction false} ContainsTransitive(s: string, mid: string, sub: string)
    requires Contains(s, mid) && Contains(mid, sub)
    ensures Contains(s, sub)
    decreases |s|
  {
    if StartsWith(s, mid) {
      ContainsInPrefix(s, |mid|, sub);
    } else {
      ContainsTransitive(s[1..], mid, sub);
    }
  }

  // ----- integers and their decimal text -----

  predicate IsDigit(c: char) {
    '0' <= c <= '9'
  }

  /** A non-empty run of ASCII decimal digits. */
  predicate IsDigits(d: string) {
    |d| > 0 && forall k :: 0 <= k < |d| ==> IsDigit(d[k])
  }

  function DigitChar(d: nat): (c: char)
    requires d < 10
    ensures IsDigit(c) && c as int - '0' as int == d
  {
    ('0' as int + d) as char
  }

  /** The number a run of decimal digits denotes. */
  function DigitsValue(d: string): nat
    requires forall k :: 0 <= k < |d| ==> IsDigit(d[k])
  {
    if d == [] then 0
    else
      assert IsDigit(d[|d| - 1]);
      DigitsValue(d[..|d| - 1]) * 10 + (d[|d| - 1] as int - '0' as int)
  }

  /** `str(n)` for a natural number. */
  function NatToDecimal(n: nat): (r: string)
    ensures IsDigits(r)
  {
    if n < 10 then [DigitChar(n)] else NatToDecimal(n / 10) + [DigitChar(n % 10)]
  }

  /** `str(i)` for an integer: a minus sign before negative numbers. */
  function IntToDecimal(i: int): string {
    if i < 0 then "-" + NatToDecimal(-i) else NatToDecimal(i)
  }

  /** The surrounding whitespace `int()` ignores. */
  function IntStrip(s: string): string {
    RStripBy(LStripBy(s, IntLiteral), IntLiteral)
  }

  /** CPython's default limit on the digits `int()` converts from a decimal
      string (`sys.int_info.default_max_str_digits`); more raise ValueError. */
  const MaxStrDigits: nat := 4300

  /** An optional sign, then at most `MaxStrDigits` decimal digits; anything
      else is None. */
  function ParseSigned(t: string): Option<int> {
    var signed := |t| > 0 && (t[0] == '-' || t[0] == '+');
    var digits := if signed then t[1..] else t;
    if IsDigits(digits) && |digits| <= MaxStrDigits then
      var magnitude: int := DigitsValue(digits);
      Some(if signed && t[0] == '-' then -magnitude else magnitude)
    else None
  }

  /** `int(s)` for a string: surrounding whitespace, an optional sign, then
      decimal digits within the limit; anything else is None (Python raises
      ValueError). */
  function ParseInt(s: string): Option<int> {
    ParseSigned(IntStrip(s))
  }

  lemma {:induction false} NatToDecimalValue(n: nat)
    ensures DigitsValue(NatToDecimal(n)) == n
  {
    if n >= 10 {
      NatToDecimalValue(n / 10);
      var d := NatToDecimal(n);
      assert d[..|d| - 1] == NatToDecimal(n / 10);
    }
  }

  /** Text that neither starts nor ends with a space is left as it is. */
  lemma NothingToStrip(s: string, ws: Whitespace)
    requires s != [] ==> !IsSpaceOf(ws, s[0]) && !IsSpaceOf(ws, s[|s| - 1])
    ensures RStripBy(LStripBy(s, ws), ws) == s
  {
  }

  /** Decimal text has no surrounding whitespace for `int()` to strip. */
  lemma DecimalHasNoSpace(d: string)
    requires forall k :: 0 <= k < |d| ==> IsDigit(d[k]) || d[k] == '-'
    ensures IntStrip(d) == d
  {
    if d != [] {
      assert IsDigit(d[0]) || d[0] == '-';
      assert IsDigit(d[|d| - 1]) || d[|d| - 1] == '-';
    }
    NothingToStrip(d, IntLiteral);
  }

  /** Digits without a sign read as their value. */
  lemma ParseSignedOfDigits(d: string)
    requires IsDigits(d) && |d| <= MaxStrDigits
    ensures ParseSigned(d) == Some(DigitsValue(d) as int)
  {
    assert d[0] != '-' && d[0] != '+';
  }

  lemma ParseIntOfDigits(d: string)
    requires IsDigits(d) && |d| <= MaxStrDigits
    ensures ParseInt(d) == Some(DigitsValue(d) as int)
  {
    DecimalHasNoSpace(d);
    ParseIntOfStripped(d, d);
  }

  /** A minus sign before digits is decimal text. */
  lemma NegatedIsDecimal(d: string)
    requires IsDigits(d)
    ensures forall k :: 0 <= k < |"-" + d| ==> IsDigit(("-" + d)[k]) || ("-" + d)[k] == '-'
  {
    var m := "-" + d;
    forall k | 0 <= k < |m| ensures IsDigit(m[k]) || m[k] == '-' {
      if k > 0 { assert m[k] == d[k - 1]; }
    }
  }

  /** A minus sign before digits reads as the negated value. */
  lemma ParseSignedOfNegated(m: string, d: string)
    requires IsDigits(d) && |d| <= MaxStrDigits && m == "-" + d
    ensures ParseSigned(m) == Some(-(DigitsValue(d) as int))
  {
    assert m[0] == '-' && m[1..] == d;
  }

  lemma ParseIntOfNegated(d: string)
    requires IsDigits(d) && |d| <= MaxStrDigits
    ensures ParseInt("-" + d) == Some(-(DigitsValue(d) as int))
  {
    NegatedIsDecimal(d);
    DecimalHasNoSpace("-" + d);
    ParseSignedOfNegated("-" + d, d);
  }

  /** Once `int()` has stripped s down to digits, it reads their value. */
  lemma ParseIntOfStripped(s: string, d: string)
    requires IsDigits(d) && |d| <= MaxStrDigits && IntStrip(s) == d
    ensures ParseInt(s) == Some(DigitsValue(d) as int)
  {
    ParseSignedOfDigits(d);
  }

  /** Digits hold no whitespace for `int()` at their ends. */
  lemma DigitsUnstripped(d: string)
    requires IsDigits(d)
    ensures IntStrip(d) == d
  {
    assert IsDigit(d[0]) && IsDigit(d[|d| - 1]);
    NothingToStrip(d, IntLiteral);
  }

  /** A leading space is stripped, and the rest is stripped as before. */
  lemma LStripOne(c: char, t: string, ws: Whitespace)
    requires IsSpaceOf(ws, c)
    ensures LStripBy([c] + t, ws) == LStripBy(t, ws)
  {
    assert ([c] + t)[1..] == t;
  }

  /** A trailing space is stripped, and the rest is stripped as before. */
  lemma RStripOne(t: string, c: char, ws: Whitespace)
    requires IsSpaceOf(ws, c)
    ensures RStripBy(t + [c], ws) == RStripBy(t, ws)
  {
    assert (t + [c])[..|t|] == t;
  }

  /** `int()` drops one trailing whitespace character after text that does
      not start with whitespace, and strips the rest as before. */
  lemma IntStripLast(t: string, c: char)
    requires IsIntSpace(c) && t != [] && !IsIntSpace(t[0])
    ensures IntStrip(t + [c]) == IntStrip(t)
  {
    assert (t + [c])[0] == t[0];
    RStripOne(t, c, IntLiteral);
  }

  /** A space before digits and a newline after them are stripped. */
  lemma AsciiSpacedStrip(d: string)
    requires IsDigits(d)
    ensures IntStrip(" " + d + "\n") == d
  {
    var tail := d + ['\n'];
    assert " " + d + "\n" == [' '] + tail;
    IntStripOne(' ', tail);
    assert IsDigit(d[0]);
    IntStripLast(d, '\n');
    DigitsUnstripped(d);
  }

  /** `int()` ignores ASCII whitespace around the digits: `int(" 7\n") == 7`. */
  lemma IntStripsAsciiSpace(d: string)
    requires IsDigits(d) && |d| <= MaxStrDigits
    ensures ParseInt(" " + d + "\n") == Some(DigitsValue(d) as int)
  {
    AsciiSpacedStrip(d);
    ParseIntOfStripped(" " + d + "\n", d);
  }

  /** A string with no surrounding whitespace for `int()` that starts with
      neither a digit nor a sign is not an integer. */
  lemma ParseIntRejects(s: string)
    requires s != [] && !IsIntSpace(s[0]) && !IsIntSpace(s[|s| - 1])
    requires !IsDigit(s[0]) && s[0] != '-' && s[0] != '+'
    ensures ParseInt(s) == None
  {
    NothingToStrip(s, IntLiteral);
  }

  /** The separators 28-31 are `str.isspace` but not whitespace for `int()`:
      `int("\x1c7")` raises ValueError. */
  lemma IntKeepsAsciiSeparator(d: string)
    requires IsDigits(d)
    ensures IsSpace('\U{1C}') && ParseInt("\U{1C}" + d) == None
  {
    var s := "\U{1C}" + d;
    assert s[|s| - 1] == d[|d| - 1] && IsDigit(d[|d| - 1]);
    ParseIntRejects(s);
  }

  /** A non-ASCII space is skipped: `int("\xa07") == 7`. */
  lemma IntStripsUnicodeSpace(d: string)
    requires IsDigits(d) && |d| <= MaxStrDigits
    ensures ParseInt("\U{A0}" + d) == Some(DigitsValue(d) as int)
  {
    var s := "\U{A0}" + d;
    assert s == ['\U{A0}'] + d;
    LStripOne('\U{A0}', d, IntLiteral);
    DigitsUnstripped(d);
    ParseIntOfStripped(s, d);
  }

  /** Text that starts with neither a digit nor a sign is no signed number. */
  lemma ParseSignedRejects(t: string)
    requires t != [] && !IsDigit(t[0]) && t[0] != '-' && t[0] != '+'
    ensures ParseSigned(t) == None
  {
  }

  /** `int()` drops one leading whitespace character and strips the rest as before. */
  lemma IntStripOne(c: char, t: string)
    requires IsIntSpace(c)
    ensures IntStrip([c] + t) == IntStrip(t)
  {
    LStripOne(c, t, IntLiteral);
  }

  /** `int()` strips U+00A0 before a separator but keeps the separator. */
  lemma SeparatorBesideUnicodeSpaceStrip(d: string)
    requires IsDigits(d)
    ensures IntStrip("\U{A0}\U{1C}" + d) == ['\U{1C}'] + d
  {
    var t := ['\U{1C}'] + d;
    assert "\U{A0}\U{1C}" + d == ['\U{A0}'] + t;
    IntStripOne('\U{A0}', t);
    assert t[0] == '\U{1C}' && !IsIntSpace(t[0]);
    assert t[|t| - 1] == d[|d| - 1] && IsDigit(d[|d| - 1]);
    NothingToStrip(t, IntLiteral);
  }

  /** Next to a non-ASCII space a separator still is not whitespace for
      `int()`: `int("\xa0\x1c7")` raises ValueError. */
  lemma IntKeepsSeparatorBesideUnicodeSpace(d: string)
    requires IsDigits(d)
    ensures ParseInt("\U{A0}\U{1C}" + d) == None
  {
    SeparatorBesideUnicodeSpaceStrip(d);
    ParseSignedRejects(['\U{1C}'] + d);
  }

  /** Digits convert to their value exactly when there are at most
      `MaxStrDigits` of them: `int("1" * 4301)` raises ValueError. */
  lemma IntDigitLimit(d: string)
    requires IsDigits(d)
    ensures ParseInt(d) == if |d| <= MaxStrDigits then Some(DigitsValue(d) as int) else None
  {
    if |d| <= MaxStrDigits {
      ParseIntOfDigits(d);
    } else {
      DecimalHasNoSpace(d);
      assert d[0] != '-' && d[0] != '+';
    }
  }

  /** Round trip: `int(str(i)) == i` for every integer whose decimal text is
      within the digit limit (CPython's `str()` refuses longer ones too). */
  lemma ParseIntRoundTrip(i: int)
    requires |NatToDecimal(if i < 0 then -i else i)| <= MaxStrDigits
    ensures ParseInt(IntToDecimal(i)) == Some(i)
  {
    var n: nat := if i < 0 then -i else i;
    NatToDecimalValue(n);
    if i < 0 {
      ParseIntOfNegated(NatToDecimal(n));
    } else {
      ParseIntOfDigits(NatToDecimal(n));
    }
  }
}
