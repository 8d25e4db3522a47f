/** The JavaScript string operations the application relies on
    (`includes`, `split`, `padStart`, `Number.prototype.toString`,
    `parseInt`, `trim`), stated over `seq<char>`. */
module Text {
  import opened Results

  // ---------------------------------------------------------------------------
  // String.prototype.includes

  /** `part` occurs in `s` starting at offset `i`. */
  predicate OccursAt(s: string, part: string, i: int) {
    0 <= i && i + |part| <= |s| && s[i..i + |part|] == part
  }

  /** `s.includes(part)`. */
  predicate Contains(s: string, part: string) {
    exists i | 0 <= i <= |s| - |part| :: OccursAt(s, part, i)
  }

  /** Character `k` of an occurrence is character `i + k` of the string. */
  lemma OccurrenceAt(s: string, part: string, i: int, k: int)
    requires OccursAt(s, part, i)
    requires 0 <= k < |part|
    ensures part[k] == s[i + k]
  {
  }

  /** Every string includes the empty string. */
  lemma ContainsEmpty(s: string)
    ensures Contains(s, "")
  {
    assert OccursAt(s, "", 0);
  }

  /** Putting text before or after a string never removes an occurrence. */
  lemma ContainsInLonger(pre: string, s: string, post: string, part: string)
    requires Contains(s, part)
    ensures Contains(pre + s + post, part)
  {
    var i :| 0 <= i <= |s| - |part| && OccursAt(s, part, i);
    var t := pre + s + post;
    assert t[|pre|..|pre| + |s|] == s;
    assert t[|pre| + i..|pre| + i + |part|] == s[i..i + |part|];
    assert OccursAt(t, part, |pre| + i);
  }

  // ---------------------------------------------------------------------------
  // String.prototype.split with a one-character separator

  /** `s.split(sep)`: the pieces between separators, always at least one. */
  function Split(s: string, sep: char): (parts: seq<string>)
    ensures |parts| >= 1
    ensures forall k | 0 <= k < |parts| :: sep !in parts[k]
    decreases |s|
  {
    if s == [] then [""]
    else
      var rest := Split(s[1..], sep);
      if s[0] == sep then [""] + rest
      else [[s[0]] + rest[0]] + rest[1..]
  }

  /** `parts.join(sep)`. */
  function Join(parts: seq<string>, sep: char): string
    decreases |parts|
  {
    if parts == [] then ""
    else if |parts| == 1 then parts[0]
    else parts[0] + [sep] + Join(parts[1..], sep)
  }

  /** Joining the pieces of a split gives back the original string. */
  lemma {:induction false} JoinSplit(s: string, sep: char)
    ensures Join(Split(s, sep), sep) == s
    decreases |s|
  {
    if s != [] {
      JoinSplit(s[1..], sep);
      var rest := Split(s[1..], sep);
      if s[0] == sep {
        assert Split(s, sep) == [""] + rest;
        assert s == [sep] + s[1..];
      } else {
        var parts := Split(s, sep);
        assert parts[1..] == rest[1..];
        if |rest| == 1 {
          assert s == [s[0]] + rest[0];
        } else {
          assert Join(rest, sep) == rest[0] + [sep] + Join(rest[1..], sep);
          assert s == [s[0]] + rest[0] + [sep] + Join(rest[1..], sep);
        }
      }
    }
  }

  /** A piece without the separator occurs in a joined string only inside
      one of the joined pieces. */
  lemma {:induction false} ContainsInJoin(parts: seq<string>, sep: char, part: string)
    requires |parts| >= 1
    requires sep !in part
    requires Contains(Join(parts, sep), part)
    ensures exists t :: t in parts && Contains(t, part)
    decreases |parts|
  {
    if part == [] {
      ContainsEmpty(parts[0]);
      assert parts[0] in parts;
    } else if |parts| == 1 {
      assert parts[0] in parts;
    } else {
      var head := parts[0];
      var tail := Join(parts[1..], sep);
      var joined := Join(parts, sep);
      assert joined == head + [sep] + tail;
      var i :| 0 <= i <= |joined| - |part| && OccursAt(joined, part, i);
      if i + |part| <= |head| {
        assert joined[i..i + |part|] == head[i..i + |part|];
        assert OccursAt(head, part, i);
        assert head in parts;
      } else if i > |head| {
        var j := i - |head| - 1;
        assert joined[i..i + |part|] == tail[j..j + |part|];
        assert OccursAt(tail, part, j);
        ContainsInJoin(parts[1..], sep, part);
        var t :| t in parts[1..] && Contains(t, part);
        assert t in parts;
      } else {
        OccurrenceAt(joined, part, i, |head| - i);
        assert false;
      }
    }
  }

  /** A piece that occurs in one of the joined pieces occurs in the join. */
  lemma {:induction false} ContainsJoinOfPiece(parts: seq<string>, sep: char, t: string, part: string)
    requires t in parts
    requires Contains(t, part)
    ensures Contains(Join(parts, sep), part)
    decreases |parts|
  {
    if |parts| == 1 {
      assert t == parts[0];
    } else if parts[0] == t {
      ContainsInLonger("", t, [sep] + Join(parts[1..], sep), part);
      assert "" + t + ([sep] + Join(parts[1..], sep)) == Join(parts, sep);
    } else {
      assert t in parts[1..];
      ContainsJoinOfPiece(parts[1..], sep, t, part);
      ContainsInLonger(parts[0] + [sep], Join(parts[1..], sep), "", part);
      assert parts[0] + [sep] + Join(parts[1..], sep) + "" == Join(parts, sep);
    }
  }

  // ---------------------------------------------------------------------------
  // Decimal digits: Number.prototype.toString and its inverse

  predicate IsDigit(c: char) {
    '0' <= c <= '9'
  }

  predicate AllDigits(s: string) {
    forall k | 0 <= k < |s| :: IsDigit(s[k])
  }

  function DigitChar(d: nat): (c: char)
    requires d < 10
    ensures IsDigit(c)
  {
    (48 + d) as char
  }

  function DigitValue(c: char): (d: nat)
    requires IsDigit(c)
    ensures d < 10
  {
    c as int - 48
  }

  /** `n.toString()` for a non-negative integer: its decimal digits, without
      leading zeros. */
  function NatToString(n: nat): (s: string)
    ensures 1 <= |s| && AllDigits(s)
    ensures n < 10 <==> |s| == 1
    ensures 10 <= n < 100 ==> |s| == 2
    ensures 100 <= n < 1000 ==> |s| == 3
    ensures 1000 <= n ==> |s| >= 4
    ensures 1 < |s| ==> s[0] != '0'
    decreases n
  {
    if n < 10 then [DigitChar(n)] else NatToString(n / 10) + [DigitChar(n % 10)]
  }

  /** The value of a string of decimal digits. */
  function ParseDigits(s: string): nat
    requires AllDigits(s)
    decreases |s|
  {
    if s == [] then 0 else 10 * ParseDigits(s[..|s| - 1]) + DigitValue(s[|s| - 1])
  }

  /** Reading back the digits of `n` gives `n`. */
  lemma {:induction false} ParseNatToString(n: nat)
    ensures ParseDigits(NatToString(n)) == n
    decreases n
  {
    var s := NatToString(n);
    if n < 10 {
      assert s[..0] == [];
    } else {
      ParseNatToString(n / 10);
      assert s[..|s| - 1] == NatToString(n / 10);
    }
  }

  lemma NatToStringInjective(a: nat, b: nat)
    requires NatToString(a) == NatToString(b)
    ensures a == b
  {
    ParseNatToString(a);
    ParseNatToString(b);
  }

  /** Leading zeros do not change the value of a digit string. */
  lemma {:induction false} ParseDigitsLeadingZeros(zeros: string, s: string)
    requires forall k | 0 <= k < |zeros| :: zeros[k] == '0'
    requires AllDigits(s)
    ensures AllDigits(zeros + s)
    ensures ParseDigits(zeros + s) == ParseDigits(s)
    decreases |s|
  {
    var t := zeros + s;
    assert AllDigits(t) by {
      forall k | 0 <= k < |t| ensures IsDigit(t[k]) {
        if k < |zeros| { assert t[k] == zeros[k]; } else { assert t[k] == s[k - |zeros|]; }
      }
    }
    if s == [] {
      assert t == zeros;
      ParseAllZeros(zeros);
    } else {
      ParseDigitsLeadingZeros(zeros, s[..|s| - 1]);
      assert t[..|t| - 1] == zeros + s[..|s| - 1];
    }
  }

  lemma {:induction false} ParseAllZeros(zeros: string)
    requires forall k | 0 <= k < |zeros| :: zeros[k] == '0'
    ensures AllDigits(zeros) && ParseDigits(zeros) == 0
    decreases |zeros|
  {
    if zeros != [] {
      ParseAllZeros(zeros[..|zeros| - 1]);
    }
  }

  /** Two digit strings each followed by a non-digit split a string the same
      way: the digits before the first non-digit are determined. */
  lemma DigitRunsAgree(x: string, y: string, u: string, v: string)
    requires AllDigits(x) && AllDigits(u)
    requires y != [] && !IsDigit(y[0])
    requires v != [] && !IsDigit(v[0])
    requires x + y == u + v
    ensures x == u && y == v
  {
    DigitRunEnds(x, y);
    DigitRunEnds(u, v);
    assert |x| == |u|;
    assert x == (x + y)[..|x|] == (u + v)[..|u|] == u;
    assert y == (x + y)[|x|..] == (u + v)[|u|..] == v;
  }

  lemma DigitRunEnds(x: string, y: string)
    requires AllDigits(x)
    requires y != [] && !IsDigit(y[0])
    ensures forall k | 0 <= k < |x| :: IsDigit((x + y)[k])
    ensures !IsDigit((x + y)[|x|])
  {
  }

  // ---------------------------------------------------------------------------
  // String.prototype.padStart with a one-character pad

  function Repeat(c: char, n: nat): (s: string)
    ensures |s| == n && forall k | 0 <= k < n :: s[k] == c
  {
    seq(n, _ => c)
  }

  /** `s.padStart(width, c)`: pads on the left, never truncates. */
  function PadStart(s: string, width: nat, c: char): string {
    if |s| >= width then s else Repeat(c, width - |s|) + s
  }

  // ---------------------------------------------------------------------------
  // trim and parseInt

  /** The white-space characters JavaScript skips in `trim` and `parseInt`:
      tab, vertical tab, form feed, the byte order mark, every space separator
      of Unicode category Zs, and the line terminators. */
  predicate IsJsWhitespace(c: char) {
    || c == '\t' || c == '\U{000B}' || c == '\U{000C}' || c == '\U{FEFF}'
    || c == ' ' || c == '\U{00A0}' || c == '\U{1680}' || '\U{2000}' <= c <= '\U{200A}'
    || c == '\U{202F}' || c == '\U{205F}' || c == '\U{3000}'
    || c == '\n' || c == '\r' || c == '\U{2028}' || c == '\U{2029}'
  }

  function TrimStart(s: string): (r: string)
    ensures |r| <= |s| && r == s[|s| - |r|..]
    ensures r != [] ==> !IsJsWhitespace(r[0])
    decreases |s|
  {
    if s != [] && IsJsWhitespace(s[0]) then TrimStart(s[1..]) else s
  }

  function TrimEnd(s: string): (r: string)
    ensures |r| <= |s| && r == s[..|r|]
    ensures r != [] ==> !IsJsWhitespace(r[|r| - 1])
    decreases |s|
  {
    if s != [] && IsJsWhitespace(s[|s| - 1]) then TrimEnd(s[..|s| - 1]) else s
  }

  /** `s.trim()`. */
  function Trim(s: string): string {
    TrimEnd(TrimStart(s))
  }

  /** The longest prefix of `s` made of decimal digits. */
  function DigitPrefix(s: string): (d: string)
    ensures AllDigits(d) && |d| <= |s| && d == s[..|d|]
    ensures |d| < |s| ==> !IsDigit(s[|d|])
    decreases |s|
  {
    if s != [] && IsDigit(s[0]) then [s[0]] + DigitPrefix(s[1..]) else []
  }

  predicate IsHexDigit(c: char) {
    IsDigit(c) || 'a' <= c <= 'f' || 'A' <= c <= 'F'
  }

  predicate AllHexDigits(s: string) {
    forall k | 0 <= k < |s| :: IsHexDigit(s[k])
  }

  function HexValue(c: char): (d: nat)
    requires IsHexDigit(c)
    ensures d < 16
    ensures IsDigit(c) ==> d == DigitValue(c)
  {
    if IsDigit(c) then DigitValue(c)
    else if 'a' <= c <= 'f' then c as int - 'a' as int + 10
    else c as int - 'A' as int + 10
  }

  /** The value of a run of hexadecimal digits, most significant first. */
  function ParseHex(s: string): nat
    requires AllHexDigits(s)
    decreases |s|
  {
    if s == [] then 0 else 16 * ParseHex(s[..|s| - 1]) + HexValue(s[|s| - 1])
  }

  /** The longest prefix of `s` made of hexadecimal digits. */
  function HexPrefix(s: string): (d: string)
    ensures AllHexDigits(d) && |d| <= |s| && d == s[..|d|]
    ensures |d| < |s| ==> !IsHexDigit(s[|d|])
    decreases |s|
  {
    if s != [] && IsHexDigit(s[0]) then [s[0]] + HexPrefix(s[1..]) else []
  }

  /** Whether the text after the sign starts with the `0x` or `0X` prefix
      that makes `parseInt` read base 16 when no radix is given. */
  predicate HexPrefixed(body: string) {
    |body| >= 2 && body[0] == '0' && (body[1] == 'x' || body[1] == 'X')
  }

  /** The number at the start of `body`, the text after any sign: `0x` or
      `0X` and the longest run of hexadecimal digits, or else the longest run
      of decimal digits; `None` when that run is empty. */
  function ParseMagnitude(body: string): Option<nat> {
    if HexPrefixed(body) then
      var digits := HexPrefix(body[2..]);
      if digits == [] then None else Some(ParseHex(digits))
    else
      var digits := DigitPrefix(body);
      if digits == [] then None else Some(ParseDigits(digits))
  }

  /** `parseInt(s)` with no radix: leading white space, then a signed
      number; `None` stands for `NaN`. */
  function ParseInt(s: string): Option<int> {
    ParseSigned(TrimStart(s))
  }

  /** An optional sign followed by the magnitude. */
  function ParseSigned(t: string): Option<int> {
    var negative := t != [] && t[0] == '-';
    var body := if t != [] && (t[0] == '-' || t[0] == '+') then t[1..] else t;
    match ParseMagnitude(body)
    case None => None
    case Some(m) =>
      var v: int := m;
      if negative then Some(-v) else Some(v)
  }

  /** White space in front of the text does not change what `parseInt`
      reads. */
  lemma ParseIntSkipsWhitespace(c: char, s: string)
    requires IsJsWhitespace(c)
    ensures ParseInt([c] + s) == ParseInt(s)
  {
    assert ([c] + s)[1..] == s;
    assert TrimStart([c] + s) == TrimStart(s);
  }

  /** `parseInt("0x" + s)` reads `s` in base 16. */
  lemma ParseIntOfHex(s: string)
    requires s != [] && AllHexDigits(s)
    ensures ParseInt("0x" + s) == Some(ParseHex(s))
  {
    var t := "0x" + s;
    assert !IsJsWhitespace(t[0]) && t[0] != '-' && t[0] != '+';
    assert TrimStart(t) == t;
    assert HexPrefixed(t) && t[2..] == s;
    HexPrefixOfHexDigits(s);
    assert ParseMagnitude(t) == Some(ParseHex(s));
  }

  lemma {:induction false} HexPrefixOfHexDigits(s: string)
    requires AllHexDigits(s)
    ensures HexPrefix(s) == s
    decreases |s|
  {
    if s != [] {
      HexPrefixOfHexDigits(s[1..]);
    }
  }

  /** `parseInt(n.toString())` is `n`. */
  lemma ParseIntOfNatToString(n: nat)
    ensures ParseInt(NatToString(n)) == Some(n)
  {
    ParseIntOfDigits(NatToString(n));
    ParseNatToString(n);
  }

  /** `parseInt` of a non-empty digit string is its value. */
  lemma ParseIntOfDigits(s: string)
    requires s != [] && AllDigits(s)
    ensures ParseInt(s) == Some(ParseDigits(s))
  {
    DigitsAreNotTrimmed(s);
    MagnitudeOfDigits(s);
    assert s[0] != '-' && s[0] != '+';
  }

  lemma DigitsAreNotTrimmed(s: string)
    requires s != [] && IsDigit(s[0])
    ensures TrimStart(s) == s
  {
    assert !IsJsWhitespace(s[0]);
  }

  lemma MagnitudeOfDigits(s: string)
    requires s != [] && AllDigits(s)
    ensures ParseMagnitude(s) == Some(ParseDigits(s))
  {
    assert !HexPrefixed(s) by {
      if |s| >= 2 {
        assert IsDigit(s[1]);
      }
    }
    DigitPrefixOfDigits(s);
  }

  lemma {:induction false} DigitPrefixOfDigits(s: string)
    requires AllDigits(s)
    ensures DigitPrefix(s) == s
    decreases |s|
  {
    if s != [] {
      DigitPrefixOfDigits(s[1..]);
    }
  }
}
