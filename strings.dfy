/** Text operations with the meaning of the Rust `str` and Java `String`
    methods that the launcher and the client mod call. Strings are sequences
    of Unicode scalar values, as Rust's `chars()` sees them. */
module Strings {
  import opened Wrappers

  // ---------------------------------------------------------------------
  // Searching

  /** `p` occurs in `s` as a contiguous run (`str::contains`). */
  predicate Contains(s: string, p: string)
    decreases |s|
  {
    p <= s || (|s| > 0 && Contains(s[1..], p))
  }

  lemma {:induction false} ContainsInfix(a: string, p: string, b: string)
    ensures Contains(a + p + b, p)
    decreases |a|
  {
    if a == [] {
      assert a + p + b == p + b;
    } else {
      assert (a + p + b)[1..] == a[1..] + p + b;
      ContainsInfix(a[1..], p, b);
    }
  }

  /** A string holds only patterns no longer than itself, and only
      patterns whose first character it holds. */
  lemma {:induction false} ContainsBounds(s: string, p: string)
    requires Contains(s, p)
    ensures |p| <= |s|
    ensures p != [] ==> p[0] in s
    decreases |s|
  {
    if !(p <= s) {
      ContainsBounds(s[1..], p);
      if p != [] {
        assert p[0] in s[1..];
      }
    } else if p != [] {
      assert s[0] == p[0];
    }
  }

  /** An occurrence has a position. */
  lemma {:induction false} ContainsAt(s: string, p: string) returns (i: nat)
    requires Contains(s, p)
    ensures i + |p| <= |s| && s[i..i + |p|] == p
    decreases |s|
  {
    if p <= s {
      i := 0;
    } else {
      var j := ContainsAt(s[1..], p);
      assert s[j + 1..j + 1 + |p|] == s[1..][j..j + |p|];
      i := j + 1;
    }
  }

  /** Position of the first `c` in `s` (`str::find` with a char pattern). */
  function IndexOf(s: string, c: char): (r: Option<nat>)
    ensures r.Some? ==> r.value < |s| && s[r.value] == c && c !in s[..r.value]
    ensures r.None? ==> c !in s
    decreases |s|
  {
    if s == [] then None
    else if s[0] == c then Some(0)
    else
      match IndexOf(s[1..], c)
      case None => None
      case Some(k) => Some(k + 1)
  }

  /** Position of the last `c` in `s` (`str::rfind`). */
  function LastIndexOf(s: string, c: char): (r: Option<nat>)
    ensures r.Some? ==> r.value < |s| && s[r.value] == c && c !in s[r.value + 1..]
    ensures r.None? ==> c !in s
    decreases |s|
  {
    if s == [] then None
    else if s[|s| - 1] == c then Some(|s| - 1)
    else LastIndexOf(s[..|s| - 1], c)
  }

  // ---------------------------------------------------------------------
  // Replacing

  /** Every occurrence of `pat`, found left to right without overlap,
      replaced by `rep` (Rust's `str::replace`, Java's `String.replace`). */
  function Replace(s: string, pat: string, rep: string): string
    requires pat != []
    decreases |s|
  {
    if s == [] then []
    else if pat <= s then rep + Replace(s[|pat|..], pat, rep)
    else [s[0]] + Replace(s[1..], pat, rep)
  }

  /** A string without the pattern comes back unchanged. */
  lemma {:induction false} ReplaceAbsent(s: string, pat: string, rep: string)
    requires pat != [] && !Contains(s, pat)
    ensures Replace(s, pat, rep) == s
    decreases |s|
  {
    if s != [] {
      ReplaceAbsent(s[1..], pat, rep);
    }
  }

  /** A prefix in which no occurrence of `pat` starts passes through
      unchanged. */
  lemma {:induction false} ReplaceAfter(a: string, b: string, pat: string, rep: string)
    requires pat != []
    requires forall i :: 0 <= i < |a| ==> !(pat <= (a + b)[i..])
    ensures Replace(a + b, pat, rep) == a + Replace(b, pat, rep)
    decreases |a|
  {
    if a != [] {
      assert (a + b)[0..] == a + b;
      assert (a + b)[1..] == a[1..] + b;
      forall i | 0 <= i < |a[1..]|
        ensures !(pat <= (a[1..] + b)[i..])
      {
        assert (a[1..] + b)[i..] == (a + b)[i + 1..];
      }
      ReplaceAfter(a[1..], b, pat, rep);
    }
  }

  // ---------------------------------------------------------------------
  // Splitting and joining

  /** The pieces between the occurrences of `sep` (Rust's `str::split` with a
      char pattern): there is always at least one piece, and no piece holds
      the separator. */
  function Split(s: string, sep: char): (parts: seq<string>)
    ensures |parts| >= 1
    ensures forall i :: 0 <= i < |parts| ==> sep !in parts[i]
    decreases |s|
  {
    if s == [] then [[]]
    else
      var rest := Split(s[1..], sep);
      if s[0] == sep then [[]] + rest
      else [[s[0]] + rest[0]] + rest[1..]
  }

  /** The parts with `sep` written between consecutive ones. */
  function Join(parts: seq<string>, sep: string): string
  {
    if |parts| == 0 then []
    else if |parts| == 1 then parts[0]
    else parts[0] + sep + Join(parts[1..], sep)
  }

  lemma {:induction false} SplitWithoutSeparator(x: string, sep: char)
    requires sep !in x
    ensures Split(x, sep) == [x]
    decreases |x|
  {
    if x != [] {
      assert sep !in x[1..];
      SplitWithoutSeparator(x[1..], sep);
      assert [x[0]] + x[1..] == x;
    }
  }

  lemma {:induction false} SplitAfterPiece(x: string, sep: char, y: string)
    requires sep !in x
    ensures Split(x + [sep] + y, sep) == [x] + Split(y, sep)
    decreases |x|
  {
    if x == [] {
      assert x + [sep] + y == [sep] + y;
      assert ([sep] + y)[1..] == y;
    } else {
      assert (x + [sep] + y)[1..] == x[1..] + [sep] + y;
      SplitAfterPiece(x[1..], sep, y);
      assert [x[0]] + x[1..] == x;
    }
  }

  /** Splitting undoes joining, when no part holds the separator. */
  lemma {:induction false} SplitJoin(parts: seq<string>, sep: char)
    requires |parts| >= 1
    requires forall i :: 0 <= i < |parts| ==> sep !in parts[i]
    ensures Split(Join(parts, [sep]), sep) == parts
    decreases |parts|
  {
    if |parts| == 1 {
      SplitWithoutSeparator(parts[0], sep);
    } else {
      SplitJoin(parts[1..], sep);
      SplitAfterPiece(parts[0], sep, Join(parts[1..], [sep]));
      assert parts[0] + [sep] + Join(parts[1..], [sep]) == Join(parts, [sep]);
      assert [parts[0]] + parts[1..] == parts;
    }
  }

  /** The characters `char::is_whitespace` accepts: Unicode White_Space. */
  predicate IsWhitespace(c: char)
  {
    c == ' ' || ('\t' <= c <= '\r') || c == '\U{0085}' || c == '\U{00A0}'
    || c == '\U{1680}' || ('\U{2000}' <= c <= '\U{200A}') || c == '\U{2028}'
    || c == '\U{2029}' || c == '\U{202F}' || c == '\U{205F}' || c == '\U{3000}'
  }

  predicate NoWhitespace(w: string)
  {
    forall i :: 0 <= i < |w| ==> !IsWhitespace(w[i])
  }

  /** The characters of `s` that are not whitespace, in order. */
  function NonWhitespace(s: string): string
    decreases |s|
  {
    if s == [] then []
    else if IsWhitespace(s[0]) then NonWhitespace(s[1..])
    else [s[0]] + NonWhitespace(s[1..])
  }

  /** All the words, one after the other. */
  function Concat(words: seq<string>): string
  {
    if words == [] then [] else words[0] + Concat(words[1..])
  }

  lemma {:induction false} ConcatAppend(a: seq<string>, b: seq<string>)
    ensures Concat(a + b) == Concat(a) + Concat(b)
    decreases |a|
  {
    if a == [] {
      assert a + b == b;
    } else {
      assert (a + b)[1..] == a[1..] + b;
      ConcatAppend(a[1..], b);
    }
  }

  /** Every entry is a non-empty run without whitespace. */
  predicate AllWords(words: seq<string>)
  {
    forall i :: 0 <= i < |words| ==> words[i] != [] && NoWhitespace(words[i])
  }

  lemma AllWordsAppend(a: seq<string>, b: seq<string>)
    requires AllWords(a) && AllWords(b)
    ensures AllWords(a + b)
  {
    forall i | 0 <= i < |a + b|
      ensures (a + b)[i] != [] && NoWhitespace((a + b)[i])
    {
      if i >= |a| {
        assert (a + b)[i] == b[i - |a|];
      }
    }
  }

  /** The maximal runs of non-whitespace characters (Rust's
      `str::split_whitespace`): no word is empty, none holds whitespace, and
      together they are exactly the non-whitespace characters of `s`. */
  function SplitWhitespace(s: string): (words: seq<string>)
    ensures AllWords(words)
    ensures Concat(words) == NonWhitespace(s)
  {
    WordsFrom(s, [])
  }

  /** The words of `s`, where `cur` is the word read so far. */
  function WordsFrom(s: string, cur: string): (words: seq<string>)
    requires NoWhitespace(cur)
    ensures AllWords(words)
    ensures Concat(words) == cur + NonWhitespace(s)
    decreases |s|
  {
    if s == [] then
      assert Concat([cur]) == cur;
      (if cur == [] then [] else [cur])
    else if IsWhitespace(s[0]) then
      var rest := WordsFrom(s[1..], []);
      var first: seq<string> := if cur == [] then [] else [cur];
      ConcatAppend(first, rest);
      AllWordsAppend(first, rest);
      assert Concat(first) == cur;
      assert NonWhitespace(s) == NonWhitespace(s[1..]);
      first + rest
    else
      assert NoWhitespace(cur + [s[0]]);
      var rest := WordsFrom(s[1..], cur + [s[0]]);
      assert NonWhitespace(s) == [s[0]] + NonWhitespace(s[1..]);
      assert cur + [s[0]] + NonWhitespace(s[1..]) == cur + NonWhitespace(s);
      rest
  }

  /** `l` without one trailing carriage return. */
  function StripCarriageReturn(l: string): string
  {
    if |l| > 0 && l[|l| - 1] == '\r' then l[..|l| - 1] else l
  }

  /** The lines of `s` (Rust's `str::lines`): the text is cut after every
      line feed, the line feed and one carriage return before it are dropped,
      and a last piece without a line feed is kept as it is. */
  function Lines(s: string): (lines: seq<string>)
    ensures forall i :: 0 <= i < |lines| ==> '\n' !in lines[i]
    decreases |s|
  {
    if s == [] then []
    else
      match IndexOf(s, '\n')
      case None => [s]
      case Some(k) =>
        assert forall j :: 0 <= j < |StripCarriageReturn(s[..k])| ==> StripCarriageReturn(s[..k])[j] == s[j];
        [StripCarriageReturn(s[..k])] + Lines(s[k + 1..])
  }

  /** At most the first `n` characters (`chars().take(n)`, Java's
      `substring(0, n)` on a longer string). */
  function Take(s: string, n: nat): (r: string)
    ensures |r| == if |s| <= n then |s| else n
    ensures r <= s
  {
    if |s| <= n then s else s[..n]
  }

  // ---------------------------------------------------------------------
  // Letter case (ASCII letters only)

  function LowerChar(c: char): char
  {
    if 'A' <= c <= 'Z' then ((c as int) + 32) as char else c
  }

  function UpperChar(c: char): char
  {
    if 'a' <= c <= 'z' then ((c as int) - 32) as char else c
  }

  function ToLower(s: string): (r: string)
    ensures |r| == |s| && forall i :: 0 <= i < |s| ==> r[i] == LowerChar(s[i])
  {
    seq(|s|, i requires 0 <= i < |s| => LowerChar(s[i]))
  }

  function ToUpper(s: string): (r: string)
    ensures |r| == |s| && forall i :: 0 <= i < |s| ==> r[i] == UpperChar(s[i])
  {
    seq(|s|, i requires 0 <= i < |s| => UpperChar(s[i]))
  }

  /** A string with no upper-case ASCII letter is its own lower case. */
  lemma LowerOfLower(s: string)
    requires forall i :: 0 <= i < |s| ==> !('A' <= s[i] <= 'Z')
    ensures ToLower(s) == s
  {
  }

  // ---------------------------------------------------------------------
  // Decimal numbers

  predicate IsDigit(c: char)
  {
    '0' <= c <= '9'
  }

  predicate AllDigits(s: string)
  {
    forall i :: 0 <= i < |s| ==> IsDigit(s[i])
  }

  function DigitChar(d: nat): (c: char)
    requires d < 10
    ensures IsDigit(c) && (c as int) - ('0' as int) == d
  {
    (('0' as int) + d) as char
  }

  /** The value of a string of decimal digits. */
  function DigitsValue(s: string): nat
    requires AllDigits(s)
  {
    if s == [] then 0
    else DigitsValue(s[..|s| - 1]) * 10 + ((s[|s| - 1] as int) - ('0' as int))
  }

  /** Decimal notation without leading zeros (Rust's and Java's `{}` on an
      integer). */
  function NatToString(n: nat): (s: string)
    ensures |s| >= 1 && AllDigits(s)
    decreases n
  {
    if n < 10 then [DigitChar(n)] else NatToString(n / 10) + [DigitChar(n % 10)]
  }

  function IntToString(i: int): string
  {
    if i < 0 then "-" + NatToString(-i) else NatToString(i)
  }

  lemma {:induction false} NatToStringValue(n: nat)
    ensures DigitsValue(NatToString(n)) == n
    decreases n
  {
    if n >= 10 {
      NatToStringValue(n / 10);
      var s := NatToString(n);
      assert s[..|s| - 1] == NatToString(n / 10);
    }
  }

  /** Rust's `str::parse` for a fixed-width integer type whose values are
      `lo..=hi`: an optional `+` (or `-` when the type is signed), then at
      least one ASCII digit, and nothing else; the value must fit. */
  function ParseInteger(s: string, signed: bool, lo: int, hi: int): (r: Option<int>)
    ensures r.Some? ==> lo <= r.value <= hi
  {
    if s == [] then None
    else if (s[0] == '+' || s[0] == '-') && |s| == 1 then None
    else
      var negative := signed && s[0] == '-';
      var digits := if s[0] == '+' || negative then s[1..] else s;
      if !AllDigits(digits) then None
      else
        var v: int := if negative then 0 - DigitsValue(digits) else DigitsValue(digits);
        if lo <= v <= hi then Some(v) else None
  }

  const I32_MIN: int := -0x8000_0000
  const I32_MAX: int := 0x7FFF_FFFF
  const U32_MAX: int := 0xFFFF_FFFF

  /** `s.parse::<i32>()`. */
  function ParseI32(s: string): Option<int>
  {
    ParseInteger(s, true, I32_MIN, I32_MAX)
  }

  /** `s.parse::<u32>()`. */
  function ParseU32(s: string): Option<int>
  {
    ParseInteger(s, false, 0, U32_MAX)
  }

  /** Parsing undoes decimal formatting for every `i32`. */
  lemma ParseI32OfIntToString(n: int)
    requires I32_MIN <= n <= I32_MAX
    ensures ParseI32(IntToString(n)) == Some(n)
  {
    if n < 0 {
      NatToStringValue(-n);
      assert ("-" + NatToString(-n))[1..] == NatToString(-n);
    } else {
      NatToStringValue(n);
    }
  }

  // ---------------------------------------------------------------------
  // Hexadecimal numbers

  predicate IsUpperHex(c: char)
  {
    '0' <= c <= '9' || 'A' <= c <= 'F'
  }

  function HexDigit(d: nat): (c: char)
    requires d < 16
    ensures IsUpperHex(c)
  {
    if d < 10 then (('0' as int) + d) as char else (('A' as int) + d - 10) as char
  }

  function HexValue(c: char): (d: nat)
    requires IsUpperHex(c)
    ensures d < 16
  {
    if c <= '9' then (c as int) - ('0' as int) else (c as int) - ('A' as int) + 10
  }

  function Pow16(k: nat): (p: nat)
    ensures p >= 1
  {
    if k == 0 then 1 else 16 * Pow16(k - 1)
  }

  lemma Pow16Four()
    ensures Pow16(4) == 65536
  {
  }

  /** `n` in exactly `width` upper-case hexadecimal digits, padded with
      zeros (Rust's `{:0<width>X}`), for `n` that fits. */
  function HexFixed(n: nat, width: nat): (s: string)
    requires n < Pow16(width)
    ensures |s| == width && forall i :: 0 <= i < |s| ==> IsUpperHex(s[i])
  {
    if width == 0 then [] else HexFixed(n / 16, width - 1) + [HexDigit(n % 16)]
  }

  /** The value of a string of upper-case hexadecimal digits. */
  function HexDigitsValue(s: string): nat
    requires forall i :: 0 <= i < |s| ==> IsUpperHex(s[i])
  {
    if s == [] then 0 else HexDigitsValue(s[..|s| - 1]) * 16 + HexValue(s[|s| - 1])
  }

  lemma {:induction false} HexFixedValue(n: nat, width: nat)
    requires n < Pow16(width)
    ensures HexDigitsValue(HexFixed(n, width)) == n
  {
    if width > 0 {
      HexFixedValue(n / 16, width - 1);
      var s := HexFixed(n, width);
      assert s[..|s| - 1] == HexFixed(n / 16, width - 1);
      assert HexValue(HexDigit(n % 16)) == n % 16;
    }
  }
}
