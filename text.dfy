/** The operations of Python's `str` type that the converters use, on `seq<char>`. */
module Text {

  /** `s.startswith(prefix)` */
  predicate StartsWith(s: string, prefix: string) {
    |prefix| <= |s| && s[..|prefix|] == prefix
  }

  /** `s.endswith(suffix)` */
  predicate EndsWith(s: string, suffix: string) {
    |suffix| <= |s| && s[|s| - |suffix|..] == suffix
  }

  /** `t in s`: some position of `s` starts a copy of `t`. */
  predicate Contains(s: string, t: string)
    decreases |s|
  {
    StartsWith(s, t) || (s != [] && Contains(s[1..], t))
  }

  /** The characters for which Python's `str.isspace()` holds: the ones `str.strip()` removes. */
  predicate IsSpace(c: char) {
    || c == ' '
    || ('\t' <= c <= '\r')
    || ('\U{1C}' <= c <= '\U{1F}')
    || c == '\U{85}' || c == '\U{A0}' || c == '\U{1680}'
    || ('\U{2000}' <= c <= '\U{200A}')
    || c == '\U{2028}' || c == '\U{2029}' || c == '\U{202F}' || c == '\U{205F}' || c == '\U{3000}'
  }

  function StripLeft(s: string): (r: string)
    ensures r == [] || !IsSpace(r[0])
    ensures |r| <= |s| && r == s[|s| - |r|..]
    ensures forall i :: 0 <= i < |s| - |r| ==> IsSpace(s[i])
  {
    if s != [] && IsSpace(s[0]) then StripLeft(s[1..]) else s
  }

  function StripRight(s: string): (r: string)
    ensures r == [] || !IsSpace(r[|r| - 1])
    ensures |r| <= |s| && r == s[..|r|]
    ensures forall i :: |r| <= i < |s| ==> IsSpace(s[i])
  {
    if s != [] && IsSpace(s[|s| - 1]) then StripRight(s[..|s| - 1]) else s
  }

  /** `r` is the part of `s` starting at `i`, with only white space around it. */
  predicate StrippedAt(s: string, i: nat, r: string) {
    && i + |r| <= |s| && s[i..i + |r|] == r
    && (forall k :: 0 <= k < i ==> IsSpace(s[k]))
    && (forall k :: i + |r| <= k < |s| ==> IsSpace(s[k]))
  }

  /** `s.strip()`: the longest middle part without white space at either end. */
  function Strip(s: string): (r: string)
    ensures r == [] || (!IsSpace(r[0]) && !IsSpace(r[|r| - 1]))
    ensures |r| <= |s|
    ensures exists i: nat :: StrippedAt(s, i, r)
  {
    StrippedInTwoSteps(s, StripLeft(s), StripRight(StripLeft(s)));
    StripRight(StripLeft(s))
  }

  /** Stripping the front and then the back leaves a part of `s` with only white space around it. */
  lemma StrippedInTwoSteps(s: string, left: string, r: string)
    requires |left| <= |s| && left == s[|s| - |left|..]
    requires forall k :: 0 <= k < |s| - |left| ==> IsSpace(s[k])
    requires |r| <= |left| && r == left[..|r|]
    requires forall k :: |r| <= k < |left| ==> IsSpace(left[k])
    ensures StrippedAt(s, |s| - |left|, r)
  {
    var i := |s| - |left|;
    assert s[i..i + |r|] == r;
    forall k | i + |r| <= k < |s|
      ensures IsSpace(s[k])
    {
      assert s[k] == left[k - i];
    }
  }


  /** A text that neither starts nor ends with whitespace is its own `strip()`. */
  lemma StripKeeps(s: string)
    requires s == [] || (!IsSpace(s[0]) && !IsSpace(s[|s| - 1]))
    ensures Strip(s) == s
  {
    assert StripLeft(s) == s;
    assert StripRight(s) == s;
  }

  /** `s.replace(c, with)` for a one-character pattern `c`. */
  function ReplaceChar(s: string, c: char, with: string): string {
    if s == [] then []
    else (if s[0] == c then with else [s[0]]) + ReplaceChar(s[1..], c, with)
  }

  /** Replacing one character by one other character changes exactly those positions. */
  lemma {:induction false} ReplaceCharPointwise(s: string, c: char, d: char)
    ensures |ReplaceChar(s, c, [d])| == |s|
    ensures forall i :: 0 <= i < |s| ==> ReplaceChar(s, c, [d])[i] == (if s[i] == c then d else s[i])
  {
    if s != [] {
      ReplaceCharPointwise(s[1..], c, d);
    }
  }

  /** `sep.join(parts)` */
  function Join(parts: seq<string>, sep: string): string {
    if parts == [] then ""
    else if |parts| == 1 then parts[0]
    else parts[0] + sep + Join(parts[1..], sep)
  }

  /** Number of occurrences of `c` in `s`: `s.count(c)` for a one-character `c`. */
  function CountChar(s: string, c: char): nat {
    if s == [] then 0 else (if s[0] == c then 1 else 0) + CountChar(s[1..], c)
  }

  /** A character that is counted occurs. */
  lemma {:induction false} CountCharOccurs(s: string, c: char)
    requires CountChar(s, c) > 0
    ensures c in s
  {
    if s[0] != c {
      CountCharOccurs(s[1..], c);
    }
  }

  /** `s.split(c)` for a one-character separator `c`. */
  function Split(s: string, c: char): (parts: seq<string>)
    ensures |parts| == CountChar(s, c) + 1
  {
    if s == [] then [""]
    else
      var rest := Split(s[1..], c);
      if s[0] == c then [""] + rest else [[s[0]] + rest[0]] + rest[1..]
  }

  /** Splitting and joining again with the same separator gives back the text, and no piece holds the separator. */
  lemma {:induction false} SplitJoin(s: string, c: char)
    ensures Join(Split(s, c), [c]) == s
    ensures forall i :: 0 <= i < |Split(s, c)| ==> c !in Split(s, c)[i]
  {
    if s != [] {
      SplitJoin(s[1..], c);
      var rest := Split(s[1..], c);
      if s[0] == c {
        assert Join([""] + rest, [c]) == "" + [c] + Join(rest, [c]);
      } else {
        var parts := [[s[0]] + rest[0]] + rest[1..];
        if |rest| == 1 {
          assert parts == [[s[0]] + rest[0]];
        } else {
          assert parts[1..] == rest[1..];
          assert Join(rest, [c]) == rest[0] + [c] + Join(rest[1..], [c]);
        }
      }
    }
  }

  /** The text before the first `c` and the text after it: `s.split(c, 1)` when `c` occurs. */
  function SplitFirst(s: string, c: char): (r: (string, string))
    requires c in s
    ensures r.0 + [c] + r.1 == s && c !in r.0
    ensures CountChar(s, c) == CountChar(r.1, c) + 1
  {
    if s[0] == c then ("", s[1..])
    else
      var (a, b) := SplitFirst(s[1..], c);
      assert s == [s[0]] + s[1..];
      ([s[0]] + a, b)
  }

  /** `s.split(c, 1)` agrees with the first piece of `s.split(c)`. */
  lemma {:induction false} SplitFirstIsFirstPiece(s: string, c: char)
    requires c in s
    ensures SplitFirst(s, c).0 == Split(s, c)[0]
    ensures Split(SplitFirst(s, c).1, c) == Split(s, c)[1..]
  {
    if s[0] != c {
      SplitFirstIsFirstPiece(s[1..], c);
    }
  }

  /** Lower-cases the ASCII letters `A`-`Z` and keeps every other character. */
  function AsciiLower(s: string): (r: string)
    ensures |r| == |s|
  {
    if s == [] then []
    else [if 'A' <= s[0] <= 'Z' then (s[0] as int + 32) as char else s[0]] + AsciiLower(s[1..])
  }

  function DigitChar(d: nat): char
    requires d < 10
  {
    "0123456789"[d]
  }

  function NatToDecimal(n: nat): (r: string)
    ensures |r| >= 1
    decreases n
  {
    if n < 10 then [DigitChar(n)] else NatToDecimal(n / 10) + [DigitChar(n % 10)]
  }

  /** `str(n)` for a Python int. */
  function IntToDecimal(n: int): string {
    if n < 0 then "-" + NatToDecimal(-n) else NatToDecimal(n)
  }

  /** Python's `<` on strings: lexicographic by code point, a proper prefix first. */
  predicate Less(a: string, b: string)
    decreases |a|
  {
    if a == [] then b != []
    else b != [] && (a[0] < b[0] || (a[0] == b[0] && Less(a[1..], b[1..])))
  }

  lemma {:induction false} LessIrreflexive(a: string)
    ensures !Less(a, a)
  {
    if a != [] {
      LessIrreflexive(a[1..]);
    }
  }

  lemma {:induction false} LessTransitive(a: string, b: string, c: string)
    requires Less(a, b) && Less(b, c)
    ensures Less(a, c)
    decreases |a|
  {
    if a != [] && a[0] == b[0] && b[0] == c[0] {
      LessTransitive(a[1..], b[1..], c[1..]);
    }
  }

  lemma {:induction false} LessTotal(a: string, b: string)
    requires a != b
    ensures Less(a, b) || Less(b, a)
    decreases |a|
  {
    if a != [] && b != [] && a[0] == b[0] {
      assert a[1..] != b[1..] by {
        assert a == [a[0]] + a[1..] && b == [b[0]] + b[1..];
      }
      LessTotal(a[1..], b[1..]);
    }
  }

  lemma {:induction false} LessAsymmetric(a: string, b: string)
    requires Less(a, b)
    ensures !Less(b, a)
    decreases |a|
  {
    if a != [] && a[0] == b[0] {
      LessAsymmetric(a[1..], b[1..]);
    }
  }

  /** `s.replace("'", "''")`: every single quote doubled, as a DBML string literal needs. */
  function DoubleQuotes(s: string): string {
    ReplaceChar(s, '\'', "''")
  }

  /** Reads a doubled-quote literal back: each `''` stands for one `'`. */
  function UndoubleQuotes(s: string): string
    decreases |s|
  {
    if |s| >= 2 && s[0] == '\'' && s[1] == '\'' then "'" + UndoubleQuotes(s[2..])
    else if s == [] then []
    else [s[0]] + UndoubleQuotes(s[1..])
  }

  /** Doubling the quotes loses nothing: reading the literal back gives the original text. */
  lemma {:induction false} UndoubleAfterDouble(s: string)
    ensures UndoubleQuotes(DoubleQuotes(s)) == s
  {
    if s != [] {
      UndoubleAfterDouble(s[1..]);
      if s[0] == '\'' {
        assert DoubleQuotes(s) == "''" + DoubleQuotes(s[1..]);
        assert DoubleQuotes(s)[2..] == DoubleQuotes(s[1..]);
      } else {
        assert DoubleQuotes(s) == [s[0]] + DoubleQuotes(s[1..]);
        assert DoubleQuotes(s)[1..] == DoubleQuotes(s[1..]);
      }
    }
  }

  /** Read from left to right, each single quote of `t` is the first of a `''` pair, so none ends a `'...'` literal. */
  predicate QuotesPaired(t: string)
    decreases |t|
  {
    if t == [] then true
    else if t[0] == '\'' then |t| >= 2 && t[1] == '\'' && QuotesPaired(t[2..])
    else QuotesPaired(t[1..])
  }

  /** A doubled-quote text can sit between single quotes: its quotes come in pairs. */
  lemma {:induction false} DoubledQuotesPaired(s: string)
    ensures QuotesPaired(DoubleQuotes(s))
    decreases |s|
  {
    if s != [] {
      DoubledQuotesPaired(s[1..]);
      var d := DoubleQuotes(s[1..]);
      if s[0] == '\'' {
        assert DoubleQuotes(s) == "''" + d;
        assert DoubleQuotes(s)[2..] == d;
      } else {
        assert DoubleQuotes(s) == [s[0]] + d;
        assert DoubleQuotes(s)[1..] == d;
      }
    }
  }

  /** `s.replace('"', '\\"')`: every double quote preceded by a backslash. */
  function EscapeDoubleQuotes(s: string): string {
    ReplaceChar(s, '"', "\\\"")
  }

  /** Reads an escaped literal back: each `\"` stands for one `"`. */
  function UnescapeDoubleQuotes(s: string): string
    decreases |s|
  {
    if |s| >= 2 && s[0] == '\\' && s[1] == '"' then "\"" + UnescapeDoubleQuotes(s[2..])
    else if s == [] then []
    else [s[0]] + UnescapeDoubleQuotes(s[1..])
  }

  lemma {:induction false} EscapedDoesNotStartWithQuote(s: string)
    ensures EscapeDoubleQuotes(s) == [] || EscapeDoubleQuotes(s)[0] != '"'
  {
  }

  /** A text without a double quote is its own escape. */
  lemma {:induction false} EscapeWithoutQuotes(s: string)
    requires '"' !in s
    ensures EscapeDoubleQuotes(s) == s
    decreases |s|
  {
    if s != [] {
      assert '"' !in s[1..] by {
        assert forall k :: 0 <= k < |s[1..]| ==> s[1..][k] == s[k + 1];
      }
      EscapeWithoutQuotes(s[1..]);
      assert s == [s[0]] + s[1..];
    }
  }

  /** Every double quote of `t` is preceded by a backslash. */
  predicate QuotesEscaped(t: string) {
    forall k :: 0 <= k < |t| && t[k] == '"' ==> k > 0 && t[k - 1] == '\\'
  }

  /** An escaped text can sit between double quotes: each of its double quotes follows a backslash. */
  lemma {:induction false} EscapedQuotesPreceded(s: string)
    ensures QuotesEscaped(EscapeDoubleQuotes(s))
    decreases |s|
  {
    if s != [] {
      EscapedQuotesPreceded(s[1..]);
      EscapedDoesNotStartWithQuote(s[1..]);
      var e := EscapeDoubleQuotes(s[1..]);
      var h := if s[0] == '"' then "\\\"" else [s[0]];
      assert EscapeDoubleQuotes(s) == h + e;
      forall k | 0 <= k < |h + e| && (h + e)[k] == '"'
        ensures k > 0 && (h + e)[k - 1] == '\\'
      {
        if k >= |h| {
          assert (h + e)[k] == e[k - |h|];
          if k > |h| {
            assert (h + e)[k - 1] == e[k - 1 - |h|];
          }
        }
      }
    }
  }

  /** Escaping loses nothing: unescaping the escaped text gives the original text back. */
  lemma {:induction false} UnescapeAfterEscape(s: string)
    ensures UnescapeDoubleQuotes(EscapeDoubleQuotes(s)) == s
  {
    if s != [] {
      UnescapeAfterEscape(s[1..]);
      var e := EscapeDoubleQuotes(s[1..]);
      if s[0] == '"' {
        assert EscapeDoubleQuotes(s) == "\\\"" + e;
        assert EscapeDoubleQuotes(s)[2..] == e;
      } else {
        assert EscapeDoubleQuotes(s) == [s[0]] + e;
        assert EscapeDoubleQuotes(s)[1..] == e;
        EscapedDoesNotStartWithQuote(s[1..]);
      }
    }
  }
}
