/** The JavaScript string built-ins the core relies on: `trim`, `substring(0, n)`
    and `toLowerCase`, over strings as sequences of Unicode characters (`seq<char>`). */
module JsText {

  /** The characters `String.prototype.trim` strips: ECMAScript WhiteSpace
      (tab, vertical tab, form feed, space, no-break space, byte order mark and
      the Unicode space separators) and LineTerminator (LF, CR, U+2028, U+2029). */
  predicate IsWhitespace(c: char)
  {
    || c == '\t' || c == '\n' || c == '\U{B}' || c == '\U{C}' || c == '\r'
    || c == ' ' || c == '\U{A0}' || c == '\U{1680}'
    || ('\U{2000}' <= c <= '\U{200A}')
    || c == '\U{2028}' || c == '\U{2029}' || c == '\U{202F}' || c == '\U{205F}'
    || c == '\U{3000}' || c == '\U{FEFF}'
  }

  predicate AllWhitespace(s: string)
  {
    forall i :: 0 <= i < |s| ==> IsWhitespace(s[i])
  }

  /** `s` with its leading whitespace removed. */
  function TrimStart(s: string): string
  {
    if |s| > 0 && IsWhitespace(s[0]) then TrimStart(s[1..]) else s
  }

  /** `s` with its trailing whitespace removed. */
  function TrimEnd(s: string): string
  {
    if |s| > 0 && IsWhitespace(s[|s| - 1]) then TrimEnd(s[..|s| - 1]) else s
  }

  /** `TrimStart` removes a leading run of whitespace and nothing else: what it
      keeps is a suffix that does not start with whitespace. */
  lemma {:induction false} TrimStartShape(s: string)
    ensures |TrimStart(s)| <= |s|
    ensures TrimStart(s) == s[|s| - |TrimStart(s)|..]
    ensures AllWhitespace(s[..|s| - |TrimStart(s)|])
    ensures |TrimStart(s)| > 0 ==> !IsWhitespace(TrimStart(s)[0])
  {
    if |s| > 0 && IsWhitespace(s[0]) {
      TrimStartShape(s[1..]);
      var k := |s| - |TrimStart(s)|;
      assert s[..k] == [s[0]] + s[1..][..k - 1];
    }
  }

  /** `TrimEnd` removes a trailing run of whitespace and nothing else: what it keeps
      is a prefix that does not end with whitespace. */
  lemma {:induction false} TrimEndShape(s: string)
    ensures |TrimEnd(s)| <= |s|
    ensures TrimEnd(s) == s[..|TrimEnd(s)|]
    ensures AllWhitespace(s[|TrimEnd(s)|..])
    ensures |TrimEnd(s)| > 0 ==> !IsWhitespace(TrimEnd(s)[|TrimEnd(s)| - 1])
  {
    if |s| > 0 && IsWhitespace(s[|s| - 1]) {
      TrimEndShape(s[..|s| - 1]);
      var k := |TrimEnd(s)|;
      assert s[k..] == s[..|s| - 1][k..] + [s[|s| - 1]];
    }
  }

  /** `String.prototype.trim`. */
  function Trim(s: string): string
  {
    TrimStart(TrimEnd(s))
  }

  /** `s.substring(0, n)` for `n >= 0`: an end past the string is clamped to its length. */
  function Prefix(s: string, n: nat): (r: string)
    ensures |r| == if n <= |s| then n else |s|
  {
    if n <= |s| then s[..n] else s
  }

  /** `toLowerCase` restricted to ASCII letters; every other character is kept. */
  function LowerChar(c: char): char
  {
    if 'A' <= c <= 'Z' then (c as int + 32) as char else c
  }

  function Lower(s: string): (r: string)
    ensures |r| == |s|
    ensures forall i :: 0 <= i < |s| ==> r[i] == LowerChar(s[i])
  {
    seq(|s|, i requires 0 <= i < |s| => LowerChar(s[i]))
  }

  /** `toUpperCase` restricted to ASCII letters. */
  function UpperChar(c: char): char
  {
    if 'a' <= c <= 'z' then (c as int - 32) as char else c
  }

  function Upper(s: string): (r: string)
    ensures |r| == |s|
    ensures forall i :: 0 <= i < |s| ==> r[i] == UpperChar(s[i])
  {
    seq(|s|, i requires 0 <= i < |s| => UpperChar(s[i]))
  }

  /** `s.padStart(n, c)` for a one-character pad. */
  function PadStart(s: string, n: nat, c: char): (r: string)
    ensures |r| == if |s| >= n then |s| else n
    ensures r[|r| - |s|..] == s
    ensures forall i :: 0 <= i < |r| - |s| ==> r[i] == c
  {
    if |s| >= n then s else seq(n - |s|, _ => c) + s
  }

  const HexDigits: string := "0123456789abcdef"

  /** The digits of `Number.prototype.toString(16)` for a non-negative integer. */
  function ToHex(n: nat): (r: string)
    ensures |r| > 0
  {
    if n < 16 then [HexDigits[n]]
    else ToHex(n / 16) + [HexDigits[n % 16]]
  }

  /** Trimming is insensitive to extra whitespace added around the input. */
  lemma TrimPadded(ws1: string, s: string, ws2: string)
    requires AllWhitespace(ws1) && AllWhitespace(ws2)
    ensures Trim(ws1 + s + ws2) == Trim(s)
  {
    TrimEndPadded(ws1 + s, ws2);
    assert (ws1 + s + ws2)[..|ws1 + s|] == ws1 + s;
    TrimEndPrefixWs(ws1, s);
    TrimStartPadded(ws1, TrimEnd(s));
  }

  lemma {:induction false} TrimEndPadded(s: string, ws: string)
    requires AllWhitespace(ws)
    ensures TrimEnd(s + ws) == TrimEnd(s)
    decreases |ws|
  {
    if |ws| > 0 {
      var t := s + ws;
      assert t[|t| - 1] == ws[|ws| - 1];
      assert t[..|t| - 1] == s + ws[..|ws| - 1];
      TrimEndPadded(s, ws[..|ws| - 1]);
    } else {
      assert s + ws == s;
    }
  }

  /** Leading whitespace is never removed by `TrimEnd` unless the whole rest is blank. */
  lemma TrimEndPrefixWs(ws: string, s: string)
    requires AllWhitespace(ws)
    ensures TrimStart(TrimEnd(ws + s)) == TrimStart(ws + TrimEnd(s))
  {
    if TrimEnd(s) == "" {
      AllWhitespaceAppend(ws, s);
      TrimEndAllWs(ws + s);
      assert ws + TrimEnd(s) == ws;
      TrimStartAllWs(ws);
    } else {
      TrimEndKeepsPrefix(ws, s);
    }
  }

  lemma AllWhitespaceAppend(ws: string, s: string)
    requires AllWhitespace(ws) && TrimEnd(s) == ""
    ensures AllWhitespace(ws + s)
  {
    TrimEndShape(s);
    assert s[|TrimEnd(s)|..] == s;
  }

  lemma {:induction false} TrimEndKeepsPrefix(ws: string, s: string)
    requires TrimEnd(s) != ""
    ensures TrimEnd(ws + s) == ws + TrimEnd(s)
    decreases |s|
  {
    var t := ws + s;
    assert t[|t| - 1] == s[|s| - 1];
    if IsWhitespace(s[|s| - 1]) {
      assert t[..|t| - 1] == ws + s[..|s| - 1];
      TrimEndKeepsPrefix(ws, s[..|s| - 1]);
    }
  }

  lemma {:induction false} TrimEndAllWs(ws: string)
    requires AllWhitespace(ws)
    ensures TrimEnd(ws) == ""
    decreases |ws|
  {
    if |ws| > 0 {
      TrimEndAllWs(ws[..|ws| - 1]);
    }
  }

  lemma {:induction false} TrimStartAllWs(ws: string)
    requires AllWhitespace(ws)
    ensures TrimStart(ws) == ""
    decreases |ws|
  {
    if |ws| > 0 {
      TrimStartAllWs(ws[1..]);
    }
  }

  lemma {:induction false} TrimStartPadded(ws: string, s: string)
    requires AllWhitespace(ws)
    ensures TrimStart(ws + s) == TrimStart(s)
    decreases |ws|
  {
    if |ws| > 0 {
      assert (ws + s)[1..] == ws[1..] + s;
      TrimStartPadded(ws[1..], s);
    } else {
      assert ws + s == s;
    }
  }
}
