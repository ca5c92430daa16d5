/** The extensions catalog: a file of names and one-line texts, written as YAML and read back
    by a parser of its own. */
module Catalog {
  import opened Wrappers

  // ---------------------------------------------------------------- characters and lines

  /** What ends a line for `splitlines`. */
  predicate IsLineBreak(c: char) {
    var n := c as int;
    10 <= n <= 13 || 0x1c <= n <= 0x1e || n == 0x85 || n == 0x2028 || n == 0x2029
  }

  /** What `strip` removes. */
  predicate IsSpace(c: char) {
    var n := c as int;
    IsLineBreak(c) || n == 9 || n == 0x1f || n == 32 || n == 0xa0 || n == 0x1680 || 0x2000 <= n <= 0x200a ||
    n == 0x202f || n == 0x205f || n == 0x3000
  }

  function Lstrip(s: string): string {
    if s != "" && IsSpace(s[0]) then Lstrip(s[1..]) else s
  }

  function Rstrip(s: string): string {
    if s != "" && IsSpace(s[|s| - 1]) then Rstrip(s[..|s| - 1]) else s
  }

  function Strip(s: string): string {
    Rstrip(Lstrip(s))
  }

  predicate Trimmed(s: string) {
    s == "" || (!IsSpace(s[0]) && !IsSpace(s[|s| - 1]))
  }

  lemma {:induction false} LstripLeavesNoSpace(s: string)
    ensures Lstrip(s) == "" || !IsSpace(Lstrip(s)[0])
    ensures forall c :: c in Lstrip(s) ==> c in s
  {
    if s != "" && IsSpace(s[0]) {
      LstripLeavesNoSpace(s[1..]);
    }
  }

  lemma {:induction false} RstripIsPrefix(s: string)
    ensures Rstrip(s) <= s && (Rstrip(s) == "" || !IsSpace(Rstrip(s)[|Rstrip(s)| - 1]))
  {
    if s != "" && IsSpace(s[|s| - 1]) {
      RstripIsPrefix(s[..|s| - 1]);
    }
  }

  lemma StripTrims(s: string)
    ensures Trimmed(Strip(s)) && (Trimmed(s) <==> Strip(s) == s)
    ensures forall c :: c in Strip(s) ==> c in s
  {
    LstripLeavesNoSpace(s);
    RstripIsPrefix(Lstrip(s));
  }

  lemma StripUnpads(s: string)
    ensures Strip(" " + s) == Strip(s)
  {
    assert (" " + s)[1..] == s;
  }

  function NextBreak(s: string): (n: nat)
    ensures n <= |s| && (n < |s| ==> IsLineBreak(s[n]))
    ensures forall i :: 0 <= i < n ==> !IsLineBreak(s[i])
  {
    if s == "" || IsLineBreak(s[0]) then 0 else
      var n := NextBreak(s[1..]);
      assert forall i :: 1 <= i < n + 1 ==> s[i] == s[1..][i - 1];
      n + 1
  }

  function Lines(s: string): seq<string> {
    if s == "" then []
    else
      var n := NextBreak(s);
      if n == |s| then [s]
      else if n + 1 < |s| && s[n] == '\r' && s[n + 1] == '\n' then [s[..n]] + Lines(s[n + 2..])
      else [s[..n]] + Lines(s[n + 1..])
  }

  predicate OneLine(s: string) {
    forall i :: 0 <= i < |s| ==> !IsLineBreak(s[i])
  }

  function Text(lines: seq<string>): string {
    if lines == [] then "" else lines[0] + "\n" + Text(lines[1..])
  }

  lemma BreakAfterLine(line: string, rest: string)
    requires OneLine(line)
    ensures NextBreak(line + "\n" + rest) == |line|
  {
    var s := line + "\n" + rest;
    assert s[|line|] == '\n' && forall i :: 0 <= i < |line| ==> s[i] == line[i];
  }

  lemma LinesStep(line: string, rest: string)
    requires OneLine(line)
    ensures Lines(line + "\n" + rest) == [line] + Lines(rest)
  {
    var s := line + "\n" + rest;
    BreakAfterLine(line, rest);
    assert s[|line|] == '\n' && s[..|line|] == line && s[|line| + 1..] == rest;
  }

  lemma {:induction false} LinesOfText(lines: seq<string>)
    requires forall l :: l in lines ==> OneLine(l)
    ensures Lines(Text(lines)) == lines
  {
    if lines != [] {
      assert lines[0] in lines;
      LinesStep(lines[0], Text(lines[1..]));
      LinesOfText(lines[1..]);
    }
  }

  // ---------------------------------------------------------------- JSON strings

  function HexDigit(n: nat): char
    requires n < 16
  {
    if n < 10 then ('0' as int + n) as char else ('a' as int + n - 10) as char
  }

  function FromHex(c: char): (r: Option<nat>)
    ensures r.Some? ==> r.value < 16
  {
    if '0' <= c <= '9' then Some(c as int - '0' as int)
    else if 'a' <= c <= 'f' then Some(c as int - 'a' as int + 10)
    else if 'A' <= c <= 'F' then Some(c as int - 'A' as int + 10)
    else None
  }

  /** One character inside a JSON string. */
  function EscapeChar(c: char): string {
    if c == '"' then "\\\""
    else if c == '\\' then "\\\\"
    else if c == '\n' then "\\n"
    else if c == '\r' then "\\r"
    else if c == '\t' then "\\t"
    else if c as int == 12 then "\\f"
    else if c as int == 8 then "\\b"
    else if c as int < 32 then ['\\', 'u', '0', '0', HexDigit(c as int / 16), HexDigit(c as int % 16)]
    else [c]
  }

  function Escape(s: string): string {
    if s == "" then "" else EscapeChar(s[0]) + Escape(s[1..])
  }

  /** The character a backslash and `c` stand for. */
  function Escaped(c: char): Option<char> {
    if c == '"' || c == '\\' || c == '/' then Some(c)
    else if c == 'n' then Some('\n')
    else if c == 'r' then Some('\r')
    else if c == 't' then Some('\t')
    else if c == 'f' then Some(12 as char)
    else if c == 'b' then Some(8 as char)
    else None
  }

  /** Four hexadecimal digits; halves of surrogate pairs are not modelled. */
  function FourDigits(s: string): Option<char>
    requires |s| == 4
  {
    match (FromHex(s[0]), FromHex(s[1]), FromHex(s[2]), FromHex(s[3]))
    case (Some(a), Some(b), Some(c), Some(d)) =>
      var n := a * 4096 + b * 256 + c * 16 + d;
      if 0xd800 <= n < 0xe000 then None else Some(n as char)
    case _ => None
  }

  datatype Scanned = Scanned(c: char, length: nat) | Malformed

  /** The first character of a non-empty JSON string body, and how much of it that takes. */
  function Scan(s: string): (r: Scanned)
    requires s != ""
    ensures r.Scanned? ==> 1 <= r.length <= |s|
  {
    if s[0] == '"' || s[0] as int < 32 then Malformed
    else if s[0] != '\\' then Scanned(s[0], 1)
    else if |s| == 1 then Malformed
    else if s[1] == 'u' then
      if |s| < 6 then Malformed
      else (match FourDigits(s[2..6]) case Some(c) => Scanned(c, 6) case None => Malformed)
    else (match Escaped(s[1]) case Some(c) => Scanned(c, 2) case None => Malformed)
  }

  /** `None` is an error. */
  function Unescape(s: string): Option<string>
    decreases |s|
  {
    if s == "" then Some("")
    else
      match Scan(s)
      case Malformed => None
      case Scanned(c, n) => (match Unescape(s[n..]) case Some(rest) => Some([c] + rest) case None => None)
  }

  lemma HexDigitsComeBack(n: nat)
    requires n < 16
    ensures FromHex(HexDigit(n)) == Some(n)
  {
  }

  lemma ScanEscaped(c: char, rest: string)
    ensures Scan(EscapeChar(c) + rest) == Scanned(c, |EscapeChar(c)|)
  {
    var e := EscapeChar(c);
    var s := e + rest;
    assert forall i :: 0 <= i < |e| ==> s[i] == e[i];
    if |e| == 6 {
      HexDigitsComeBack(c as int / 16);
      HexDigitsComeBack(c as int % 16);
      assert s[2..6] == e[2..6];
      assert FromHex('0') == Some(0);
    }
  }

  /** Whatever the text, its JSON form reads back as the text. */
  lemma {:induction false} UnescapeUndoesEscape(s: string)
    ensures Unescape(Escape(s)) == Some(s)
  {
    if s != "" {
      var e := EscapeChar(s[0]);
      ScanEscaped(s[0], Escape(s[1..]));
      assert (e + Escape(s[1..]))[|e|..] == Escape(s[1..]);
      UnescapeUndoesEscape(s[1..]);
      assert [s[0]] + s[1..] == s;
    }
  }

  lemma HexDigitIsPlain(n: nat)
    requires n < 16
    ensures HexDigit(n) != '#' && !IsLineBreak(HexDigit(n))
  {
  }

  lemma EscapeCharIsPlain(c: char)
    ensures '#' in EscapeChar(c) <==> c == '#'
    ensures c == '\n' || !IsLineBreak(c) ==> OneLine(EscapeChar(c))
    ensures '\\' !in EscapeChar(c) ==> EscapeChar(c) == [c]
  {
    if c as int < 32 {
      HexDigitIsPlain(c as int / 16);
      HexDigitIsPlain(c as int % 16);
    }
  }

  lemma {:induction false} EscapeIsPlain(s: string)
    ensures '#' in Escape(s) <==> '#' in s
    ensures (forall i :: 0 <= i < |s| && IsLineBreak(s[i]) ==> s[i] == '\n') ==> OneLine(Escape(s))
    ensures '\\' !in Escape(s) ==> Escape(s) == s
  {
    if s != "" {
      EscapeCharIsPlain(s[0]);
      EscapeIsPlain(s[1..]);
      assert s == [s[0]] + s[1..];
      if OneLine(EscapeChar(s[0])) && OneLine(Escape(s[1..])) {
        OneLineAppend(EscapeChar(s[0]), Escape(s[1..]));
      }
    }
  }

  // ---------------------------------------------------------------- scalars

  const QUOTE := '"'
  const LEADING := "-?:,[]{}#&*!|>'\"%@`"

  predicate Contains(s: string, part: string) {
    exists i :: 0 <= i <= |s| && part <= s[i..]
  }

  /** A value that YAML would read as itself; `lower` is the library's lower-casing. */
  predicate IsPlain(v: string, lower: string -> string) {
    && v != "" && lower(v) !in {"null", "~", "true", "false"}
    && '\n' !in v && !Contains(v, ": ") && !Contains(v, " #") && v[|v| - 1] != ':'
    && v[0] !in LEADING
  }

  function RenderYamlScalar(v: string, lower: string -> string): string {
    if IsPlain(v, lower) then v else [QUOTE] + Escape(v) + [QUOTE]
  }

  /** `a` stands at `i` and `b` behind it. */
  predicate PairAt(s: string, i: int, a: char, b: char) {
    0 <= i < |s| - 1 && s[i] == a && s[i + 1] == b
  }

  lemma ContainsPairIff(s: string, a: char, b: char)
    ensures Contains(s, [a, b]) <==> exists i :: PairAt(s, i, a, b)
  {
    if Contains(s, [a, b]) {
      var i :| 0 <= i <= |s| && [a, b] <= s[i..];
      assert s[i..][0] == a && s[i..][1] == b;
      assert PairAt(s, i, a, b);
    }
    if i :| PairAt(s, i, a, b) {
      assert s[i..][..2] == [a, b];
    }
  }

  /** A text goes without quotes exactly when it is no YAML word of its own, starts with none
      of YAML's indicators, has only colons that something follows which is no blank, no
      `#` behind a blank, and no line feed. */
  lemma UnquotedExactlyWhen(v: string, lower: string -> string)
    ensures RenderYamlScalar(v, lower)[..1] != "\"" <==>
              && v != "" && v[0] !in "-?:,[]{}#&*!|>'\"%@`"
              && lower(v) != "null" && lower(v) != "~" && lower(v) != "true" && lower(v) != "false"
              && v[|v| - 1] != ':' && '\n' !in v
              && forall i :: !PairAt(v, i, ':', ' ') && !PairAt(v, i, ' ', '#')
  {
    ContainsPairIff(v, ':', ' ');
    ContainsPairIff(v, ' ', '#');
    assert LEADING[15] == '"' && '"' in LEADING;
    assert ": " == [':', ' '] && " #" == [' ', '#'];
    if IsPlain(v, lower) {
      assert v[..1] == [v[0]];
    } else {
      assert ([QUOTE] + Escape(v) + [QUOTE])[..1] == "\"";
    }
  }

  /** Up to the first `c`. */
  function Before(s: string, c: char): (r: string)
    ensures r <= s && c !in r && (c !in s ==> r == s)
  {
    if s == "" || s[0] == c then "" else [s[0]] + Before(s[1..], c)
  }

  function Undouble(s: string): string {
    if |s| >= 2 && s[0] == '\'' && s[1] == '\'' then ['\''] + Undouble(s[2..])
    else if s == "" then "" else [s[0]] + Undouble(s[1..])
  }

  function ParseYamlScalar(raw: string): Option<string> {
    Unquote(Strip(Before(raw, '#')))
  }

  function Unquote(v: string): Option<string> {
    if |v| >= 2 && v[0] == v[|v| - 1] && v[0] == '\'' then Some(Strip(Undouble(v[1..|v| - 1])))
    else if |v| >= 2 && v[0] == v[|v| - 1] && v[0] == QUOTE then
      var inner := v[1..|v| - 1];
      if '\\' in inner then Unescape(inner) else Some(Strip(inner))
    else Some(v)
  }

  // ---------------------------------------------------------------- when a scalar comes back

  lemma {:induction false} StripShortens(s: string)
    ensures |Lstrip(s)| <= |s| && |Rstrip(s)| <= |s|
  {
    if s != "" {
      StripShortens(s[1..]);
      StripShortens(s[..|s| - 1]);
    }
  }

  lemma {:induction false} UndoubleShortens(s: string)
    ensures |Undouble(s)| <= |s|
    decreases |s|
  {
    if |s| >= 2 {
      UndoubleShortens(s[2..]);
    }
    if s != "" {
      UndoubleShortens(s[1..]);
    }
  }

  lemma {:induction false} UnescapeShortens(s: string)
    requires Unescape(s).Some?
    ensures |Unescape(s).value| <= |s|
    decreases |s|
  {
    if s != "" {
      UnescapeShortens(s[Scan(s).length..]);
    }
  }

  lemma UnquoteShortens(v: string)
    requires Unquote(v).Some?
    ensures |Unquote(v).value| <= |v|
  {
    if |v| >= 2 {
      var inner := v[1..|v| - 1];
      UndoubleShortens(inner);
      StripShortens(Undouble(inner));
      StripShortens(Lstrip(Undouble(inner)));
      StripShortens(inner);
      StripShortens(Lstrip(inner));
      if Unescape(inner).Some? {
        UnescapeShortens(inner);
      }
    }
  }

  lemma CutEscape(t: string, c: char)
    requires t != "" && Scan(t).Scanned?
    requires forall i :: 0 <= i < |t| && i < |EscapeChar(c)| ==> t[i] == EscapeChar(c)[i]
    ensures |EscapeChar(c)| <= |t|
  {
  }

  /** A body cut off inside an escape is an error; cut off elsewhere, it stands for the
      characters before the cut. */
  lemma {:induction false} CutBodies(t: string, s: string)
    requires t <= Escape(s) && Unescape(t).Some?
    ensures Escape(Unescape(t).value) == t
    decreases |s|
  {
    if t != "" {
      var e := EscapeChar(s[0]);
      assert t[0] == e[0];
      CutEscape(t, s[0]);
      assert t == e + t[|e|..];
      ScanEscaped(s[0], t[|e|..]);
      assert t[|e|..] <= Escape(s[1..]);
      CutBodies(t[|e|..], s[1..]);
      var rest := Unescape(t[|e|..]).value;
      assert ([s[0]] + rest)[1..] == rest;
    }
  }

  predicate Unpadded(v: string, lower: string -> string) {
    Trimmed(v) || (!IsPlain(v, lower) && '\\' in Escape(v))
  }

  lemma PlainComesBackIff(v: string, lower: string -> string)
    requires IsPlain(v, lower)
    ensures ParseYamlScalar(" " + RenderYamlScalar(v, lower)) == Some(v) <==> '#' !in v && Trimmed(v)
  {
    var kept := Before(" " + v, '#');
    assert LEADING[14] == '\'' && LEADING[15] == '"';
    assert '\'' in LEADING && '"' in LEADING;
    assert kept != "" && kept == " " + kept[1..];
    StripUnpads(kept[1..]);
    StripTrims(kept[1..]);
    StripShortens(kept[1..]);
    StripShortens(Lstrip(kept[1..]));
    if Unquote(Strip(kept)).Some? {
      UnquoteShortens(Strip(kept));
    }
    if '#' in v {
      assert |kept| < |" " + v| by {
        assert '#' in " " + v by { assert (" " + v)[1..] == v; }
      }
    } else {
      assert forall c :: c in " " + v ==> c == ' ' || c in v;
      assert kept[1..] == v;
      StripIsShorterUnlessTrimmed(v);
    }
  }

  lemma StripIsShorterUnlessTrimmed(s: string)
    ensures |Strip(s)| <= |s|
    ensures !Trimmed(s) ==> |Strip(s)| < |s|
  {
    LstripIsSuffix(s);
    RstripIsPrefix(Lstrip(s));
    StripTrims(s);
  }

  lemma {:induction false} LstripIsSuffix(s: string)
    ensures |Lstrip(s)| <= |s| && Lstrip(s) == s[|s| - |Lstrip(s)|..]
  {
    if s != "" && IsSpace(s[0]) {
      LstripIsSuffix(s[1..]);
    }
  }

  lemma UnquoteQuoted(w: string)
    requires w != "" && w[0] == QUOTE
    ensures Unquote(w) ==
            if |w| < 2 || w[|w| - 1] != QUOTE then Some(w)
            else if '\\' in w[1..|w| - 1] then Unescape(w[1..|w| - 1]) else Some(Strip(w[1..|w| - 1]))
  {
  }

  lemma ParseQuoted(body: string)
    requires '#' !in body
    ensures ParseYamlScalar(" " + ([QUOTE] + body + [QUOTE])) ==
            if '\\' in body then Unescape(body) else Some(Strip(body))
  {
    var quoted := [QUOTE] + body + [QUOTE];
    ParseTrimmed(quoted);
    assert quoted[1..|quoted| - 1] == body;
    UnquoteQuoted(quoted);
  }

  lemma ParseTrimmed(s: string)
    requires '#' !in s && Trimmed(s)
    ensures ParseYamlScalar(" " + s) == Unquote(s)
  {
    assert Before(" " + s, '#') == " " + s;
    StripUnpads(s);
    StripTrims(s);
  }

  lemma QuotedComesBackIff(v: string, lower: string -> string)
    requires !IsPlain(v, lower)
    ensures ParseYamlScalar(" " + RenderYamlScalar(v, lower)) == Some(v) <==>
              '#' !in v && (Trimmed(v) || '\\' in Escape(v))
  {
    EscapeIsPlain(v);
    if '#' in v {
      CutQuoteIsDifferent(v);
    } else {
      ParseQuoted(Escape(v));
      UnescapeUndoesEscape(v);
      StripTrims(v);
    }
  }

  lemma CutQuoteIsDifferent(v: string)
    requires '#' in v
    ensures ParseYamlScalar(" " + ([QUOTE] + Escape(v) + [QUOTE])) != Some(v)
  {
    EscapeIsPlain(v);
    var kept := Before(Escape(v), '#');
    BeforeUnpads(Escape(v), [QUOTE]);
    StripUnpads([QUOTE] + kept);
    QuotedStripIsCut(kept);
    CutBodyIsDifferent(v, kept, Strip([QUOTE] + kept));
  }

  lemma CutBodyIsDifferent(v: string, kept: string, w: string)
    requires '#' in v && kept <= Escape(v) && '#' !in kept
    requires w != "" && w <= [QUOTE] + kept
    ensures Unquote(w) != Some(v)
  {
    assert w[0] == QUOTE;
    UnquoteQuoted(w);
    assert '#' !in w;
    if |w| >= 2 && w[|w| - 1] == QUOTE {
      var inner := w[1..|w| - 1];
      assert inner <= kept;
      StripTrims(inner);
      if Unescape(inner).Some? {
        CutBodies(inner, v);
        EscapeIsPlain(Unescape(inner).value);
      }
    }
  }

  lemma {:induction false} BeforeKeepsPrefix(prefix: string, s: string, c: char)
    requires c !in prefix
    ensures Before(prefix + s, c) == prefix + Before(s, c)
  {
    if prefix == "" {
      assert prefix + s == s;
    } else {
      assert (prefix + s)[1..] == prefix[1..] + s;
      BeforeKeepsPrefix(prefix[1..], s, c);
    }
  }

  lemma BeforeKeepsBoth(a: string, b: string, body: string, tail: string)
    requires '#' in body && '#' !in a && '#' !in b
    ensures Before(a + (b + body + tail), '#') == a + (b + Before(body, '#'))
  {
    BeforeOfLonger(body, tail);
    BeforeKeepsPrefix(b, body + tail, '#');
    BeforeKeepsPrefix(a, b + (body + tail), '#');
    assert b + body + tail == b + (body + tail);
  }

  lemma BeforeUnpads(body: string, tail: string)
    requires '#' in body
    ensures Before(" " + ([QUOTE] + body + tail), '#') == " " + ([QUOTE] + Before(body, '#'))
  {
    BeforeKeepsBoth(" ", [QUOTE], body, tail);
  }

  lemma {:induction false} BeforeOfLonger(body: string, tail: string)
    requires '#' in body
    ensures Before(body + tail, '#') == Before(body, '#')
  {
    if body[0] != '#' {
      assert (body + tail)[1..] == body[1..] + tail;
      BeforeOfLonger(body[1..], tail);
    }
  }

  lemma QuotedStripIsCut(kept: string)
    ensures Strip([QUOTE] + kept) <= [QUOTE] + kept && Strip([QUOTE] + kept) != "" && Strip([QUOTE] + kept)[0] == QUOTE
  {
    RstripIsPrefix([QUOTE] + kept);
    RstripKeepsFirst([QUOTE] + kept);
  }

  lemma {:induction false} RstripKeepsFirst(s: string)
    requires s != "" && !IsSpace(s[0])
    ensures Rstrip(s) != "" && Rstrip(s)[0] == s[0]
  {
    if IsSpace(s[|s| - 1]) {
      RstripKeepsFirst(s[..|s| - 1]);
    }
  }

  /** Exactly which texts survive being written and read back: those free of `#` that are
      trimmed, or else are written in quotes with an escape, where the parser does not
      trim. */
  lemma ScalarComesBackIff(v: string, lower: string -> string)
    ensures ParseYamlScalar(" " + RenderYamlScalar(v, lower)) == Some(v) <==> '#' !in v && Unpadded(v, lower)
  {
    if IsPlain(v, lower) {
      PlainComesBackIff(v, lower);
    } else {
      QuotedComesBackIff(v, lower);
    }
  }

  lemma HashIsLost(lower: string -> string)
    ensures ParseYamlScalar(" " + RenderYamlScalar("a#b", lower)) != Some("a#b")
  {
    var text := "a#b";
    assert text[1] == '#' && '#' in text;
    ScalarComesBackIff(text, lower);
  }

  /** A text as YAML writes it in single quotes: each single quote twice. */
  function Doubled(s: string): string {
    if s == "" then "" else (if s[0] == '\'' then "''" else [s[0]]) + Doubled(s[1..])
  }

  lemma {:induction false} UndoubleUndoes(s: string)
    ensures Undouble(Doubled(s)) == s
    ensures '#' in Doubled(s) ==> '#' in s
  {
    if s != "" {
      var first := if s[0] == '\'' then "''" else [s[0]];
      assert Doubled(s)[|first|..] == Doubled(s[1..]);
      UndoubleUndoes(s[1..]);
      assert s == [s[0]] + s[1..];
    }
  }

  /** A trimmed text without `#` also comes back from single quotes, which the printer never
      writes but a curator may. */
  lemma SingleQuotedComesBack(v: string)
    requires Trimmed(v) && '#' !in v
    ensures ParseYamlScalar(" '" + Doubled(v) + "'") == Some(v)
  {
    var quoted := "'" + Doubled(v) + "'";
    UndoubleUndoes(v);
    assert " '" + Doubled(v) + "'" == " " + quoted;
    ParseTrimmed(quoted);
    assert quoted[1..|quoted| - 1] == Doubled(v);
    StripTrims(v);
  }

  // ---------------------------------------------------------------- the file

  const HEADER := "# Generated via " + "`just update-" + "extensions-" + "catalog`, then " + "curated manually."
  const NAME := "- name"
  const ABOUT := "  about"

  function LstripHashes(s: string): string {
    if s != "" && s[0] == '#' then LstripHashes(s[1..]) else s
  }

  function NormalizeAbout(name: string, about: string): string {
    var cleaned := Strip(LstripHashes(Strip(about)));
    if cleaned != "" then cleaned else name + " tools"
  }

  function Line(key: string, value: string, lower: string -> string): string {
    key + ":" + " " + RenderYamlScalar(value, lower)
  }

  function RowLines(entries: map<string, string>, names: seq<string>, lower: string -> string): seq<string>
    requires forall n :: n in names ==> n in entries
  {
    if names == [] then []
    else
      [Line(NAME, names[0], lower), Line(ABOUT, NormalizeAbout(names[0], entries[names[0]]), lower)] +
      RowLines(entries, names[1..], lower)
  }

  function File(entries: map<string, string>, names: seq<string>, lower: string -> string): string
    requires forall n :: n in names ==> n in entries
  {
    RowsText(HEADER, entries, names, lower)
  }

  function RowsText(header: string, entries: map<string, string>, names: seq<string>, lower: string -> string): string
    requires forall n :: n in names ==> n in entries
  {
    Text([header] + RowLines(entries, names, lower))
  }

  /** Code point order. */
  predicate Less(a: string, b: string) {
    b != "" && (a == "" || a[0] < b[0] || (a[0] == b[0] && Less(a[1..], b[1..])))
  }

  /** The keys in ascending order. */
  ghost predicate Lists(names: seq<string>, keys: set<string>) {
    && (forall i, j :: 0 <= i < j < |names| ==> Less(names[i], names[j]))
    && (forall n :: n in names <==> n in keys)
  }

  // ---------------------------------------------------------------- reading the file

  /** An empty `name` is no current name. */
  datatype Reader = Reader(entries: map<string, string>, name: string, about: string)

  const START := Reader(map[], "", "")

  function Flush(r: Reader): map<string, string> {
    if r.name != "" then r.entries[r.name := r.about] else r.entries
  }

  /** What follows the first `c`. */
  function After(s: string, c: char): string {
    if s == "" then "" else if s[0] == c then s[1..] else After(s[1..], c)
  }

  function ReadLine(r: Reader, line: string): Option<Reader> {
    if line == "" || line[0] == '#' then Some(r)
    else if NAME + ":" <= line then
      (match ParseYamlScalar(After(line, ':')) case Some(name) => Some(Reader(Flush(r), name, "")) case None => None)
    else if r.name != "" && ABOUT + ":" <= line then
      (match ParseYamlScalar(After(line, ':')) case Some(about) => Some(r.(about := about)) case None => None)
    else Some(r)
  }

  function ReadLines(r: Reader, lines: seq<string>): Option<map<string, string>>
    decreases |lines|
  {
    if lines == [] then Some(Flush(r))
    else
      match ReadLine(r, lines[0])
      case None => None
      case Some(next) => ReadLines(next, lines[1..])
  }

  /** Comments and whatever else is neither a name's line nor a text's may stand anywhere. */
  lemma {:induction false} OtherLinesAreIgnored(r: Reader, before: seq<string>, line: string, after: seq<string>)
    requires line == "" || line[0] == '#' || !("- name:" <= line || "  about:" <= line)
    ensures ReadLines(r, before + [line] + after) == ReadLines(r, before + after)
    decreases |before|
  {
    assert NAME + ":" == "- name:" && ABOUT + ":" == "  about:";
    var all := before + [line] + after;
    if before == [] {
      assert all[0] == line && all[1..] == after && before + after == after;
    } else {
      assert all[0] == before[0] && all[1..] == before[1..] + [line] + after;
      assert (before + after)[0] == before[0] && (before + after)[1..] == before[1..] + after;
      match ReadLine(r, before[0]) {
        case None =>
        case Some(next) => OtherLinesAreIgnored(next, before[1..], line, after);
      }
    }
  }

  /** `None` is a quoted scalar that is no JSON string. */
  method ParseGeneratedCatalog(text: string) returns (entries: Option<map<string, string>>)
    ensures entries == ReadLines(START, Lines(text))
  {
    var lines, found, name, about := Lines(text), map[], "", "";
    var i := 0;
    while i < |lines|
      invariant i <= |lines|
      invariant ReadLines(START, lines) == ReadLines(Reader(found, name, about), lines[i..])
    {
      var line := lines[i];
      assert lines[i..][0] == line && lines[i..][1..] == lines[i + 1..];
      i := i + 1;
      if line == "" || line[0] == '#' {
        continue;
      }
      if NAME + ":" <= line {
        if name != "" {
          found := found[name := about];
        }
        var scalar := ParseYamlScalar(After(line, ':'));
        if scalar.None? {
          return None;
        }
        name, about := scalar.value, "";
        continue;
      }
      if name != "" && ABOUT + ":" <= line {
        var scalar := ParseYamlScalar(After(line, ':'));
        if scalar.None? {
          return None;
        }
        about := scalar.value;
      }
    }
    if name != "" {
      found := found[name := about];
    }
    return Some(found);
  }

  // ---------------------------------------------------------------- writing the file

  lemma {:induction false} LessIsStrictOrder(a: string, b: string, c: string)
    ensures !Less(a, a)
    ensures Less(a, b) && Less(b, c) ==> Less(a, c)
    ensures Less(a, b) || a == b || Less(b, a)
  {
    if a != "" && b != "" && c != "" {
      LessIsStrictOrder(a[1..], b[1..], c[1..]);
      assert a == [a[0]] + a[1..] && b == [b[0]] + b[1..];
    } else if a != "" && b != "" {
      LessIsStrictOrder(a[1..], b[1..], "");
      assert a == [a[0]] + a[1..] && b == [b[0]] + b[1..];
    } else if a != "" {
      LessIsStrictOrder(a[1..], "", "");
    }
  }

  lemma {:induction false} LeastExists(keys: set<string>) returns (least: string)
    requires keys != {}
    ensures least in keys && forall k :: k in keys && k != least ==> Less(least, k)
    decreases keys
  {
    var k :| k in keys;
    if keys == {k} {
      return k;
    }
    var other := LeastExists(keys - {k});
    LessIsStrictOrder(k, other, k);
    least := if Less(k, other) then k else other;
    forall j | j in keys && j != least ensures Less(least, j) {
      LessIsStrictOrder(k, other, j);
    }
  }

  method SortedNames(keys: set<string>) returns (names: seq<string>)
    ensures Lists(names, keys)
  {
    var left := keys;
    names := [];
    while left != {}
      invariant left <= keys
      invariant forall n :: n in names <==> n in keys && n !in left
      invariant forall n, k :: n in names && k in left ==> Less(n, k)
      invariant forall i, j :: 0 <= i < j < |names| ==> Less(names[i], names[j])
      decreases left
    {
      ghost var first := LeastExists(left);
      var least :| least in left && forall k :: k in left && k != least ==> Less(least, k);
      names, left := names + [least], left - {least};
    }
  }

  method WriteCatalog(entries: map<string, string>, lower: string -> string) returns (names: seq<string>, file: string)
    ensures Lists(names, entries.Keys) && file == File(entries, names, lower)
  {
    names := SortedNames(entries.Keys);
    file := WriteRows(HEADER, entries, names, lower);
  }

  lemma NoRows(header: string, entries: map<string, string>, lower: string -> string)
    ensures RowsText(header, entries, [], lower) == header + "\n"
  {
    assert [header] + [] == [header] && [header][1..] == [];
    assert Text([header]) == header + "\n" + "";
  }

  method WriteRows(header: string, entries: map<string, string>, names: seq<string>, lower: string -> string)
    returns (file: string)
    requires forall n :: n in names ==> n in entries
    ensures file == RowsText(header, entries, names, lower)
  {
    file := header + "\n";
    NoRows(header, entries, lower);
    assert names[..0] == [];
    for i := 0 to |names|
      invariant file == RowsText(header, entries, names[..i], lower)
    {
      OneMoreRow(header, entries, names[..i], names[i], lower);
      assert names[..i + 1] == names[..i] + [names[i]];
      file := WriteRow(file, names[i], NormalizeAbout(names[i], entries[names[i]]), lower);
    }
    assert names[..|names|] == names;
  }

  method WriteRow(written: string, name: string, about: string, lower: string -> string) returns (file: string)
    ensures file == written + RowText(name, about, lower)
  {
    file := written + Line(NAME, name, lower) + "\n";
    file := file + Line(ABOUT, about, lower) + "\n";
  }

  function RowText(name: string, about: string, lower: string -> string): string {
    Line(NAME, name, lower) + "\n" + Line(ABOUT, about, lower) + "\n"
  }

  lemma {:induction false} TextAppend(a: seq<string>, b: seq<string>)
    ensures Text(a + b) == Text(a) + Text(b)
  {
    if a == [] {
      assert a + b == b;
    } else {
      assert (a + b)[1..] == a[1..] + b;
      TextAppend(a[1..], b);
    }
  }

  lemma {:induction false} RowLinesAppend(entries: map<string, string>, names: seq<string>, name: string,
                                          lower: string -> string)
    requires name in entries && forall n :: n in names ==> n in entries
    ensures RowLines(entries, names + [name], lower) ==
            RowLines(entries, names, lower) +
                [Line(NAME, name, lower), Line(ABOUT, NormalizeAbout(name, entries[name]), lower)]
  {
    if names == [] {
      assert [name][1..] == [];
    } else {
      assert (names + [name])[1..] == names[1..] + [name];
      RowLinesAppend(entries, names[1..], name, lower);
    }
  }

  lemma TextOfTwo(a: string, b: string)
    ensures Text([a, b]) == a + "\n" + (b + "\n")
  {
    assert [a, b][1..] == [b] && [b][1..] == [];
    assert Text([b]) == b + "\n" + "";
  }

  lemma OneMoreRow(header: string, entries: map<string, string>, names: seq<string>, name: string,
                   lower: string -> string)
    requires name in entries && forall n :: n in names ==> n in entries
    ensures RowsText(header, entries, names + [name], lower) ==
            RowsText(header, entries, names, lower) + RowText(name, NormalizeAbout(name, entries[name]), lower)
  {
    RowLinesAppend(entries, names, name, lower);
    TwoMoreLines([header] + RowLines(entries, names, lower), Line(NAME, name, lower),
        Line(ABOUT, NormalizeAbout(name, entries[name]), lower));
    assert [header] + RowLines(entries, names + [name], lower) ==
           ([header] + RowLines(entries, names, lower)) +
               [Line(NAME, name, lower), Line(ABOUT, NormalizeAbout(name, entries[name]), lower)];
  }

  lemma TwoMoreLines(lines: seq<string>, a: string, b: string)
    ensures Text(lines + [a, b]) == Text(lines) + (a + "\n" + b + "\n")
  {
    TextAppend(lines, [a, b]);
    TextOfTwo(a, b);
  }

  // ---------------------------------------------------------------- the round trip

  /** What may stand in a catalog: trimmed, without `#`, on one line once escaped. */
  predicate Writable(v: string) {
    Trimmed(v) && Printable(v)
  }

  predicate Printable(v: string) {
    '#' !in v && forall i :: 0 <= i < |v| && IsLineBreak(v[i]) ==> v[i] == '\n'
  }

  function Normalized(entries: map<string, string>): map<string, string> {
    map n | n in entries :: NormalizeAbout(n, entries[n])
  }

  ghost predicate AllWritable(entries: map<string, string>) {
    forall n :: n in entries ==> n != "" && Writable(n) && Printable(NormalizeAbout(n, entries[n]))
  }

  lemma HeaderIsOneLine()
    ensures OneLine(HEADER) && HEADER != "" && HEADER[0] == '#'
  {
    assert OneLine("# Generated via ") && OneLine("`just update-");
    assert OneLine("extensions-") && OneLine("catalog`, then ") && OneLine("curated manually.");
    OneLineAppend("# Generated via ", "`just update-");
    OneLineAppend("# Generated via " + "`just update-", "extensions-");
    OneLineAppend("# Generated via " + "`just update-" + "extensions-", "catalog`, then ");
    OneLineAppend("# Generated via " + "`just update-" + "extensions-" + "catalog`, then ", "curated manually.");
  }

  lemma OneLineAppend(a: string, b: string)
    requires OneLine(a) && OneLine(b) && a != ""
    ensures OneLine(a + b) && (a + b)[0] == a[0]
  {
  }

  lemma RenderedIsOneLine(v: string, lower: string -> string)
    requires Writable(v)
    ensures OneLine(RenderYamlScalar(v, lower))
  {
    EscapeIsPlain(v);
  }

  lemma {:induction false} AfterColon(key: string, rest: string)
    requires ':' !in key
    ensures After(key + ":" + rest, ':') == rest
  {
    if key != "" {
      assert (key + ":" + rest)[1..] == key[1..] + ":" + rest;
      AfterColon(key[1..], rest);
    }
  }

  lemma AfterKey(key: string, text: string)
    requires ':' !in key
    ensures After(key + ":" + " " + text, ':') == " " + text && key + ":" <= key + ":" + " " + text
  {
    AfterColon(key, " " + text);
    assert key + ":" + " " + text == key + ":" + (" " + text);
  }

  lemma WritableComesBack(v: string, lower: string -> string)
    requires Writable(v)
    ensures ParseYamlScalar(" " + RenderYamlScalar(v, lower)) == Some(v)
  {
    ScalarComesBackIff(v, lower);
  }

  /** A written line parses back to its value. */
  lemma LineComesBack(key: string, v: string, lower: string -> string)
    requires ':' !in key && Writable(v)
    ensures ParseYamlScalar(After(Line(key, v, lower), ':')) == Some(v)
    ensures key + ":" <= Line(key, v, lower)
  {
    AfterKey(key, RenderYamlScalar(v, lower));
    WritableComesBack(v, lower);
  }

  lemma KeysAreDistinct(rest: string)
    ensures ':' !in NAME && ':' !in ABOUT && OneLine(NAME + ":" + " ") && OneLine(ABOUT + ":" + " ")
    ensures NAME[0] == '-' && !(NAME + ":" <= ABOUT + ":" + rest)
  {
    assert ABOUT[0] == ' ' && (ABOUT + ":" + rest)[0] == ' ' && (NAME + ":")[0] == '-';
  }

  /** Reading a row adds it, once the next row or the end of the file is reached. */
  lemma RowComesBack(r: Reader, name: string, about: string, lower: string -> string)
    requires name != "" && Writable(name) && Writable(about)
    ensures ReadLine(r, Line(NAME, name, lower)) == Some(Reader(Flush(r), name, ""))
    ensures ReadLine(Reader(Flush(r), name, ""), Line(ABOUT, about, lower)) == Some(Reader(Flush(r), name, about))
    ensures OneLine(Line(NAME, name, lower)) && OneLine(Line(ABOUT, about, lower))
  {
    KeysAreDistinct(" " + RenderYamlScalar(about, lower));
    LineComesBack(NAME, name, lower);
    LineComesBack(ABOUT, about, lower);
    RenderedIsOneLine(name, lower);
    RenderedIsOneLine(about, lower);
  }

  lemma NormalizedIsTrimmed(name: string, about: string)
    requires name != "" && Trimmed(name)
    ensures Trimmed(NormalizeAbout(name, about)) && NormalizeAbout(name, about) != ""
  {
    StripTrims(LstripHashes(Strip(about)));
    var tools := " tools";
    assert (name + tools)[0] == name[0] && (name + tools)[|name + tools| - 1] == tools[5];
  }

  lemma NormalizingTwiceIsOnce(name: string, about: string)
    requires about != "" && Trimmed(about) && '#' !in about
    ensures NormalizeAbout(name, about) == about
  {
    StripTrims(about);
  }

  predicate Blank(s: string) {
    forall c :: c in s ==> IsSpace(c)
  }

  lemma {:induction false} LstripDropsBlank(pad: string, s: string)
    requires Blank(pad)
    ensures Lstrip(pad + s) == Lstrip(s)
  {
    if pad == "" {
      assert pad + s == s;
    } else {
      assert (pad + s)[1..] == pad[1..] + s;
      LstripDropsBlank(pad[1..], s);
    }
  }

  lemma {:induction false} RstripDropsBlank(s: string, tail: string)
    requires Blank(tail)
    ensures Rstrip(s + tail) == Rstrip(s)
  {
    if tail == "" {
      assert s + tail == s;
    } else {
      assert (s + tail)[..|s + tail| - 1] == s + tail[..|tail| - 1];
      RstripDropsBlank(s, tail[..|tail| - 1]);
    }
  }

  lemma {:induction false} HashesAreDropped(hashes: string, s: string)
    requires (forall c :: c in hashes ==> c == '#') && (s == "" || s[0] != '#')
    ensures LstripHashes(hashes + s) == s
  {
    if hashes == "" {
      assert hashes + s == s;
    } else {
      assert hashes[0] in hashes && forall c :: c in hashes[1..] ==> c in hashes;
      assert (hashes + s)[1..] == hashes[1..] + s;
      HashesAreDropped(hashes[1..], s);
    }
  }

  lemma StripDropsBlanks(pad: string, s: string, tail: string)
    requires Blank(pad) && Blank(tail) && s != "" && Trimmed(s)
    ensures Strip(pad + s + tail) == s
  {
    assert pad + s + tail == pad + (s + tail);
    LstripDropsBlank(pad, s + tail);
    assert (s + tail)[0] == s[0];
    RstripDropsBlank(s, tail);
  }

  /** A text behind blanks, comment marks and blanks comes out bare; with no text behind
      the marks the name stands in. */
  lemma CommentMarksAreDropped(name: string, pad: string, hashes: string, gap: string, text: string, tail: string)
    requires Blank(pad) && Blank(gap) && Blank(tail) && hashes != "" && (forall c :: c in hashes ==> c == '#')
    requires Trimmed(text) && (text == "" || text[0] != '#') && (text == "" ==> gap == "")
    ensures NormalizeAbout(name, pad + (hashes + gap + text) + tail) == if text == "" then name + " tools" else text
  {
    var core := hashes + gap + text;
    assert core[0] == hashes[0] && hashes[0] in hashes && hashes[|hashes| - 1] in hashes;
    assert core[|core| - 1] == if text != "" then text[|text| - 1] else hashes[|hashes| - 1];
    StripDropsBlanks(pad, core, tail);
    assert core == hashes + (gap + text);
    assert gap != "" ==> gap[0] in gap;
    HashesAreDropped(hashes, gap + text);
    if text == "" {
      assert gap + text == "";
    } else {
      assert gap + text + "" == gap + text;
      StripDropsBlanks(gap, text, "");
    }
  }

  function Chosen(entries: map<string, string>, names: seq<string>): map<string, string>
    requires forall n :: n in names ==> n in entries
  {
    map n | n in names :: NormalizeAbout(n, entries[n])
  }

  /** Reading the first row of several. */
  lemma FirstRowComesBack(r: Reader, entries: map<string, string>, names: seq<string>, lower: string -> string)
    returns (next: Reader)
    requires AllWritable(entries) && names != [] && forall n :: n in names ==> n in entries
    ensures next == Reader(Flush(r), names[0], NormalizeAbout(names[0], entries[names[0]])) && names[0] != ""
    ensures ReadLines(r, RowLines(entries, names, lower)) == ReadLines(next, RowLines(entries, names[1..], lower))
  {
    var name := names[0];
    assert name in names;
    var about := NormalizeAbout(name, entries[name]);
    NormalizedIsTrimmed(name, entries[name]);
    RowComesBack(r, name, about, lower);
    next := Reader(Flush(r), name, about);
    ReadRow(r, Line(NAME, name, lower), Line(ABOUT, about, lower), RowLines(entries, names[1..], lower));
  }

  lemma {:induction false} RowsAreOneLine(entries: map<string, string>, names: seq<string>, lower: string -> string)
    requires AllWritable(entries) && forall n :: n in names ==> n in entries
    ensures forall l :: l in RowLines(entries, names, lower) ==> OneLine(l)
  {
    if names != [] {
      assert names[0] in names;
      NormalizedIsTrimmed(names[0], entries[names[0]]);
      RowComesBack(START, names[0], NormalizeAbout(names[0], entries[names[0]]), lower);
      RowsAreOneLine(entries, names[1..], lower);
    }
  }

  lemma ChosenGrows(found: map<string, string>, entries: map<string, string>, names: seq<string>)
    requires names != [] && forall n :: n in names ==> n in entries
    ensures found[names[0] := NormalizeAbout(names[0], entries[names[0]])] + Chosen(entries, names[1..]) == found +
              Chosen(entries, names)
  {
    var name := names[0];
    assert forall n :: n in names <==> n == name || n in names[1..];
    var a, b := found[name := NormalizeAbout(name, entries[name])] + Chosen(entries, names[1..]),
        found + Chosen(entries, names);
    assert a.Keys == b.Keys;
    forall n | n in b ensures a[n] == b[n] {
      if n in names {
        assert b[n] == NormalizeAbout(n, entries[n]);
      }
    }
  }

  lemma {:induction false} RowsComeBack(r: Reader, entries: map<string, string>, names: seq<string>,
                                        lower: string -> string)
    requires AllWritable(entries) && forall n :: n in names ==> n in entries
    ensures ReadLines(r, RowLines(entries, names, lower)) == Some(Flush(r) + Chosen(entries, names))
    decreases |names|
  {
    if names == [] {
      assert Flush(r) + Chosen(entries, []) == Flush(r);
    } else {
      var next := FirstRowComesBack(r, entries, names, lower);
      RowsComeBack(next, entries, names[1..], lower);
      ChosenGrows(Flush(r), entries, names);
    }
  }

  lemma ReadRow(r: Reader, a: string, b: string, rest: seq<string>)
    requires ReadLine(r, a).Some? && ReadLine(ReadLine(r, a).value, b).Some?
    ensures ReadLines(r, [a, b] + rest) == ReadLines(ReadLine(ReadLine(r, a).value, b).value, rest)
  {
    assert ([a, b] + rest)[1..] == [b] + rest && ([b] + rest)[1..] == rest;
  }

  /** For every catalog with such names and texts, parsing the written file gives back every
      name with its normalized text, and nothing else. */
  lemma CatalogComesBack(entries: map<string, string>, names: seq<string>, lower: string -> string)
    requires AllWritable(entries) && Lists(names, entries.Keys)
    ensures ReadLines(START, Lines(File(entries, names, lower))) == Some(Normalized(entries))
  {
    HeaderIsOneLine();
    var rows := RowLines(entries, names, lower);
    RowsComeBack(START, entries, names, lower);
    RowsAreOneLine(entries, names, lower);
    LinesOfText([HEADER] + rows);
    ReadHeader(HEADER, rows);
    assert map[] + Chosen(entries, names) == Normalized(entries);
  }

  lemma ReadHeader(header: string, rows: seq<string>)
    requires header != "" && header[0] == '#'
    ensures ReadLines(START, [header] + rows) == ReadLines(START, rows)
  {
    assert ([header] + rows)[1..] == rows;
  }

  lemma {:induction false} ListingIsUnique(a: seq<string>, b: seq<string>, keys: set<string>)
    requires Lists(a, keys) && Lists(b, keys)
    ensures a == b
    decreases |a|
  {
    EmptyListing(a, keys);
    EmptyListing(b, keys);
    if a != [] {
      assert a[0] in a && b[0] in b;
      LessIsStrictOrder(a[0], b[0], a[0]);
      LessIsStrictOrder(b[0], a[0], b[0]);
      assert a[0] == b[0];
      TailLists(a, keys);
      TailLists(b, keys);
      ListingIsUnique(a[1..], b[1..], keys - {a[0]});
    }
  }

  lemma EmptyListing(a: seq<string>, keys: set<string>)
    requires Lists(a, keys)
    ensures a == [] <==> keys == {}
  {
    if a != [] {
      assert a[0] in a;
    }
  }

  lemma TailLists(a: seq<string>, keys: set<string>)
    requires Lists(a, keys) && a != []
    ensures Lists(a[1..], keys - {a[0]})
  {
    forall n ensures n in a[1..] <==> n in keys && n != a[0] {
      LessIsStrictOrder(a[0], a[0], a[0]);
      if n in a[1..] {
        var i :| 1 <= i < |a| && a[i] == n;
        assert Less(a[0], a[i]);
      }
    }
  }

  lemma {:induction false} NormalizedRowsAreTheSame(entries: map<string, string>, names: seq<string>,
                                                    lower: string -> string)
    requires AllWritable(entries) && forall n :: n in names ==> n in entries
    ensures RowLines(Normalized(entries), names, lower) == RowLines(entries, names, lower)
  {
    if names != [] {
      assert names[0] in names;
      NormalizedIsTrimmed(names[0], entries[names[0]]);
      NormalizingTwiceIsOnce(names[0], NormalizeAbout(names[0], entries[names[0]]));
      NormalizedRowsAreTheSame(entries, names[1..], lower);
    }
  }

  /** Writing what was read gives the same file. */
  lemma RewritingChangesNothing(entries: map<string, string>, names: seq<string>, again: seq<string>,
                                lower: string -> string)
    requires AllWritable(entries) && Lists(names, entries.Keys) && Lists(again, Normalized(entries).Keys)
    ensures File(Normalized(entries), again, lower) == File(entries, names, lower)
  {
    assert Normalized(entries).Keys == entries.Keys;
    ListingIsUnique(names, again, entries.Keys);
    NormalizedRowsAreTheSame(entries, names, lower);
  }
}
