/** The incremental event-stream splitter of the ACP HTTP transport
    (`consumeSSE`, `handleSseEvent`). The framing is the subset of sections
    9.2.5 and 9.2.6 of the WHATWG HTML Living Standard that the code handles:
    LF line ends and the `data` field. */
module SseFraming {
  import opened Wrappers

  // ---------------------------------------------------------------- breaks

  predicate IsBreak(s: string, i: int) {
    0 <= i && i + 1 < |s| && s[i] == '\n' && s[i + 1] == '\n'
  }

  /** `indexOf("\n\n")`. */
  function IndexOfBreak(s: string): (i: int)
    ensures -1 <= i < |s|
    ensures i >= 0 ==> i + 2 <= |s| && s[i..i + 2] == "\n\n"
  {
    if |s| < 2 then -1
    else if s[0] == '\n' && s[1] == '\n' then
      assert s[0..2] == [s[0], s[1]];
      0
    else
      var r := IndexOfBreak(s[1..]);
      if r < 0 then -1
      else
        assert s[1..][r..r + 2] == s[r + 1..r + 3];
        r + 1
  }

  ghost predicate FirstBreak(s: string, i: int) {
    if i < 0 then i == -1 && forall k :: !IsBreak(s, k)
    else IsBreak(s, i) && forall k :: k < i ==> !IsBreak(s, k)
  }

  lemma {:induction false} IndexOfBreakIsLeast(s: string, i: int)
    ensures i == IndexOfBreak(s) <==> FirstBreak(s, i)
  {
    if |s| >= 2 {
      IndexOfBreakIsLeast(s[1..], if i > 0 then i - 1 else -1);
      IndexOfBreakIsLeast(s[1..], IndexOfBreak(s[1..]));
      assert forall k :: k > 0 ==> IsBreak(s, k) == IsBreak(s[1..], k - 1);
      assert IsBreak(s, 0) == (s[0] == '\n' && s[1] == '\n');
      if FirstBreak(s, i) && i != 0 {
        assert FirstBreak(s[1..], if i > 0 then i - 1 else -1) by {
          assert forall k :: k >= 0 ==> IsBreak(s[1..], k) == IsBreak(s, k + 1);
        }
      }
    }
  }

  /** What the inner loop makes of a buffer: the finished events and the text left over. */
  datatype Drained = Drained(events: seq<string>, rest: string)

  function Drain(s: string): Drained
    decreases |s|
  {
    var i := IndexOfBreak(s);
    if i < 0 then Drained([], s) else After([s[..i]], Drain(s[i + 2..]))
  }

  function After(events: seq<string>, d: Drained): Drained {
    Drained(events + d.events, d.rest)
  }

  /** The text that a list of finished events and a leftover spell out. */
  function Spell(d: Drained): string
    decreases |d.events|
  {
    if d.events == [] then d.rest
    else d.events[0] + "\n\n" + Spell(Drained(d.events[1..], d.rest))
  }

  /** Every event ends at the first break of its own text, and the leftover has none. */
  ghost predicate Leftmost(d: Drained) {
    && (forall e :: e in d.events ==> IndexOfBreak(e + "\n\n") == |e|)
    && IndexOfBreak(d.rest) < 0
  }

  /** A break found early in a text stays the first one when the text grows. */
  lemma FirstBreakStays(a: string, b: string, i: nat)
    requires IndexOfBreak(a) == i
    ensures IndexOfBreak(a + b) == i
  {
    IndexOfBreakIsLeast(a, i);
    assert forall k :: k < i ==> IsBreak(a + b, k) == IsBreak(a, k);
    IndexOfBreakIsLeast(a + b, i);
  }

  lemma DrainStep(e: string, rest: string)
    requires IndexOfBreak(e + "\n\n") == |e|
    ensures Drain(e + "\n\n" + rest) == After([e], Drain(rest))
  {
    var s := e + "\n\n" + rest;
    FirstBreakStays(e + "\n\n", rest, |e|);
    assert s[|e| + 2..] == rest;
    assert s[..|e|] == e;
  }

  lemma SpellStep(e: string, d: Drained)
    ensures Spell(After([e], d)) == e + "\n\n" + Spell(d)
  {
    var all := After([e], d);
    assert all.events[0] == e;
    assert Drained(all.events[1..], all.rest) == d;
  }

  /** The text up to and including its first break has its first break there too. */
  lemma BreakOfPrefix(s: string, i: nat)
    requires IndexOfBreak(s) == i
    ensures s == s[..i] + "\n\n" + s[i + 2..]
    ensures IndexOfBreak(s[..i] + "\n\n") == i
  {
    var a := s[..i] + "\n\n";
    assert s == s[..i] + s[i..i + 2] + s[i + 2..];
    IndexOfBreakIsLeast(s, i);
    assert forall k :: 0 <= k < i + 2 ==> a[k] == s[k];
    assert forall k :: k < i ==> IsBreak(a, k) == IsBreak(s, k);
    assert IsBreak(a, i);
    IndexOfBreakIsLeast(a, i);
  }

  lemma {:induction false} DrainSpells(s: string)
    ensures Spell(Drain(s)) == s && Leftmost(Drain(s))
    decreases |s|
  {
    var i := IndexOfBreak(s);
    if i >= 0 {
      DrainSpells(s[i + 2..]);
      BreakOfPrefix(s, i);
      SpellStep(s[..i], Drain(s[i + 2..]));
    }
  }

  lemma Uncons(d: Drained) returns (e: string, tail: Drained)
    requires d.events != [] && Leftmost(d)
    ensures d == After([e], tail) && |tail.events| < |d.events|
    ensures IndexOfBreak(e + "\n\n") == |e| && Leftmost(tail)
  {
    e, tail := d.events[0], Drained(d.events[1..], d.rest);
    assert d.events == [e] + tail.events;
    assert e in d.events;
    forall x | x in tail.events ensures IndexOfBreak(x + "\n\n") == |x| {
      assert x in d.events;
    }
  }

  lemma {:induction false} LeftmostDrains(d: Drained)
    requires Leftmost(d)
    ensures Drain(Spell(d)) == d
    decreases |d.events|
  {
    if d.events != [] {
      var e, tail := Uncons(d);
      LeftmostDrains(tail);
      SpellStep(e, tail);
      DrainStep(e, Spell(tail));
    }
  }

  /** `Drain` splits at leftmost breaks and nowhere else, and is the only such split. */
  lemma DrainIsTheLeftmostSplit(s: string, d: Drained)
    ensures d == Drain(s) <==> Spell(d) == s && Leftmost(d)
  {
    DrainSpells(s);
    if Leftmost(d) {
      LeftmostDrains(d);
    }
  }

  /** Draining what has arrived and then going on with the leftover loses nothing,
      even when a break is cut in two. */
  lemma {:induction false} DrainAppend(a: string, b: string)
    ensures Drain(a + b) == After(Drain(a).events, Drain(Drain(a).rest + b))
    decreases |a|
  {
    var i := IndexOfBreak(a);
    if i < 0 {
      assert Drain(a) == Drained([], a);
      assert [] + Drain(a + b).events == Drain(a + b).events;
    } else {
      FirstBreakStays(a, b, i);
      assert (a + b)[i + 2..] == a[i + 2..] + b;
      assert (a + b)[..i] == a[..i];
      DrainAppend(a[i + 2..], b);
      calc {
        Drain(a + b);
        After([a[..i]], Drain((a + b)[i + 2..]));
        After([a[..i]], Drain(a[i + 2..] + b));
        After([a[..i]], After(Drain(a[i + 2..]).events, Drain(Drain(a[i + 2..]).rest + b)));
        { AfterAfter([a[..i]], Drain(a[i + 2..]).events, Drain(Drain(a[i + 2..]).rest + b)); }
        After([a[..i]] + Drain(a[i + 2..]).events, Drain(Drain(a[i + 2..]).rest + b));
      }
    }
  }

  lemma AfterAfter(x: seq<string>, y: seq<string>, d: Drained)
    ensures After(x, After(y, d)) == After(x + y, d)
  {
    assert x + (y + d.events) == (x + y) + d.events;
  }

  // ---------------------------------------------------------------- the reader loop

  /** How a body ends: `done`, an abort (swallowed), or any other error (rethrown). */
  datatype StreamEnd = Done | Aborted | Broken

  function Text(chunks: seq<string>): string {
    if chunks == [] then "" else Text(chunks[..|chunks| - 1]) + chunks[|chunks| - 1]
  }

  /** Only a body that ends normally hands over an unterminated last event. */
  function HandedOver(text: string, end: StreamEnd): seq<string> {
    var d := Drain(text);
    d.events + if end.Done? && d.rest != "" then [d.rest] else []
  }

  /** The events depend on the whole text and the way the body ends, never on the cuts. */
  method ConsumeSse(chunks: seq<string>, end: StreamEnd) returns (events: seq<string>)
    ensures events == HandedOver(Text(chunks), end)
  {
    events := [];
    var buffer := "";
    var read := 0;
    while read < |chunks|
      invariant 0 <= read <= |chunks|
      invariant Drain(Text(chunks[..read])) == Drained(events, buffer)
    {
      assert chunks[..read + 1][..read] == chunks[..read];
      ghost var text := Text(chunks[..read]) + chunks[read];
      assert text == Text(chunks[..read + 1]);
      DrainAppend(Text(chunks[..read]), chunks[read]);
      buffer := buffer + chunks[read];
      read := read + 1;
      var idx := IndexOfBreak(buffer);
      while idx >= 0
        invariant idx == IndexOfBreak(buffer)
        invariant Drain(text) == Drained(events + Drain(buffer).events, Drain(buffer).rest)
        decreases |buffer|
      {
        events := events + [buffer[..idx]];
        buffer := buffer[idx + 2..];
        idx := IndexOfBreak(buffer);
      }
      assert events + [] == events;
    }
    assert chunks[..read] == chunks;
    if end.Done? && |buffer| > 0 {
      events := events + [buffer];
    }
  }

  // ---------------------------------------------------------------- one event

  /** `split("\n")`: never empty. */
  function SplitLines(s: string): (lines: seq<string>)
    ensures |lines| > 0
    ensures forall l :: l in lines ==> '\n' !in l
  {
    if s == "" then [""]
    else
      var rest := SplitLines(s[1..]);
      if s[0] == '\n' then [""] + rest
      else [[s[0]] + rest[0]] + rest[1..]
  }

  /** `join("\n")`. */
  function JoinLines(lines: seq<string>): string {
    if lines == [] then ""
    else if |lines| == 1 then lines[0]
    else lines[0] + "\n" + JoinLines(lines[1..])
  }

  lemma {:induction false} JoinUndoesSplit(s: string)
    ensures JoinLines(SplitLines(s)) == s
  {
    if s != "" {
      JoinUndoesSplit(s[1..]);
      var rest := SplitLines(s[1..]);
      if s[0] == '\n' {
        assert ([""] + rest)[1..] == rest;
        assert s == "\n" + s[1..];
      } else {
        assert ([[s[0]] + rest[0]] + rest[1..])[1..] == rest[1..];
        assert s == [s[0]] + s[1..];
      }
    }
  }

  lemma {:induction false} SplitOneLine(l: string)
    requires '\n' !in l
    ensures SplitLines(l) == [l]
  {
    if l != "" {
      SplitOneLine(l[1..]);
      assert l == [l[0]] + l[1..];
    }
  }

  lemma {:induction false} SplitAfterLine(l: string, s: string)
    requires '\n' !in l
    ensures SplitLines(l + "\n" + s) == [l] + SplitLines(s)
  {
    var whole := l + "\n" + s;
    if l == "" {
      assert whole[1..] == s;
    } else {
      assert whole[1..] == l[1..] + "\n" + s;
      SplitAfterLine(l[1..], s);
      assert l == [l[0]] + l[1..];
    }
  }

  lemma {:induction false} SplitUndoesJoin(lines: seq<string>)
    requires |lines| > 0 && forall l :: l in lines ==> '\n' !in l
    ensures SplitLines(JoinLines(lines)) == lines
  {
    if |lines| == 1 {
      SplitOneLine(lines[0]);
    } else {
      SplitUndoesJoin(lines[1..]);
      SplitAfterLine(lines[0], JoinLines(lines[1..]));
      assert lines == [lines[0]] + lines[1..];
    }
  }

  const DATA := "data:"

  predicate IsDataLine(line: string) {
    DATA <= line
  }

  /** `slice(5)` and then at most one leading space goes. */
  function FieldValue(line: string): string
    requires IsDataLine(line)
  {
    var v := line[5..];
    if v != "" && v[0] == ' ' then v[1..] else v
  }

  function DataLines(lines: seq<string>): seq<string> {
    if lines == [] then []
    else (if IsDataLine(lines[0]) then [FieldValue(lines[0])] else []) + DataLines(lines[1..])
  }

  /** The payload of an event; an event without a data line carries none. */
  function Payload(event: string): Option<string> {
    var found := DataLines(SplitLines(event));
    if found == [] then None else Some(JoinLines(found))
  }

  lemma {:induction false} DataLinesAppend(a: seq<string>, line: string)
    ensures DataLines(a + [line]) == DataLines(a) + DataLines([line])
  {
    if a == [] {
      assert a + [line] == [line];
    } else {
      DataLinesAppend(a[1..], line);
      assert (a + [line])[1..] == a[1..] + [line];
    }
  }

  method EventData(event: string) returns (data: Option<string>)
    ensures data == Payload(event)
  {
    var found := [];
    var lines := SplitLines(event);
    for i := 0 to |lines|
      invariant found == DataLines(lines[..i])
    {
      assert lines[..i + 1] == lines[..i] + [lines[i]];
      DataLinesAppend(lines[..i], lines[i]);
      if IsDataLine(lines[i]) {
        found := found + [FieldValue(lines[i])];
      }
    }
    assert lines[..|lines|] == lines;
    if |found| == 0 {
      return None;
    }
    return Some(JoinLines(found));
  }

  // ---------------------------------------------------------------- what each line contributes

  lemma {:induction false} DataLinesOfBoth(a: seq<string>, b: seq<string>)
    ensures DataLines(a + b) == DataLines(a) + DataLines(b)
  {
    if a == [] {
      assert a + b == b;
    } else {
      assert (a + b)[1..] == a[1..] + b;
      DataLinesOfBoth(a[1..], b);
    }
  }

  /** A line that begins with `data:` contributes what follows, less one leading blank. */
  lemma DataLineContributes(v: string)
    ensures DataLines(["data:" + v]) == [if v != "" && v[0] == ' ' then v[1..] else v]
    ensures DataLines(["data: " + v]) == [v]
  {
    assert ("data:" + v)[5..] == v;
    assert ("data: " + v)[5..] == " " + v && (" " + v)[1..] == v;
  }

  /** No other line contributes anything: not another field, not a comment, not an empty line,
      and not, unlike in the standard, `data` without a colon. */
  lemma OtherLinesContributeNothing(line: string, rest: string)
    ensures !("data:" <= line) ==> DataLines([line]) == []
    ensures DataLines(["event:" + rest]) == DataLines(["id:" + rest]) == DataLines([":" + rest]) == []
    ensures DataLines([""]) == DataLines(["data"]) == []
  {
    assert ("event:" + rest)[0] == 'e' && ("id:" + rest)[0] == 'i' && (":" + rest)[0] == ':' && "data:"[0] == 'd';
  }

  /** An event's payload is what its lines contribute, in order, joined. */
  lemma PayloadOfLines(before: seq<string>, line: string, after: seq<string>)
    requires forall l :: l in before + [line] + after ==> '\n' !in l
    ensures var lines := before + [line] + after;
            var said := DataLines(before) + DataLines([line]) + DataLines(after);
            Payload(JoinLines(lines)) == if said == [] then None else Some(JoinLines(said))
  {
    SplitUndoesJoin(before + [line] + after);
    DataLinesOfBoth(before + [line], after);
    DataLinesOfBoth(before, [line]);
  }

  /** A text made of whole events hands over those, however the body ends; an unfinished one
      behind them only if it ends normally. */
  lemma WholeEventsAreHandedOver(events: seq<string>, rest: string, end: StreamEnd)
    requires Leftmost(Drained(events, rest))
    ensures HandedOver(Spell(Drained(events, rest)), end) == events + (if end.Done? && rest != "" then [rest] else [])
  {
    LeftmostDrains(Drained(events, rest));
  }

  // ---------------------------------------------------------------- round trip

  function Prefixed(lines: seq<string>): (r: seq<string>)
    ensures |r| == |lines|
    ensures forall i :: 0 <= i < |r| ==> r[i] == "data: " + lines[i]
  {
    if lines == [] then [] else ["data: " + lines[0]] + Prefixed(lines[1..])
  }

  /** A sender's event: one `data: ` line for every line of the payload. */
  function Encode(payload: string): string {
    JoinLines(Prefixed(SplitLines(payload)))
  }

  function Frames(payloads: seq<string>): string {
    if payloads == [] then "" else Encode(payloads[0]) + "\n\n" + Frames(payloads[1..])
  }

  lemma {:induction false} DataOfPrefixed(lines: seq<string>)
    ensures DataLines(Prefixed(lines)) == lines
  {
    if lines != [] {
      assert Prefixed(lines)[1..] == Prefixed(lines[1..]);
      DataOfPrefixed(lines[1..]);
      assert ("data: " + lines[0])[5..] == " " + lines[0];
      assert lines == [lines[0]] + lines[1..];
    }
  }

  /** A blank line inside a payload does not end its event. */
  lemma {:induction false} PrefixedHasNoBreak(lines: seq<string>)
    requires |lines| > 0 && forall l :: l in lines ==> '\n' !in l
    ensures var s := JoinLines(Prefixed(lines));
            |s| > 0 && s[0] == 'd' && s[|s| - 1] != '\n' && forall k :: !IsBreak(s, k)
  {
    var p := Prefixed(lines);
    var first := "data: " + lines[0];
    if |lines| > 1 {
      assert p[1..] == Prefixed(lines[1..]);
      PrefixedHasNoBreak(lines[1..]);
      var rest := JoinLines(p[1..]);
      var s := first + "\n" + rest;
      assert lines[0] in lines;
      assert forall k :: 0 <= k < |lines[0]| ==> lines[0][k] in lines[0];
      forall k | 0 <= k < |s|
        ensures !IsBreak(s, k)
      {
        assert k < 6 ==> s[k] == "data: "[k];
        assert 6 <= k < |first| ==> s[k] == lines[0][k - 6];
        assert k > |first| ==> IsBreak(s, k) == IsBreak(rest, k - |first| - 1);
      }
    } else {
      assert lines[0] in lines && JoinLines(p) == first;
      assert forall k :: 0 <= k < |lines[0]| ==> first[k + 6] == lines[0][k] && lines[0][k] in lines[0];
    }
  }

  lemma EncodedEventIsWhole(payload: string)
    ensures Encode(payload) != "" && IndexOfBreak(Encode(payload)) == -1
    ensures IndexOfBreak(Encode(payload) + "\n\n") == |Encode(payload)|
  {
    PrefixedHasNoBreak(SplitLines(payload));
    var e := Encode(payload);
    IndexOfBreakIsLeast(e, -1);
    var s := e + "\n\n";
    assert IsBreak(s, |e|);
    assert forall k :: 0 <= k < |e| - 1 ==> IsBreak(s, k) == IsBreak(e, k);
    IndexOfBreakIsLeast(s, |e|);
  }

  lemma EncodedPayloadComesBack(payload: string)
    ensures Payload(Encode(payload)) == Some(payload)
  {
    var lines := SplitLines(payload);
    forall l | l in Prefixed(lines)
      ensures '\n' !in l
    {
      var i :| 0 <= i < |lines| && l == "data: " + lines[i];
      assert lines[i] in lines;
    }
    SplitUndoesJoin(Prefixed(lines));
    DataOfPrefixed(lines);
    JoinUndoesSplit(payload);
  }

  function Payloads(events: seq<string>): seq<Option<string>> {
    seq(|events|, i requires 0 <= i < |events| => Payload(events[i]))
  }

  function Sent(payloads: seq<string>): seq<Option<string>> {
    seq(|payloads|, i requires 0 <= i < |payloads| => Some(payloads[i]))
  }

  function LastOf(last: Option<string>): string {
    if last.Some? then Encode(last.value) else ""
  }

  lemma DrainFirstFrame(payloads: seq<string>, tail: string)
    requires payloads != []
    ensures Drain(Frames(payloads) + tail) == After([Encode(payloads[0])], Drain(Frames(payloads[1..]) + tail))
  {
    var e := Encode(payloads[0]);
    EncodedEventIsWhole(payloads[0]);
    assert Frames(payloads) + tail == e + "\n\n" + (Frames(payloads[1..]) + tail);
    DrainStep(e, Frames(payloads[1..]) + tail);
  }

  lemma DrainLast(last: Option<string>)
    ensures Drain(LastOf(last)) == Drained([], LastOf(last))
  {
    if last.Some? {
      EncodedEventIsWhole(last.value);
    }
  }

  lemma {:induction false} DrainFrames(payloads: seq<string>, last: Option<string>)
    ensures Drain(Frames(payloads) + LastOf(last)).rest == LastOf(last)
    ensures Payloads(Drain(Frames(payloads) + LastOf(last)).events) == Sent(payloads)
    decreases |payloads|
  {
    if payloads == [] {
      assert Frames(payloads) + LastOf(last) == LastOf(last);
      DrainLast(last);
    } else {
      DrainFrames(payloads[1..], last);
      DrainFirstFrame(payloads, LastOf(last));
      EncodedPayloadComesBack(payloads[0]);
      PayloadsCons(Encode(payloads[0]), Drain(Frames(payloads[1..]) + LastOf(last)).events, payloads);
    }
  }

  lemma PayloadsCons(e: string, events: seq<string>, payloads: seq<string>)
    requires payloads != [] && Payload(e) == Some(payloads[0]) && Payloads(events) == Sent(payloads[1..])
    ensures Payloads([e] + events) == Sent(payloads)
  {
    assert |events| == |payloads| - 1;
    forall i | 0 < i < |payloads|
      ensures Payload(([e] + events)[i]) == Some(payloads[i])
    {
      assert Payloads(events)[i - 1] == Sent(payloads[1..])[i - 1];
    }
  }

  lemma PayloadsSnoc(events: seq<string>, e: string, payloads: seq<string>, p: string)
    requires Payload(e) == Some(p) && Payloads(events) == Sent(payloads)
    ensures Payloads(events + [e]) == Sent(payloads + [p])
  {
    assert |events| == |payloads|;
    forall i | 0 <= i < |events|
      ensures Payload((events + [e])[i]) == Some(payloads[i])
    {
      assert Payloads(events)[i] == Sent(payloads)[i];
    }
  }

  /** Whatever the payloads contain, and wherever the stream is cut, a reader gets them
      back exactly and in order. The last event may lack its blank line, but is then
      delivered only when the body ends normally. */
  lemma FramedPayloadsComeBack(chunks: seq<string>, payloads: seq<string>, last: Option<string>, end: StreamEnd)
    requires Text(chunks) == Frames(payloads) + LastOf(last)
    ensures Payloads(HandedOver(Text(chunks), end)) ==
            Sent(payloads + if last.Some? && end.Done? then [last.value] else [])
  {
    DrainFrames(payloads, last);
    var d := Drain(Text(chunks));
    if last.Some? && end.Done? {
      EncodedEventIsWhole(last.value);
      EncodedPayloadComesBack(last.value);
      assert HandedOver(Text(chunks), end) == d.events + [Encode(last.value)];
      PayloadsSnoc(d.events, Encode(last.value), payloads, last.value);
    } else {
      assert HandedOver(Text(chunks), end) == d.events;
      assert payloads + [] == payloads;
    }
  }

  // ---------------------------------------------------------------- line ends

  /** The standard's line ends, CRLF and CR as well as LF, all written as LF. */
  function Norm(s: string): (r: string)
    ensures '\r' !in r
    decreases |s|
  {
    if s == "" then ""
    else if s[0] == '\r' then "\n" + Norm(if |s| > 1 && s[1] == '\n' then s[2..] else s[1..])
    else [s[0]] + Norm(s[1..])
  }

  lemma {:induction false} NormKeepsLf(s: string)
    requires '\r' !in s
    ensures Norm(s) == s
  {
    if s != "" {
      NormKeepsLf(s[1..]);
      assert [s[0]] + s[1..] == s;
    }
  }

  lemma {:induction false} SpellsOnlyItsParts(d: Drained, c: char)
    requires c in Spell(d) && c != '\n'
    ensures c in d.rest || exists e :: e in d.events && c in e
    decreases |d.events|
  {
    if d.events != [] {
      var tail := Drained(d.events[1..], d.rest);
      assert Spell(d) == d.events[0] + "\n\n" + Spell(tail);
      if c in d.events[0] {
        assert d.events[0] in d.events;
      } else {
        SpellsOnlyItsParts(tail, c);
        assert forall e :: e in tail.events ==> e in d.events;
      }
    }
  }

  lemma {:induction false} EventsAreParts(d: Drained, e: string, c: char)
    requires e in d.events && c in e
    ensures c in Spell(d)
    decreases |d.events|
  {
    var tail := Drained(d.events[1..], d.rest);
    if e != d.events[0] {
      EventsAreParts(tail, e, c);
    }
  }

  lemma {:induction false} RestIsPart(d: Drained, c: char)
    requires c in d.rest
    ensures c in Spell(d)
    decreases |d.events|
  {
    if d.events != [] {
      RestIsPart(Drained(d.events[1..], d.rest), c);
    }
  }

  /** What is handed over has exactly the text's characters, but for line feeds. */
  lemma HandsOverEveryCharacter(s: string, c: char)
    requires c != '\n'
    ensures c in s <==> exists e :: e in HandedOver(s, Done) && c in e
  {
    var d := Drain(s);
    DrainSpells(s);
    if c in s {
      SpellsOnlyItsParts(d, c);
      if c in d.rest {
        assert d.rest in HandedOver(s, Done);
      }
    }
    forall e | e in HandedOver(s, Done) && c in e ensures c in s {
      if e in d.events {
        EventsAreParts(d, e, c);
      } else {
        RestIsPart(d, c);
      }
    }
  }

  /** The code knows LF only. It hands over the events of the standard's reading of the
      line ends exactly when the text has no carriage return at all. */
  lemma LineEndsAreReadRightIff(s: string)
    ensures HandedOver(s, Done) == HandedOver(Norm(s), Done) <==> '\r' !in s
  {
    HandsOverEveryCharacter(s, '\r');
    HandsOverEveryCharacter(Norm(s), '\r');
    if '\r' !in s {
      NormKeepsLf(s);
    }
  }

  /** For instance, framing by CRLF, which the standard allows, is never split. */
  lemma CrlfFramingIsOneEvent(a: string, b: string)
    requires '\n' !in a && '\n' !in b
    ensures HandedOver(a + "\r\n\r\n" + b, Done) == [a + "\r\n\r\n" + b]
  {
    var s := a + "\r\n\r\n" + b;
    forall k | 0 <= k < |s|
      ensures !IsBreak(s, k)
    {
      assert k < |a| ==> s[k] == a[k];
      assert k >= |a| + 4 ==> s[k] == b[k - |a| - 4];
    }
    IndexOfBreakIsLeast(s, -1);
  }
}
