/** The incremental `text/event-stream` parser of `stamp pr listen` (src/commands/prListen.ts). */
module Sse {
  import opened Results
  import opened Strings

  // ----- Lines ---------------------------------------------------------------------------------

  /** `buffer.indexOf("\n")`: the first line feed, or the length when there is none. */
  function LineEnd(s: string): (n: nat)
    ensures n <= |s| && (n < |s| ==> s[n] == '\n')
  {
    IndexOf(s, '\n')
  }

  /** `.replace(/\r$/, "")`. */
  function StripCr(line: string): string {
    if line != "" && line[|line| - 1] == '\r' then line[..|line| - 1] else line
  }

  /** The lines of a text that are ended by a line feed, each without one trailing CR. */
  function Complete(text: string): seq<string>
    decreases |text|
  {
    var n := LineEnd(text);
    if n == |text| then [] else [StripCr(text[..n])] + Complete(text[n + 1..])
  }

  /** What follows the last line feed. */
  function Rest(text: string): string
    decreases |text|
  {
    var n := LineEnd(text);
    if n == |text| then text else Rest(text[n + 1..])
  }

  lemma LineEndAt(line: string, rest: string)
    requires '\n' !in line
    ensures LineEnd(line + ("\n" + rest)) == |line|
  {
    IndexAfter(line, "\n" + rest, '\n');
  }

  lemma LineCut(line: string, rest: string)
    ensures var s := line + ("\n" + rest);
            |s| == |line| + 1 + |rest| && s[..|line|] == line && s[|line| + 1..] == rest
  {
  }

  /** Taking one line off the front. */
  lemma {:induction false} CompleteCons(line: string, rest: string)
    requires '\n' !in line
    ensures Complete(line + ("\n" + rest)) == [StripCr(line)] + Complete(rest)
    ensures Rest(line + ("\n" + rest)) == Rest(rest)
  {
    LineEndAt(line, rest);
    LineCut(line, rest);
  }

  /** Text that arrives later only continues the unfinished line. */
  lemma {:induction false} LinesOfConcat(a: string, b: string)
    ensures Complete(a + b) == Complete(a) + Complete(Rest(a) + b)
    ensures Rest(a + b) == Rest(Rest(a) + b)
    decreases |a|
  {
    var n := LineEnd(a);
    if n < |a| {
      var line, rest := a[..n], a[n + 1..];
      IndexOfIsFirst(a, '\n');
      CutAt(a, n);
      Assoc(line, "\n", rest);
      Assoc(line, "\n" + rest, b);
      Assoc("\n", rest, b);
      CompleteCons(line, rest + b);
      LinesOfConcat(rest, b);
      Assoc([StripCr(line)], Complete(rest), Complete(Rest(rest) + b));
    } else {
      assert Complete(a) + Complete(Rest(a) + b) == Complete(a + b);
    }
  }

  // ----- The parser ----------------------------------------------------------------------------

  /** What the handler keeps between chunks, and the `data` payloads it has passed on. */
  datatype State = State(buffer: string, dataLines: seq<string>, frames: seq<string>)

  const START := State("", [], [])

  /** `line.slice(5).replace(/^ /, "")`. */
  function FieldValue(line: string): string
    requires "data:" <= line
  {
    var v := line[5..];
    if v != "" && v[0] == ' ' then v[1..] else v
  }

  /** One line, as the loop body treats it. */
  function Line(s: State, line: string): State {
    if line == "" then
      if s.dataLines == [] then s
      else s.(dataLines := [], frames := s.frames + [Join(s.dataLines, "\n")])
    else if line[0] == ':' then s
    else if "data:" <= line then s.(dataLines := s.dataLines + [FieldValue(line)])
    else s
  }

  function Fold(s: State, lines: seq<string>): State
    decreases |lines|
  {
    if lines == [] then s else Fold(Line(s, lines[0]), lines[1..])
  }

  /** The whole text at once. */
  function Parse(text: string): State {
    Fold(START, Complete(text)).(buffer := Rest(text))
  }

  /** Every complete line of the buffer treated, the rest kept. */
  function Drain(s: State): State {
    Fold(s, Complete(s.buffer)).(buffer := Rest(s.buffer))
  }

  /** One `data` event of the stream. */
  function Feed(s: State, chunk: string): State {
    Drain(s.(buffer := s.buffer + chunk))
  }

  function FeedAll(s: State, chunks: seq<string>): State
    decreases |chunks|
  {
    if chunks == [] then s else FeedAll(Feed(s, chunks[0]), chunks[1..])
  }

  class Parser {
    var buffer: string
    var dataLines: seq<string>
    ghost var frames: seq<string>  // payloads handed to JSON.parse, oldest first

    ghost function Value(): State
      reads this
    {
      State(buffer, dataLines, frames)
    }

    constructor ()
      ensures Value() == START
    {
      buffer, dataLines, frames := "", [], [];
    }

    method FlushFrame() returns (raw: Option<string>)
      modifies this
      ensures Value() == Line(old(Value()), "")
      ensures raw == if old(dataLines) == [] then None else Some(Join(old(dataLines), "\n"))
    {
      if dataLines == [] {
        return None;
      }
      raw := Some(Join(dataLines, "\n"));
      dataLines := [];
      frames := frames + [raw.value];
    }

    method OnData(chunk: string)
      modifies this
      ensures Value() == Feed(old(Value()), chunk)
    {
      buffer := buffer + chunk;
      ghost var start := Value();
      var nlIdx := LineEnd(buffer);
      while nlIdx < |buffer|
        invariant nlIdx == LineEnd(buffer)
        invariant Drain(Value()) == Drain(start)
        decreases |buffer|
      {
        DrainStep(Value());
        var line := StripCr(buffer[..nlIdx]);
        buffer := buffer[nlIdx + 1..];
        nlIdx := LineEnd(buffer);
        if line == "" {
          var _ := FlushFrame();
          continue;
        }
        if line[0] == ':' {
          continue;
        }
        if "data:" <= line {
          dataLines := dataLines + [FieldValue(line)];
        }
      }
      assert Complete(buffer) == [] && Rest(buffer) == buffer;
    }
  }

  lemma DrainStep(s: State)
    requires LineEnd(s.buffer) < |s.buffer|
    ensures var n := LineEnd(s.buffer);
            Drain(s) == Drain(Line(s.(buffer := s.buffer[n + 1..]), StripCr(s.buffer[..n])))
  {
    var n := LineEnd(s.buffer);
    var rest, line := s.buffer[n + 1..], StripCr(s.buffer[..n]);
    var lines := Complete(s.buffer);
    assert lines[0] == line && lines[1..] == Complete(rest);
    FoldIgnoresBuffer(Line(s, line), Complete(rest), rest);
    LineIgnoresBuffer(s, line, rest);
  }

  lemma LineIgnoresBuffer(s: State, line: string, b: string)
    ensures Line(s.(buffer := b), line) == Line(s, line).(buffer := b)
  {
  }

  lemma {:induction false} FoldIgnoresBuffer(s: State, lines: seq<string>, b: string)
    ensures Fold(s.(buffer := b), lines) == Fold(s, lines).(buffer := b)
    decreases |lines|
  {
    if lines != [] {
      FoldIgnoresBuffer(Line(s, lines[0]), lines[1..], b);
    }
  }

  lemma {:induction false} FoldConcat(s: State, a: seq<string>, b: seq<string>)
    ensures Fold(s, a + b) == Fold(Fold(s, a), b)
    decreases |a|
  {
    if a == [] {
      assert a + b == b;
    } else {
      assert (a + b)[1..] == a[1..] + b;
      FoldConcat(Line(s, a[0]), a[1..], b);
    }
  }

  // ----- Chunking does not matter --------------------------------------------------------------

  function Concat(chunks: seq<string>): string {
    if chunks == [] then "" else chunks[0] + Concat(chunks[1..])
  }

  lemma FeedAfterParse(text: string, chunk: string)
    ensures Feed(Parse(text), chunk) == Parse(text + chunk)
  {
    LinesOfConcat(text, chunk);
    FoldConcat(START, Complete(text), Complete(Rest(text) + chunk));
    FoldIgnoresBuffer(Fold(START, Complete(text)), Complete(Rest(text) + chunk), Rest(text) + chunk);
  }

  lemma {:induction false} FeedAllAfterParse(text: string, chunks: seq<string>)
    ensures FeedAll(Parse(text), chunks) == Parse(text + Concat(chunks))
    decreases |chunks|
  {
    if chunks == [] {
      assert text + Concat(chunks) == text;
    } else {
      FeedAfterParse(text, chunks[0]);
      FeedAllAfterParse(text + chunks[0], chunks[1..]);
      Assoc(text, chunks[0], Concat(chunks[1..]));
    }
  }

  /** However the stream is cut, frames, pending data lines and pending text are those of the whole. */
  lemma {:induction false} ChunkInvariance(chunks: seq<string>)
    ensures FeedAll(START, chunks) == Parse(Concat(chunks))
  {
    assert Complete("") == [] && Rest("") == "";
    FeedAllAfterParse("", chunks);
    assert "" + Concat(chunks) == Concat(chunks);
  }

  /** Nothing is emitted until a blank line arrives. */
  lemma {:induction false} NoBlankNoFrame(s: State, lines: seq<string>)
    requires "" !in lines
    ensures Fold(s, lines).frames == s.frames
    decreases |lines|
  {
    if lines != [] {
      assert lines[0] in lines;
      NoBlankNoFrame(Line(s, lines[0]), lines[1..]);
    }
  }

  /** A final frame whose blank line never comes is never emitted. */
  lemma {:induction false} UnterminatedFrameNeverEmitted(text: string, tail: string)
    requires "" !in Complete(Rest(text) + tail)
    ensures Parse(text + tail).frames == Parse(text).frames
  {
    LinesOfConcat(text, tail);
    FoldConcat(START, Complete(text), Complete(Rest(text) + tail));
    NoBlankNoFrame(Fold(START, Complete(text)), Complete(Rest(text) + tail));
  }

  /** Frames already emitted are never taken back or reordered. */
  lemma {:induction false} FramesGrow(s: State, lines: seq<string>)
    ensures s.frames <= Fold(s, lines).frames
    decreases |lines|
  {
    if lines != [] {
      FramesGrow(Line(s, lines[0]), lines[1..]);
    }
  }

  // ----- The HTML Standard, sections 9.2.5 and 9.2.6 -------------------------------------------

  /** Where a line ends: at the first CR or LF. */
  function EolAt(s: string): (n: nat)
    ensures n <= |s| && (n < |s| ==> s[n] == '\n' || s[n] == '\r')
  {
    if s == "" || s[0] == '\n' || s[0] == '\r' then 0 else 1 + EolAt(s[1..])
  }

  lemma {:induction false} EolAfter(line: string, rest: string)
    requires '\n' !in line && '\r' !in line
    requires rest == "" || rest[0] == '\n' || rest[0] == '\r'
    ensures EolAt(line + rest) == |line|
  {
    if line == "" {
      assert line + rest == rest;
    } else {
      assert (line + rest)[0] == line[0] && (line + rest)[1..] == line[1..] + rest;
      EolAfter(line[1..], rest);
    }
  }

  lemma {:induction false} EolIsFirst(s: string)
    ensures '\n' !in s[..EolAt(s)] && '\r' !in s[..EolAt(s)]
  {
    if s != "" && s[0] != '\n' && s[0] != '\r' {
      EolIsFirst(s[1..]);
      assert s[..EolAt(s)] == [s[0]] + s[1..][..EolAt(s[1..])];
    }
  }

  /** Where the next line starts: after CRLF, a lone LF or a lone CR. */
  function AfterEol(text: string, n: nat): (k: nat)
    requires n < |text|
    ensures n < k <= |text|
  {
    if text[n] == '\r' && n + 1 < |text| && text[n + 1] == '\n' then n + 2 else n + 1
  }

  /** Section 9.2.5: CRLF, a lone LF and a lone CR each end a line. */
  function StandardLines(text: string): seq<string>
    decreases |text|
  {
    var n := EolAt(text);
    if n == |text| then [] else [text[..n]] + StandardLines(text[AfterEol(text, n)..])
  }

  /** Section 9.2.6: the data buffer and the data of the events dispatched. */
  datatype Standard = Standard(data: string, events: seq<string>)

  function ColonAt(line: string): (n: nat)
    ensures n <= |line| && (n < |line| ==> line[n] == ':')
  {
    IndexOf(line, ':')
  }

  function StandardLine(s: Standard, line: string): Standard {
    if line == "" then
      if s.data == "" then s
      else
        var last := |s.data| - 1;
        Standard("", s.events + [if s.data[last] == '\n' then s.data[..last] else s.data])
    else
      var c := ColonAt(line);
      var value := if c == |line| then "" else line[c + 1..];
      if line[..c] != "data" then s
      else s.(data := s.data + (if value != "" && value[0] == ' ' then value[1..] else value) + "\n")
  }

  function StandardFold(s: Standard, lines: seq<string>): Standard
    decreases |lines|
  {
    if lines == [] then s else StandardFold(StandardLine(s, lines[0]), lines[1..])
  }

  const BOM := '\U{FEFF}'

  /** One leading byte order mark is no part of the stream; the handler's decoder leaves it in. */
  function WithoutBom(text: string): string {
    if text != "" && text[0] == BOM then text[1..] else text
  }

  /** What the standard dispatches; data still pending at the end is discarded. */
  function StandardEvents(text: string): seq<string> {
    StandardFold(Standard("", []), StandardLines(WithoutBom(text))).events
  }

  /** The text keeps to LF and CRLF line endings. */
  predicate OnlyLfAndCrlf(text: string) {
    forall i :: 0 <= i < |text| && text[i] == '\r' ==> i + 1 < |text| && text[i + 1] == '\n'
  }

  lemma {:induction false} EolIsLineEnd(text: string)
    requires OnlyLfAndCrlf(text)
    ensures var n, e := LineEnd(text), EolAt(text);
            if n == |text| then e == n
            else if n > 0 && text[n - 1] == '\r' then e == n - 1 else e == n
  {
    var n, e := LineEnd(text), EolAt(text);
    BeforeEnds(text);
    if e < |text| && text[e] == '\r' {
      assert text[e + 1] == '\n';
    }
  }

  lemma {:induction false} BeforeEnds(text: string)
    ensures forall i :: 0 <= i < LineEnd(text) ==> text[i] != '\n'
    ensures forall i :: 0 <= i < EolAt(text) ==> text[i] != '\n' && text[i] != '\r'
  {
    var n, e := LineEnd(text), EolAt(text);
    IndexOfIsFirst(text, '\n');
    EolIsFirst(text);
    assert forall i :: 0 <= i < n ==> text[i] == text[..n][i];
    assert forall i :: 0 <= i < e ==> text[i] == text[..e][i];
  }

  lemma {:induction false} StrippedAtEol(text: string)
    requires OnlyLfAndCrlf(text) && LineEnd(text) < |text|
    ensures StripCr(text[..LineEnd(text)]) == text[..EolAt(text)]
  {
    var n := LineEnd(text);
    var line := text[..n];
    EolIsLineEnd(text);
    if n > 0 && text[n - 1] == '\r' {
      assert line[..n - 1] == text[..n - 1];
    }
  }

  lemma CrlfAfterLine(text: string)
    requires OnlyLfAndCrlf(text) && LineEnd(text) < |text|
    ensures OnlyLfAndCrlf(text[LineEnd(text) + 1..])
  {
    var rest := text[LineEnd(text) + 1..];
    assert forall i :: 0 <= i < |rest| ==> rest[i] == text[LineEnd(text) + 1 + i];
  }

  lemma {:induction false} SameLineStart(text: string)
    requires OnlyLfAndCrlf(text) && LineEnd(text) < |text|
    ensures EolAt(text) < |text| && AfterEol(text, EolAt(text)) == LineEnd(text) + 1
  {
    EolIsLineEnd(text);
  }

  lemma {:induction false} LinesAgree(text: string)
    requires OnlyLfAndCrlf(text)
    ensures Complete(text) == StandardLines(text)
    decreases |text|
  {
    var n := LineEnd(text);
    if n == |text| {
      EolIsLineEnd(text);
    } else {
      SameLineStart(text);
      StrippedAtEol(text);
      CrlfAfterLine(text);
      LinesAgree(text[n + 1..]);
    }
  }

  /** The data buffer that holds the given lines. */
  function Buffered(lines: seq<string>): string {
    if lines == [] then "" else lines[0] + ("\n" + Buffered(lines[1..]))
  }

  lemma {:induction false} BufferedSnoc(lines: seq<string>, line: string)
    ensures Buffered(lines + [line]) == Buffered(lines) + line + "\n"
  {
    if lines == [] {
      assert lines + [line] == [line];
      assert Buffered([line]) == line + ("\n" + "");
    } else {
      var b := Buffered(lines[1..]);
      assert (lines + [line])[0] == lines[0] && (lines + [line])[1..] == lines[1..] + [line];
      BufferedSnoc(lines[1..], line);
      assert lines[0] + ("\n" + (b + line + "\n")) == lines[0] + ("\n" + b) + line + "\n";
    }
  }

  lemma {:induction false} BufferedIsJoined(lines: seq<string>)
    requires lines != []
    ensures Buffered(lines) == Join(lines, "\n") + "\n"
  {
    if |lines| == 1 {
      assert Buffered(lines) == lines[0] + ("\n" + "");
    } else {
      BufferedIsJoined(lines[1..]);
      var j := Join(lines[1..], "\n");
      assert lines[0] + ("\n" + (j + "\n")) == (lines[0] + "\n" + j) + "\n";
    }
  }

  /** The one field line the two read differently: `data` without a colon. */
  predicate Bare(line: string) { line == "data" }

  lemma ColonOfData(line: string)
    requires "data:" <= line
    ensures ColonAt(line) == 4 && line[..4] == "data"
  {
    assert line[..4] == "data" && line[4] == ':';
    assert line == "data" + line[4..];
    IndexAfter("data", line[4..], ':');
  }

  lemma ColonOfBare()
    ensures ColonAt("data") == 4
  {
    IndexAfter("data", "", ':');
    assert "data" + "" == "data";
  }

  lemma DataNeedsColon(line: string)
    requires line != "" && !Bare(line) && !("data:" <= line)
    ensures line[..ColonAt(line)] != "data"
  {
    var c := ColonAt(line);
    if c == 4 && c < |line| {
      assert line[..5] == line[..4] + [line[4]];
    }
  }

  /** On any line but a bare `data`, the handler and the standard make the same step. */
  lemma SameStep(s: State, t: Standard, line: string)
    requires t == Standard(Buffered(s.dataLines), s.frames) && !Bare(line)
    ensures var s', t' := Line(s, line), StandardLine(t, line);
            t' == Standard(Buffered(s'.dataLines), s'.frames)
  {
    if line == "" {
      if s.dataLines != [] {
        BufferedIsJoined(s.dataLines);
        var j := Join(s.dataLines, "\n");
        assert t.data[|t.data| - 1] == '\n' && t.data[..|t.data| - 1] == j;
      }
    } else if "data:" <= line {
      ColonOfData(line);
      BufferedSnoc(s.dataLines, FieldValue(line));
    } else {
      DataNeedsColon(line);
      assert line[0] == ':' ==> ColonAt(line) == 0;
    }
  }

  lemma {:induction false} SameFold(s: State, t: Standard, lines: seq<string>)
    requires t == Standard(Buffered(s.dataLines), s.frames)
    requires forall i :: 0 <= i < |lines| ==> !Bare(lines[i])
    ensures StandardFold(t, lines).events == Fold(s, lines).frames
    decreases |lines|
  {
    if lines != [] {
      SameStep(s, t, lines[0]);
      SameFold(Line(s, lines[0]), StandardLine(t, lines[0]), lines[1..]);
    }
  }

  /** Characters dispatched, counting one line end for each event. */
  function Weight(events: seq<string>): nat {
    if events == [] then 0 else |events[0]| + 1 + Weight(events[1..])
  }

  lemma {:induction false} WeightSnoc(events: seq<string>, e: string)
    ensures Weight(events + [e]) == Weight(events) + |e| + 1
  {
    if events == [] {
      assert events + [e] == [e];
    } else {
      assert (events + [e])[1..] == events[1..] + [e];
      WeightSnoc(events[1..], e);
    }
  }

  function BareCount(lines: seq<string>): nat {
    if lines == [] then 0 else (if Bare(lines[0]) then 1 else 0) + BareCount(lines[1..])
  }

  /** The data buffer always ends in a line feed when it is not empty. */
  predicate Closed(t: Standard) {
    t.data == "" || t.data[|t.data| - 1] == '\n'
  }

  ghost function Surplus(s: State, t: Standard): int {
    Weight(t.events) + |t.data| - Weight(s.frames) - |Buffered(s.dataLines)|
  }

  lemma SurplusStep(s: State, t: Standard, line: string)
    requires Closed(t)
    ensures var s', t' := Line(s, line), StandardLine(t, line);
            Closed(t') && Surplus(s', t') == Surplus(s, t) + (if Bare(line) then 1 else 0)
  {
    if line == "" {
      if s.dataLines != [] {
        BufferedIsJoined(s.dataLines);
        WeightSnoc(s.frames, Join(s.dataLines, "\n"));
      }
      if t.data != "" {
        WeightSnoc(t.events, t.data[..|t.data| - 1]);
      }
    } else if "data:" <= line {
      ColonOfData(line);
      BufferedSnoc(s.dataLines, FieldValue(line));
    } else if Bare(line) {
      ColonOfBare();
      assert StandardLine(t, line).data == t.data + "" + "\n";
    } else {
      DataNeedsColon(line);
    }
  }

  lemma {:induction false} SurplusFold(s: State, t: Standard, lines: seq<string>)
    requires Closed(t)
    ensures var s', t' := Fold(s, lines), StandardFold(t, lines);
            Closed(t') && Surplus(s', t') == Surplus(s, t) + BareCount(lines)
    decreases |lines|
  {
    if lines != [] {
      SurplusStep(s, t, lines[0]);
      SurplusFold(Line(s, lines[0]), StandardLine(t, lines[0]), lines[1..]);
    }
  }

  lemma {:induction false} StandardFoldConcat(t: Standard, a: seq<string>, b: seq<string>)
    ensures StandardFold(t, a + b) == StandardFold(StandardFold(t, a), b)
    decreases |a|
  {
    if a == [] {
      assert a + b == b;
    } else {
      assert (a + b)[1..] == a[1..] + b;
      StandardFoldConcat(StandardLine(t, a[0]), a[1..], b);
    }
  }

  lemma {:induction false} StandardNoBlank(t: Standard, lines: seq<string>)
    requires "" !in lines
    ensures StandardFold(t, lines).events == t.events
    decreases |lines|
  {
    if lines != [] {
      assert lines[0] in lines;
      StandardNoBlank(StandardLine(t, lines[0]), lines[1..]);
    }
  }

  /** How many lines belong to events already closed by a blank line. */
  function Settled(lines: seq<string>): (n: nat)
    ensures n <= |lines| && "" !in lines[n..]
    ensures n > 0 ==> lines[n - 1] == ""
  {
    if lines == [] then 0
    else if lines[|lines| - 1] == "" then |lines|
    else
      var n := Settled(lines[..|lines| - 1]);
      assert lines[n..] == lines[..|lines| - 1][n..] + [lines[|lines| - 1]];
      n
  }

  lemma {:induction false} NoBareLine(lines: seq<string>)
    ensures BareCount(lines) == 0 <==> forall i :: 0 <= i < |lines| ==> !Bare(lines[i])
  {
    if lines != [] {
      NoBareLine(lines[1..]);
      assert forall i :: 0 <= i < |lines| - 1 ==> lines[1..][i] == lines[i + 1];
    }
  }

  lemma {:induction false} BlankCloses(s: State, t: Standard, lines: seq<string>)
    requires lines == [] ==> s.dataLines == [] && t.data == ""
    requires lines != [] ==> lines[|lines| - 1] == ""
    ensures Fold(s, lines).dataLines == [] && StandardFold(t, lines).data == ""
  {
    if lines != [] {
      var front := lines[..|lines| - 1];
      assert lines == front + [""];
      FoldConcat(s, front, [""]);
      StandardFoldConcat(t, front, [""]);
      var s1, t1 := Fold(s, front), StandardFold(t, front);
      assert Fold(s1, [""]) == Fold(Line(s1, ""), []);
      assert StandardFold(t1, [""]) == StandardFold(StandardLine(t1, ""), []);
    }
  }

  /** The same lines, from the start: the frames agree unless a completed event lost a bare `data`. */
  lemma {:induction false} SameLinesAgree(lines: seq<string>)
    ensures Fold(START, lines).frames == StandardFold(Standard("", []), lines).events
       <==> forall i :: 0 <= i < Settled(lines) ==> !Bare(lines[i])
  {
    var n := Settled(lines);
    var done, tail := lines[..n], lines[n..];
    assert lines == done + tail;
    var t0 := Standard("", []);
    FoldConcat(START, done, tail);
    StandardFoldConcat(t0, done, tail);
    NoBlankNoFrame(Fold(START, done), tail);
    StandardNoBlank(StandardFold(t0, done), tail);
    SurplusFold(START, t0, done);
    BlankCloses(START, t0, done);
    NoBareLine(done);
    assert forall i :: 0 <= i < n ==> done[i] == lines[i];
    if BareCount(done) == 0 {
      SameFold(START, t0, done);
    }
  }

  lemma {:induction false} SettledCons(line: string, rest: seq<string>)
    ensures Settled([line] + rest)
         == (if Settled(rest) > 0 then Settled(rest) + 1 else if line == "" then 1 else 0)
  {
    var all := [line] + rest;
    if rest == [] {
      assert all[..0] == [];
    } else {
      var front, last := rest[..|rest| - 1], rest[|rest| - 1];
      assert all[..|all| - 1] == [line] + front;
      SettledCons(line, front);
    }
  }

  /** A mark is read into the first line, which then is neither blank, nor comment, nor data. */
  lemma MarkedFirstLine(line: string)
    ensures Line(START, [BOM] + line) == START
  {
    var l := [BOM] + line;
    assert l[0] == BOM;
  }

  lemma {:induction false} MarkedLines(text: string)
    ensures var lines := Complete(text);
            Complete([BOM] + text) == if lines == [] then [] else [[BOM] + lines[0]] + lines[1..]
  {
    var n := LineEnd(text);
    assert ([BOM] + text)[1..] == text;
    assert LineEnd([BOM] + text) == n + 1;
    if n < |text| {
      var line, rest := text[..n], text[n + 1..];
      assert ([BOM] + text)[..n + 1] == [BOM] + line && ([BOM] + text)[n + 2..] == rest;
      assert line != "" ==> ([BOM] + line)[..n] == [BOM] + line[..n - 1];
      assert StripCr([BOM] + line) == [BOM] + StripCr(line);
      assert Complete(text)[1..] == Complete(rest);
    }
  }

  /** A `data` field in the marked first line is read by the standard only. */
  predicate Unread(lines: seq<string>, i: nat, marked: bool)
    requires i < |lines|
  {
    Bare(lines[i]) || (marked && i == 0 && "data:" <= lines[0])
  }

  /** No completed event holds a `data` line the handler ignores. */
  predicate AllRead(lines: seq<string>, marked: bool) {
    forall i :: 0 <= i < Settled(lines) ==> !Unread(lines, i, marked)
  }

  /** Data only the standard has seen, and its event completed: the two differ. */
  lemma {:induction false} AheadStaysAhead(t: Standard, rest: seq<string>)
    requires Closed(t) && t.data != "" && t.events == [] && Settled(rest) > 0
    ensures Fold(START, rest).frames != StandardFold(t, rest).events
  {
    var n := Settled(rest);
    var done, tail := rest[..n], rest[n..];
    assert rest == done + tail;
    FoldConcat(START, done, tail);
    StandardFoldConcat(t, done, tail);
    NoBlankNoFrame(Fold(START, done), tail);
    StandardNoBlank(StandardFold(t, done), tail);
    SurplusFold(START, t, done);
    BlankCloses(START, t, done);
  }

  lemma FirstLineOfStandard(line: string)
    ensures var t := StandardLine(Standard("", []), line);
            && Closed(t) && t.events == []
            && (t.data == "" <==> !Bare(line) && !("data:" <= line))
  {
    if "data:" <= line {
      ColonOfData(line);
    } else if Bare(line) {
      ColonOfBare();
    } else if line != "" {
      DataNeedsColon(line);
    }
  }

  lemma UnreadRest(first: string, rest: seq<string>)
    ensures var lines := [first] + rest;
            && (forall i :: 0 < i < |lines| ==> (Unread(lines, i, true) <==> Bare(rest[i - 1])))
            && (forall i :: 0 <= i < |rest| ==> (Bare(rest[i]) <==> Unread(lines, i + 1, true)))
  {
  }

  lemma {:induction false} SkippedAgree(first: string, rest: seq<string>)
    requires !Bare(first) && !("data:" <= first)
    ensures Fold(START, rest).frames == StandardFold(Standard("", []), rest).events
       <==> AllRead([first] + rest, true)
  {
    SameLinesAgree(rest);
    SettledCons(first, rest);
    UnreadRest(first, rest);
  }

  lemma {:induction false} LostAgree(first: string, rest: seq<string>, t: Standard)
    requires Bare(first) || "data:" <= first
    requires Closed(t) && t.data != "" && t.events == []
    ensures Fold(START, rest).frames == StandardFold(t, rest).events <==> AllRead([first] + rest, true)
  {
    SettledCons(first, rest);
    if Settled(rest) > 0 {
      assert Unread([first] + rest, 0, true);
      AheadStaysAhead(t, rest);
    } else {
      NoBlankNoFrame(START, rest);
      StandardNoBlank(t, rest);
    }
  }

  lemma {:induction false} MarkedAgree(lines: seq<string>)
    requires lines != []
    ensures Fold(START, [[BOM] + lines[0]] + lines[1..]).frames == StandardFold(Standard("", []), lines).events
       <==> AllRead(lines, true)
  {
    var first, rest := lines[0], lines[1..];
    var t1 := StandardLine(Standard("", []), first);
    assert ([[BOM] + first] + rest)[1..] == rest && lines == [first] + rest;
    MarkedFirstLine(first);
    FirstLineOfStandard(first);
    if t1.data == "" {
      SkippedAgree(first, rest);
    } else {
      LostAgree(first, rest, t1);
    }
  }

  /**
   * On LF/CRLF text, with or without a byte order mark, the handler emits what the standard
   * dispatches, in order, exactly when no event that was completed holds a `data` line the handler
   * ignores: one without a colon, or any in the first line after a mark.
   */
  lemma AgreesWithStandard(text: string)
    requires OnlyLfAndCrlf(text)
    ensures var lines := Complete(WithoutBom(text));
            Parse(text).frames == StandardEvents(text) <==> AllRead(lines, WithoutBom(text) != text)
  {
    if WithoutBom(text) == text {
      LinesAgree(text);
      SameLinesAgree(Complete(text));
      NothingMarked(Complete(text));
    } else {
      assert text == [BOM] + text[1..];
      MarkedTextAgrees(text[1..]);
    }
  }

  lemma {:induction false} MarkedTextAgrees(t: string)
    requires OnlyLfAndCrlf([BOM] + t)
    ensures WithoutBom([BOM] + t) == t
    ensures Parse([BOM] + t).frames == StandardEvents([BOM] + t) <==> AllRead(Complete(t), true)
  {
    assert ([BOM] + t)[1..] == t;
    EndingsAfterMark(t);
    LinesAgree(t);
    MarkedLines(t);
    if Complete(t) != [] {
      MarkedAgree(Complete(t));
    }
  }

  lemma {:induction false} NothingMarked(lines: seq<string>)
    ensures AllRead(lines, false) <==> forall i :: 0 <= i < Settled(lines) ==> !Bare(lines[i])
  {
    assert forall i :: 0 <= i < |lines| ==> (Unread(lines, i, false) <==> Bare(lines[i]));
  }

  lemma EndingsAfterMark(t: string)
    requires OnlyLfAndCrlf([BOM] + t)
    ensures OnlyLfAndCrlf(t)
  {
    var text := [BOM] + t;
    forall i | 0 <= i < |t| && t[i] == '\r' ensures i + 1 < |t| && t[i + 1] == '\n' {
      assert text[i + 1] == '\r' && text[i + 2] == '\n';
    }
  }

  lemma MarkedEventLines()
    ensures Complete("data:x" + ("\n" + ("" + ("\n" + "")))) == ["data:x"] + [""]
    ensures Settled(["data:x"] + [""]) == 2
  {
    CompleteCons("data:x", "" + ("\n" + ""));
    CompleteCons("", "");
    SettledCons("data:x", [""]);
    assert [""] + [] == [""];
    assert Settled([""]) == 1;
  }

  /** A stream that begins with a mark loses its first event in the handler. */
  lemma MarkDiffers()
    ensures var text := [BOM] + ("data:x" + ("\n" + ("" + ("\n" + ""))));
            OnlyLfAndCrlf(text) && Parse(text).frames != StandardEvents(text)
  {
    var t := "data:x" + ("\n" + ("" + ("\n" + "")));
    var text := [BOM] + t;
    assert text[1..] == t;
    assert '\r' !in t;
    MarkedEventLines();
    var lines := ["data:x"] + [""];
    assert Unread(lines, 0, true);
    MarkedTextAgrees(t);
  }

  lemma EolCut(line: string, eol: char, rest: string)
    requires eol == '\n' || (eol == '\r' && (rest == "" || rest[0] != '\n'))
    ensures var s := line + ([eol] + rest);
            && |line| < |s| && s[|line|] == eol && s[..|line|] == line
            && AfterEol(s, |line|) == |line| + 1 && s[|line| + 1..] == rest
  {
    var s := line + ([eol] + rest);
    assert rest != "" ==> s[|line| + 1] == rest[0];
  }

  lemma {:induction false} StandardLinesCons(line: string, eol: char, rest: string)
    requires '\n' !in line && '\r' !in line
    requires eol == '\n' || (eol == '\r' && (rest == "" || rest[0] != '\n'))
    ensures StandardLines(line + ([eol] + rest)) == [line] + StandardLines(rest)
  {
    EolAfter(line, [eol] + rest);
    EolCut(line, eol, rest);
  }

  /** `data:a`, a lone CR, `b`, and a blank line. */
  function LoneCr(): string {
    "data:a" + ("\r" + ("b" + ("\n" + ("" + ("\n" + "")))))
  }

  lemma LoneCrLines()
    ensures StandardLines(LoneCr()) == ["data:a"] + (["b"] + ([""] + []))
  {
    var tail := "" + ("\n" + "");
    StandardLinesCons("", '\n', "");
    StandardLinesCons("b", '\n', tail);
    StandardLinesCons("data:a", '\r', "b" + ("\n" + tail));
  }

  lemma LoneCrComplete()
    ensures Complete(LoneCr()) == [StripCr("data:a" + ("\r" + "b"))] + ([""] + [])
  {
    var tail := "" + ("\n" + "");
    var line := "data:a" + ("\r" + "b");
    assert LoneCr() == line + ("\n" + tail);
    CompleteCons(line, tail);
    CompleteCons("", "");
  }

  lemma {:induction false} EventsOf(text: string, lines: seq<string>)
    requires text != "" && text[0] != BOM && StandardLines(text) == lines
    ensures StandardEvents(text) == StandardFold(Standard("", []), lines).events
  {
  }

  lemma {:induction false} FramesOf(text: string, lines: seq<string>)
    requires Complete(text) == lines
    ensures Parse(text).frames == Fold(START, lines).frames
  {
  }

  /** A lone CR ends a line for the standard, which sees `data:a` then `b`, but not for the handler. */
  lemma LoneCrDiffers()
    ensures StandardEvents(LoneCr()) == ["a"] && Parse(LoneCr()).frames == ["a\rb"]
  {
    LoneCrLines();
    EventsOf(LoneCr(), ["data:a"] + (["b"] + ([""] + [])));
    LoneCrStandard();
    LoneCrComplete();
    FramesOf(LoneCr(), [StripCr("data:a" + ("\r" + "b"))] + ([""] + []));
    LoneCrHandler();
  }

  lemma LoneCrStandard()
    ensures StandardFold(Standard("", []), ["data:a"] + (["b"] + ([""] + []))).events == ["a"]
  {
    var t0 := Standard("", []);
    ColonOfData("data:a");
    assert "data:a"[5..] == "a" && "" + "a" + "\n" == "a\n";
    DataNeedsColon("b");
    assert "a\n"[..1] == "a";
    assert ["data:a"] + (["b"] + ([""] + [])) == ["data:a", "b", ""];
    var t1 := StandardLine(t0, "data:a");
    assert ["data:a", "b", ""][1..] == ["b", ""] && ["b", ""][1..] == [""] && [""][1..] == [];
    assert StandardFold(t0, ["data:a", "b", ""]) == StandardFold(t1, ["b", ""]);
    assert StandardFold(t1, ["b", ""]) == StandardFold(t1, [""]);
    assert StandardFold(t1, [""]) == StandardFold(StandardLine(t1, ""), []);
  }

  lemma LoneCrHandler()
    ensures var line := "data:a" + ("\r" + "b");
            Fold(START, [StripCr(line)] + ([""] + [])).frames == ["a\rb"]
  {
    var line := "data:a" + ("\r" + "b");
    assert line == "data:a\rb" && "data:" <= line && line[5..] == "a\rb";
    var s1 := Line(START, line);
    assert [line] + ([""] + []) == [line, ""];
    assert [line, ""][1..] == [""] && [""][1..] == [];
    assert Fold(START, [line, ""]) == Fold(s1, [""]);
    assert Fold(s1, [""]) == Fold(Line(s1, ""), []);
  }

  predicate NoCr(texts: seq<string>) {
    forall i :: 0 <= i < |texts| ==> '\r' !in texts[i]
  }

  lemma {:induction false} StandardLinesHaveNoCr(text: string)
    ensures NoCr(StandardLines(text))
    decreases |text|
  {
    var n := EolAt(text);
    if n < |text| {
      EolIsFirst(text);
      StandardLinesHaveNoCr(text[AfterEol(text, n)..]);
    }
  }

  lemma StandardLineAddsNoCr(s: Standard, line: string)
    requires '\r' !in line && '\r' !in s.data && NoCr(s.events)
    ensures '\r' !in StandardLine(s, line).data && NoCr(StandardLine(s, line).events)
  {
  }

  lemma {:induction false} StandardFoldHasNoCr(s: Standard, lines: seq<string>)
    requires NoCr(lines) && '\r' !in s.data && NoCr(s.events)
    ensures NoCr(StandardFold(s, lines).events)
    decreases |lines|
  {
    if lines != [] {
      StandardLineAddsNoCr(s, lines[0]);
      StandardFoldHasNoCr(StandardLine(s, lines[0]), lines[1..]);
    }
  }

  /** A frame that keeps a lone CR is never what the standard dispatches, whatever else the text holds. */
  lemma CrInFrameDiffers(text: string)
    requires !NoCr(Parse(text).frames)
    ensures Parse(text).frames != StandardEvents(text)
  {
    StandardLinesHaveNoCr(WithoutBom(text));
    StandardFoldHasNoCr(Standard("", []), StandardLines(WithoutBom(text)));
  }

  // ----- Printing and parsing back -------------------------------------------------------------

  /** A line a server may send inside a frame, with its line ending. */
  datatype WireLine =
    | Data(text: string, crlf: bool)
    | Comment(text: string, crlf: bool)
  {
    /** A line feed would end the line early; a CR before a bare LF would be taken for CRLF. */
    predicate Sendable() {
      '\n' !in text && (Data? && !crlf && text != "" ==> text[|text| - 1] != '\r')
    }

    function Body(): string {
      (if Data? then "data: " else ":") + text + (if crlf then "\r" else "")
    }
  }

  /** Lines in order, then the blank line that closes the frame. */
  datatype WireFrame = WireFrame(lines: seq<WireLine>, crlf: bool)

  function PrintLines(lines: seq<WireLine>): string {
    if lines == [] then "" else lines[0].Body() + ("\n" + PrintLines(lines[1..]))
  }

  function Print(frames: seq<WireFrame>): string {
    if frames == [] then ""
    else PrintLines(frames[0].lines) + ((if frames[0].crlf then "\r" else "") + ("\n" + Print(frames[1..])))
  }

  function Texts(lines: seq<WireLine>): seq<string> {
    if lines == [] then []
    else (if lines[0].Data? then [lines[0].text] else []) + Texts(lines[1..])
  }

  /** The payloads sent: one per frame with data, its texts joined by line feeds. */
  function Payloads(frames: seq<WireFrame>): seq<string> {
    if frames == [] then []
    else
      var texts := Texts(frames[0].lines);
      (if texts == [] then [] else [Join(texts, "\n")]) + Payloads(frames[1..])
  }

  ghost predicate Sendable(frames: seq<WireFrame>) {
    forall i, j :: 0 <= i < |frames| && 0 <= j < |frames[i].lines| ==> frames[i].lines[j].Sendable()
  }

  function StrippedLines(lines: seq<WireLine>): seq<string> {
    if lines == [] then [] else [StripCr(lines[0].Body())] + StrippedLines(lines[1..])
  }

  lemma BodyHasNoLf(w: WireLine)
    requires w.Sendable()
    ensures '\n' !in w.Body()
  {
    assert '\n' !in "data: " && '\n' !in ":" && '\n' !in "\r";
  }

  lemma {:induction false} CompletePrintLines(lines: seq<WireLine>, rest: string)
    requires forall j :: 0 <= j < |lines| ==> lines[j].Sendable()
    ensures Complete(PrintLines(lines) + rest) == StrippedLines(lines) + Complete(rest)
    ensures Rest(PrintLines(lines) + rest) == Rest(rest)
  {
    if lines == [] {
      assert PrintLines(lines) + rest == rest;
      assert StrippedLines(lines) + Complete(rest) == Complete(rest);
    } else {
      var body, more := lines[0].Body(), PrintLines(lines[1..]);
      BodyHasNoLf(lines[0]);
      CompleteCons(body, more + rest);
      CompletePrintLines(lines[1..], rest);
      Assoc(body, "\n" + more, rest);
      Assoc("\n", more, rest);
      Assoc([StripCr(body)], StrippedLines(lines[1..]), Complete(rest));
    }
  }

  lemma LineOfWire(s: State, w: WireLine)
    requires w.Sendable()
    ensures Line(s, StripCr(w.Body())) == if w.Data? then s.(dataLines := s.dataLines + [w.text]) else s
  {
    var body := w.Body();
    if w.Data? {
      var sent := "data: " + w.text;
      assert StripCr(body) == sent by {
        if w.crlf {
          assert body[..|body| - 1] == sent;
        } else {
          assert body == sent;
          assert w.text != "" ==> body[|body| - 1] == w.text[|w.text| - 1];
        }
      }
      assert sent[..5] == "data:" && sent[5..] == [' '] + w.text;
    } else {
      assert body[0] == ':';
      assert body == ":" ==> StripCr(body) == ":";
    }
  }

  lemma {:induction false} FoldWireLines(s: State, lines: seq<WireLine>)
    requires forall j :: 0 <= j < |lines| ==> lines[j].Sendable()
    ensures Fold(s, StrippedLines(lines)) == s.(dataLines := s.dataLines + Texts(lines))
    decreases |lines|
  {
    if lines == [] {
      assert s.dataLines + Texts(lines) == s.dataLines;
    } else {
      LineOfWire(s, lines[0]);
      var s1 := Line(s, StripCr(lines[0].Body()));
      assert StrippedLines(lines)[1..] == StrippedLines(lines[1..]);
      FoldWireLines(s1, lines[1..]);
      if lines[0].Data? {
        Assoc(s.dataLines, [lines[0].text], Texts(lines[1..]));
      } else {
        assert Texts(lines) == Texts(lines[1..]);
      }
    }
  }

  lemma {:induction false} FoldWireFrames(s: State, frames: seq<WireFrame>)
    requires s.dataLines == [] && Sendable(frames)
    ensures Fold(s, Complete(Print(frames))) == s.(frames := s.frames + Payloads(frames))
    ensures Rest(Print(frames)) == ""
    decreases |frames|
  {
    if frames == [] {
      assert s.frames + Payloads(frames) == s.frames;
    } else {
      var f, more := frames[0], Print(frames[1..]);
      var blank := if f.crlf then "\r" else "";
      var texts := Texts(f.lines);
      assert f == frames[0];
      CompletePrintLines(f.lines, blank + ("\n" + more));
      CompleteCons(blank, more);
      assert StripCr(blank) == "";
      var rest := [""] + Complete(more);
      FoldConcat(s, StrippedLines(f.lines), rest);
      FoldWireLines(s, f.lines);
      var s1 := s.(dataLines := texts);
      assert s.dataLines + texts == texts;
      var s2 := Line(s1, "");
      assert rest[1..] == Complete(more);
      assert Fold(s1, rest) == Fold(s2, Complete(more));
      FoldWireFrames(s2, frames[1..]);
      if texts != [] {
        Assoc(s.frames, [Join(texts, "\n")], Payloads(frames[1..]));
      } else {
        assert Payloads(frames) == Payloads(frames[1..]);
      }
    }
  }

  /** What was printed is what is parsed, whatever the line endings, comments and chunks. */
  lemma {:induction false} PrintParse(frames: seq<WireFrame>, chunks: seq<string>)
    requires Sendable(frames) && Concat(chunks) == Print(frames)
    ensures FeedAll(START, chunks) == State("", [], Payloads(frames))
  {
    ChunkInvariance(chunks);
    FoldWireFrames(START, frames);
    assert [] + Payloads(frames) == Payloads(frames);
  }
}
