/** Server-sent event framing: the writers of the stream handler, the chunked parser of the web client
    and the line reader of the command-line client (sections 9.2.5 and 9.2.6 of the WHATWG HTML Living
    Standard, for the fields used). */
module Sse {
  import opened Basics

  datatype Event = Event(eventType: string, data: string)

  // ----- Writing -------------------------------------------------------------------------------------

  datatype Piece = EventPiece(e: Event) | CommentPiece(text: string)

  const LF := "\n"

  /** writeSSEEvent and writeSSEComment. */
  function Encode(p: Piece): string {
    match p
    case EventPiece(e) => "event: " + e.eventType + LF + "data: " + e.data + LF + LF
    case CommentPiece(text) => ": " + text + LF + LF
  }

  function EncodeAll(pieces: seq<Piece>): string {
    if pieces == [] then "" else Encode(pieces[0]) + EncodeAll(pieces[1..])
  }

  function EventOf(p: Piece): seq<Event> {
    match p
    case EventPiece(e) => [e]
    case CommentPiece(_) => []
  }

  function EventsOf(pieces: seq<Piece>): seq<Event> {
    if pieces == [] then []
    else EventOf(pieces[0]) + EventsOf(pieces[1..])
  }

  predicate OneLine(s: string) {
    forall i :: 0 <= i < |s| ==> s[i] != '\n' && s[i] != '\r'
  }

  /** What the handler writes: a type without space at its ends, and bodies and comments on one line. */
  predicate Writable(p: Piece) {
    match p
    case EventPiece(e) => OneLine(e.eventType) && OneLine(e.data) && JsTight(e.eventType) && e.eventType != ""
    case CommentPiece(text) => OneLine(text)
  }

  // ----- The web client's parser ---------------------------------------------------------------------

  /** The characters JavaScript's trim removes. */
  predicate JsSpace(c: char) {
    (IsSpace(c) && c != '\U{0085}') || c == '\U{FEFF}'
  }

  function JsTrimStart(s: string): string {
    if s != [] && JsSpace(s[0]) then JsTrimStart(s[1..]) else s
  }

  function JsTrim(s: string): string {
    JsTrimEnd(JsTrimStart(s))
  }

  function JsTrimEnd(s: string): string {
    if s != [] && JsSpace(s[|s| - 1]) then JsTrimEnd(s[..|s| - 1]) else s
  }

  predicate JsTight(s: string) {
    s != [] ==> !JsSpace(s[0]) && !JsSpace(s[|s| - 1])
  }

  datatype Parser = Parser(buffer: string, eventType: string, dataLines: seq<string>, out: seq<Event>)

  const NEW_PARSER := Parser("", "", [], [])

  function Join(lines: seq<string>): string {
    if lines == [] then "" else if |lines| == 1 then lines[0] else Join(lines[..|lines| - 1]) + LF + lines[|lines| - 1]
  }

  function Flushed(p: Parser): Parser {
    if p.eventType == "" && p.dataLines == [] then p
    else Parser(p.buffer, "", [], p.out + [Event(p.eventType, Join(p.dataLines))])
  }

  /** One complete line, without its line end. */
  function AfterLine(p: Parser, line: string): Parser {
    if line == "" then Flushed(p)
    else if line[0] == ':' then p
    else if "event: " <= line then p.(eventType := JsTrim(line[7..]))
    else if "data: " <= line then p.(dataLines := p.dataLines + [line[6..]])
    else p
  }

  /** The parser as it would run character by character. */
  function AfterChars(p: Parser, s: string): Parser {
    if s == "" then p
    else
      var before := AfterChars(p, s[..|s| - 1]);
      var c := s[|s| - 1];
      if c == '\r' then before
      else if c == '\n' then AfterLine(before.(buffer := ""), before.buffer)
      else before.(buffer := before.buffer + [c])
  }

  /** The events of a whole stream. */
  function Parsed(s: string): seq<Event> {
    Flushed(AfterChars(NEW_PARSER, s)).out
  }

  function Flatten(chunks: seq<string>): string {
    if chunks == [] then "" else Flatten(chunks[..|chunks| - 1]) + chunks[|chunks| - 1]
  }

  /** `replace(/\r/g, '')`. */
  function WithoutCr(s: string): string {
    if s == "" then "" else WithoutCr(s[..|s| - 1]) + if s[|s| - 1] == '\r' then "" else [s[|s| - 1]]
  }

  /** `split('\n')`: one more line than there are line feeds. */
  function Split(s: string): (lines: seq<string>)
    ensures lines != []
  {
    if s == "" then [""]
    else
      var lines := Split(s[..|s| - 1]);
      if s[|s| - 1] == '\n' then lines + [""] else lines[..|lines| - 1] + [lines[|lines| - 1] + [s[|s| - 1]]]
  }

  function AfterLines(p: Parser, lines: seq<string>): Parser {
    if lines == [] then p else AfterLine(AfterLines(p, lines[..|lines| - 1]), lines[|lines| - 1])
  }

  lemma {:induction false} BufferUntouchedByLines(p: Parser, lines: seq<string>, buffer: string)
    ensures AfterLines(p.(buffer := buffer), lines) == AfterLines(p, lines).(buffer := buffer)
  {
    if lines != [] {
      BufferUntouchedByLines(p, lines[..|lines| - 1], buffer);
    }
  }

  /** Splitting the cleaned text into lines and handling them is what the character-wise parser does. */
  lemma {:induction false} SplitIsCharWise(p: Parser, s: string)
    requires p.buffer == ""
    ensures var lines := Split(WithoutCr(s));
            AfterChars(p, s) == AfterLines(p, lines[..|lines| - 1]).(buffer := lines[|lines| - 1])
  {
    if s != "" {
      var n := |s| - 1;
      SplitIsCharWise(p, s[..n]);
      var before := Split(WithoutCr(s[..n]));
      var lines := Split(WithoutCr(s));
      if s[n] != '\r' {
        assert WithoutCr(s)[..|WithoutCr(s)| - 1] == WithoutCr(s[..n]);
        if s[n] == '\n' {
          assert lines[..|lines| - 1] == before;
          BufferUntouchedByLines(p, before[..|before| - 1], before[|before| - 1]);
        } else {
          assert lines[..|lines| - 1] == before[..|before| - 1];
        }
      } else {
        assert WithoutCr(s) == WithoutCr(s[..n]);
      }
    }
  }

  lemma {:induction false} CharsOfConcat(p: Parser, a: string, b: string)
    ensures AfterChars(p, a + b) == AfterChars(AfterChars(p, a), b)
  {
    if b == "" {
      assert a + b == a;
    } else {
      assert (a + b)[..|a + b| - 1] == a + b[..|b| - 1];
      CharsOfConcat(p, a, b[..|b| - 1]);
    }
  }

  /** Characters on one line only fill the buffer. */
  lemma {:induction false} PlainFillsBuffer(p: Parser, s: string)
    requires OneLine(s)
    ensures AfterChars(p, s) == p.(buffer := p.buffer + s)
  {
    if s != "" {
      assert OneLine(s[..|s| - 1]);
      PlainFillsBuffer(p, s[..|s| - 1]);
      assert s[|s| - 1] != '\r' && s[|s| - 1] != '\n';
      assert p.buffer + s == (p.buffer + s[..|s| - 1]) + [s[|s| - 1]];
    } else {
      assert p.buffer + s == p.buffer;
    }
  }

  /** readSSE: appends each chunk to the buffer, handles the complete lines and keeps the rest. */
  method ReadSSE(chunks: seq<string>) returns (events: seq<Event>)
    ensures events == Parsed(Flatten(chunks))
  {
    var p := NEW_PARSER;
    var i := 0;
    while i < |chunks|
      invariant 0 <= i <= |chunks|
      invariant p == AfterChars(NEW_PARSER, Flatten(chunks[..i])) && OneLine(p.buffer)
    {
      assert chunks[..i + 1][..i] == chunks[..i];
      p := ReadChunk(p, chunks[i]);
      CharsOfConcat(NEW_PARSER, Flatten(chunks[..i]), chunks[i]);
      i := i + 1;
    }
    assert chunks[..i] == chunks;
    events := Flushed(p).out;
  }

  method ReadChunk(p: Parser, chunk: string) returns (q: Parser)
    requires OneLine(p.buffer)
    ensures q == AfterChars(p, chunk) && OneLine(q.buffer)
  {
    var empty := p.(buffer := "");
    var lines := Split(WithoutCr(p.buffer + chunk));
    q := empty;
    var j := 0;
    while j < |lines| - 1
      invariant 0 <= j <= |lines| - 1
      invariant q == AfterLines(empty, lines[..j])
    {
      assert lines[..j + 1][..j] == lines[..j];
      q := AfterLine(q, lines[j]);
      j := j + 1;
    }
    q := q.(buffer := lines[|lines| - 1]);
    SplitIsCharWise(empty, p.buffer + chunk);
    CharsOfConcat(empty, p.buffer, chunk);
    PlainFillsBuffer(empty, p.buffer);
    assert empty.(buffer := empty.buffer + p.buffer) == p;
    LinesAreOneLine(p.buffer + chunk);
  }

  lemma {:induction false} LinesAreOneLine(s: string)
    ensures forall line :: line in Split(WithoutCr(s)) ==> OneLine(line)
  {
    if s != "" {
      var n := |s| - 1;
      LinesAreOneLine(s[..n]);
      var before, lines := Split(WithoutCr(s[..n])), Split(WithoutCr(s));
      if s[n] == '\r' {
        assert WithoutCr(s) == WithoutCr(s[..n]);
      } else {
        assert WithoutCr(s)[..|WithoutCr(s)| - 1] == WithoutCr(s[..n]);
        var last := before[|before| - 1];
        assert OneLine(last);
        assert lines == if s[n] == '\n' then before + [""] else before[..|before| - 1] + [last + [s[n]]];
      }
    }
  }

  // ----- Reading back what was written ---------------------------------------------------------------

  lemma LineIsHandled(p: Parser, line: string)
    requires OneLine(line) && p.buffer == ""
    ensures AfterChars(p, line + LF) == AfterLine(p, line)
  {
    assert (line + LF)[..|line|] == line;
    PlainFillsBuffer(p, line);
    assert "" + line == line;
    assert p.(buffer := line).(buffer := "") == p;
  }

  lemma JsTightIsTrimmed(s: string)
    requires JsTight(s)
    ensures JsTrim(s) == s
  {
  }

  /** Two lines and an empty one. */
  lemma BlockIsHandled(p: Parser, a: string, b: string)
    requires OneLine(a) && OneLine(b) && p.buffer == ""
    ensures AfterChars(p, a + LF + b + LF + LF) == AfterLine(AfterLine(AfterLine(p, a), b), "")
  {
    assert a + LF + b + LF + LF == (a + LF) + (b + LF) + LF;
    CharsOfConcat(p, a + LF, b + LF);
    CharsOfConcat(p, (a + LF) + (b + LF), LF);
    LineIsHandled(p, a);
    LineIsHandled(AfterLine(p, a), b);
    assert "" + LF == LF;
    LineIsHandled(AfterLine(AfterLine(p, a), b), "");
  }

  lemma CommentBlockIsHandled(p: Parser, a: string)
    requires OneLine(a) && p.buffer == ""
    ensures AfterChars(p, a + LF + LF) == AfterLine(AfterLine(p, a), "")
  {
    CharsOfConcat(p, a + LF, LF);
    LineIsHandled(p, a);
    assert "" + LF == LF;
    LineIsHandled(AfterLine(p, a), "");
  }

  lemma TypeLine(p: Parser, t: string)
    requires JsTight(t) && OneLine(t)
    ensures AfterLine(p, "event: " + t) == p.(eventType := t) && OneLine("event: " + t)
  {
    var line := "event: " + t;
    assert line[0] == 'e' && line[7..] == t;
    JsTightIsTrimmed(t);
  }

  lemma DataLine(p: Parser, d: string)
    requires OneLine(d)
    ensures AfterLine(p, "data: " + d) == p.(dataLines := p.dataLines + [d]) && OneLine("data: " + d)
  {
    var line := "data: " + d;
    assert line[0] == 'd' && line[6..] == d;
  }

  lemma CommentLine(p: Parser, text: string)
    requires OneLine(text)
    ensures AfterLine(p, ": " + text) == p && OneLine(": " + text)
  {
    assert (": " + text)[0] == ':';
  }

  predicate Clean(p: Parser) {
    p.buffer == "" && p.eventType == "" && p.dataLines == []
  }

  /** A text that a clean parser reads as these events, and that leaves it clean. */
  ghost predicate ReadsAs(text: string, events: seq<Event>) {
    forall p: Parser {:trigger AfterChars(p, text)} :: Clean(p) ==> AfterChars(p, text) == p.(out := p.out + events)
  }

  lemma EventReadsAs(e: Event)
    requires Writable(EventPiece(e))
    ensures ReadsAs(Encode(EventPiece(e)), [e])
  {
    var a, b := "event: " + e.eventType, "data: " + e.data;
    var text := a + LF + b + LF + LF;
    forall p: Parser | Clean(p) ensures AfterChars(p, text) == p.(out := p.out + [e]) {
      TypeLine(p, e.eventType);
      DataLine(p.(eventType := e.eventType), e.data);
      BlockIsHandled(p, a, b);
      assert [] + [e.data] == [e.data] && Join([e.data]) == e.data;
    }
    assert Encode(EventPiece(e)) == text;
  }

  lemma CommentReadsAs(line: string)
    ensures OneLine(line) ==> ReadsAs(Encode(CommentPiece(line)), [])
  {
    if OneLine(line) {
      var a := ": " + line;
      var text := a + LF + LF;
      forall p: Parser | Clean(p) ensures AfterChars(p, text) == p.(out := p.out + []) {
        CommentLine(p, line);
        CommentBlockIsHandled(p, a);
        assert p.out + [] == p.out;
      }
      assert Encode(CommentPiece(line)) == text;
    }
  }

  lemma {:induction false} ReadAt(p: Parser, text: string, events: seq<Event>) returns (q: Parser)
    requires ReadsAs(text, events) && Clean(p)
    ensures q == p.(out := p.out + events) == AfterChars(p, text) && Clean(q)
  {
    q := p.(out := p.out + events);
  }

  lemma {:induction false} ConcatReadsAs(text: string, events: seq<Event>, rest: string, more: seq<Event>)
    requires ReadsAs(text, events) && ReadsAs(rest, more)
    ensures ReadsAs(text + rest, events + more)
  {
    forall p: Parser | Clean(p) ensures AfterChars(p, text + rest) == p.(out := p.out + (events + more)) {
      var q := ReadAt(p, text, events);
      var r := ReadAt(q, rest, more);
      CharsOfConcat(p, text, rest);
      assert r.out == p.out + (events + more);
    }
  }

  lemma {:induction false} PiecesReadAs(pieces: seq<Piece>)
    requires forall i :: 0 <= i < |pieces| ==> Writable(pieces[i])
    ensures ReadsAs(EncodeAll(pieces), EventsOf(pieces))
    decreases |pieces|
  {
    if pieces == [] {
      assert forall p: Parser :: p.(out := p.out + []) == p;
    } else {
      var piece := pieces[0];
      assert Writable(piece);
      PiecesReadAs(pieces[1..]);
      if piece.EventPiece? {
        EventReadsAs(piece.e);
        ConcatReadsAs(Encode(piece), [piece.e], EncodeAll(pieces[1..]), EventsOf(pieces[1..]));
      } else {
        CommentReadsAs(piece.text);
        ConcatReadsAs(Encode(piece), [], EncodeAll(pieces[1..]), EventsOf(pieces[1..]));
      }
    }
  }

  /** The web client reads back every written event, in order, whatever the chunks and keepalives. */
  lemma WebReadsBack(pieces: seq<Piece>, chunks: seq<string>)
    requires (forall i :: 0 <= i < |pieces| ==> Writable(pieces[i])) && Flatten(chunks) == EncodeAll(pieces)
    ensures Parsed(Flatten(chunks)) == EventsOf(pieces)
  {
    PiecesReadAs(pieces);
    assert Clean(NEW_PARSER);
    assert [] + EventsOf(pieces) == EventsOf(pieces);
  }

  // ----- The command-line client's reader ------------------------------------------------------------

  /** The index after the first line feed at or behind i, or -1 when there is none (end of file). */
  function LineEnd(s: string, i: nat): (r: int)
    requires i <= |s|
    ensures r == -1 || (i < r <= |s| && s[r - 1] == '\n' && forall k :: i <= k < r - 1 ==> s[k] != '\n')
    ensures r == -1 ==> forall k :: i <= k < |s| ==> s[k] != '\n'
    decreases |s| - i
  {
    if i == |s| then -1 else if s[i] == '\n' then i + 1 else LineEnd(s, i + 1)
  }

  /** `strings.TrimRight(s, "\r\n")`. */
  function TrimLineEnd(s: string): string {
    if s != [] && (s[|s| - 1] == '\n' || s[|s| - 1] == '\r') then TrimLineEnd(s[..|s| - 1]) else s
  }

  /** What readSSEEvent has gathered: data is None until the first data line. */
  datatype Gathered = Gathered(eventType: string, data: Option<string>)

  function Gather(g: Gathered, line: string): Gathered {
    if line != "" && line[0] == ':' then g
    else if "event: " <= line then g.(eventType := TrimLineEnd(line[7..]))
    else if "data: " <= line then
      var part := TrimLineEnd(line[6..]);
      g.(data := Some(match g.data case None => part case Some(d) => d + LF + part))
    else g
  }

  predicate NothingGathered(g: Gathered) {
    g.eventType == "" && (g.data == None || g.data == Some(""))
  }

  function Finished(g: Gathered): Event {
    Event(g.eventType, match g.data case None => "" case Some(d) => d)
  }

  datatype Read = Eof | Next(e: Event, pos: nat)

  /** One call of readSSEEvent on stream s from position pos. */
  function ReadFrom(s: string, pos: nat, g: Gathered): (r: Read)
    requires pos <= |s|
    ensures r.Next? ==> pos < r.pos <= |s|
    decreases |s| - pos
  {
    var end := LineEnd(s, pos);
    if end == -1 then Eof
    else
      var line := s[pos..end];
      if line == LF then if NothingGathered(g) then ReadFrom(s, end, g) else Next(Finished(g), end)
      else ReadFrom(s, end, Gather(g, line))
  }

  const NOTHING := Gathered("", None)

  method ReadSSEEvent(s: string, pos: nat) returns (r: Read)
    requires pos <= |s|
    ensures r == ReadFrom(s, pos, NOTHING)
  {
    var eventType := "";
    var data: Option<string> := None;
    var at := pos;
    while true
      invariant pos <= at <= |s|
      invariant ReadFrom(s, at, Gathered(eventType, data)) == ReadFrom(s, pos, NOTHING)
      decreases |s| - at
    {
      var end := LineEnd(s, at);
      if end == -1 {
        return Eof;
      }
      var line := s[at..end];
      at := end;
      if line == LF {
        if eventType == "" && (data == None || data == Some("")) {
          continue;
        }
        return Next(Finished(Gathered(eventType, data)), at);
      }
      if line[0] == ':' {
        continue;
      }
      if "event: " <= line {
        eventType := TrimLineEnd(line[7..]);
      } else if "data: " <= line {
        var part := TrimLineEnd(line[6..]);
        data := Some(match data case None => part case Some(d) => d + LF + part);
      }
    }
  }

  /** All events of a stream, one call after the other until the end of file. */
  function ReadAll(s: string, pos: nat): seq<Event>
    requires pos <= |s|
    decreases |s| - pos
  {
    match ReadFrom(s, pos, NOTHING)
    case Eof => []
    case Next(e, next) => [e] + ReadAll(s, next)
  }

  /** text stands in s at pos. */
  predicate At(s: string, pos: nat, text: string) {
    pos + |text| <= |s| && s[pos..pos + |text|] == text
  }

  lemma AtConcat(s: string, pos: nat, a: string, b: string, mid: nat)
    requires At(s, pos, a + b) && mid == pos + |a|
    ensures At(s, pos, a) && At(s, mid, b)
  {
    var cut := s[pos..pos + |a + b|];
    assert cut[..|a|] == a && cut[|a|..] == b;
  }

  lemma LineIsRead(s: string, pos: nat, line: string, g: Gathered, end: nat)
    requires OneLine(line) && At(s, pos, line + LF) && end == pos + |line| + 1
    ensures LineEnd(s, pos) == end
    ensures line != "" ==> ReadFrom(s, pos, g) == ReadFrom(s, end, Gather(g, line + LF))
    ensures line == "" ==> ReadFrom(s, pos, g) == if NothingGathered(g) then ReadFrom(s, end, g) else Next(Finished(g), end)
  {
    var cut := s[pos..end];
    assert forall k :: 0 <= k < |line| ==> s[pos + k] == cut[k] == line[k];
    assert s[pos + |line|] == cut[|line|] == '\n';
    var e := LineEnd(s, pos);
    if line != "" {
      assert (line + LF)[0] == line[0] && line[0] != '\n';
    }
  }

  lemma TrimmedLine(line: string)
    requires OneLine(line)
    ensures TrimLineEnd(line + LF) == line
  {
    assert (line + LF)[..|line|] == line;
  }

  lemma GatherType(g: Gathered, t: string)
    requires OneLine(t)
    ensures Gather(g, "event: " + t + LF) == g.(eventType := t) && OneLine("event: " + t)
  {
    var line := "event: " + t + LF;
    assert line[0] == 'e' && line[7..] == t + LF;
    TrimmedLine(t);
  }

  lemma GatherData(g: Gathered, d: string)
    requires OneLine(d) && g.data == None
    ensures Gather(g, "data: " + d + LF) == g.(data := Some(d)) && OneLine("data: " + d)
  {
    var line := "data: " + d + LF;
    assert line[0] == 'd' && line[6..] == d + LF;
    TrimmedLine(d);
  }

  /** Two lines and an empty one. */
  lemma BlockIsRead(s: string, pos: nat, a: string, p: nat, b: string, q: nat, g: Gathered, h: Gathered)
    requires OneLine(a) && OneLine(b) && a != "" && b != "" && p == pos + |a| + 1 && q == p + |b| + 1
    requires Gather(NOTHING, a + LF) == g && Gather(g, b + LF) == h && !NothingGathered(h)
    requires At(s, pos, a + LF) && At(s, p, b + LF) && At(s, q, "" + LF)
    ensures ReadFrom(s, pos, NOTHING) == Next(Finished(h), q + 1)
  {
    LineIsRead(s, pos, a, NOTHING, p);
    LineIsRead(s, p, b, g, q);
    LineIsRead(s, q, "", h, q + 1);
  }

  lemma BlockParts(s: string, pos: nat, a: string, p: nat, b: string, q: nat)
    requires At(s, pos, a + LF + b + LF + LF) && p == pos + |a| + 1 && q == p + |b| + 1
    ensures At(s, pos, a + LF) && At(s, p, b + LF) && At(s, q, "" + LF)
  {
    assert a + LF + b + LF + LF == (a + LF) + ((b + LF) + ("" + LF));
    AtConcat(s, pos, a + LF, (b + LF) + ("" + LF), p);
    AtConcat(s, p, b + LF, "" + LF, q);
  }

  /** A written event is read by one call, wherever it stands. */
  lemma EventIsRead(s: string, pos: nat, e: Event, end: nat)
    requires Writable(EventPiece(e)) && At(s, pos, Encode(EventPiece(e))) && end == pos + |Encode(EventPiece(e))|
    ensures ReadFrom(s, pos, NOTHING) == Next(e, end)
  {
    var a, b := "event: " + e.eventType, "data: " + e.data;
    var p := pos + |a| + 1;
    GatherType(NOTHING, e.eventType);
    GatherData(Gathered(e.eventType, None), e.data);
    BlockParts(s, pos, a, p, b, p + |b| + 1);
    BlockIsRead(s, pos, a, p, b, p + |b| + 1, Gathered(e.eventType, None), Gathered(e.eventType, Some(e.data)));
  }

  lemma CommentIsRead(s: string, pos: nat, a: string, p: nat, end: nat)
    requires OneLine(a) && a != "" && a[0] == ':' && p == pos + |a| + 1 && end == p + 1
    requires At(s, pos, a + LF) && At(s, p, "" + LF)
    ensures ReadFrom(s, pos, NOTHING) == ReadFrom(s, end, NOTHING)
  {
    assert (a + LF)[0] == ':';
    LineIsRead(s, pos, a, NOTHING, p);
    LineIsRead(s, p, "", NOTHING, end);
  }

  /** A keepalive yields nothing. */
  lemma CommentIsSkipped(s: string, pos: nat, text: string, end: nat)
    requires OneLine(text) && At(s, pos, Encode(CommentPiece(text))) && end == pos + |Encode(CommentPiece(text))|
    ensures ReadFrom(s, pos, NOTHING) == ReadFrom(s, end, NOTHING)
  {
    var a := ": " + text;
    var p := pos + |a| + 1;
    assert Encode(CommentPiece(text)) == (a + LF) + ("" + LF);
    AtConcat(s, pos, a + LF, "" + LF, p);
    CommentIsRead(s, pos, a, p, end);
  }

  lemma {:induction false} NextThenRest(s: string, pos: nat, e: Event, next: nat)
    requires pos <= |s| && next <= |s| && ReadFrom(s, pos, NOTHING) == Next(e, next)
    ensures ReadAll(s, pos) == [e] + ReadAll(s, next)
  {
  }

  lemma {:induction false} SkipThenRest(s: string, pos: nat, next: nat)
    requires pos <= next <= |s| && ReadFrom(s, pos, NOTHING) == ReadFrom(s, next, NOTHING)
    ensures ReadAll(s, pos) == ReadAll(s, next)
  {
  }

  lemma {:induction false} PieceThenRest(s: string, pos: nat, piece: Piece, end: nat)
    requires Writable(piece) && At(s, pos, Encode(piece)) && end == pos + |Encode(piece)|
    ensures end <= |s| && ReadAll(s, pos) == EventOf(piece) + ReadAll(s, end)
  {
    if piece.EventPiece? {
      EventIsRead(s, pos, piece.e, end);
      NextThenRest(s, pos, piece.e, end);
    } else {
      CommentIsSkipped(s, pos, piece.text, end);
      SkipThenRest(s, pos, end);
    }
  }

  lemma {:induction false} PiecesReadBack(s: string, pos: nat, pieces: seq<Piece>)
    requires forall i :: 0 <= i < |pieces| ==> Writable(pieces[i])
    requires At(s, pos, EncodeAll(pieces)) && pos + |EncodeAll(pieces)| == |s|
    ensures ReadAll(s, pos) == EventsOf(pieces)
    decreases |pieces|
  {
    if pieces == [] {
      assert LineEnd(s, pos) == -1;
    } else {
      assert Writable(pieces[0]);
      var mid := pos + |Encode(pieces[0])|;
      AtConcat(s, pos, Encode(pieces[0]), EncodeAll(pieces[1..]), mid);
      PiecesReadBack(s, mid, pieces[1..]);
      PieceThenRest(s, pos, pieces[0], mid);
    }
  }

  lemma WholeReadsBack(s: string, pieces: seq<Piece>)
    requires forall i :: 0 <= i < |pieces| ==> Writable(pieces[i])
    requires s == EncodeAll(pieces)
    ensures ReadAll(s, 0) == EventsOf(pieces)
  {
    assert s[0..|s|] == s;
    PiecesReadBack(s, 0, pieces);
  }

  /** The command-line client reads back the same events. */
  lemma CliReadsBack(pieces: seq<Piece>)
    requires forall i :: 0 <= i < |pieces| ==> Writable(pieces[i])
    ensures ReadAll(EncodeAll(pieces), 0) == EventsOf(pieces)
  {
    WholeReadsBack(EncodeAll(pieces), pieces);
  }

  // ----- Data in several lines -------------------------------------------------------------------------

  predicate AllOneLine(lines: seq<string>) {
    forall i :: 0 <= i < |lines| ==> OneLine(lines[i])
  }

  /** One data field per line. */
  function DataText(lines: seq<string>): string {
    if lines == [] then "" else DataText(lines[..|lines| - 1]) + ("data: " + lines[|lines| - 1] + LF)
  }

  function BlockText(t: string, lines: seq<string>): string {
    "event: " + t + LF + DataText(lines) + ("" + LF)
  }

  lemma SplitChar(s: string, c: char)
    ensures c == '\n' ==> Split(s + [c]) == Split(s) + [""]
    ensures c != '\n' ==> Split(s + [c]) == Split(s)[..|Split(s)| - 1] + [Split(s)[|Split(s)| - 1] + [c]]
  {
    assert (s + [c])[..|s|] == s;
  }

  lemma {:induction false} SplitMore(a: string, before: seq<string>, last: string, line: string)
    requires OneLine(line) && Split(a) == before + [last]
    ensures Split(a + line) == before + [last + line]
  {
    if line == "" {
      assert a + line == a && last + line == last;
    } else {
      var n := |line| - 1;
      SplitMore(a, before, last, line[..n]);
      SplitChar(a + line[..n], line[n]);
      OneMoreChar(a, line, last);
      assert (before + [last + line[..n]])[..|before|] == before;
    }
  }

  lemma OneMoreChar(a: string, line: string, last: string)
    requires line != ""
    ensures a + line == a + line[..|line| - 1] + [line[|line| - 1]]
    ensures last + line == last + line[..|line| - 1] + [line[|line| - 1]]
  {
    assert line == line[..|line| - 1] + [line[|line| - 1]];
  }

  /** Joining puts one line feed between lines, so splitting gives them back. */
  lemma {:induction false} SplitUndoesJoin(lines: seq<string>)
    requires lines != [] && AllOneLine(lines)
    ensures Split(Join(lines)) == lines
  {
    var n := |lines| - 1;
    assert lines == lines[..n] + [lines[n]];
    if n == 0 {
      SplitMore("", [], "", lines[0]);
      assert "" + lines[0] == lines[0];
    } else {
      SplitUndoesJoin(lines[..n]);
      var before := Join(lines[..n]);
      SplitChar(before, '\n');
      assert before + ['\n'] == before + LF;
      SplitMore(before + LF, lines[..n], "", lines[n]);
      assert "" + lines[n] == lines[n];
    }
  }

  lemma {:induction false} WebReadsData(p: Parser, lines: seq<string>)
    requires AllOneLine(lines) && p.buffer == ""
    ensures AfterChars(p, DataText(lines)) == p.(dataLines := p.dataLines + lines)
  {
    if lines == [] {
      assert p.dataLines + [] == p.dataLines;
    } else {
      var n := |lines| - 1;
      var q := p.(dataLines := p.dataLines + lines[..n]);
      WebReadsData(p, lines[..n]);
      CharsOfConcat(p, DataText(lines[..n]), "data: " + lines[n] + LF);
      DataLine(q, lines[n]);
      LineIsHandled(q, "data: " + lines[n]);
      assert p.dataLines + lines[..n] + [lines[n]] == p.dataLines + lines;
    }
  }

  lemma {:induction false} CliReadsData(s: string, pos: nat, lines: seq<string>, g: Gathered, end: nat)
    requires AllOneLine(lines) && lines != [] && g.data == None
    requires At(s, pos, DataText(lines)) && end == pos + |DataText(lines)|
    ensures ReadFrom(s, pos, g) == ReadFrom(s, end, g.(data := Some(Join(lines))))
  {
    var n := |lines| - 1;
    var before, line := DataText(lines[..n]), "data: " + lines[n];
    var mid := pos + |before|;
    AtConcat(s, pos, before, line + LF, mid);
    var h := if n == 0 then g else g.(data := Some(Join(lines[..n])));
    if n > 0 {
      CliReadsData(s, pos, lines[..n], g, mid);
    }
    CliReadsLine(s, mid, lines[n], h, end);
  }

  lemma CliReadsLine(s: string, pos: nat, d: string, g: Gathered, end: nat)
    requires OneLine(d) && At(s, pos, "data: " + d + LF) && end == pos + |"data: " + d + LF|
    ensures ReadFrom(s, pos, g) == ReadFrom(s, end, g.(data := Some(match g.data case None => d case Some(x) => x + LF + d)))
  {
    var line := "data: " + d;
    assert line[0] == 'd' && (line + LF)[0] == 'd' && (line + LF)[6..] == d + LF;
    TrimmedLine(d);
    LineIsRead(s, pos, line, g, end);
  }

  lemma WebReadsBlock(t: string, lines: seq<string>)
    requires Writable(EventPiece(Event(t, ""))) && lines != [] && AllOneLine(lines)
    ensures AfterChars(NEW_PARSER, BlockText(t, lines)) == NEW_PARSER.(out := [Event(t, Join(lines))])
  {
    var a := "event: " + t;
    var p := NEW_PARSER.(eventType := t);
    TypeLine(NEW_PARSER, t);
    LineIsHandled(NEW_PARSER, a);
    WebReadsData(p, lines);
    CharsOfConcat(NEW_PARSER, a + LF, DataText(lines));
    CharsOfConcat(NEW_PARSER, a + LF + DataText(lines), "" + LF);
    assert [] + lines == lines;
    LineIsHandled(p.(dataLines := lines), "");
    assert [] + [Event(t, Join(lines))] == [Event(t, Join(lines))];
  }

  lemma CliReadsBlock(t: string, lines: seq<string>)
    requires Writable(EventPiece(Event(t, ""))) && lines != [] && AllOneLine(lines)
    ensures ReadFrom(BlockText(t, lines), 0, NOTHING) == Next(Event(t, Join(lines)), |BlockText(t, lines)|)
  {
    var s, a := BlockText(t, lines), "event: " + t;
    var p := |a| + 1;
    var q := p + |DataText(lines)|;
    assert s == (a + LF) + (DataText(lines) + ("" + LF));
    assert At(s, 0, s);
    AtConcat(s, 0, a + LF, DataText(lines) + ("" + LF), p);
    AtConcat(s, p, DataText(lines), "" + LF, q);
    GatherType(NOTHING, t);
    LineIsRead(s, 0, a, NOTHING, p);
    CliReadsData(s, p, lines, Gathered(t, None), q);
    LineIsRead(s, q, "", Gathered(t, Some(Join(lines))), |s|);
  }

  /** Both clients read an event whose data stands in several lines as these lines with line feeds between. */
  lemma LinesAreJoined(t: string, lines: seq<string>)
    requires Writable(EventPiece(Event(t, ""))) && lines != [] && AllOneLine(lines)
    ensures exists data :: Parsed(BlockText(t, lines)) == ReadAll(BlockText(t, lines), 0) == [Event(t, data)] && Split(data) == lines
  {
    var s := BlockText(t, lines);
    WebReadsBlock(t, lines);
    CliReadsBlock(t, lines);
    NextThenRest(s, 0, Event(t, Join(lines)), |s|);
    assert LineEnd(s, |s|) == -1;
    SplitUndoesJoin(lines);
    assert [Event(t, Join(lines))] + [] == [Event(t, Join(lines))];
  }
}
