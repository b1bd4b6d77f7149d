/** The `text/event-stream` framing: the server's printer (noeta/agent/host/hub.py), the incremental
    decoder (web/src/app/sse/decoder.ts) and the parser (web/src/app/sse/events.ts); the format is
    that of sections 9.2.5 and 9.2.6 of the WHATWG HTML Living Standard. */
module SseWire {
  import opened Collections

  datatype SseFrame = SseFrame(event: string, data: string, id: Option<string>)

  const DEFAULT_EVENT_TYPE := "message"

  // ---------------------------------------------------------------------------
  // Lines
  // ---------------------------------------------------------------------------

  datatype LineBreak = LineBreak(start: nat, end: nat)

  /** The next line terminator at or after `from`; a CR that ends the buffer is not one yet. */
  function NextLineBreak(text: string, from: nat): (b: Option<LineBreak>)
    requires from <= |text|
    ensures b.Some? ==> from <= b.value.start < b.value.end <= |text|
    ensures b.Some? ==> forall i :: from <= i < b.value.start ==> text[i] != '\n' && text[i] != '\r'
    decreases |text| - from
  {
    if from == |text| then None
    else if text[from] == '\n' then Some(LineBreak(from, from + 1))
    else if text[from] == '\r' then
      if from + 1 >= |text| then None
      else Some(LineBreak(from, if text[from + 1] == '\n' then from + 2 else from + 1))
    else NextLineBreak(text, from + 1)
  }

  method FindLineBreak(text: string, from: nat) returns (b: Option<LineBreak>)
    requires from <= |text|
    ensures b == NextLineBreak(text, from)
  {
    for i := from to |text|
      invariant NextLineBreak(text, from) == NextLineBreak(text, i)
    {
      if text[i] == '\n' { return Some(LineBreak(i, i + 1)); }
      if text[i] == '\r' {
        if i + 1 >= |text| { return None; }
        return Some(LineBreak(i, if text[i + 1] == '\n' then i + 2 else i + 1));
      }
    }
    b := None;
  }

  /** A line break found in a text is found in every extension of it, and at the same place in the rest. */
  lemma {:induction false} LineBreakIsStable(a: string, b: string, from: nat)
    requires from <= |a|
    ensures NextLineBreak(a, from).Some? ==> NextLineBreak(a + b, from) == NextLineBreak(a, from)
    decreases |a| - from
  {
    if from < |a| && a[from] != '\n' && a[from] != '\r' {
      LineBreakIsStable(a, b, from + 1);
    }
  }

  lemma {:induction false} LineBreakShifts(text: string, cut: nat, from: nat)
    requires cut <= from <= |text|
    ensures NextLineBreak(text[cut..], from - cut)
         == match NextLineBreak(text, from)
            case None => None
            case Some(b) => Some(LineBreak(b.start - cut, b.end - cut))
    decreases |text| - from
  {
    if from < |text| && text[from] != '\n' && text[from] != '\r' {
      LineBreakShifts(text, cut, from + 1);
    }
  }

  // ---------------------------------------------------------------------------
  // One line
  // ---------------------------------------------------------------------------

  /** The block being assembled. */
  datatype Block = Block(eventType: string, data: string, id: Option<string>)

  const EMPTY_BLOCK := Block("", "", None)

  function FieldValue(line: string): string {
    var colon := IndexOf(line, ':');
    if colon == |line| then ""
    else
      var value := line[colon + 1..];
      if value != "" && value[0] == ' ' then value[1..] else value
  }

  function Dispatched(b: Block): Option<SseFrame> {
    if b.data == "" then None
    else
      var body := if b.data[|b.data| - 1] == '\n' then b.data[..|b.data| - 1] else b.data;
      Some(SseFrame(if b.eventType != "" then b.eventType else DEFAULT_EVENT_TYPE, body, b.id))
  }

  function AfterLine(b: Block, line: string): Block {
    if line == "" then EMPTY_BLOCK
    else if line[0] == ':' then b
    else
      var field, value := line[..IndexOf(line, ':')], FieldValue(line);
      if field == "event" then b.(eventType := value)
      else if field == "data" then b.(data := b.data + value + "\n")
      else if field == "id" then if '\0' in value then b else b.(id := Some(value))
      else b
  }

  function LineFrames(b: Block, line: string): seq<SseFrame> {
    if line == "" && Dispatched(b).Some? then [Dispatched(b).value] else []
  }

  // ---------------------------------------------------------------------------
  // A whole text
  // ---------------------------------------------------------------------------

  /** The decoder's fields. */
  datatype Decoder = Decoder(buffer: string, block: Block)

  const FRESH_DECODER := Decoder("", EMPTY_BLOCK)

  datatype Decoded = Decoded(frames: seq<SseFrame>, rest: Decoder)

  /** Consume every complete line of a text. */
  function Consume(b: Block, text: string): Decoded
    decreases |text|
  {
    match NextLineBreak(text, 0)
    case None => Decoded([], Decoder(text, b))
    case Some(br) =>
      var line := text[..br.start];
      var later := Consume(AfterLine(b, line), text[br.end..]);
      later.(frames := LineFrames(b, line) + later.frames)
  }

  function Pushed(d: Decoder, chunk: string): Decoded {
    Consume(d.block, d.buffer + chunk)
  }

  function Flushed(d: Decoder): Decoded {
    var b := if d.buffer == "" then d.block else AfterLine(d.block, d.buffer);
    Decoded(if Dispatched(b).Some? then [Dispatched(b).value] else [], FRESH_DECODER)
  }

  /** `whole` is what was already emitted followed by what the remaining text will yield. */
  ghost predicate Joined(whole: Decoded, frames: seq<SseFrame>, b: Block, rest: string) {
    whole == Decoded(frames + Consume(b, rest).frames, Consume(b, rest).rest)
  }

  lemma JoinLine(whole: Decoded, frames: seq<SseFrame>, b: Block, rest: string)
    requires Joined(whole, frames, b, rest) && NextLineBreak(rest, 0).Some?
    ensures var br := NextLineBreak(rest, 0).value;
            Joined(whole, frames + LineFrames(b, rest[..br.start]), AfterLine(b, rest[..br.start]), rest[br.end..])
  {
    hide AfterLine;
    hide LineFrames;
    hide NextLineBreak;
  }

  lemma JoinEnd(whole: Decoded, frames: seq<SseFrame>, b: Block, rest: string)
    requires Joined(whole, frames, b, rest) && NextLineBreak(rest, 0).None?
    ensures whole == Decoded(frames, Decoder(rest, b))
  {
    hide NextLineBreak;
  }

  lemma JoinStart(d: Decoder, chunk: string)
    ensures Joined(Pushed(d, chunk), [], d.block, d.buffer + chunk)
  {
    hide Consume;
  }

  class SseDecoder {
    var buffer: string
    var eventType: string
    var data: string
    var id: Option<string>

    function State(): Decoder
      reads this
    {
      Decoder(buffer, Block(eventType, data, id))
    }

    constructor ()
      ensures State() == FRESH_DECODER
    {
      buffer, eventType, data, id := "", "", "", None;
    }

    method Dispatch() returns (frame: Option<SseFrame>)
      modifies this`data, this`eventType, this`id
      ensures frame == Dispatched(old(State()).block)
      ensures State().block == EMPTY_BLOCK
    {
      var body, kind, own := data, eventType, id;
      data, eventType, id := "", "", None;
      if body == "" { return None; }
      if body[|body| - 1] == '\n' { body := body[..|body| - 1]; }
      frame := Some(SseFrame(if kind != "" then kind else DEFAULT_EVENT_TYPE, body, own));
    }

    method HandleLine(line: string) returns (frame: Option<SseFrame>)
      modifies this`data, this`eventType, this`id
      ensures (if frame.Some? then [frame.value] else []) == LineFrames(old(State()).block, line)
      ensures State().block == AfterLine(old(State()).block, line)
    {
      if line == "" {
        frame := Dispatch();
        return;
      }
      if line[0] == ':' { return None; }
      var colon := IndexOf(line, ':');
      var field := line[..colon];
      var value := if colon == |line| then "" else line[colon + 1..];
      if value != "" && value[0] == ' ' { value := value[1..]; }
      if field == "event" {
        eventType := value;
      } else if field == "data" {
        data := data + value + "\n";
      } else if field == "id" && '\0' !in value {
        id := Some(value);
      }
      frame := None;
    }

    /** Feed one chunk: a cursor moves over the buffered text, one line at a time. */
    method Push(chunk: string) returns (frames: seq<SseFrame>)
      modifies this
      ensures Decoded(frames, State()) == Pushed(old(State()), chunk)
    {
      hide AfterLine;
      hide LineFrames;
      hide NextLineBreak;
      hide Joined;
      hide Pushed;
      var text := buffer + chunk;
      frames := [];
      var cursor := 0;
      ghost var whole := Pushed(State(), chunk);
      JoinStart(State(), chunk);
      assert text[0..] == text;
      while true
        invariant cursor <= |text|
        invariant Joined(whole, frames, State().block, text[cursor..])
        decreases |text| - cursor
      {
        LineBreakShifts(text, cursor, cursor);
        var br := FindLineBreak(text, cursor);
        if br.None? { break; }
        var line := text[cursor..br.value.start];
        DropThenCut(text, cursor, br.value.start);
        DropThenCut(text, cursor, br.value.end);
        JoinLine(whole, frames, State().block, text[cursor..]);
        ghost var before, block := frames, State().block;
        var frame := HandleLine(line);
        cursor := br.value.end;
        if frame.Some? { frames := frames + [frame.value]; }
        assert frames == before + LineFrames(block, line);
      }
      JoinEnd(whole, frames, State().block, text[cursor..]);
      buffer := text[cursor..];
    }

    /** End of stream: an unterminated block is emitted all the same. */
    method Flush() returns (frames: seq<SseFrame>)
      modifies this
      ensures Decoded(frames, State()) == Flushed(old(State()))
    {
      frames := [];
      var residual := buffer;
      buffer := "";
      if residual != "" {
        // A residual is never the blank line, so it completes no frame by itself.
        var _ := HandleLine(residual);
      }
      var pending := Dispatch();
      if pending.Some? { frames := frames + [pending.value]; }
    }
  }

  // ---------------------------------------------------------------------------
  // Chunk invariance
  // ---------------------------------------------------------------------------

  lemma ConsumeFirst(b: Block, text: string)
    ensures match NextLineBreak(text, 0)
            case None => Consume(b, text) == Decoded([], Decoder(text, b))
            case Some(br) =>
              var line := text[..br.start];
              var later := Consume(AfterLine(b, line), text[br.end..]);
              Consume(b, text) == Decoded(LineFrames(b, line) + later.frames, later.rest)
  {
    hide AfterLine;
    hide LineFrames;
    hide NextLineBreak;
  }

  /** Consuming a text and then more is consuming them joined. */
  lemma {:induction false} ConsumeConcat(b: Block, x: string, y: string)
    ensures var first := Consume(b, x);
            var second := Consume(first.rest.block, first.rest.buffer + y);
            Consume(b, x + y) == Decoded(first.frames + second.frames, second.rest)
    decreases |x|
  {
    hide *;
    ConsumeFirst(b, x);
    if NextLineBreak(x, 0).None? {
      var second := Consume(b, x + y);
      assert [] + second.frames == second.frames;
    } else {
      LineBreakIsStable(x, y, 0);
      var br := NextLineBreak(x, 0).value;
      var line, tail := x[..br.start], x[br.end..];
      assert (x + y)[..br.start] == line && (x + y)[br.end..] == tail + y;
      ConsumeFirst(b, x + y);
      ConsumeConcat(AfterLine(b, line), tail, y);
      var later := Consume(AfterLine(b, line), tail);
      var second := Consume(later.rest.block, later.rest.buffer + y);
      assert LineFrames(b, line) + (later.frames + second.frames) == LineFrames(b, line) + later.frames + second.frames;
    }
  }

  /** Two pushes are one push of the joined chunk, wherever the cut falls, even between CR and LF. */
  lemma PushTwice(d: Decoder, a: string, b: string)
    ensures var first := Pushed(d, a);
            var second := Pushed(first.rest, b);
            Pushed(d, a + b) == Decoded(first.frames + second.frames, second.rest)
  {
    assert d.buffer + (a + b) == (d.buffer + a) + b;
    ConsumeConcat(d.block, d.buffer + a, b);
  }

  /** Feed chunks one after the other. */
  function PushAll(d: Decoder, chunks: seq<string>): Decoded {
    if chunks == [] then Decoded([], d)
    else
      var before := PushAll(d, chunks[..|chunks| - 1]);
      var last := Pushed(before.rest, chunks[|chunks| - 1]);
      Decoded(before.frames + last.frames, last.rest)
  }

  /** A buffer the decoder can stop at: it holds no complete line. */
  predicate Stopped(d: Decoder) {
    NextLineBreak(d.buffer, 0).None?
  }

  lemma {:induction false} ConsumeStops(b: Block, text: string)
    ensures Stopped(Consume(b, text).rest)
    decreases |text|
  {
    if NextLineBreak(text, 0).Some? {
      var br := NextLineBreak(text, 0).value;
      ConsumeStops(AfterLine(b, text[..br.start]), text[br.end..]);
    }
  }

  /** Chunk invariance: however a text is cut into chunks, the emitted frames and the remaining
      state are those of the whole text, and so is what a final flush emits. */
  lemma {:induction false} ChunksDoNotMatter(d: Decoder, chunks: seq<string>)
    requires Stopped(d)
    ensures PushAll(d, chunks) == Pushed(d, Flatten(chunks))
    ensures Flushed(PushAll(d, chunks).rest) == Flushed(Pushed(d, Flatten(chunks)).rest)
  {
    if chunks == [] {
      assert d.buffer + "" == d.buffer;
    } else {
      ChunksDoNotMatter(d, chunks[..|chunks| - 1]);
      PushTwice(d, Flatten(chunks[..|chunks| - 1]), chunks[|chunks| - 1]);
    }
  }

  /** Every decoder that pushes can reach is stopped. */
  lemma PushesStop(d: Decoder, chunks: seq<string>)
    requires Stopped(d)
    ensures Stopped(PushAll(d, chunks).rest)
  {
    if chunks != [] {
      var before := PushAll(d, chunks[..|chunks| - 1]).rest;
      ConsumeStops(before.block, before.buffer + chunks[|chunks| - 1]);
    }
  }

  /** So chunks do not matter from any point of a stream on. */
  lemma ChunksNeverMatter(before: seq<string>, chunks: seq<string>)
    ensures var d := PushAll(FRESH_DECODER, before).rest;
            && PushAll(d, chunks) == Pushed(d, Flatten(chunks))
            && Flushed(PushAll(d, chunks).rest) == Flushed(Pushed(d, Flatten(chunks)).rest)
  {
    PushesStop(FRESH_DECODER, before);
    ChunksDoNotMatter(PushAll(FRESH_DECODER, before).rest, chunks);
  }

  // ---------------------------------------------------------------------------
  // What lines and blocks mean
  // ---------------------------------------------------------------------------

  predicate OneLine(s: string) {
    '\n' !in s && '\r' !in s
  }

  /** A line may end in LF, CRLF or CR; a CR is one of its own if something other than LF follows. */
  predicate EndsLine(end: string, rest: string) {
    end == "\n" || end == "\r\n" || (end == "\r" && rest != "" && rest[0] != '\n')
  }

  lemma {:induction false} AnyLineBreak(line: string, end: string, rest: string, from: nat)
    requires OneLine(line) && EndsLine(end, rest) && from <= |line|
    ensures NextLineBreak(line + end + rest, from) == Some(LineBreak(|line|, |line| + |end|))
    decreases |line| - from
  {
    var text := line + end + rest;
    if from < |line| {
      assert text[from] == line[from] && line[from] in line;
      AnyLineBreak(line, end, rest, from + 1);
    } else {
      assert text[from..] == end + rest;
      assert text[from] == end[0];
      if |text| > from + 1 { assert text[from + 1] == (end + rest)[1]; }
    }
  }

  /** One line is one step of the decoder. */
  lemma ConsumeLine(b: Block, line: string, rest: string)
    requires OneLine(line)
    ensures var later := Consume(AfterLine(b, line), rest);
            Consume(b, line + "\n" + rest) == later.(frames := LineFrames(b, line) + later.frames)
  {
    var text := line + "\n" + rest;
    AnyLineBreak(line, "\n", rest, 0);
    assert text[..|line|] == line && text[|line| + 1..] == rest;
  }

  /** Whichever way a line ends, the decoder reads the same. */
  lemma LineEndsAreAlike(b: Block, line: string, end: string, rest: string)
    requires OneLine(line) && EndsLine(end, rest)
    ensures Consume(b, line + end + rest) == Consume(b, line + "\n" + rest)
  {
    hide NextLineBreak;
    AnyLineBreak(line, end, rest, 0);
    AnyLineBreak(line, "\n", rest, 0);
    ConsumeFirst(b, line + end + rest);
    ConsumeFirst(b, line + "\n" + rest);
    hide Consume;
    DropPrefix(line + end, rest);
    DropPrefix(line + "\n", rest);
    assert (line + end + rest)[..|line|] == line && (line + "\n" + rest)[..|line|] == line;
  }

  /** The value of a line of this field: behind the colon and at most one space, and empty without a colon. */
  function ValueIf(line: string, name: string): Option<string> {
    if line == name then Some("")
    else if name + ": " <= line then Some(line[|name| + 2..])
    else if name + ":" <= line then Some(line[|name| + 1..])
    else None
  }

  /** The values of the data lines of a block. */
  function DataOf(lines: seq<string>): seq<string> {
    if lines == [] then []
    else
      var value := ValueIf(lines[|lines| - 1], "data");
      DataOf(lines[..|lines| - 1]) + if value.Some? then [value.value] else []
  }

  /** The last event line of a block, if any. */
  function KindOf(lines: seq<string>): string {
    if lines == [] then ""
    else
      var value := ValueIf(lines[|lines| - 1], "event");
      if value.Some? then value.value else KindOf(lines[..|lines| - 1])
  }

  /** The last id line of a block without a NUL, if any. */
  function IdOf(lines: seq<string>): Option<string> {
    if lines == [] then None
    else
      var value := ValueIf(lines[|lines| - 1], "id");
      if value.Some? && '\0' !in value.value then value else IdOf(lines[..|lines| - 1])
  }

  function Terminated(values: seq<string>): string {
    if values == [] then "" else Terminated(values[..|values| - 1]) + values[|values| - 1] + "\n"
  }

  /** The values with a line feed between them. */
  function JoinedLines(values: seq<string>): string
    requires values != []
  {
    Terminated(values[..|values| - 1]) + values[|values| - 1]
  }

  lemma ColonAt(line: string, at: nat)
    requires at <= |line| && (forall j :: 0 <= j < at ==> line[j] != ':') && (at < |line| ==> line[at] == ':')
    ensures IndexOf(line, ':') == at
  {
    hide IndexOf;
  }

  lemma ColonSplits(line: string, name: string, after: string)
    requires ':' !in name && line == name + ([':'] + after)
    ensures IndexOf(line, ':') == |name| && line[..|name|] == name && line[|name| + 1..] == after
  {
    hide IndexOf;
    assert line[|name|] == ':';
    assert forall j :: 0 <= j < |name| ==> line[j] == name[j];
  }

  /** The three ways to write a field, and what the decoder makes of each. */
  lemma BareField(name: string)
    requires name in {"data", "event", "id"}
    ensures IndexOf(name, ':') == |name| && FieldValue(name) == ""
  {
    ColonAt(name, |name|);
    hide IndexOf;
  }

  lemma ColonField(name: string, after: string)
    requires name in {"data", "event", "id"}
    ensures var line := name + ":" + after;
            && IndexOf(line, ':') == |name| && line[..|name|] == name
            && FieldValue(line) == if after != "" && after[0] == ' ' then after[1..] else after
  {
    hide IndexOf;
    var line := name + ":" + after;
    assert line == name + ([':'] + after);
    ColonSplits(line, name, after);
  }

  lemma OfField(line: string, name: string)
    requires line != "" && name in {"data", "event", "id"}
    ensures line[..IndexOf(line, ':')] == name <==> line == name || name + ":" <= line
  {
    hide IndexOf;
    var at := IndexOf(line, ':');
    if line[..at] == name && at < |line| {
      assert line[..at + 1] == name + ":";
    }
    if name + ":" <= line {
      assert line == name + ":" + line[|name| + 1..];
      ColonField(name, line[|name| + 1..]);
    }
    if line == name { BareField(name); }
  }

  /** The decoder's reading of a field is the value if the line is of that field, for the three fields. */
  lemma ReadsValue(line: string, name: string)
    requires line != "" && name in {"data", "event", "id"}
    ensures ValueIf(line, name).Some? <==> line[..IndexOf(line, ':')] == name
    ensures ValueIf(line, name).Some? ==> ValueIf(line, name).value == FieldValue(line)
  {
    hide IndexOf;
    hide FieldValue;
    OfField(line, name);
    Prefixes(line, name);
    if line == name {
      BareField(name);
    } else if name + ":" <= line {
      ColonField(name, line[|name| + 1..]);
    }
  }

  lemma Prefixes(line: string, name: string)
    ensures name + ": " <= line ==> name + ":" <= line
    ensures name + ":" <= line ==>
              var after := line[|name| + 1..];
              && line == name + ":" + after
              && (name + ": " <= line <==> after != "" && after[0] == ' ')
              && (name + ": " <= line ==> after[1..] == line[|name| + 2..])
  {
    assert (name + ": ")[..|name| + 1] == name + ":";
    if name + ":" <= line {
      var after := line[|name| + 1..];
      assert line == name + ":" + after;
      if after != "" && after[0] == ' ' { assert line[..|name| + 2] == name + ": "; }
      if name + ": " <= line { assert line[|name| + 1] == (name + ": ")[|name| + 1]; }
    }
  }

  predicate BlockLines(lines: seq<string>) {
    forall line :: line in lines ==> line != "" && OneLine(line)
  }

  /** The block that a list of lines has built up. */
  function Built(lines: seq<string>): Block {
    Block(KindOf(lines), Terminated(DataOf(lines)), IdOf(lines))
  }

  lemma BuildsOne(lines: seq<string>, line: string)
    requires line != ""
    ensures AfterLine(Built(lines), line) == Built(lines + [line])
  {
    hide IndexOf;
    hide FieldValue;
    var all := lines + [line];
    assert all[..|lines|] == lines;
    ReadsValue(line, "data");
    ReadsValue(line, "event");
    ReadsValue(line, "id");
    if line[0] == ':' { NoColonFirst(line); }
    var data := DataOf(lines);
    assert forall value :: (data + [value])[..|data|] == data;
    assert DataOf(all) == data + if ValueIf(line, "data").Some? then [ValueIf(line, "data").value] else [];
    assert data + [] == data;
    hide ValueIf;
  }

  lemma NoColonFirst(line: string)
    requires line != "" && line[0] == ':'
    ensures ValueIf(line, "data").None? && ValueIf(line, "event").None? && ValueIf(line, "id").None?
  {
  }

  function LinesText(lines: seq<string>): string {
    if lines == [] then "" else lines[0] + "\n" + LinesText(lines[1..])
  }

  lemma {:induction false} ConsumesLines(done: seq<string>, lines: seq<string>, rest: string)
    requires BlockLines(lines)
    ensures Consume(Built(done), LinesText(lines) + rest) == Consume(Built(done + lines), rest)
    decreases |lines|
  {
    hide *;
    FirstLine(lines, rest);
    if lines == [] {
      assert done + lines == done;
    } else {
      var line, later := lines[0], lines[1..];
      ConsumesOne(done, line, LinesText(later) + rest);
      ConsumesLines(done + [line], later, rest);
      assert done + [line] + later == done + lines;
    }
  }

  lemma FirstLine(lines: seq<string>, rest: string)
    requires BlockLines(lines)
    ensures lines == [] ==> LinesText(lines) + rest == rest
    ensures lines != [] ==>
              && LinesText(lines) + rest == lines[0] + "\n" + (LinesText(lines[1..]) + rest)
              && lines[0] != "" && OneLine(lines[0]) && BlockLines(lines[1..])
  {
    hide OneLine;
    if lines == [] {
      Joining("", rest, "");
    } else {
      assert lines[0] in lines && forall l :: l in lines[1..] ==> l in lines;
      Joining(lines[0] + "\n", LinesText(lines[1..]), rest);
    }
  }

  lemma Joining(a: string, b: string, c: string)
    ensures a + b + c == a + (b + c) && "" + a == a && "" + b == b && a + "" == a
  {
  }

  lemma ConsumesOne(done: seq<string>, line: string, rest: string)
    requires line != "" && OneLine(line)
    ensures Consume(Built(done), line + "\n" + rest) == Consume(Built(done + [line]), rest)
  {
    hide Consume;
    hide Built;
    ConsumeLine(Built(done), line, rest);
    BuildsOne(done, line);
    hide AfterLine;
    assert LineFrames(Built(done), line) == [];
    var d := Consume(Built(done + [line]), rest);
    assert [] + d.frames == d.frames;
  }

  /** What a block means: one frame if it has a data line, else none. Its data are the values of its data
      lines with line feeds between them, its event the last one named, or `message`, its id the last one
      given in this very block; comments and other fields say nothing. */
  lemma BlockMeans(lines: seq<string>, rest: string)
    requires BlockLines(lines)
    ensures var later := Consume(EMPTY_BLOCK, rest);
            var frames := if DataOf(lines) == [] then []
                          else [SseFrame(if KindOf(lines) == "" then "message" else KindOf(lines),
                                         JoinedLines(DataOf(lines)), IdOf(lines))];
            Consume(EMPTY_BLOCK, LinesText(lines) + ("\n" + rest)) == later.(frames := frames + later.frames)
  {
    hide *;
    NothingBuilt();
    ConsumesLines([], lines, "\n" + rest);
    assert [] + lines == lines;
    BlankLine(lines, rest);
  }

  lemma BlankLine(lines: seq<string>, rest: string)
    ensures var later := Consume(EMPTY_BLOCK, rest);
            var frames := if DataOf(lines) == [] then []
                          else [SseFrame(if KindOf(lines) == "" then "message" else KindOf(lines),
                                         JoinedLines(DataOf(lines)), IdOf(lines))];
            Consume(Built(lines), "\n" + rest) == later.(frames := frames + later.frames)
  {
    hide Consume;
    hide Built;
    hide Dispatched;
    hide KindOf;
    hide IdOf;
    hide DataOf;
    hide JoinedLines;
    Joining("", "\n", rest);
    ConsumeLine(Built(lines), "", rest);
    DispatchesJoined(lines);
  }

  lemma NothingBuilt()
    ensures Built([]) == EMPTY_BLOCK
  {
  }

  lemma DispatchesJoined(lines: seq<string>)
    ensures Dispatched(Built(lines))
         == if DataOf(lines) == [] then None
            else Some(SseFrame(if KindOf(lines) == "" then "message" else KindOf(lines),
                               JoinedLines(DataOf(lines)), IdOf(lines)))
  {
    hide KindOf;
    hide IdOf;
    hide DataOf;
    var values := DataOf(lines);
    if values != [] {
      var data := Terminated(values);
      assert data == JoinedLines(values) + "\n";
      DropPrefix(JoinedLines(values), "\n");
      assert data[|data| - 1] == '\n' && data[..|data| - 1] == JoinedLines(values);
    }
  }

  /** The end of the stream is read as the line feeds that were owed: the residual line, if there is one, is
      ended, and then its block. */
  lemma FlushEndsTheBlock(d: Decoder)
    requires OneLine(d.buffer)
    ensures var owed := if d.buffer == "" then "\n" else "\n" + "\n";
            Flushed(d) == Decoded(Consume(d.block, d.buffer + owed).frames, FRESH_DECODER)
  {
    hide Consume;
    NothingLeft(EMPTY_BLOCK);
    if d.buffer == "" {
      ConsumeLine(d.block, "", "");
      assert "" + "\n" + "" == d.buffer + "\n";
    } else {
      ConsumeLine(d.block, d.buffer, "\n");
      ConsumeLine(AfterLine(d.block, d.buffer), "", "");
      assert "" + "\n" + "" == "\n";
      assert d.buffer + "\n" + "\n" == d.buffer + ("\n" + "\n");
    }
  }

  lemma NothingLeft(b: Block)
    ensures Consume(b, "") == Decoded([], Decoder("", b))
  {
  }

  // ---------------------------------------------------------------------------
  // Printing and parsing
  // ---------------------------------------------------------------------------

  /** One event as the printer sees it: the body is the JSON text of its data. */
  datatype WireEvent = WireEvent(seqNo: Option<nat>, kind: string, body: string)

  predicate IsDigit(c: char) {
    '0' <= c <= '9'
  }

  function Digit(d: nat): (c: char)
    requires d < 10
    ensures IsDigit(c) && c as int - '0' as int == d
  {
    ('0' as int + d) as char
  }

  function Decimal(n: nat): (s: string)
    ensures s != ""
    ensures forall c :: c in s ==> IsDigit(c)
  {
    if n < 10 then [Digit(n)] else Decimal(n / 10) + [Digit(n % 10)]
  }

  function DecimalValue(s: string): Option<nat> {
    if s == "" then None
    else
      var last := s[|s| - 1];
      if !IsDigit(last) then None
      else
        var d := last as int - '0' as int;
        if |s| == 1 then Some(d)
        else
          var high := DecimalValue(s[..|s| - 1]);
          if high.None? then None else Some(high.value * 10 + d)
  }

  lemma {:induction false} DecimalRoundTrip(n: nat)
    ensures DecimalValue(Decimal(n)) == Some(n)
  {
    if n >= 10 {
      DecimalRoundTrip(n / 10);
      var s := Decimal(n);
      assert s[..|s| - 1] == Decimal(n / 10);
    }
  }

  /** What is left to JavaScript: whether a text is a JSON object, and what `Number` makes of an integer
      from 2^53 on, where it rounds and in the end overflows to no finite number. */
  datatype JsHost = JsHost(isObject: string -> bool, rounded: nat -> Option<nat>)

  const TWO_TO_THE_53 := 0x20_0000_0000_0000

  /** `Number` on an id of decimal digits; any other id is read as not a number. */
  function NumberOf(s: string, js: JsHost): Option<nat> {
    var n := DecimalValue(s);
    if n.Some? && n.value >= TWO_TO_THE_53 then js.rounded(n.value) else n
  }

  /** A seq that survives the trip. */
  predicate Exact(n: nat, js: JsHost) {
    n < TWO_TO_THE_53 || js.rounded(n) == Some(n)
  }

  /** A printed seq reads back as itself exactly when `Number` represents it. */
  lemma SeqReadsBack(n: nat, js: JsHost)
    ensures NumberOf(Decimal(n), js) == Some(n) <==> Exact(n, js)
  {
    DecimalRoundTrip(n);
  }

  /** The separator is `": "` exactly. */
  function FieldText(name: string, value: string): string {
    name + ": " + value + "\n"
  }

  /** No seq, no `id:` line. */
  function SseText(e: WireEvent): string {
    (if e.seqNo.Some? then FieldText("id", Decimal(e.seqNo.value)) else "")
    + FieldText("event", e.kind) + FieldText("data", e.body) + "\n"
  }

  lemma SseTextParts(e: WireEvent, rest: string)
    ensures var body := FieldText("event", e.kind) + (FieldText("data", e.body) + ("" + "\n" + rest));
            SseText(e) + rest == if e.seqNo.Some? then FieldText("id", Decimal(e.seqNo.value)) + body else body
  {
    hide FieldText;
    hide Decimal;
    var x, y := FieldText("event", e.kind), FieldText("data", e.body);
    assert x + y + "\n" + rest == x + (y + ("" + "\n" + rest));
    if e.seqNo.Some? {
      var z := FieldText("id", Decimal(e.seqNo.value));
      assert z + x + y + "\n" + rest == z + (x + y + "\n" + rest);
    } else {
      assert "" + x == x;
    }
  }

  /** Parse one decoded frame. */
  function ParseUIEvent(f: SseFrame, js: JsHost): Option<WireEvent> {
    if f.event == "" || f.event == DEFAULT_EVENT_TYPE then None
    else if !js.isObject(f.data) then None
    else Some(WireEvent(if f.id.None? || f.id.value == "" then None else NumberOf(f.id.value, js), f.event, f.data))
  }

  /** A frame is an event of the UI exactly when it is named, not by the default name, and its data are an
      object; then name and data are taken as they are, and the seq is what `Number` makes of a given id. */
  lemma ParsesNamedObjects(f: SseFrame, js: JsHost)
    ensures ParseUIEvent(f, js).Some? <==> f.event != "" && f.event != "message" && js.isObject(f.data)
    ensures ParseUIEvent(f, js).Some? ==>
              var e := ParseUIEvent(f, js).value;
              && e.kind == f.event && e.body == f.data
              && (f.id == None || f.id == Some("") ==> e.seqNo == None)
              && (f.id.Some? && f.id.value != "" ==> e.seqNo == NumberOf(f.id.value, js))
  {
    hide NumberOf;
  }

  /** What the printer's callers guarantee. */
  predicate Printable(e: WireEvent, js: JsHost) {
    && OneLine(e.body) && js.isObject(e.body)
    && OneLine(e.kind) && e.kind != "" && e.kind != DEFAULT_EVENT_TYPE
    && (e.seqNo.Some? ==> Exact(e.seqNo.value, js))
  }

  /** A `name: value` line sets its field to the value exactly. */
  lemma FieldLine(name: string, value: string)
    requires name in {"id", "event", "data"}
    ensures var line := name + ": " + value;
            && line != "" && line[0] != ':'
            && line[..IndexOf(line, ':')] == name && FieldValue(line) == value
  {
    hide IndexOf;
    var line, after := name + ": " + value, [' '] + value;
    assert line == name + ([':'] + after);
    ColonSplits(line, name, after);
    DropPrefix([' '], value);
  }

  /** The block after a `name: value` line. */
  function Assigned(b: Block, name: string, value: string): Block {
    if name == "event" then b.(eventType := value)
    else if name == "data" then b.(data := b.data + value + "\n")
    else b.(id := Some(value))
  }

  /** A printed field only assigns to the block. */
  lemma ConsumeField(b: Block, name: string, value: string, rest: string)
    requires name in {"id", "event", "data"} && OneLine(value) && (name == "id" ==> '\0' !in value)
    ensures Consume(b, FieldText(name, value) + rest) == Consume(Assigned(b, name, value), rest)
  {
    hide Consume;
    var line := name + ": " + value;
    FieldLine(name, value);
    assert OneLine(line);
    assert FieldText(name, value) + rest == line + "\n" + rest;
    ConsumeLine(b, line, rest);
    assert LineFrames(b, line) == [];
    assert AfterLine(b, line) == Assigned(b, name, value);
    var later := Consume(Assigned(b, name, value), rest);
    assert [] + later.frames == later.frames;
  }

  /** The blank line closes the block. */
  lemma BlankLineEmits(b: Block, body: string, rest: string)
    requires b.data == "" && b.eventType != ""
    ensures var full, later := b.(data := body + "\n"), Consume(EMPTY_BLOCK, rest);
            Consume(full, "" + "\n" + rest) == later.(frames := [SseFrame(b.eventType, body, b.id)] + later.frames)
  {
    hide Consume;
    var full := b.(data := body + "\n");
    ConsumeLine(full, "", rest);
    assert full.data[..|full.data| - 1] == body;
  }

  /** A block that already has its id reads the two other lines and the blank one. */
  lemma ReadsBody(id: Option<string>, kind: string, body: string, rest: string)
    requires OneLine(kind) && kind != "" && OneLine(body)
    ensures var later := Consume(EMPTY_BLOCK, rest);
            Consume(Block("", "", id), FieldText("event", kind) + (FieldText("data", body) + ("" + "\n" + rest)))
              == later.(frames := [SseFrame(kind, body, id)] + later.frames)
  {
    hide Consume;
    hide FieldText;
    hide Dispatched;
    var tail := "" + "\n" + rest;
    ConsumeField(Block("", "", id), "event", kind, FieldText("data", body) + tail);
    var named := Block(kind, "", id);
    ConsumeField(named, "data", body, tail);
    assert "" + body + "\n" == body + "\n";
    BlankLineEmits(named, body, rest);
  }

  /** The id the printer writes, if any. */
  function WireId(e: WireEvent): Option<string> {
    if e.seqNo.Some? then Some(Decimal(e.seqNo.value)) else None
  }

  /** An empty decoder reads back one printed event and is empty again. */
  lemma ReadsBackOne(e: WireEvent, js: JsHost, rest: string)
    requires Printable(e, js)
    ensures var later := Consume(EMPTY_BLOCK, rest);
            Consume(EMPTY_BLOCK, SseText(e) + rest)
              == later.(frames := [SseFrame(e.kind, e.body, WireId(e))] + later.frames)
  {
    hide Consume;
    hide FieldText;
    hide SseText;
    SseTextParts(e, rest);
    ReadsBody(WireId(e), e.kind, e.body, rest);
    if e.seqNo.Some? {
      var body := FieldText("event", e.kind) + (FieldText("data", e.body) + ("" + "\n" + rest));
      ConsumeField(EMPTY_BLOCK, "id", Decimal(e.seqNo.value), body);
    }
  }

  /** What goes on the wire: printed events, and comment blocks such as `: connected` and `: ping`. */
  datatype Printed = Event(event: WireEvent) | Comment(text: string)

  function Text(p: Printed): string {
    match p
    case Event(e) => SseText(e)
    case Comment(text) => ":" + text + "\n" + "\n"
  }

  function WireText(ps: seq<Printed>): string {
    if ps == [] then "" else Text(ps[0]) + WireText(ps[1..])
  }

  function EventOf(p: Printed): seq<WireEvent> {
    if p.Event? then [p.event] else []
  }

  function EventsOf(ps: seq<Printed>): seq<WireEvent> {
    if ps == [] then [] else EventOf(ps[0]) + EventsOf(ps[1..])
  }

  predicate PrintableText(p: Printed, js: JsHost) {
    match p
    case Event(e) => Printable(e, js)
    case Comment(text) => OneLine(text)
  }

  predicate PrintableAll(ps: seq<Printed>, js: JsHost) {
    forall p :: p in ps ==> PrintableText(p, js)
  }

  function Parsed(frames: seq<SseFrame>, js: JsHost): seq<WireEvent> {
    if frames == [] then []
    else
      var first := ParseUIEvent(frames[0], js);
      (if first.Some? then [first.value] else []) + Parsed(frames[1..], js)
  }

  lemma CommentIsSilent(text: string, rest: string)
    requires OneLine(text)
    ensures Consume(EMPTY_BLOCK, Text(Comment(text)) + rest) == Consume(EMPTY_BLOCK, rest)
  {
    hide Consume;
    var line := ":" + text;
    assert Text(Comment(text)) + rest == line + "\n" + ("" + "\n" + rest);
    ConsumeLine(EMPTY_BLOCK, line, "" + "\n" + rest);
    ConsumeLine(EMPTY_BLOCK, "", rest);
    assert LineFrames(EMPTY_BLOCK, line) == [] && LineFrames(EMPTY_BLOCK, "") == [];
  }

  lemma ParsesBack(e: WireEvent, js: JsHost)
    requires Printable(e, js)
    ensures ParseUIEvent(SseFrame(e.kind, e.body, WireId(e)), js) == Some(e)
  {
    if e.seqNo.Some? {
      SeqReadsBack(e.seqNo.value, js);
    }
  }

  /** One printed event or comment in front of a text adds its own event and leaves the decoder as it was. */
  lemma DecodesOne(p: Printed, rest: string, js: JsHost)
    requires PrintableText(p, js)
    ensures var later, d := Consume(EMPTY_BLOCK, rest), Consume(EMPTY_BLOCK, Text(p) + rest);
            d.rest == later.rest && Parsed(d.frames, js) == EventOf(p) + Parsed(later.frames, js)
  {
    hide Consume;
    hide SseText;
    hide Printable;
    hide ParseUIEvent;
    hide Parsed;
    match p
    case Comment(text) =>
      CommentIsSilent(text, rest);
    case Event(e) =>
      ReadsBackOne(e, js, rest);
      ParsesBack(e, js);
      ParsedCons(SseFrame(e.kind, e.body, WireId(e)), Consume(EMPTY_BLOCK, rest).frames, js);
  }

  lemma {:induction false} DecodesBack(ps: seq<Printed>, js: JsHost)
    requires PrintableAll(ps, js)
    ensures var d := Consume(EMPTY_BLOCK, WireText(ps));
            d.rest == FRESH_DECODER && Parsed(d.frames, js) == EventsOf(ps)
  {
    hide Consume;
    hide Text;
    hide Parsed;
    hide PrintableText;
    if ps == [] {
      NothingDecodes(js);
    } else {
      DecodesBack(ps[1..], js);
      DecodesOne(ps[0], WireText(ps[1..]), js);
    }
  }

  lemma NothingDecodes(js: JsHost)
    ensures var d := Consume(EMPTY_BLOCK, "");
            d.rest == FRESH_DECODER && Parsed(d.frames, js) == []
  {
  }

  lemma ParsedCons(f: SseFrame, later: seq<SseFrame>, js: JsHost)
    ensures Parsed([f] + later, js)
         == (if ParseUIEvent(f, js).Some? then [ParseUIEvent(f, js).value] else []) + Parsed(later, js)
  {
    hide ParseUIEvent;
    assert ([f] + later)[1..] == later;
  }

  /** Wire round trip: print any list of events with comments between them, cut the text into any
      chunks, decode, flush and parse: the same events come back, and an event without a seq comes
      back without one, whatever came before it. */
  lemma WireRoundTrip(ps: seq<Printed>, js: JsHost, chunks: seq<string>)
    requires PrintableAll(ps, js) && Flatten(chunks) == WireText(ps)
    ensures var d := PushAll(FRESH_DECODER, chunks);
            Parsed(d.frames + Flushed(d.rest).frames, js) == EventsOf(ps)
  {
    ChunksDoNotMatter(FRESH_DECODER, chunks);
    assert "" + WireText(ps) == WireText(ps);
    DecodesBack(ps, js);
    var d := PushAll(FRESH_DECODER, chunks);
    assert Flushed(FRESH_DECODER).frames == [];
    assert d.frames + [] == d.frames;
  }
}
