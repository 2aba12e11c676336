/** The incremental parser of the diagnosis stream. */
module SseParser {
  import opened Text
  import opened SseFraming

  /** What JSON parsing makes of the data: not a value with fields, or an object with an
      integer `event_sequence` or none, perhaps an `event` field, and the rest. */
  datatype Parsed =
    | Unparsable
    | Payload(sequence: Option<int>, event: Option<string>, rest: string)

  type Json = string -> Parsed

  datatype DiagnosisEvent = DiagnosisEvent(event: string, sequence: int, rest: string)

  datatype Error = JsonError | SequenceInvalid

  datatype Reply = Events(events: seq<DiagnosisEvent>) | Threw(error: Error)

  datatype State = State(buffer: string, sequence: int)

  const FRESH := State("", 0)

  const DIAGNOSIS_EVENTS := {
    "intent_identified", "data_fetch_started", "retrieval_completed", "need_user_input", "draft_generated", "completed"
  }

  // ----- one frame -----

  /** Fields of the payload win over the event name of the frame. */
  function Interpret(json: Json, f: Fields, sequence: int): Reply {
    if f.data == [] || f.event !in DIAGNOSIS_EVENTS then Events([])
    else match json(Join(f.data, "\n"))
      case Unparsable => Threw(JsonError)
      case Payload(n, e, rest) =>
        if n.None? || n.value <= sequence then Threw(SequenceInvalid)
        else Events([DiagnosisEvent(if e.Some? then e.value else f.event, n.value, rest)])
  }

  function FrameReply(json: Json, frame: string, sequence: int): Reply {
    Interpret(json, ReadLines(Lines(frame)), sequence)
  }

  function SequenceAfter(r: Reply, sequence: int): int {
    if r.Events? && r.events != [] then r.events[|r.events| - 1].sequence else sequence
  }

  // ----- a chunk -----

  /** One more frame, unless an earlier one threw; with the last accepted number. */
  function Advance(json: Json, before: (Reply, int), frame: string): (Reply, int) {
    if before.0.Threw? then before
    else
      var r := FrameReply(json, frame, before.1);
      if r.Threw? then (r, before.1) else (Events(before.0.events + r.events), SequenceAfter(r, before.1))
  }

  function Process(json: Json, frames: seq<string>, sequence: int): (Reply, int)
    decreases |frames|
  {
    if frames == [] then (Events([]), sequence)
    else Advance(json, Process(json, frames[..|frames| - 1], sequence), frames[|frames| - 1])
  }

  function PushText(json: Json, s: State, text: string): (State, Reply) {
    var cut := Frames(s.buffer + text);
    var done := Process(json, cut.0, s.sequence);
    (State(cut.1, done.1), done.0)
  }

  function Pushed(json: Json, s: State, chunk: string): (State, Reply) {
    PushText(json, s, Normalised(chunk))
  }

  /** Chunk after chunk; a throw ends the stream. */
  function FedAll(json: Json, s: State, chunks: seq<string>): (State, Reply)
    decreases |chunks|
  {
    if chunks == [] then (s, Events([]))
    else Then(Pushed(json, s, chunks[0]), t => FedAll(json, t, chunks[1..]))
  }

  function Then(first: (State, Reply), next: State -> (State, Reply)): (State, Reply) {
    if first.1.Threw? then first
    else
      var second := next(first.0);
      (second.0, if second.1.Threw? then second.1 else Events(first.1.events + second.1.events))
  }

  class SSEParser {
    var buffer: string
    var sequence: int
    const json: Json

    function Abstract(): State
      reads this
    {
      State(buffer, sequence)
    }

    constructor (json: Json)
      ensures Abstract() == FRESH && this.json == json
    {
      buffer, sequence, this.json := "", 0, json;
    }

    method Push(chunk: string) returns (reply: Reply)
      modifies this
      ensures (Abstract(), reply) == Pushed(json, old(Abstract()), chunk)
    {
      buffer := buffer + Normalised(chunk);
      var cut := Frames(buffer);
      var frames := cut.0;
      buffer := cut.1;
      var events := [];
      for i := 0 to |frames|
        invariant buffer == cut.1
        invariant Process(json, frames[..i], old(sequence)) == (Events(events), sequence)
      {
        assert frames[..i + 1][..i] == frames[..i];
        var fields := ReadFields(frames[i]);
        var r := Interpret(json, fields, sequence);
        if r.Threw? {
          ThrowEnds(json, frames, i + 1, old(sequence));
          return r;
        }
        events := events + r.events;
        sequence := SequenceAfter(r, sequence);
      }
      assert frames[..|frames|] == frames;
      return Events(events);
    }

    /** The accessor behind the last accepted number. */
    function LastSequence(): int
      reads this
    {
      sequence
    }
  }

  method ReadFields(frame: string) returns (f: Fields)
    ensures f == ReadLines(Lines(frame))
  {
    hide Trim, TrimStart, IsBlank, Lines;
    var event, data := "message", [];
    var lines := Lines(frame);
    for i := 0 to |lines|
      invariant Fields(event, data) == ReadLines(lines[..i])
    {
      var line := lines[i];
      assert lines[..i + 1][..i] == lines[..i];
      if line == "" || StartsWith(line, ":") { continue; }
      if StartsWith(line, "event:") { event := Trim(line[6..], IsBlank); }
      if StartsWith(line, "data:") { data := data + [TrimStart(line[5..], IsBlank)]; }
    }
    assert lines[..|lines|] == lines;
    f := Fields(event, data);
  }

  lemma {:induction false} ThrowEnds(json: Json, frames: seq<string>, k: nat, n: int)
    requires k <= |frames| && Process(json, frames[..k], n).0.Threw?
    ensures Process(json, frames, n) == Process(json, frames[..k], n)
    decreases |frames|
  {
    if k == |frames| {
      assert frames[..k] == frames;
    } else {
      assert frames[..|frames| - 1][..k] == frames[..k];
      ThrowEnds(json, frames[..|frames| - 1], k, n);
    }
  }

  // ----- what a frame says -----

  predicate IsData(line: string) {
    |line| >= 5 && line[..5] == "data:"
  }

  /** The values of the data lines, in order, each without the white space before it. */
  function DataOf(lines: seq<string>): seq<string>
    decreases |lines|
  {
    if lines == [] then []
    else
      var n := |lines| - 1;
      DataOf(lines[..n]) + (if IsData(lines[n]) then [TrimStart(lines[n][5..], IsBlank)] else [])
  }

  predicate NamesEvent(line: string) {
    |line| >= 6 && line[..6] == "event:"
  }

  function NameIn(line: string): string
    requires NamesEvent(line)
  {
    Trim(line[6..], IsBlank)
  }

  predicate LastName(lines: seq<string>, i: nat) {
    i < |lines| && NamesEvent(lines[i]) && forall j :: i < j < |lines| ==> !NamesEvent(lines[j])
  }

  /** The name in the last event line, or "message" when there is none. */
  predicate IsName(lines: seq<string>, name: string) {
    if exists i :: 0 <= i < |lines| && LastName(lines, i) then
      exists i :: 0 <= i < |lines| && LastName(lines, i) && name == NameIn(lines[i])
    else name == "message" && forall i :: 0 <= i < |lines| ==> !NamesEvent(lines[i])
  }

  lemma ReadLineIsExact(f: Fields, line: string)
    ensures var g := ReadLine(f, line);
            && g.event == (if NamesEvent(line) then NameIn(line) else f.event)
            && g.data == f.data + (if IsData(line) then [TrimStart(line[5..], IsBlank)] else [])
  {
    hide Trim, TrimStart, IsBlank;
    if line != "" && NamesEvent(line) { assert line[0] == line[..6][0] == 'e'; }
    if line != "" && IsData(line) { assert line[0] == line[..5][0] == 'd'; }
    if line != "" && StartsWith(line, ":") { assert line[0] == line[..1][0] == ':'; }
  }

  lemma NameSoFar(before: seq<string>, line: string, name: string)
    requires IsName(before, name)
    ensures IsName(before + [line], if NamesEvent(line) then NameIn(line) else name)
  {
    hide NameIn, NamesEvent;
    var lines := before + [line];
    forall i | 0 <= i < |before| ensures LastName(lines, i) <==> LastName(before, i) && !NamesEvent(line) {
      assert lines[|before|] == line && lines[i] == before[i];
      if LastName(lines, i) {
        forall j | i < j < |before| ensures !NamesEvent(before[j]) { assert lines[j] == before[j]; }
      }
    }
    assert LastName(lines, |before|) <==> NamesEvent(line);
    if !NamesEvent(line) && exists i :: 0 <= i < |before| && LastName(before, i) {
      var i :| 0 <= i < |before| && LastName(before, i) && name == NameIn(before[i]);
      assert LastName(lines, i) && lines[i] == before[i];
    }
  }

  lemma ReadOneMore(before: seq<string>, line: string)
    requires ReadLines(before).data == DataOf(before) && IsName(before, ReadLines(before).event)
    ensures ReadLines(before + [line]).data == DataOf(before + [line])
    ensures IsName(before + [line], ReadLines(before + [line]).event)
  {
    hide ReadLine, NamesEvent, NameIn, IsData, TrimStart, IsBlank, IsName;
    assert (before + [line])[..|before|] == before;
    ReadLineIsExact(ReadLines(before), line);
    NameSoFar(before, line, ReadLines(before).event);
  }

  lemma {:induction false} ReadLinesIsExact(lines: seq<string>)
    ensures ReadLines(lines).data == DataOf(lines) && IsName(lines, ReadLines(lines).event)
    decreases |lines|
  {
    hide ReadLine, NamesEvent, NameIn, TrimStart;
    if lines != [] {
      var before := lines[..|lines| - 1];
      ReadLinesIsExact(before);
      assert lines == before + [lines[|lines| - 1]];
      hide IsName, ReadLines, DataOf;
      ReadOneMore(before, lines[|lines| - 1]);
    }
  }

  predicate IsKnown(name: string) {
    name in {"intent_identified", "data_fetch_started", "retrieval_completed", "need_user_input",
             "draft_generated", "completed"}
  }

  lemma KnownNames(name: string)
    ensures name in DIAGNOSIS_EVENTS <==> IsKnown(name)
  {
  }

  /** A frame without data or without one of the six names delivers nothing; otherwise its data
      lines, joined, are parsed, and it delivers one event if its number is greater than the
      last one. A name among the parsed fields wins over the one of the frame. */
  lemma FrameIsExact(json: Json, lines: seq<string>, name: string, last: int)
    requires lines != [] && IsName(lines, name) && forall i :: 0 <= i < |lines| ==> '\n' !in lines[i]
    ensures var data := DataOf(lines);
            var parsed := json(Join(data, "\n"));
            FrameReply(json, Join(lines, "\n"), last) ==
              if data == [] || !IsKnown(name) then Events([])
              else if parsed.Unparsable? then Threw(JsonError)
              else if parsed.sequence.None? || parsed.sequence.value <= last then Threw(SequenceInvalid)
              else
                Events([DiagnosisEvent(if parsed.event.Some? then parsed.event.value else name,
                                       parsed.sequence.value, parsed.rest)])
  {
    hide ReadLines, Join, Lines, DataOf, IsName, IsKnown, DIAGNOSIS_EVENTS;
    LinesOfJoin(lines);
    ReadLinesIsExact(lines);
    OneName(lines, name, ReadLines(lines).event);
    KnownNames(name);
  }

  lemma OneName(lines: seq<string>, a: string, b: string)
    requires IsName(lines, a) && IsName(lines, b)
    ensures a == b
  {
    hide NameIn, NamesEvent;
    if i :| 0 <= i < |lines| && LastName(lines, i) {
      forall j | 0 <= j < |lines| && LastName(lines, j) ensures j == i {}
    }
  }

  // ----- chunking does not matter -----

  function Combined(a: (Reply, int), b: (Reply, int)): (Reply, int) {
    if a.0.Threw? then a else if b.0.Threw? then b else (Events(a.0.events + b.0.events), b.1)
  }

  lemma AdvanceCombined(json: Json, a: (Reply, int), b: (Reply, int), frame: string)
    ensures Advance(json, Combined(a, b), frame) == Combined(a, Advance(json, b, frame))
  {
    hide FrameReply;
    if a.0.Events? && b.0.Events? {
      var r := FrameReply(json, frame, b.1);
      if r.Events? { assert a.0.events + b.0.events + r.events == a.0.events + (b.0.events + r.events); }
    }
  }

  lemma {:induction false} ProcessAppend(json: Json, fs: seq<string>, gs: seq<string>, n: int)
    ensures var a := Process(json, fs, n); Process(json, fs + gs, n) == Combined(a, Process(json, gs, a.1))
    decreases |gs|
  {
    var a := Process(json, fs, n);
    if gs == [] {
      assert fs + gs == fs;
      if a.0.Events? { assert a.0.events + [] == a.0.events; }
    } else {
      hide Advance, Combined;
      var gs' := gs[..|gs| - 1];
      assert (fs + gs)[..|fs + gs| - 1] == fs + gs';
      ProcessAppend(json, fs, gs', n);
      AdvanceCombined(json, a, Process(json, gs', a.1), gs[|gs| - 1]);
    }
  }

  /** Same events, buffer and number; or the same error after the same number. */
  predicate SameOutcome(a: (State, Reply), b: (State, Reply)) {
    a.1 == b.1 && a.0.sequence == b.0.sequence && (a.1.Events? ==> a.0.buffer == b.0.buffer)
  }

  lemma PushTwice(json: Json, s: State, a: string, b: string)
    ensures SameOutcome(PushText(json, s, a + b), Then(PushText(json, s, a), t => PushText(json, t, b)))
  {
    FramesAppend(s.buffer + a, b);
    assert s.buffer + (a + b) == s.buffer + a + b;
    var early := Frames(s.buffer + a);
    ProcessAppend(json, early.0, Frames(early.1 + b).0, s.sequence);
  }

  lemma {:induction false} FedIsSeen(json: Json, s: State, chunks: seq<string>)
    requires Unbroken(s.buffer)
    ensures SameOutcome(FedAll(json, s, chunks), PushText(json, s, Seen(chunks)))
    decreases |chunks|
  {
    if chunks == [] {
      assert s.buffer + "" == s.buffer;
      UnbrokenHasNoFrames(s.buffer);
    } else {
      var first := Pushed(json, s, chunks[0]);
      FramesLeaveUnbroken(s.buffer + Normalised(chunks[0]));
      FedIsSeen(json, first.0, chunks[1..]);
      PushTwice(json, s, Normalised(chunks[0]), Seen(chunks[1..]));
    }
  }

  /** Any chunking that cuts no "\r\n" gives the outcome of pushing the whole text at once. */
  lemma ChunkingDoesNotMatter(json: Json, s: State, chunks: seq<string>)
    requires Unbroken(s.buffer) && SplitFree(chunks)
    ensures SameOutcome(FedAll(json, s, chunks), Pushed(json, s, Concat(chunks)))
  {
    FedIsSeen(json, s, chunks);
    SeenExactlyWhenSplitFree(chunks);
  }

  /** Every push leaves a buffer without a complete frame, as the theorem above asks. */
  lemma PushLeavesUnbroken(json: Json, s: State, chunk: string)
    ensures Unbroken(Pushed(json, s, chunk).0.buffer)
  {
    FramesLeaveUnbroken(s.buffer + Normalised(chunk));
  }

  /** A push of one printed frame to a parser that has nothing buffered. */
  lemma OneFrame(json: Json, name: string, data: string, n: int)
    requires Tight(name) && TightStart(data)
    ensures PushText(json, State("", n), Body(name, data) + "\n\n") ==
              var r := Interpret(json, Fields(name, [data]), n); (State("", SequenceAfter(r, n)), r)
  {
    BodyIsOneFrame(name, data);
    BodyFields(name, data);
    FrameFirst(Body(name, data), "");
    hide Interpret, Body, ReadLines;
    var frame := Body(name, data);
    assert "" + (frame + "\n\n") == frame + "\n\n" == frame + "\n\n" + "";
    assert [frame] + [] == [frame] && [frame][..0] == [];
    var r := FrameReply(json, frame, n);
    assert Process(json, [], n) == (Events([]), n);
    if r.Events? { assert [] + r.events == r.events; }
  }

  lemma TornReply(json: Json, body: string)
    requires '\r' !in body && Unbroken(body) && body != "" && body[|body| - 1] != '\n'
    ensures FedAll(json, FRESH, [body + "\r\n\r", "\n"]).1 == Events([])
  {
    var chunks := [body + "\r\n\r", "\n"];
    assert Process(json, [], 0) == (Events([]), 0);
    hide FedAll, Process;
    FedIsSeen(json, FRESH, chunks);
    WholeAndTorn(body);
    TornIsUnbroken(body);
    assert Seen(chunks) == body + "\n\r\n" by {
      assert chunks[1..] == ["\n"] && ["\n"][1..] == [];
    }
    UnbrokenHasNoFrames(body + "\n\r\n");
    assert "" + (body + "\n\r\n") == body + "\n\r\n";
  }

  /** A cut inside a "\r\n" can hide the end of a frame, and with it the event. */
  lemma ACutInsideALineEndCanLoseAnEvent(json: Json)
    requires json("{}") == Payload(Some(1), None, "")
    ensures exists chunks ::
              Pushed(json, FRESH, Concat(chunks)).1 == Events([DiagnosisEvent("completed", 1, "")])
              && FedAll(json, FRESH, chunks).1 == Events([])
  {
    var body := Body("completed", "{}");
    assert Tight("completed") && TightStart("{}");
    BodyIsOneFrame("completed", "{}");
    OneFrame(json, "completed", "{}", 0);
    hide Body, FedAll, PushText, Tight, TightStart, Unbroken;
    TornReply(json, body);
    WholeAndTorn(body);
    var chunks := [body + "\r\n\r", "\n"];
    assert Concat(chunks) == body + "\r\n\r\n" by {
      assert chunks[1..] == ["\n"] && ["\n"][1..] == [];
    }
    assert Join(["{}"], "\n") == "{}";
    assert Pushed(json, FRESH, Concat(chunks)).1 == Events([DiagnosisEvent("completed", 1, "")]);
  }

  lemma WholeAndTorn(body: string)
    requires '\r' !in body
    ensures Normalised(body + "\r\n\r\n") == body + "\n\n"
    ensures Normalised(body + "\r\n\r") == body + "\n\r"
  {
    PlainIsNormal(body);
    NormalisedAppend(body, "\r\n\r\n");
    NormalisedAppend(body, "\r\n\r");
    assert "\r\n\r\n"[2..] == "\r\n" && "\r\n"[2..] == "" && "\r\n\r"[2..] == "\r" && "\r"[1..] == "";
  }

  lemma TornIsUnbroken(body: string)
    requires Unbroken(body) && (body != "" ==> body[|body| - 1] != '\n')
    ensures Unbroken(body + "\n\r\n")
  {
    var s := body + "\n\r\n";
    forall i | 0 <= i < |s| ensures !BreakAt(s, i) {
      if i + 1 < |body| { assert BreakAt(s, i) == BreakAt(body, i); }
    }
  }
}
