/** From the emitter on the server to the parser in the browser: what is queued is numbered,
    printed, cut into chunks anywhere, and read back. */
module SseRoundTrip {
  import opened Text
  import opened SseFraming
  import opened SseParser

  /** An event to print: its name, its number and the other fields. */
  datatype Emitted = Emitted(event: string, sequence: int, rest: string)

  type Dump = (int, string) -> string

  /** What is used of the two JSON libraries: a dumped object has no line end, starts with
      its brace, and is parsed back. */
  ghost predicate Codec(json: Json, dump: Dump) {
    forall n, rest :: TightStart(dump(n, rest)) && json(dump(n, rest)) == Payload(Some(n), None, rest)
  }

  function Printed(dump: Dump, e: Emitted): string {
    Body(e.event, dump(e.sequence, e.rest)) + "\n\n"
  }

  function PrintedAll(dump: Dump, es: seq<Emitted>): string {
    if es == [] then "" else Printed(dump, es[0]) + PrintedAll(dump, es[1..])
  }

  function OwedOne(e: Emitted, sequence: int): (Reply, int) {
    if e.event !in DIAGNOSIS_EVENTS then (Events([]), sequence)
    else if e.sequence <= sequence then (Threw(SequenceInvalid), sequence)
    else (Events([DiagnosisEvent(e.event, e.sequence, e.rest)]), e.sequence)
  }

  /** What a subscriber is owed: the known events, as long as their numbers grow. */
  function Owed(es: seq<Emitted>, sequence: int): (Reply, int)
    decreases |es|
  {
    if es == [] then (Events([]), sequence)
    else Combined(OwedOne(es[0], sequence), Owed(es[1..], OwedOne(es[0], sequence).1))
  }

  lemma PrintedReply(json: Json, dump: Dump, e: Emitted, n: int)
    requires Codec(json, dump) && Tight(e.event)
    ensures PushText(json, State("", n), Printed(dump, e)) == (State("", OwedOne(e, n).1), OwedOne(e, n).0)
  {
    var data := dump(e.sequence, e.rest);
    assert TightStart(data) && json(data) == Payload(Some(e.sequence), None, e.rest);
    hide PushText, Body, TightStart, Tight, Codec;
    OneFrame(json, e.event, data, n);
    assert Join([data], "\n") == data;
  }

  lemma {:induction false} PrintedAllReply(json: Json, dump: Dump, es: seq<Emitted>, n: int)
    requires Codec(json, dump) && forall i :: 0 <= i < |es| ==> Tight(es[i].event)
    ensures SameOutcome(PushText(json, State("", n), PrintedAll(dump, es)), (State("", Owed(es, n).1), Owed(es, n).0))
    decreases |es|
  {
    if es == [] {
      assert "" + "" == "";
    } else {
      hide Codec, Tight;
      var first := Printed(dump, es[0]);
      PrintedReply(json, dump, es[0], n);
      PushTwice(json, State("", n), first, PrintedAll(dump, es[1..]));
      PrintedAllReply(json, dump, es[1..], OwedOne(es[0], n).1);
      hide PushText, OwedOne, Printed;
    }
  }

  lemma {:induction false} PrintedHasNoReturns(json: Json, dump: Dump, es: seq<Emitted>)
    requires Codec(json, dump) && forall i :: 0 <= i < |es| ==> Tight(es[i].event)
    ensures '\r' !in PrintedAll(dump, es)
    decreases |es|
  {
    if es != [] {
      PrintedHasNoReturns(json, dump, es[1..]);
      assert TightStart(dump(es[0].sequence, es[0].rest));
      BodyIsOneFrame(es[0].event, dump(es[0].sequence, es[0].rest));
      hide Body, TightStart, Tight, Codec;
    }
  }

  /** However the printed stream is cut into chunks, the parser delivers what it owes. */
  lemma {:induction false} AnyChunkingIsReadBack(json: Json, dump: Dump, es: seq<Emitted>, chunks: seq<string>)
    requires Codec(json, dump) && forall i :: 0 <= i < |es| ==> Tight(es[i].event)
    requires Concat(chunks) == PrintedAll(dump, es)
    ensures SameOutcome(FedAll(json, FRESH, chunks), (State("", Owed(es, 0).1), Owed(es, 0).0))
  {
    PrintedHasNoReturns(json, dump, es);
    PlainIsNormal(PrintedAll(dump, es));
    PlainChunksAreSplitFree(chunks);
    ChunkingDoesNotMatter(json, FRESH, chunks);
    PrintedAllReply(json, dump, es, 0);
  }

  /** A heartbeat frame, being one comment line, is ignored. */
  lemma HeartbeatsAreIgnored(json: Json, text: string, n: int)
    requires '\n' !in text
    ensures FrameReply(json, ":" + text, n) == Events([])
  {
    var line := ":" + text;
    forall i | 0 <= i < |line| ensures line[i] != '\n' {
      if i > 0 { assert line[i] == text[i - 1]; }
    }
    LineFirst(line, "");
    var lines := [line];
    assert lines[..0] == [] && line[..1] == ":";
    assert ReadLines(lines) == ReadLine(NO_FIELDS, line);
  }

  // ----- the emitter -----

  predicate Numbered(es: seq<Emitted>, from: int) {
    forall i :: 0 <= i < |es| ==> es[i].sequence == from + i && es[i].event in DIAGNOSIS_EVENTS
  }

  class QueueDiagnosisEventEmitter {
    var queue: seq<Emitted>
    var sequence: int
    var closed: bool

    /** What is queued is numbered from one without a gap. */
    predicate Valid()
      reads this
    {
      sequence == |queue| && Numbered(queue, 1)
    }

    constructor ()
      ensures Valid() && queue == [] && !closed
    {
      queue, sequence, closed := [], 0, false;
    }

    method Emit(event: string, rest: string)
      requires Valid() && event in DIAGNOSIS_EVENTS
      modifies this
      ensures Valid() && closed == old(closed)
      ensures queue == if closed then old(queue) else old(queue) + [Emitted(event, |old(queue)| + 1, rest)]
    {
      if closed { return; }
      sequence := sequence + 1;
      queue := queue + [Emitted(event, sequence, rest)];
    }

    method Close()
      requires Valid()
      modifies this
      ensures Valid() && closed && queue == old(queue)
    {
      closed := true;
    }
  }

  predicate IsWord(s: string) {
    forall i :: 0 <= i < |s| ==> 'a' <= s[i] <= 'z' || s[i] == '_'
  }

  lemma WordsAreTight(s: string)
    requires s != "" && IsWord(s)
    ensures Tight(s)
  {
  }

  lemma EventNamesAreTight(name: string)
    requires name in DIAGNOSIS_EVENTS
    ensures Tight(name)
  {
    hide Tight;
    assert IsWord("intent_identified") && IsWord("data_fetch_started") && IsWord("retrieval_completed");
    assert IsWord("need_user_input") && IsWord("draft_generated") && IsWord("completed");
    assert name != "";
    hide IsWord;
    WordsAreTight(name);
  }

  function Delivered(e: Emitted): DiagnosisEvent {
    DiagnosisEvent(e.event, e.sequence, e.rest)
  }

  function DeliveredAll(es: seq<Emitted>): (ds: seq<DiagnosisEvent>)
    ensures |ds| == |es| && forall i :: 0 <= i < |es| ==> ds[i] == Delivered(es[i])
  {
    if es == [] then [] else [Delivered(es[0])] + DeliveredAll(es[1..])
  }

  lemma {:induction false} NumberedAreOwed(es: seq<Emitted>, n: int)
    requires Numbered(es, n + 1)
    ensures Owed(es, n) == (Events(DeliveredAll(es)), n + |es|)
    decreases |es|
  {
    if es != [] {
      var rest := es[1..];
      assert es[0].sequence == n + 1 && es[0].event in DIAGNOSIS_EVENTS;
      forall i | 0 <= i < |rest| ensures rest[i].sequence == n + 2 + i && rest[i].event in DIAGNOSIS_EVENTS {
        assert rest[i] == es[i + 1];
      }
      NumberedAreOwed(rest, n + 1);
      hide DIAGNOSIS_EVENTS, Numbered;
    }
  }

  lemma NumberedAreTight(es: seq<Emitted>)
    requires Numbered(es, 1)
    ensures forall i :: 0 <= i < |es| ==> Tight(es[i].event)
  {
    hide Tight, DIAGNOSIS_EVENTS;
    forall i | 0 <= i < |es| ensures Tight(es[i].event) { EventNamesAreTight(es[i].event); }
  }

  /** Any chunking of the printed form of a valid queue gives back exactly its events, in
      order, without an error and with nothing left in the buffer. */
  lemma {:induction false} QueuedEventsAreReadBack(json: Json, dump: Dump, es: seq<Emitted>, chunks: seq<string>)
    requires Codec(json, dump) && Numbered(es, 1) && Concat(chunks) == PrintedAll(dump, es)
    ensures FedAll(json, FRESH, chunks) == (State("", |es|), Events(DeliveredAll(es)))
  {
    hide Tight, Codec, DIAGNOSIS_EVENTS, FedAll, Owed, Concat, PrintedAll, Numbered;
    NumberedAreTight(es);
    AnyChunkingIsReadBack(json, dump, es, chunks);
    NumberedAreOwed(es, 0);
  }

  // ----- numbers that do not grow -----

  /** The numbers of the known events, in order. */
  function KnownNumbers(es: seq<Emitted>): seq<int> {
    if es == [] then []
    else (if es[0].event in DIAGNOSIS_EVENTS then [es[0].sequence] else []) + KnownNumbers(es[1..])
  }

  predicate Grow(ns: seq<int>, from: int) {
    ns == [] || (ns[0] > from && Grow(ns[1..], ns[0]))
  }

  /** A stream is accepted to its end exactly when the numbers of its known events grow
      strictly from zero: repeated and reordered ones are rejected. */
  lemma {:induction false} AcceptedExactlyWhenNumbersGrow(es: seq<Emitted>, n: int)
    ensures Owed(es, n).0.Events? <==> Grow(KnownNumbers(es), n)
    decreases |es|
  {
    if es != [] {
      var e, rest := es[0], KnownNumbers(es[1..]);
      if e.event !in DIAGNOSIS_EVENTS {
        AcceptedExactlyWhenNumbersGrow(es[1..], n);
        assert [] + rest == rest;
      } else {
        AcceptedExactlyWhenNumbersGrow(es[1..], e.sequence);
        assert ([e.sequence] + rest)[1..] == rest;
      }
    }
  }
}
