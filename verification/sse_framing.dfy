/** Server-sent events as text: line ends, frames, lines and fields. */
module SseFraming {
  import opened Text

  // ----- line ends -----

  /** Every "\r\n" becomes "\n". */
  function Normalised(s: string): string {
    if s == "" then ""
    else if |s| >= 2 && s[0] == '\r' && s[1] == '\n' then "\n" + Normalised(s[2..])
    else [s[0]] + Normalised(s[1..])
  }

  /** The cut between `a` and `b` falls inside a "\r\n". */
  predicate Splits(a: string, b: string) {
    a != "" && b != "" && a[|a| - 1] == '\r' && b[0] == '\n'
  }

  /** How many characters the first step takes. */
  function Unit(s: string): (k: nat)
    requires s != ""
    ensures 1 <= k <= |s|
  {
    if |s| >= 2 && s[0] == '\r' && s[1] == '\n' then 2 else 1
  }

  lemma NormalisedStep(s: string)
    requires s != ""
    ensures Normalised(s) == [if Unit(s) == 2 then '\n' else s[0]] + Normalised(s[Unit(s)..])
  {
  }

  lemma SplitPair(b: string)
    requires Splits("\r", b)
    ensures |Normalised("\r" + b)| + 1 == |Normalised("\r")| + |Normalised(b)|
  {
    NormalisedStep("\r" + b);
    NormalisedStep("\r");
    NormalisedStep(b);
    assert ("\r" + b)[2..] == b[1..];
  }

  lemma SameUnit(a: string, b: string)
    requires a != "" && !(a == "\r" && Splits(a, b))
    ensures Unit(a + b) == Unit(a) && (a + b)[0] == a[0] && (a + b)[Unit(a)..] == a[Unit(a)..] + b
    ensures Splits(a, b) <==> Splits(a[Unit(a)..], b)
  {
  }

  lemma NothingIsNormal(b: string)
    ensures Normalised("") == "" && "" + b == b && "" + Normalised(b) == Normalised(b) && !Splits("", b)
  {
  }

  lemma {:induction false} NormalisedAppend(a: string, b: string)
    ensures !Splits(a, b) ==> Normalised(a + b) == Normalised(a) + Normalised(b)
    ensures Splits(a, b) ==> |Normalised(a + b)| + 1 == |Normalised(a)| + |Normalised(b)|
    decreases |a|
  {
    hide Normalised, Unit, Splits;
    if a == "" {
      NothingIsNormal(b);
    } else if a == "\r" && Splits(a, b) {
      SplitPair(b);
    } else {
      SameUnit(a, b);
      NormalisedStep(a);
      NormalisedStep(a + b);
      var rest := a[Unit(a)..];
      NormalisedAppend(rest, b);
      var first := [if Unit(a) == 2 then '\n' else a[0]];
      assert first + (Normalised(rest) + Normalised(b)) == first + Normalised(rest) + Normalised(b);
    }
  }

  lemma {:induction false} PlainIsNormal(s: string)
    requires '\r' !in s
    ensures Normalised(s) == s
    decreases |s|
  {
    if s != "" { PlainIsNormal(s[1..]); }
  }

  function Concat(chunks: seq<string>): string {
    if chunks == [] then "" else chunks[0] + Concat(chunks[1..])
  }

  /** What the parser sees: each chunk normalised by itself. */
  function Seen(chunks: seq<string>): string {
    if chunks == [] then "" else Normalised(chunks[0]) + Seen(chunks[1..])
  }

  predicate SplitFree(chunks: seq<string>) {
    chunks == [] || (!Splits(chunks[0], Concat(chunks[1..])) && SplitFree(chunks[1..]))
  }

  lemma {:induction false} SeenIsNoShorter(chunks: seq<string>)
    ensures |Seen(chunks)| >= |Normalised(Concat(chunks))|
    ensures |Seen(chunks)| == |Normalised(Concat(chunks))| <==> SplitFree(chunks)
    ensures SplitFree(chunks) ==> Seen(chunks) == Normalised(Concat(chunks))
    decreases |chunks|
  {
    if chunks != [] {
      SeenIsNoShorter(chunks[1..]);
      NormalisedAppend(chunks[0], Concat(chunks[1..]));
    }
  }

  /** Normalising chunk by chunk is normalising the whole exactly when no cut falls inside a
      "\r\n". */
  lemma SeenExactlyWhenSplitFree(chunks: seq<string>)
    ensures Seen(chunks) == Normalised(Concat(chunks)) <==> SplitFree(chunks)
  {
    SeenIsNoShorter(chunks);
  }

  lemma {:induction false} PlainChunksAreSplitFree(chunks: seq<string>)
    requires '\r' !in Concat(chunks)
    ensures SplitFree(chunks)
    decreases |chunks|
  {
    if chunks != [] {
      assert forall i :: 0 <= i < |chunks[0]| ==> Concat(chunks)[i] == chunks[0][i];
      assert forall i :: 0 <= i < |Concat(chunks[1..])| ==> Concat(chunks)[|chunks[0]| + i] == Concat(chunks[1..])[i];
      PlainChunksAreSplitFree(chunks[1..]);
    }
  }

  // ----- frames -----

  predicate BreakAt(s: string, i: nat) {
    i + 2 <= |s| && s[i] == '\n' && s[i + 1] == '\n'
  }

  /** The first empty line, or the length of a text that has none. */
  function Cut(s: string): (k: nat)
    ensures k <= |s| && (k < |s| ==> BreakAt(s, k))
    ensures forall i :: 0 <= i < k ==> !BreakAt(s, i)
  {
    if s == "" then 0
    else if BreakAt(s, 0) then 0
    else
      var rest := Cut(s[1..]);
      assert forall i :: 0 < i < |s| ==> BreakAt(s, i) == BreakAt(s[1..], i - 1);
      1 + rest
  }

  predicate Unbroken(s: string) {
    forall i :: 0 <= i < |s| ==> !BreakAt(s, i)
  }

  /** The complete frames, and the text after the last of them. */
  function Frames(s: string): (r: (seq<string>, string))
    decreases |s|
  {
    var k := Cut(s);
    if k == |s| then ([], s)
    else
      var rest := Frames(s[k + 2..]);
      ([s[..k]] + rest.0, rest.1)
  }

  lemma {:induction false} FramesLeaveUnbroken(s: string)
    ensures Unbroken(Frames(s).1)
    decreases |s|
  {
    if Cut(s) < |s| { FramesLeaveUnbroken(s[Cut(s) + 2..]); }
  }

  lemma UnbrokenHasNoFrames(s: string)
    requires Unbroken(s)
    ensures Frames(s) == ([], s)
  {
  }

  lemma CutAppend(s: string, t: string)
    requires Cut(s) < |s|
    ensures Cut(s + t) == Cut(s)
  {
    var k := Cut(s);
    assert BreakAt(s + t, k);
    forall i | 0 <= i < k ensures !BreakAt(s + t, i) {
      assert BreakAt(s + t, i) == BreakAt(s, i);
    }
  }

  lemma FirstFrame(s: string, t: string)
    requires Cut(s) < |s|
    ensures Cut(s) + 2 <= |s|
    ensures var k := Cut(s);
            var rest := Frames(s[k + 2..] + t);
            Frames(s + t) == ([s[..k]] + rest.0, rest.1)
  {
    var k := Cut(s);
    CutAppend(s, t);
    assert (s + t)[..k] == s[..k] && (s + t)[k + 2..] == s[k + 2..] + t;
    hide Cut, BreakAt;
  }

  lemma Joined(first: string, early: seq<string>, late: seq<string>)
    ensures [first] + (early + late) == ([first] + early) + late && [] + late == late
  {
  }

  /** Frames found early are the first frames of the longer text. */
  lemma {:induction false} FramesAppend(s: string, t: string)
    ensures var early, late := Frames(s), Frames(Frames(s).1 + t);
            Frames(s + t) == (early.0 + late.0, late.1)
    decreases |s|
  {
    var k := Cut(s);
    if k < |s| {
      FirstFrame(s, t);
      var rest := s[k + 2..];
      assert Frames(s) == ([s[..k]] + Frames(rest).0, Frames(rest).1);
      hide Frames, Cut, BreakAt;
      FramesAppend(rest, t);
      Joined(s[..k], Frames(rest).0, Frames(Frames(rest).1 + t).0);
    } else {
      assert Frames(s) == ([], s);
      hide Frames, Cut, BreakAt;
      Joined("", [], Frames(s + t).0);
    }
  }

  lemma FrameFirst(frame: string, t: string)
    requires Unbroken(frame) && frame != "" && frame[|frame| - 1] != '\n'
    ensures Frames(frame + "\n\n" + t) == ([frame] + Frames(t).0, Frames(t).1)
  {
    var s := frame + "\n\n" + t;
    var k := |frame|;
    assert BreakAt(s, k);
    forall i | 0 <= i < k ensures !BreakAt(s, i) {
      if i + 1 < k { assert BreakAt(s, i) == BreakAt(frame, i); }
    }
    assert Cut(s) == k;
    assert s[..k] == frame && s[k + 2..] == t;
  }

  // ----- fields -----

  datatype Fields = Fields(event: string, data: seq<string>)

  const NO_FIELDS := Fields("message", [])

  predicate StartsWith(line: string, prefix: string) {
    |line| >= |prefix| && line[..|prefix|] == prefix
  }

  /** What the browser trims. */
  predicate IsBlank(c: char) {
    || c in " \t\n\r" || c == '\U{0B}' || c == '\U{0C}'
    || c in {'\U{A0}', '\U{1680}', '\U{2028}', '\U{2029}', '\U{202F}', '\U{205F}', '\U{3000}', '\U{FEFF}'}
    || '\U{2000}' <= c <= '\U{200A}'
  }

  function ReadLine(f: Fields, line: string): Fields {
    if line == "" || StartsWith(line, ":") then f
    else if StartsWith(line, "event:") then f.(event := Trim(line[6..], IsBlank))
    else if StartsWith(line, "data:") then f.(data := f.data + [TrimStart(line[5..], IsBlank)])
    else f
  }

  function ReadLines(lines: seq<string>): Fields
    decreases |lines|
  {
    if lines == [] then NO_FIELDS else ReadLine(ReadLines(lines[..|lines| - 1]), lines[|lines| - 1])
  }

  // ----- a frame as the server prints it -----

  function Body(name: string, data: string): string {
    "event: " + name + "\n" + ("data: " + data)
  }

  predicate OneLine(s: string) {
    '\n' !in s && '\r' !in s
  }

  /** Nothing to trim, and no line end inside. */
  predicate Tight(s: string) {
    s != "" && OneLine(s) && !IsBlank(s[0]) && !IsBlank(s[|s| - 1])
  }

  predicate TightStart(s: string) {
    s != "" && OneLine(s) && !IsBlank(s[0])
  }

  lemma BodyIsOneFrame(name: string, data: string)
    requires OneLine(name) && TightStart(data)
    ensures Unbroken(Body(name, data)) && Body(name, data)[|Body(name, data)| - 1] != '\n'
    ensures '\r' !in Body(name, data)
  {
    var first, second := "event: " + name, "data: " + data;
    var s, k := Body(name, data), |first|;
    assert s == first + "\n" + second;
    assert s[k + 1..] == second && s[..k] == first;
    assert OneLine(first) && OneLine(second) by { hide IsBlank; }
    forall i | 0 <= i < |s| ensures (s[i] == '\n' <==> i == k) && s[i] != '\r' {
      if i < k { assert s[i] == first[i] && first[i] in first; }
      if i > k { assert s[i] == second[i - k - 1] && second[i - k - 1] in second; }
    }
  }

  lemma BodyFields(name: string, data: string)
    requires Tight(name) && TightStart(data)
    ensures ReadLines(Lines(Body(name, data))) == Fields(name, [data])
  {
    var first, second := "event: " + name, "data: " + data;
    LineFirst(first, second);
    LineFirst(second, "");
    var lines := [first] + [second];
    assert lines[..|lines| - 1] == [first] && [first][..0] == [];
    FirstLine(name);
    SecondLine(Fields(name, []), data);
    hide ReadLine;
    assert ReadLines([first]) == ReadLine(ReadLines([]), first);
    assert ReadLines(lines) == ReadLine(ReadLines([first]), second);
  }

  lemma FirstLine(name: string)
    requires Tight(name)
    ensures ReadLine(NO_FIELDS, "event: " + name) == Fields(name, [])
  {
    var line := "event: " + name;
    assert line[6..] == " " + name && line[..6] == "event:" && line[..1] == "e";
    TrimsToItself(name);
    hide Trim, IsBlank;
  }

  lemma SecondLine(f: Fields, data: string)
    requires TightStart(data) && f.data == []
    ensures ReadLine(f, "data: " + data) == f.(data := [data])
  {
    var line := "data: " + data;
    assert line[5..] == " " + data && line[..5] == "data:" && line[..1] == "d";
    assert |line| >= 6 ==> line[..6] != "event:" by { assert line[0] == 'd'; }
    assert (" " + data)[1..] == data;
    assert TrimStart(" " + data, IsBlank) == data;
    hide IsBlank, TrimStart;
  }

  lemma TrimsToItself(name: string)
    requires Tight(name)
    ensures Trim(" " + name, IsBlank) == name
  {
    assert (" " + name)[1..] == name;
    assert IsBlank((" " + name)[0]);
    TrimIdentity(name, IsBlank);
    hide IsBlank;
  }
}
