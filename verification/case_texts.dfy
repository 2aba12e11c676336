/** The text a case is embedded under: which fields enter it and how, and when the two
    execution modes store the same text. */
module CaseTexts {
  import opened Text
  import opened IndexContracts
  import opened CaseModel
  import opened CaseQueue

  /** The fields that enter the text, in order. */
  function TextFields(c: Content): seq<Option<string>> {
    [c.deviceType] + [c.deviceModel] + [c.alarmName] + [c.symptomSummary] + [c.timeseries]
    + [Some(c.rootCause)] + [Some(Join(c.resolutionSteps, "\U{FF1B}"))]
  }

  /** The field as `edit` leaves it, unless that is empty. */
  function One(o: Option<string>, edit: string -> string): seq<string> {
    if o.Some? && edit(o.value) != "" then [edit(o.value)] else []
  }

  function Kept(fields: seq<Option<string>>, edit: string -> string): seq<string>
    decreases |fields|
  {
    if fields == [] then [] else Kept(fields[..|fields| - 1], edit) + One(fields[|fields| - 1], edit)
  }

  const STRIP := (s: string) => Trim(s, IsSpace)
  const SAME := (s: string) => s

  lemma KeptOne(fields: seq<Option<string>>, o: Option<string>, edit: string -> string)
    ensures Kept(fields + [o], edit) == Kept(fields, edit) + One(o, edit)
  {
    assert (fields + [o])[..|fields|] == fields;
  }

  lemma KeptTextFields(c: Content, edit: string -> string)
    ensures Kept(TextFields(c), edit) ==
              One(c.deviceType, edit) + One(c.deviceModel, edit) + One(c.alarmName, edit) + One(c.symptomSummary, edit)
              + One(c.timeseries, edit) + One(Some(c.rootCause), edit)
              + One(Some(Join(c.resolutionSteps, "\U{FF1B}")), edit)
  {
    hide One, Join;
    KeptOne([], c.deviceType, edit);
    assert [] + [c.deviceType] == [c.deviceType];
    assert Kept([c.deviceType], edit) == One(c.deviceType, edit);
    hide Kept;
    var fields := [c.deviceType];
    KeptOne(fields, c.deviceModel, edit);
    fields := fields + [c.deviceModel];
    KeptOne(fields, c.alarmName, edit);
    fields := fields + [c.alarmName];
    KeptOne(fields, c.symptomSummary, edit);
    fields := fields + [c.symptomSummary];
    KeptOne(fields, c.timeseries, edit);
    fields := fields + [c.timeseries];
    KeptOne(fields, Some(c.rootCause), edit);
    KeptOne(fields + [Some(c.rootCause)], Some(Join(c.resolutionSteps, "\U{FF1B}")), edit);
  }

  lemma PartsAreKept(o: Option<string>)
    ensures PartText(o) == One(o, STRIP) && RawPart(o) == One(o, SAME)
  {
    hide Trim, IsSpace;
  }

  lemma TextsJoinKept(c: Content)
    ensures BuildEmbeddingText(c) == Join(Kept(TextFields(c), STRIP), "\n")
    ensures RawText(c) == Join(Kept(TextFields(c), SAME), "\n")
  {
    forall o ensures PartText(o) == One(o, STRIP) && RawPart(o) == One(o, SAME) { PartsAreKept(o); }
    KeptTextFields(c, STRIP);
    KeptTextFields(c, SAME);
    hide Kept, Join, PartText, RawPart, One;
  }

  predicate OneLineEach(parts: seq<string>) {
    forall i :: 0 <= i < |parts| ==> '\n' !in parts[i]
  }

  /** The lines of the text are the given fields in order, stripped, the blank ones left out:
      as long as no field has a line end inside, all of them can be read back. */
  lemma FieldsAreReadBack(c: Content)
    requires var kept := Kept(TextFields(c), STRIP); kept != [] && OneLineEach(kept)
    ensures Lines(BuildEmbeddingText(c)) == Kept(TextFields(c), STRIP)
  {
    hide Kept, Trim, BuildEmbeddingText;
    TextsJoinKept(c);
    LinesOfJoin(Kept(TextFields(c), STRIP));
  }

  // ----- the two modes -----

  function Size(parts: seq<string>): nat
    decreases |parts|
  {
    if parts == [] then 0 else |parts[0]| + 1 + Size(parts[1..])
  }

  lemma {:induction false} SizeAppend(a: seq<string>, b: seq<string>)
    ensures Size(a + b) == Size(a) + Size(b)
    decreases |a|
  {
    if a == [] {
      assert a + b == b;
    } else {
      assert (a + b)[1..] == a[1..] + b;
      SizeAppend(a[1..], b);
    }
  }

  lemma {:induction false} JoinSize(parts: seq<string>)
    ensures |Join(parts, "\n")| == if parts == [] then 0 else Size(parts) - 1
    decreases |parts|
  {
    if |parts| > 1 {
      JoinSize(parts[1..]);
    } else if |parts| == 1 {
      assert Size(parts[1..]) == 0;
    }
  }

  /** Every given field is its own trim. */
  predicate Stripped(fields: seq<Option<string>>) {
    forall i :: 0 <= i < |fields| && fields[i].Some? ==> Trim(fields[i].value, IsSpace) == fields[i].value
  }

  lemma TrimIsNoLonger(s: string)
    ensures |Trim(s, IsSpace)| <= |s| && (|Trim(s, IsSpace)| == |s| ==> Trim(s, IsSpace) == s)
  {
    var i, j := TrimIsExact(s, IsSpace);
    if j - i == |s| { assert s[i..j] == s; }
  }

  predicate StrippedOne(o: Option<string>) {
    o.Some? ==> Trim(o.value, IsSpace) == o.value
  }

  lemma StrippedLast(before: seq<Option<string>>, last: Option<string>)
    ensures Stripped(before + [last]) <==> Stripped(before) && StrippedOne(last)
  {
    var fields := before + [last];
    assert fields[|before|] == last && forall i :: 0 <= i < |before| ==> fields[i] == before[i];
    hide Trim;
  }

  lemma {:induction false} StrippingShrinks(fields: seq<Option<string>>)
    ensures Size(Kept(fields, STRIP)) <= Size(Kept(fields, SAME))
    ensures Stripped(fields) ==> Kept(fields, STRIP) == Kept(fields, SAME)
    ensures Size(Kept(fields, STRIP)) == Size(Kept(fields, SAME)) ==> Stripped(fields)
    decreases |fields|
  {
    if fields != [] {
      hide Kept, One, Trim, Stripped, StrippedOne, Size;
      var before, last := fields[..|fields| - 1], fields[|fields| - 1];
      assert fields == before + [last];
      StrippingShrinks(before);
      StrippedLast(before, last);
      KeptOne(before, last, STRIP);
      KeptOne(before, last, SAME);
      OneShrinks(last);
      SizeAppend(Kept(before, STRIP), One(last, STRIP));
      SizeAppend(Kept(before, SAME), One(last, SAME));
    }
  }

  lemma SizeOne(part: string)
    ensures Size([part]) == |part| + 1 && Size([]) == 0
  {
    assert [part][1..] == [];
  }

  lemma OneShrinks(o: Option<string>)
    ensures Size(One(o, STRIP)) <= Size(One(o, SAME))
    ensures StrippedOne(o) <==> Size(One(o, STRIP)) == Size(One(o, SAME))
    ensures StrippedOne(o) ==> One(o, STRIP) == One(o, SAME)
  {
    hide Trim, Size;
    if o.Some? {
      TrimIsNoLonger(o.value);
      SizeOne(o.value);
      SizeOne(Trim(o.value, IsSpace));
    }
  }

  lemma {:induction false} KeptHasSize(fields: seq<Option<string>>)
    ensures Kept(fields, SAME) != [] ==> Size(Kept(fields, SAME)) >= 2
    decreases |fields|
  {
    if fields != [] {
      var before, last := fields[..|fields| - 1], fields[|fields| - 1];
      KeptHasSize(before);
      if last.Some? && last.value != "" { SizeAppend(Kept(before, SAME), [last.value]); }
    }
  }

  /** Indexing in the call and indexing by the handler store a case under the same text exactly
      when no field of it has white space around it: only the first one strips. */
  lemma ModesStoreTheSameText(c: Content)
    ensures BuildEmbeddingText(c) == RawText(c) <==> Stripped(TextFields(c))
  {
    TextsJoinKept(c);
    StrippingShrinks(TextFields(c));
    JoinSize(Kept(TextFields(c), STRIP));
    JoinSize(Kept(TextFields(c), SAME));
    hide Kept, Join, BuildEmbeddingText, RawText, TextFields, Stripped;
    KeptHasSize(TextFields(c));
  }
}
