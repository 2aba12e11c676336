/** What a call of the case handler leaves behind, outcome by outcome. */
module CaseHandler {
  import opened Text
  import opened IndexContracts
  import opened IndexProtocol
  import opened CaseModel
  import opened L = CaseLifecycle
  import opened CaseQueue

  /** The event no longer concerns the case: another version, or a review status that does not
      ask for the operation. */
  predicate Outdated(c: Case, key: Key) {
    || c.version != key.version
    || (if key.operation == Tombstone then c.active || c.status !in {Disabled, Superseded} else c.status != Approved)
  }

  /** Where a call can raise: before it reads, or after it has found something to do. */
  predicate RaisesAt(db: Db, key: Key, fault: Fault)
    requires key.entity.CaseEntity?
  {
    || fault == AtRead
    || (fault != NoFault && key.entity.id < |db.cases| && !Outdated(db.cases[key.entity.id], key))
  }

  /** Each outcome has its own condition, and without a fault the call succeeds in full exactly
      when the graph was written too. */
  lemma OutcomesAreExact(db: Db, key: Key, fault: Fault, degraded: bool)
    requires key.entity.CaseEntity?
    ensures var o, id := HandleCase(db, key, fault, degraded).outcome, key.entity.id;
            && (o == Transient <==> RaisesAt(db, key, fault))
            && (o == Permanent <==> fault != AtRead && id >= |db.cases|)
            && (o == StaleEvent <==> fault != AtRead && id < |db.cases| && Outdated(db.cases[id], key))
            && (o == Ok(Tombstoned) <==>
                  fault == NoFault && id < |db.cases| && !Outdated(db.cases[id], key) && key.operation == Tombstone)
            && (o == Ok(Indexed) <==>
                  && fault == NoFault && id < |db.cases| && !Outdated(db.cases[id], key)
                  && key.operation != Tombstone && !degraded)
            && (o == Ok(Degraded) <==>
                  && fault == NoFault && id < |db.cases| && !Outdated(db.cases[id], key)
                  && key.operation != Tombstone && degraded)
  {
    hide HandlerText;
  }

  /** The text a case is stored under: what is recorded with it, else that of its fields. */
  function StoredText(c: Case): string {
    if c.embeddingText.Some? && c.embeddingText.value != "" then c.embeddingText.value else RawText(c.content)
  }

  /** The case a revision replaces, if that one is still approved. */
  predicate IsReplacedBy(cases: seq<Case>, s: nat, id: nat)
    requires id < |cases|
  {
    cases[id].supersedes == Some(s) && s < |cases| && cases[s].status == Approved
  }

  /** The case as a successful call records it. */
  predicate RecordedAs(c: Case, c': Case, status: JobStatus) {
    match status
    case Tombstoned => c' == c.(index := Removed, active := false)
    case Indexed => c' == c.(index := Live, active := true, embeddingText := Some(StoredText(c)))
    case Degraded => c' == c.(index := Partial, active := true, embeddingText := Some(StoredText(c)))
    case _ => false
  }

  /** What success means: the case is recorded as the job will be, its vector is deleted or
      written under its text, and the approved case it revises is withdrawn in the same call. */
  lemma SuccessIsExact(db: Db, key: Key, fault: Fault, degraded: bool)
    requires key.entity.CaseEntity? && HandleCase(db, key, fault, degraded).outcome.Ok?
    requires key.entity.id < |db.cases| ==> db.cases[key.entity.id].supersedes != Some(key.entity.id)
    ensures var h, id := HandleCase(db, key, fault, degraded), key.entity.id;
            && id < |db.cases| == |h.db.cases| && h.db.reviews == db.reviews
            && RecordedAs(db.cases[id], h.db.cases[id], h.outcome.status)
            && (if h.outcome.status == Tombstoned then h.db.vectors == db.vectors - {id}
                else h.db.vectors == db.vectors[id := Embedded(StoredText(db.cases[id]))])
            && (forall s: nat :: h.superseded == Some(s) <==>
                  h.outcome.status != Tombstoned && s < |db.cases| && IsReplacedBy(db.cases, s, id))
            && (forall i :: 0 <= i < |db.cases| && i != id ==>
                  h.db.cases[i] ==
                    if h.superseded == Some(i) then
                      db.cases[i].(status := Superseded, active := false, index := Enqueued)
                    else db.cases[i])
  {
    hide RawText;
  }

  /** What failure means: nothing was recorded, unless the call raised after the record. */
  lemma FailureIsExact(db: Db, key: Key, fault: Fault, degraded: bool)
    requires key.entity.CaseEntity? && !HandleCase(db, key, fault, degraded).outcome.Ok?
    ensures var h, id := HandleCase(db, key, fault, degraded), key.entity.id;
            && h.superseded == None
            && (if h.outcome == Transient && fault == AfterRecord then
                  && id < |db.cases| == |h.db.cases|
                  && h.db.cases == db.cases[id := h.db.cases[id]]
                  && RecordedAs(db.cases[id], h.db.cases[id],
                       if key.operation == Tombstone then Tombstoned else if degraded then Degraded else Indexed)
                else h.db.cases == db.cases)
            && h.db.reviews == db.reviews
            && h.db.vectors ==
                 if h.outcome == Transient && fault in {AfterVector, AfterRecord} then
                   if key.operation == Tombstone then db.vectors - {id}
                   else db.vectors[id := Embedded(if id < |db.cases| then StoredText(db.cases[id]) else "")]
                 else db.vectors
  {
    hide RawText;
  }
}
