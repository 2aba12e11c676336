/** RabbitMQ mode: what is in retrieval. An active case is approved, indexed, and stored under
    the text of its own fields, over every run of the whole system. */
module CaseActivity {
  import opened Text
  import opened IndexContracts
  import opened IndexProtocol
  import opened CaseModel
  import opened L = CaseLifecycle
  import opened CaseQueue

  /** A stored text is that of the case's own fields, and only submitted cases have one. */
  predicate OwnText(c: Case) {
    c.embeddingText == None || (c.status != Draft && c.embeddingText == Some(RawText(c.content)))
  }

  predicate Retrievable(c: Case, id: nat, vectors: map<nat, Vector>) {
    && c.status == Approved && c.index in {Live, Partial}
    && c.embeddingText == Some(RawText(c.content))
    && id in vectors && vectors[id] == Embedded(RawText(c.content))
  }

  predicate FitsAt(c: Case, id: nat, vectors: map<nat, Vector>) {
    OwnText(c) && (c.active ==> Retrievable(c, id, vectors))
  }

  predicate ActiveAreRetrievable(db: Db) {
    forall i :: 0 <= i < |db.cases| ==> FitsAt(db.cases[i], i, db.vectors)
  }

  // ----- service calls -----

  /** A call may change the fields of a draft, and activates nothing. */
  predicate Quieter(a: Case, b: Case) {
    b == a ||
    (&& b.embeddingText == a.embeddingText
     && (b.active ==> a.active && a.status != Approved)
     && (a.status == Draft || (b.status != Draft && b.content == a.content)))
  }

  predicate QuietCall(db: Db, db': Db) {
    && db'.vectors == db.vectors && |db.cases| <= |db'.cases|
    && (forall i :: 0 <= i < |db.cases| ==> Quieter(db.cases[i], db'.cases[i]))
    && (forall i :: |db.cases| <= i < |db'.cases| ==> !db'.cases[i].active && db'.cases[i].embeddingText == None)
  }

  lemma DraftCallsAreQuiet(db: Db, call: Call)
    requires call.CallCreate? || call.CallPatch? || call.CallSubmit? || call.CallRevise?
    ensures QuietCall(db, Serve(QUEUED_MODE, db, call).db)
  {
    hide MissingCaseFields, Patched, MaxVersion, Complete;
    match call
    case CallCreate(_, _, _) =>
    case CallPatch(_, _, _, _) =>
    case CallSubmit(_, _, _, _, _) =>
    case CallRevise(_, _, _, _, _) =>
  }

  lemma ReviewIsQuiet(db: Db, call: Call)
    requires call.CallReview?
    ensures QuietCall(db, Serve(QUEUED_MODE, db, call).db)
  {
    hide IndexCase, SupersedeCase;
  }

  lemma WithdrawalIsQuiet(db: Db, call: Call)
    requires call.CallDisable? || call.CallReindex?
    ensures QuietCall(db, Serve(QUEUED_MODE, db, call).db)
  {
    hide IndexCase, TombstoneCase;
    match call
    case CallDisable(_, _, _, _) =>
    case CallReindex(_, _, _) =>
  }

  lemma QuietKeepsFit(db: Db, db': Db)
    requires ActiveAreRetrievable(db) && QuietCall(db, db')
    ensures ActiveAreRetrievable(db')
  {
    hide RawText;
    forall i | 0 <= i < |db'.cases| ensures FitsAt(db'.cases[i], i, db'.vectors) {
      if i < |db.cases| { assert FitsAt(db.cases[i], i, db.vectors) && Quieter(db.cases[i], db'.cases[i]); }
    }
  }

  lemma ServiceKeepsFit(db: Db, call: Call)
    requires ActiveAreRetrievable(db)
    ensures ActiveAreRetrievable(Serve(QUEUED_MODE, db, call).db)
  {
    hide Serve, QuietCall, ActiveAreRetrievable;
    if call.CallReview? {
      ReviewIsQuiet(db, call);
    } else if call.CallDisable? || call.CallReindex? {
      WithdrawalIsQuiet(db, call);
    } else {
      DraftCallsAreQuiet(db, call);
    }
    QuietKeepsFit(db, Serve(QUEUED_MODE, db, call).db);
  }

  // ----- the handler -----

  lemma UpsertKeepsFit(db: Db, id: nat, fault: Fault, degraded: bool)
    requires ActiveAreRetrievable(db) && id < |db.cases|
    ensures ActiveAreRetrievable(HandleUpsert(db, id, fault, degraded).db)
  {
    hide RawText;
    var out := HandleUpsert(db, id, fault, degraded).db;
    assert FitsAt(db.cases[id], id, db.vectors);
    assert HandlerText(db.cases[id]) == RawText(db.cases[id].content);
    forall i | 0 <= i < |out.cases| ensures FitsAt(out.cases[i], i, out.vectors) {
      assert FitsAt(db.cases[i], i, db.vectors);
    }
  }

  lemma TombstoneKeepsFit(db: Db, id: nat, fault: Fault)
    requires ActiveAreRetrievable(db) && id < |db.cases|
    ensures ActiveAreRetrievable(HandleTombstone(db, id, fault).db)
  {
    hide RawText;
    var out := HandleTombstone(db, id, fault).db;
    forall i | 0 <= i < |out.cases| ensures FitsAt(out.cases[i], i, out.vectors) {
      assert FitsAt(db.cases[i], i, db.vectors);
    }
  }

  lemma HandlerKeepsFit(db: Db, key: Key, fault: Fault, degraded: bool)
    requires ActiveAreRetrievable(db) && key.entity.CaseEntity?
    ensures ActiveAreRetrievable(HandleCase(db, key, fault, degraded).db)
  {
    hide HandleUpsert, HandleTombstone, ActiveAreRetrievable;
    var id := key.entity.id;
    if id < |db.cases| {
      UpsertKeepsFit(db, id, fault, degraded);
      TombstoneKeepsFit(db, id, fault);
    }
  }

  lemma MarkingKeepsFit(db: Db, p: Proto, e: Event)
    requires ActiveAreRetrievable(db)
    ensures ActiveAreRetrievable(MarkBroken(db, p, e))
  {
    hide RawText;
    var out := MarkBroken(db, p, e);
    forall i | 0 <= i < |out.cases| ensures FitsAt(out.cases[i], i, out.vectors) {
      assert FitsAt(db.cases[i], i, db.vectors);
    }
  }

  lemma NextKeepsFit(s: System, a: Action)
    requires ActiveAreRetrievable(s.db)
    ensures ActiveAreRetrievable(Next(s, a).db)
  {
    hide ActiveAreRetrievable, Serve, HandleCase, MarkBroken, Run;
    match a
    case Service(call, _) => ServiceKeepsFit(s.db, call);
    case Work(e) => MarkingKeepsFit(s.db, s.proto, e);
    case Handle(tag, fault, degraded) =>
      if CanHandle(s, tag) {
        HandlerKeepsFit(s.db, s.proto.store.jobs[s.proto.deliveries[tag].body.job].key, fault, degraded);
      }
  }

  lemma {:induction false} EveryStateFits(acts: seq<Action>)
    ensures ActiveAreRetrievable(RunAll(acts).db)
    decreases |acts|
  {
    if acts != [] {
      EveryStateFits(acts[..|acts| - 1]);
      hide ActiveAreRetrievable, Next;
      NextKeepsFit(RunAll(acts[..|acts| - 1]), acts[|acts| - 1]);
    }
  }

  /** In every reachable state an active case is approved, its index is complete or lacks only
      the graph, and the vector stored for it is the embedding of the text of its own fields,
      which is also the text recorded with it. */
  lemma ActiveCasesAreRetrievable(acts: seq<Action>, id: nat)
    requires id < |RunAll(acts).db.cases| && RunAll(acts).db.cases[id].active
    ensures Retrievable(RunAll(acts).db.cases[id], id, RunAll(acts).db.vectors)
  {
    EveryStateFits(acts);
    hide RunAll;
    assert FitsAt(RunAll(acts).db.cases[id], id, RunAll(acts).db.vectors);
  }
}
