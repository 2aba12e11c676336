/** Sync mode while no external call raises: what every case's index, activity and vector are.
    Together with the history of its status this is the whole outcome of a run. */
module CaseCalm {
  import opened Text
  import opened CaseModel
  import opened CaseLifecycle
  import opened CaseHistory
  import opened CaseAgreement
  import opened CaseDecisions

  const SYNC := Config(false, true, true)

  predicate NoFaults(f: Faults) {
    !f.embed && !f.write && !f.record && !f.audit && !f.announce
  }

  predicate CalmCall(call: Call) {
    && ClientCall(call)
    && (call.CallReview? ==> NoFaults(call.f) && NoFaults(call.g))
    && (call.CallDisable? || call.CallReindex? ==> NoFaults(call.f))
  }

  /** An approved case is in retrieval under its own text, a withdrawn one has been removed, and
      any other has never been indexed. */
  predicate Settled(c: Case, id: nat, vectors: map<nat, Vector>) {
    match c.status
    case Approved =>
      && c.active && c.index == Live && c.embeddingText == Some(BuildEmbeddingText(c.content))
      && id in vectors && vectors[id] == Embedded(BuildEmbeddingText(c.content))
    case Disabled => !c.active && c.index == Removed && id !in vectors
    case Superseded => !c.active && c.index == Removed && id !in vectors
    case _ => !c.active && c.index == Waiting && c.embeddingText == None && id !in vectors
  }

  predicate AllSettled(cases: seq<Case>, vectors: map<nat, Vector>) {
    && (forall i :: 0 <= i < |cases| ==> Settled(cases[i], i, vectors))
    && (forall i :: i in vectors ==> i < |cases|)
  }

  /** Of a case and the one it supersedes, once it has been approved, at most one is. */
  predicate NoDoubles(cases: seq<Case>) {
    forall i :: 0 <= i < |cases| ==> NoDouble(cases, i)
  }

  predicate NoDouble(cases: seq<Case>, i: nat)
    requires i < |cases|
  {
    var s := cases[i].supersedes;
    WasApproved(cases[i].status) && s.Some? && s.value < |cases| ==> cases[s.value].status != Approved
  }

  predicate OwnKeys(db: Db) {
    forall e: (nat, IdemKey) :: e in db.reviews && e.1.SupersedeKey? ==> db.reviews[e] == SupersedeRequest
  }

  predicate Calm(db: Db) {
    AllSettled(db.cases, db.vectors) && NoDoubles(db.cases) && OwnKeys(db)
  }

  // ----- indexing without faults -----

  lemma IndexesNow(db: Db, id: nat, f: Faults)
    requires id < |db.cases| && NoFaults(f)
    ensures var text := BuildEmbeddingText(db.cases[id].content);
            IndexCase(SYNC, db, id, f) ==
              Db(db.cases[id := db.cases[id].(index := Live, active := true, embeddingText := Some(text))],
                 db.reviews, db.vectors[id := Embedded(text)])
  {
    hide BuildEmbeddingText;
  }

  lemma RemovesNow(db: Db, id: nat, f: Faults)
    requires id < |db.cases| && NoFaults(f)
    ensures TombstoneCase(SYNC, db, id, f) ==
              Db(db.cases[id := db.cases[id].(index := Removed, active := false)], db.reviews, db.vectors - {id})
  {
  }

  // ----- each call -----

  /** One case changes, and fits again; so does what supersedes it. */
  lemma OneSettles(db: Db, db': Db, id: nat)
    requires Calm(db) && id < |db.cases| == |db'.cases|
    requires forall i :: 0 <= i < |db.cases| && i != id ==> db'.cases[i] == db.cases[i]
    requires forall i :: i != id ==> (i in db'.vectors <==> i in db.vectors)
    requires forall i :: i != id && i in db.vectors ==> db'.vectors[i] == db.vectors[i]
    requires Settled(db'.cases[id], id, db'.vectors) && OwnKeys(db')
    ensures AllSettled(db'.cases, db'.vectors)
  {
    hide BuildEmbeddingText, NoDoubles, OwnKeys;
    forall i | 0 <= i < |db.cases| && i != id ensures Settled(db'.cases[i], i, db'.vectors) {
      assert Settled(db.cases[i], i, db.vectors);
    }
  }

  lemma SupersedingSettles(db: Db, s: nat, g: Faults)
    requires AllSettled(db.cases, db.vectors) && OwnKeys(db) && NoFaults(g)
    requires Remembered(db.cases, db.reviews)
    ensures var db' := SupersedeCase(SYNC, db, s, g).db;
            && AllSettled(db'.cases, db'.vectors) && OwnKeys(db') && |db'.cases| == |db.cases|
            && (forall i :: 0 <= i < |db.cases| && i != s ==> db'.cases[i] == db.cases[i])
            && (s < |db.cases| ==>
                  && db'.cases[s].status == (if db.cases[s].status == Approved then Superseded else db.cases[s].status)
                  && db'.cases[s].supersedes == db.cases[s].supersedes)
  {
    hide BuildEmbeddingText;
    match Transit(db, s, Approved, Superseded, Some(SupersedeKey(s)), SupersedeRequest)
    case Moved(db') =>
      assert Settled(db.cases[s], s, db.vectors);
      RemovesNow(Withdraw(SYNC, db', s), s, g);
      var out := SupersedeCase(SYNC, db, s, g).db;
      hide TombstoneCase;
      forall i | 0 <= i < |db.cases| ensures Settled(out.cases[i], i, out.vectors) {
        assert Settled(db.cases[i], i, db.vectors);
      }
    case Replayed =>
      assert Settled(db.cases[s], s, db.vectors);
      RemovesNow(db, s, g);
      assert TombstoneCase(SYNC, db, s, g).cases[s] == db.cases[s];
      var out := SupersedeCase(SYNC, db, s, g).db;
      hide TombstoneCase;
      forall i | 0 <= i < |db.cases| ensures Settled(out.cases[i], i, out.vectors) {
        assert Settled(db.cases[i], i, db.vectors);
      }
    case _ =>
  }

  /** Whoever is newly approved must not double; for the others it stays as it was. */
  lemma NoDoublesAfter(db: Db, db': Db)
    requires Lawful(db) && Progresses(db, db') && NoDoubles(db.cases)
    requires forall i :: 0 <= i < |db.cases| && !WasApproved(db.cases[i].status) ==> NoDouble(db'.cases, i)
    ensures NoDoubles(db'.cases)
  {
    hide Complete, DistinctVersions;
    forall i | 0 <= i < |db'.cases| ensures NoDouble(db'.cases, i) {
      if i < |db.cases| && WasApproved(db.cases[i].status) {
        assert CaseStep(db.cases[i], db'.cases[i]) && LawfulCase(db.cases, i) && NoDouble(db.cases, i);
        if db.cases[i].supersedes.Some? {
          var s := db.cases[i].supersedes.value;
          assert CaseStep(db.cases[s], db'.cases[s]);
        }
      }
    }
  }

  /** All cases are settled, and none is newly approved. */
  predicate SettlesQuietly(db: Db, db': Db) {
    && AllSettled(db'.cases, db'.vectors) && OwnKeys(db') && |db.cases| <= |db'.cases|
    && forall i :: 0 <= i < |db.cases| && WasApproved(db'.cases[i].status) ==> WasApproved(db.cases[i].status)
  }

  /** A draft's fields change or it is submitted; nothing is indexed. */
  predicate DraftStep(a: Case, b: Case) {
    b == a ||
    (&& a.status == Draft && b.status in {Draft, PendingReview}
     && b.index == a.index && b.active == a.active && b.embeddingText == a.embeddingText)
  }

  predicate EditsDrafts(db: Db, db': Db) {
    && db'.vectors == db.vectors && |db.cases| <= |db'.cases|
    && (forall i :: 0 <= i < |db.cases| ==> DraftStep(db.cases[i], db'.cases[i]))
    && (forall i :: |db.cases| <= i < |db'.cases| ==>
          var c := db'.cases[i]; c.status == Draft && c.index == Waiting && !c.active && c.embeddingText == None)
  }

  lemma DraftCallsEdit(db: Db, call: Call)
    requires call.CallCreate? || call.CallPatch? || call.CallSubmit? || call.CallRevise?
    ensures EditsDrafts(db, Serve(SYNC, db, call).db)
  {
    hide MissingCaseFields, Patched, MaxVersion, Complete;
    match call
    case CallCreate(_, _, _) =>
    case CallPatch(_, _, _, _) =>
    case CallSubmit(_, _, _, _, _) =>
    case CallRevise(_, _, _, _, _) =>
  }

  lemma DraftCallsKeepOwnKeys(db: Db, call: Call)
    requires OwnKeys(db) && CalmCall(call)
    requires call.CallCreate? || call.CallPatch? || call.CallSubmit? || call.CallRevise?
    ensures OwnKeys(Serve(SYNC, db, call).db)
  {
    hide MissingCaseFields, Patched, MaxVersion, Complete;
  }

  lemma DraftCallsStayCalm(db: Db, call: Call)
    requires Calm(db) && CalmCall(call)
    requires call.CallCreate? || call.CallPatch? || call.CallSubmit? || call.CallRevise?
    ensures SettlesQuietly(db, Serve(SYNC, db, call).db)
  {
    hide Serve, OwnKeys, NoDoubles, BuildEmbeddingText, CalmCall;
    DraftCallsEdit(db, call);
    DraftCallsKeepOwnKeys(db, call);
    var db' := Serve(SYNC, db, call).db;
    forall i | 0 <= i < |db'.cases| ensures Settled(db'.cases[i], i, db'.vectors) {
      if i < |db.cases| { assert Settled(db.cases[i], i, db.vectors) && DraftStep(db.cases[i], db'.cases[i]); }
    }
  }

  lemma DisablingSettles(db: Db, call: Call)
    requires Calm(db) && CalmCall(call) && call.CallDisable? && Remembered(db.cases, db.reviews)
    ensures SettlesQuietly(db, Serve(SYNC, db, call).db)
  {
    hide BuildEmbeddingText, NoDoubles, AllSettled;
    var id := call.id;
    var db' := Serve(SYNC, db, call).db;
    match Transit(db, id, Approved, Disabled, call.key, DisableRequest(call.reason))
    case Moved(moved) =>
      RemovesNow(Withdraw(SYNC, moved, id), id, call.f);
      OneSettles(db, db', id);
    case Replayed =>
      RemovesNow(db, id, call.f);
      OneSettles(db, db', id);
    case _ =>
  }

  /** In a calm state nothing can be reindexed. */
  lemma NothingToReindex(db: Db, call: Call)
    requires Calm(db) && call.CallReindex?
    ensures Serve(SYNC, db, call).db == db
  {
    hide BuildEmbeddingText, NoDoubles, OwnKeys, IndexCase, TombstoneCase;
    if call.id < |db.cases| { assert Settled(db.cases[call.id], call.id, db.vectors); }
  }

  lemma RejectingSettles(db: Db, call: Call)
    requires Calm(db) && CalmCall(call) && call.CallReview? && !Decides(db, call, call.id, true)
    ensures SettlesQuietly(db, Serve(SYNC, db, call).db)
  {
    ReviewIsDecision(SYNC, db, call);
    hide Serve, BuildEmbeddingText, NoDoubles, AllSettled;
    if Decides(db, call, call.id, false) {
      assert Settled(db.cases[call.id], call.id, db.vectors) by { assert AllSettled(db.cases, db.vectors); }
      OneSettles(db, Signed(db, call), call.id);
    }
  }

  /** The approved case once it is indexed. */
  function Activated(db: Db, call: Call): Db
    requires call.CallReview? && call.id < |db.cases|
  {
    var signed := Signed(db, call);
    var text := BuildEmbeddingText(db.cases[call.id].content);
    Db(signed.cases[call.id := signed.cases[call.id].(index := Live, active := true, embeddingText := Some(text))],
       signed.reviews, db.vectors[call.id := Embedded(text)])
  }

  lemma ActivatingSettles(db: Db, call: Call)
    requires Calm(db) && CalmCall(call) && call.CallReview? && Decides(db, call, call.id, true)
    requires Remembered(db.cases, db.reviews)
    ensures var db' := Activated(db, call);
            AllSettled(db'.cases, db'.vectors) && OwnKeys(db') && Remembered(db'.cases, db'.reviews)
  {
    hide BuildEmbeddingText, NoDoubles;
    assert Settled(db.cases[call.id], call.id, db.vectors);
    OneSettles(db, Activated(db, call), call.id);
  }

  lemma ApprovingSettles(db: Db, call: Call)
    requires Calm(db) && CalmCall(call) && call.CallReview? && Decides(db, call, call.id, true)
    requires Remembered(db.cases, db.reviews) && LawfulLineage(db.cases, call.id)
    ensures var db' := Serve(SYNC, db, call).db;
            && AllSettled(db'.cases, db'.vectors) && OwnKeys(db') && |db'.cases| == |db.cases|
            && NoDouble(db'.cases, call.id)
            && forall i :: 0 <= i < |db.cases| && i != call.id && WasApproved(db'.cases[i].status) ==>
                 WasApproved(db.cases[i].status)
  {
    hide Serve, BuildEmbeddingText, NoDoubles, AllSettled, IndexCase, SupersedeCase, OwnKeys, Remembered, Settled;
    ApprovalServes(db, call);
    ActivatingSettles(db, call);
    if db.cases[call.id].supersedes.Some? {
      SupersedingSettles(Activated(db, call), db.cases[call.id].supersedes.value, call.g);
    }
  }

  /** Without a fault an approval indexes the case and then supersedes its predecessor. */
  lemma ApprovalServes(db: Db, call: Call)
    requires CalmCall(call) && call.CallReview? && Decides(db, call, call.id, true)
    ensures var s := db.cases[call.id].supersedes;
            Serve(SYNC, db, call).db ==
              if s.Some? then SupersedeCase(SYNC, Activated(db, call), s.value, call.g).db else Activated(db, call)
  {
    hide BuildEmbeddingText, IndexCase, SupersedeCase, Serve;
    ReviewIsDecision(SYNC, db, call);
    IndexesNow(Signed(db, call), call.id, call.f);
  }

  lemma CallsStayCalm(db: Db, call: Call)
    requires Calm(db) && CalmCall(call) && Lawful(db) && Remembered(db.cases, db.reviews)
    ensures Calm(Serve(SYNC, db, call).db)
  {
    hide Serve, Settled, AllSettled, NoDoubles, OwnKeys, Lawful, Remembered, BuildEmbeddingText, CaseStep;
    CallsProgress(SYNC, db, call);
    match call
    case CallReview(id, _, _, _, _, _, _) =>
      if Decides(db, call, id, true) {
        assert LawfulLineage(db.cases, id) by { assert LawfulCase(db.cases, id) by { LawfulAt(db, id); } }
        ApprovingSettles(db, call);
      } else {
        RejectingSettles(db, call);
      }
      NoDoublesAfter(db, Serve(SYNC, db, call).db);
    case CallDisable(_, _, _, _) =>
      DisablingSettles(db, call);
      NoDoublesAfter(db, Serve(SYNC, db, call).db);
    case CallReindex(_, _, _) => NothingToReindex(db, call);
    case _ =>
      DraftCallsStayCalm(db, call);
      NoDoublesAfter(db, Serve(SYNC, db, call).db);
  }

  lemma LawfulAt(db: Db, id: nat)
    requires Lawful(db) && id < |db.cases|
    ensures LawfulCase(db.cases, id)
  {
  }

  /** In every state that sync mode reaches without a fault: an approved case is active and
      stored under its own text, a disabled or superseded one is gone, any other was never
      indexed; and no case is approved beside one it supersedes. */
  lemma {:induction false} CalmRunsAreSettled(calls: seq<Call>)
    requires forall k :: 0 <= k < |calls| ==> CalmCall(calls[k])
    ensures Calm(ServeAll(SYNC, EMPTY_DB, calls))
    decreases |calls|
  {
    hide Serve, Settled, Lawful, CalmCall;
    if calls != [] {
      var before := calls[..|calls| - 1];
      CalmRunsAreSettled(before);
      ReachableAgrees(SYNC, before);
      ReachableIsLawful(SYNC, before);
      CallsStayCalm(ServeAll(SYNC, EMPTY_DB, before), calls[|calls| - 1]);
    }
  }
}
