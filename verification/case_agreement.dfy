/** Sync mode: the case table, the index status and the vector store agree in every reachable
    state, whatever embedding, upsert, delete, recording or audit call fails on the way. */
module CaseAgreement {
  import opened Text
  import opened CaseModel
  import opened CaseLifecycle
  import opened CaseHistory

  /** An active case is approved, indexed, and stored under the embedding of its own text; a
      removed case is withdrawn and has no vector; a vector belongs to a case that was approved. */
  predicate AgreesAt(c: Case, id: nat, vectors: map<nat, Vector>) {
    && (c.active ==>
          c.status == Approved && c.index == Live
          && c.embeddingText == Some(BuildEmbeddingText(c.content))
          && id in vectors && vectors[id] == Embedded(BuildEmbeddingText(c.content)))
    && (c.index == Removed ==> id !in vectors && Withdrawn(c.status))
    && (id in vectors ==> c.status == Approved || Withdrawn(c.status))
  }

  predicate AllAgree(cases: seq<Case>, vectors: map<nat, Vector>) {
    && (forall i :: 0 <= i < |cases| ==> AgreesAt(cases[i], i, vectors))
    && (forall i :: i in vectors ==> i < |cases|)
  }

  /** A remembered withdrawal has happened. */
  predicate Remembered(cases: seq<Case>, reviews: map<(nat, IdemKey), Request>) {
    forall e: (nat, IdemKey) :: e in reviews ==>
      e.0 < |cases|
      && (reviews[e].DisableRequest? ==> cases[e.0].status == Disabled)
      && (reviews[e].SupersedeRequest? ==> cases[e.0].status == Superseded)
  }

  predicate Agreement(cfg: Config, db: Db) {
    && AllAgree(db.cases, db.vectors)
    && Remembered(db.cases, db.reviews)
    && (!cfg.milvus ==> db.vectors == map[])
  }

  // ----- the two indexing procedures -----

  lemma IndexCaseAgrees(cfg: Config, db: Db, id: nat, f: Faults)
    requires Agreement(cfg, db) && id < |db.cases| && db.cases[id].status == Approved
    ensures Agreement(cfg, IndexCase(cfg, db, id, f))
  {
    hide BuildEmbeddingText;
    IndexCaseIsIndexOnly(cfg, db, id, f);
    var out := IndexCase(cfg, db, id, f);
    assert forall i :: 0 <= i < |db.cases| ==> SameButIndex(db.cases[i], out.cases[i]);
    forall i | 0 <= i < |db.cases| ensures AgreesAt(out.cases[i], i, out.vectors) {
      assert AgreesAt(db.cases[i], i, db.vectors);
    }
  }

  lemma TombstoneAgrees(cfg: Config, db: Db, id: nat, f: Faults)
    requires Agreement(cfg, db) && id < |db.cases| && Withdrawn(db.cases[id].status)
    ensures Agreement(cfg, TombstoneCase(cfg, db, id, f))
  {
    hide BuildEmbeddingText;
    TombstoneIsIndexOnly(cfg, db, id, f);
    var out := TombstoneCase(cfg, db, id, f);
    assert forall i :: 0 <= i < |db.cases| ==> SameButIndex(db.cases[i], out.cases[i]);
    forall i | 0 <= i < |db.cases| ensures AgreesAt(out.cases[i], i, out.vectors) {
      assert AgreesAt(db.cases[i], i, db.vectors);
    }
  }

  // ----- changes that do not index -----

  /** A case moves within the lifecycle and is not made active. */
  predicate QuietStep(a: Case, b: Case) {
    && CaseStep(a, b)
    && (b.active ==> a == b)
    && (b.index == Removed ==> a.index == Removed)
  }

  ghost predicate QuietExcept(db: Db, db': Db) {
    && db'.vectors == db.vectors
    && |db.cases| <= |db'.cases| <= |db.cases| + 1
    && (forall i :: 0 <= i < |db.cases| ==> db'.cases[i] == db.cases[i] || QuietStep(db.cases[i], db'.cases[i]))
    && (|db'.cases| > |db.cases| ==> FreshCase(db.cases, db'.cases[|db.cases|]))
  }

  lemma QuietAgrees(db: Db, db': Db)
    requires AllAgree(db.cases, db.vectors) && QuietExcept(db, db')
    ensures AllAgree(db'.cases, db'.vectors)
  {
    hide BuildEmbeddingText, Complete;
    forall i | 0 <= i < |db'.cases| ensures AgreesAt(db'.cases[i], i, db'.vectors) {
      if i < |db.cases| { assert AgreesAt(db.cases[i], i, db.vectors); }
    }
  }

  /** What a transition remembers is true afterwards; final statuses keep it true. */
  lemma StillRemembered(db: Db, db': Db)
    requires Remembered(db.cases, db.reviews) && Progresses(db, db')
    requires forall e: (nat, IdemKey) :: e in db'.reviews ==>
               (e in db.reviews && db'.reviews[e] == db.reviews[e])
               || (e.0 < |db'.cases|
                   && (db'.reviews[e].DisableRequest? ==> db'.cases[e.0].status == Disabled)
                   && (db'.reviews[e].SupersedeRequest? ==> db'.cases[e.0].status == Superseded))
    ensures Remembered(db'.cases, db'.reviews)
  {
    hide Complete;
    forall e: (nat, IdemKey) | e in db'.reviews && e in db.reviews && db'.reviews[e] == db.reviews[e]
      ensures (db'.reviews[e].DisableRequest? ==> db'.cases[e.0].status == Disabled)
           && (db'.reviews[e].SupersedeRequest? ==> db'.cases[e.0].status == Superseded)
    {
      assert CaseStep(db.cases[e.0], db'.cases[e.0]);
    }
  }

  // ----- each call -----

  lemma WithdrawalAgrees(cfg: Config, db: Db, id: nat, target: CaseStatus, key: Option<IdemKey>,
                         request: Request, f: Faults)
    requires !cfg.queued && Agreement(cfg, db) && Withdrawn(target)
    requires (request == SupersedeRequest && target == Superseded) || (request.DisableRequest? && target == Disabled)
    ensures match Transit(db, id, Approved, target, key, request)
            case Moved(db') => Agreement(cfg, TombstoneCase(cfg, Withdraw(cfg, db', id), id, f))
            case Replayed => Agreement(cfg, TombstoneCase(cfg, db, id, f))
            case _ => true
  {
    hide BuildEmbeddingText, TombstoneCase, Complete;
    match Transit(db, id, Approved, target, key, request)
    case Moved(db') =>
      var out := Withdraw(cfg, db', id);
      assert QuietStep(db.cases[id], out.cases[id]);
      assert Progresses(db, out);
      QuietAgrees(db, out);
      StillRemembered(db, out);
      TombstoneAgrees(cfg, out, id, f);
    case Replayed => TombstoneAgrees(cfg, db, id, f);
    case _ =>
  }

  lemma SupersedeAgrees(cfg: Config, db: Db, id: nat, f: Faults)
    requires !cfg.queued && Agreement(cfg, db)
    ensures Agreement(cfg, SupersedeCase(cfg, db, id, f).db)
  {
    hide TombstoneCase, AllAgree;
    WithdrawalAgrees(cfg, db, id, Superseded, Some(SupersedeKey(id)), SupersedeRequest, f);
  }

  lemma DisableAgrees(cfg: Config, db: Db, id: nat, reason: string, key: Option<IdemKey>, f: Faults)
    requires !cfg.queued && Agreement(cfg, db)
    ensures Agreement(cfg, Disable(cfg, db, id, reason, key, f).db)
  {
    hide TombstoneCase, AllAgree;
    WithdrawalAgrees(cfg, db, id, Disabled, key, DisableRequest(reason), f);
  }

  /** The decision itself, before anything is indexed. */
  lemma DecisionAgrees(cfg: Config, db: Db, id: nat, target: CaseStatus, key: Option<IdemKey>, request: Request,
                       actor: string)
    requires Agreement(cfg, db) && Lawful(db) && target in {Approved, Rejected} && request.ReviewRequest?
    requires id < |db.cases| && db.cases[id].createdBy != actor
    ensures match Transit(db, id, PendingReview, target, key, request)
            case Moved(db') => Agreement(cfg, SetCase(db', id, db'.cases[id].(reviewer := Some(actor))))
            case _ => true
  {
    hide BuildEmbeddingText, Complete;
    match Transit(db, id, PendingReview, target, key, request)
    case Moved(db') =>
      assert LawfulCase(db.cases, id) && AgreesAt(db.cases[id], id, db.vectors);
      var signed := SetCase(db', id, db'.cases[id].(reviewer := Some(actor)));
      assert QuietStep(db.cases[id], signed.cases[id]);
      assert Progresses(db, signed);
      QuietAgrees(db, signed);
      StillRemembered(db, signed);
    case _ =>
  }

  lemma ReviewAgrees(cfg: Config, db: Db, id: nat, approve: bool, comment: string, actor: string, key: Option<IdemKey>,
                     f: Faults, g: Faults)
    requires !cfg.queued && Agreement(cfg, db) && Lawful(db)
    ensures Agreement(cfg, Review(cfg, db, id, approve, comment, actor, key, f, g).db)
  {
    hide IndexCase, SupersedeCase, AgreesAt, LawfulCase;
    if id < |db.cases| && db.cases[id].createdBy != actor {
      var target := Decision(approve);
      DecisionAgrees(cfg, db, id, target, key, ReviewRequest(approve, comment), actor);
      match Transit(db, id, PendingReview, target, key, ReviewRequest(approve, comment))
      case Moved(db') =>
        if approve {
          var signed := SetCase(db', id, db'.cases[id].(reviewer := Some(actor)));
          IndexCaseAgrees(cfg, signed, id, f);
          if signed.cases[id].supersedes.Some? {
            SupersedeAgrees(cfg, IndexCase(cfg, signed, id, f), signed.cases[id].supersedes.value, g);
          }
        }
      case _ =>
    }
  }

  lemma ReindexAgrees(cfg: Config, db: Db, id: nat, key: Option<IdemKey>, f: Faults)
    requires !cfg.queued && Agreement(cfg, db)
    ensures Agreement(cfg, Reindex(cfg, db, id, key, f).db)
  {
    hide IndexCase, TombstoneCase, BuildEmbeddingText, AllAgree;
    if id < |db.cases| {
      var noted := Remember(db, id, key, ReindexRequest);
      if key.Some? ==> (id, key.value) !in db.reviews {
        assert Agreement(cfg, noted);
        if db.cases[id].status == Approved { IndexCaseAgrees(cfg, noted, id, f); }
        if Withdrawn(db.cases[id].status) { TombstoneAgrees(cfg, noted, id, f); }
      }
    }
  }

  /** The call leaves the vectors and the index alone, changes only drafts, and remembers no
      withdrawal. */
  ghost predicate EditsOnly(db: Db, db': Db) {
    && db'.vectors == db.vectors
    && |db.cases| <= |db'.cases|
    && (forall i :: 0 <= i < |db.cases| ==> EditStep(db.cases[i], db'.cases[i]))
    && (forall e: (nat, IdemKey) :: e in db'.reviews ==>
          (e in db.reviews && db'.reviews[e] == db.reviews[e])
          || (e.0 < |db'.cases| && !db'.reviews[e].DisableRequest? && !db'.reviews[e].SupersedeRequest?))
  }

  predicate EditStep(a: Case, b: Case) {
    a == b || (a.status == Draft && b.index == a.index && b.active == a.active)
  }

  lemma EditingCalls(db: Db, call: Call)
    requires Remembered(db.cases, db.reviews)
    requires call.CallCreate? || call.CallPatch?
    ensures EditsOnly(db, Serve(Config(false, false, false), db, call).db)
  {
    hide MissingCaseFields, Patched, MaxVersion;
  }

  lemma SubmitEdits(db: Db, id: nat, actor: string, privileged: bool, evidence: set<string>, key: Option<IdemKey>)
    requires Remembered(db.cases, db.reviews)
    ensures EditsOnly(db, Submit(db, id, actor, privileged, evidence, key).db)
  {
    hide MissingCaseFields, Complete;
  }

  lemma ReviseEdits(db: Db, id: nat, patch: Patch, actor: string, key: Option<IdemKey>, noted: bool)
    requires Remembered(db.cases, db.reviews)
    ensures EditsOnly(db, Revise(db, id, patch, actor, key, noted).db)
  {
    hide Patched, MaxVersion;
  }

  lemma EditsOnlyAgrees(cfg: Config, db: Db, db': Db)
    requires Agreement(cfg, db) && EditsOnly(db, db') && Progresses(db, db')
    ensures Agreement(cfg, db')
  {
    hide BuildEmbeddingText, Complete;
    forall i | 0 <= i < |db.cases| ensures db'.cases[i] == db.cases[i] || QuietStep(db.cases[i], db'.cases[i]) {
      assert CaseStep(db.cases[i], db'.cases[i]) && AgreesAt(db.cases[i], i, db.vectors);
    }
    QuietAgrees(db, db');
    StillRemembered(db, db');
  }

  /** A call that only edits drafts, or moves a draft to review. */
  lemma QuietCallAgrees(cfg: Config, db: Db, call: Call)
    requires Agreement(cfg, db) && Lawful(db)
    requires call.CallCreate? || call.CallPatch? || call.CallSubmit? || call.CallRevise?
    ensures Agreement(cfg, Serve(cfg, db, call).db)
  {
    hide Lawful, EditsOnly, Progresses, CreateDraft, PatchDraft, Submit, Revise, AllAgree;
    CallsProgress(cfg, db, call);
    match call {
      case CallSubmit(id, actor, privileged, evidence, key) => SubmitEdits(db, id, actor, privileged, evidence, key);
      case CallRevise(id, patch, actor, key, noted) => ReviseEdits(db, id, patch, actor, key, noted);
      case _ => EditingCalls(db, call);
    }
    EditsOnlyAgrees(cfg, db, Serve(cfg, db, call).db);
  }

  lemma CallsAgree(cfg: Config, db: Db, call: Call)
    requires !cfg.queued && Agreement(cfg, db) && Lawful(db)
    ensures Agreement(cfg, Serve(cfg, db, call).db)
  {
    hide Review, Disable, Reindex, Agreement, Lawful, CreateDraft, PatchDraft, Submit, Revise;
    match call
    case CallReview(id, approve, comment, actor, key, f, g) =>
      ReviewAgrees(cfg, db, id, approve, comment, actor, key, f, g);
    case CallDisable(id, reason, key, f) => DisableAgrees(cfg, db, id, reason, key, f);
    case CallReindex(id, key, f) => ReindexAgrees(cfg, db, id, key, f);
    case _ => QuietCallAgrees(cfg, db, call);
  }

  /** In every state sync mode can reach the cases, their index status and the vectors agree. */
  lemma {:induction false} ReachableAgrees(cfg: Config, calls: seq<Call>)
    requires !cfg.queued
    ensures Agreement(cfg, ServeAll(cfg, EMPTY_DB, calls))
    decreases |calls|
  {
    hide Serve, AgreesAt;
    if calls != [] {
      var before := calls[..|calls| - 1];
      ReachableAgrees(cfg, before);
      ReachableIsLawful(cfg, before);
      CallsAgree(cfg, ServeAll(cfg, EMPTY_DB, before), calls[|calls| - 1]);
    }
  }

  /** The success was recorded and nothing took it back: a failing audit call does, unless the
      record of that failure fails as well. */
  predicate StaysRecorded(cfg: Config, f: Faults) {
    cfg.embedding && cfg.milvus && !f.embed && !f.write && !f.record && (f.audit ==> f.rescue)
  }

  lemma IndexCaseActivates(cfg: Config, db: Db, id: nat, f: Faults)
    requires id < |db.cases| && !db.cases[id].active
    ensures var out := IndexCase(cfg, db, id, f);
            |out.cases| == |db.cases| && out.cases[id].supersedes == db.cases[id].supersedes
            && (out.cases[id].active <==> StaysRecorded(cfg, f))
  {
    hide BuildEmbeddingText;
  }

  lemma AfterApprovalActivates(cfg: Config, db: Db, id: nat, f: Faults, g: Faults)
    requires !cfg.queued && id < |db.cases| && !db.cases[id].active && db.cases[id].supersedes != Some(id)
    ensures var out := AfterApproval(cfg, db, id, f, g).db;
            id < |out.cases| && (out.cases[id].active <==> StaysRecorded(cfg, f))
  {
    IndexCaseActivates(cfg, db, id, f);
    hide IndexCase, SupersedeCase;
    if IndexSucceeds(cfg, f) && db.cases[id].supersedes.Some? {
      SupersedeTouchesOne(cfg, IndexCase(cfg, db, id, f), db.cases[id].supersedes.value, g);
    }
  }

  /** In sync mode an approval puts the case into retrieval exactly when its index record
      stays. */
  lemma ApprovalActivatesExactlyWhenRecorded(cfg: Config, db: Db, id: nat, comment: string, actor: string,
                                             key: Option<IdemKey>, f: Faults, g: Faults)
    requires !cfg.queued && Agreement(cfg, db) && Lawful(db)
    requires id < |db.cases| && db.cases[id].createdBy != actor
    requires Transit(db, id, PendingReview, Approved, key, ReviewRequest(true, comment)).Moved?
    ensures var out := Review(cfg, db, id, true, comment, actor, key, f, g).db;
            id < |out.cases| && (out.cases[id].active <==> StaysRecorded(cfg, f))
  {
    hide BuildEmbeddingText, Complete, AfterApproval, Remembered, DistinctVersions;
    assert AgreesAt(db.cases[id], id, db.vectors) && LawfulCase(db.cases, id);
    var moved := Transit(db, id, PendingReview, Approved, key, ReviewRequest(true, comment)).db;
    var signed := SetCase(moved, id, moved.cases[id].(reviewer := Some(actor)));
    AfterApprovalActivates(cfg, signed, id, f, g);
  }
}
