/** What every sequence of service calls keeps, in both execution modes: who reviewed whom,
    complete content, and finite revision chains. */
module CaseHistory {
  import opened Text
  import opened CaseModel
  import opened CaseLifecycle

  /** Only the bookkeeping of the index differs. */
  predicate SameButIndex(a: Case, b: Case) {
    b == a.(index := b.index, active := b.active, embeddingText := b.embeddingText)
  }

  ghost predicate IndexOnly(db: Db, db': Db) {
    && |db'.cases| == |db.cases| && db'.reviews == db.reviews
    && forall i :: 0 <= i < |db.cases| ==> SameButIndex(db.cases[i], db'.cases[i])
  }

  lemma IndexCaseIsIndexOnly(cfg: Config, db: Db, id: nat, f: Faults)
    requires id < |db.cases|
    ensures IndexOnly(db, IndexCase(cfg, db, id, f))
  {
    hide BuildEmbeddingText;
  }

  lemma TombstoneIsIndexOnly(cfg: Config, db: Db, id: nat, f: Faults)
    requires id < |db.cases|
    ensures IndexOnly(db, TombstoneCase(cfg, db, id, f))
  {
  }

  /** How one call may change one case: identity and lineage are fixed, content is frozen
      once submitted, submission needs complete content, and the reviewer is not the creator. */
  predicate CaseStep(a: Case, b: Case) {
    && b.session == a.session && b.version == a.version
    && b.createdBy == a.createdBy && b.supersedes == a.supersedes
    && MayMove(a.status, b.status)
    && (a.status != Draft || b.status != Draft ==> b.content == a.content)
    && (a.status == Draft && b.status != Draft ==> Complete(a.content, a.createdBy))
    && (if a.status == PendingReview && Reviewed(b.status)
        then b.reviewer.Some? && b.reviewer.value != b.createdBy
        else b.reviewer == a.reviewer)
  }

  /** A new case is an inactive draft with a version above all others of its session; a
      revision's predecessor has been approved or rejected. */
  predicate FreshCase(cases: seq<Case>, c: Case) {
    && c.status == Draft && !c.active && c.index == Waiting && c.reviewer == None
    && (forall i :: 0 <= i < |cases| && cases[i].session == c.session ==> cases[i].version < c.version)
    && (c.supersedes.Some? ==>
          c.supersedes.value < |cases| && cases[c.supersedes.value].session == c.session
          && Reviewed(cases[c.supersedes.value].status))
  }

  ghost predicate Progresses(db: Db, db': Db) {
    && |db.cases| <= |db'.cases| <= |db.cases| + 1
    && (forall i :: 0 <= i < |db.cases| ==> CaseStep(db.cases[i], db'.cases[i]))
    && (|db'.cases| > |db.cases| ==> FreshCase(db.cases, db'.cases[|db.cases|]))
  }

  lemma SupersedeProgresses(cfg: Config, db: Db, id: nat, f: Faults)
    ensures Progresses(db, SupersedeCase(cfg, db, id, f).db)
  {
    hide TombstoneCase;
    match Transit(db, id, Approved, Superseded, Some(SupersedeKey(id)), SupersedeRequest)
    case Moved(db') => TombstoneIsIndexOnly(cfg, Withdraw(cfg, db', id), id, f);
    case Replayed => TombstoneIsIndexOnly(cfg, db, id, f);
    case _ =>
  }

  lemma DisableProgresses(cfg: Config, db: Db, id: nat, reason: string, key: Option<IdemKey>, f: Faults)
    ensures Progresses(db, Disable(cfg, db, id, reason, key, f).db)
  {
    hide TombstoneCase;
    match Transit(db, id, Approved, Disabled, key, DisableRequest(reason))
    case Moved(db') => TombstoneIsIndexOnly(cfg, Withdraw(cfg, db', id), id, f);
    case Replayed => TombstoneIsIndexOnly(cfg, db, id, f);
    case _ =>
  }

  lemma ReindexProgresses(cfg: Config, db: Db, id: nat, key: Option<IdemKey>, f: Faults)
    ensures Progresses(db, Reindex(cfg, db, id, key, f).db)
  {
    hide TombstoneCase, IndexCase;
    if id < |db.cases| {
      TombstoneIsIndexOnly(cfg, Remember(db, id, key, ReindexRequest), id, f);
      IndexCaseIsIndexOnly(cfg, Remember(db, id, key, ReindexRequest), id, f);
    }
  }

  /** A case's predecessor is older, in the same session, and past review. */
  predicate LawfulLineage(cases: seq<Case>, i: nat)
    requires i < |cases|
  {
    var s := cases[i].supersedes;
    s.Some? ==>
      s.value < i && cases[s.value].session == cases[i].session
      && cases[s.value].version < cases[i].version && Reviewed(cases[s.value].status)
  }

  predicate LawfulCase(cases: seq<Case>, i: nat)
    requires i < |cases|
  {
    var c := cases[i];
    && (Reviewed(c.status) ==> c.reviewer.Some? && c.reviewer.value != c.createdBy)
    && (c.status != Draft ==> Complete(c.content, c.createdBy))
    && LawfulLineage(cases, i)
  }

  predicate DistinctVersions(cases: seq<Case>) {
    forall i, j :: 0 <= i < j < |cases| && cases[i].session == cases[j].session ==> cases[i].version < cases[j].version
  }

  predicate Lawful(db: Db) {
    DistinctVersions(db.cases) && forall i :: 0 <= i < |db.cases| ==> LawfulCase(db.cases, i)
  }

  /** Approval in sync mode: index the case, then supersede its predecessor. */
  lemma ApprovalProgresses(cfg: Config, db: Db, signed: Db, id: nat, f: Faults, g: Faults)
    requires id < |db.cases| && Progresses(db, signed) && |signed.cases| == |db.cases|
    requires forall i :: 0 <= i < |db.cases| && i != id ==> signed.cases[i] == db.cases[i]
    requires signed.cases[id].supersedes.Some? ==> signed.cases[id].supersedes.value < id
    ensures Progresses(db, AfterApproval(cfg, signed, id, f, g).db)
  {
    hide IndexCase, SupersedeCase, Complete;
    if !cfg.queued {
      var indexed := IndexCase(cfg, signed, id, f);
      IndexCaseIsIndexOnly(cfg, signed, id, f);
      assert forall i :: 0 <= i < |db.cases| ==> SameButIndex(signed.cases[i], indexed.cases[i]);
      if IndexSucceeds(cfg, f) && signed.cases[id].supersedes.Some? {
        var pred := signed.cases[id].supersedes.value;
        SupersedeTouchesOne(cfg, indexed, pred, g);
        SupersedeProgresses(cfg, indexed, pred, g);
        var out := SupersedeCase(cfg, indexed, pred, g).db;
        assert CaseStep(indexed.cases[pred], out.cases[pred]);
      }
    }
  }

  /** The approval of a case touches the case and, in sync mode, its predecessor. */
  lemma ReviewProgresses(cfg: Config, db: Db, id: nat, approve: bool, comment: string, actor: string,
                         key: Option<IdemKey>, f: Faults, g: Faults)
    requires Lawful(db)
    ensures Progresses(db, Review(cfg, db, id, approve, comment, actor, key, f, g).db)
  {
    hide AfterApproval, Complete;
    if id < |db.cases| && db.cases[id].createdBy != actor {
      match Transit(db, id, PendingReview, Decision(approve), key, ReviewRequest(approve, comment))
      case Moved(db') =>
        assert LawfulCase(db.cases, id);
        var signed := SetCase(db', id, db'.cases[id].(reviewer := Some(actor)));
        if approve { ApprovalProgresses(cfg, db, signed, id, f, g); }
      case _ =>
    }
  }

  lemma SupersedeTouchesOne(cfg: Config, db: Db, id: nat, f: Faults)
    ensures |SupersedeCase(cfg, db, id, f).db.cases| == |db.cases|
    ensures forall i :: 0 <= i < |db.cases| && i != id ==> SupersedeCase(cfg, db, id, f).db.cases[i] == db.cases[i]
  {
    hide TombstoneCase;
    match Transit(db, id, Approved, Superseded, Some(SupersedeKey(id)), SupersedeRequest)
    case Moved(db') => TombstoneTouchesOne(cfg, Withdraw(cfg, db', id), id, f);
    case Replayed => TombstoneTouchesOne(cfg, db, id, f);
    case _ =>
  }

  lemma TombstoneTouchesOne(cfg: Config, db: Db, id: nat, f: Faults)
    requires id < |db.cases|
    ensures |TombstoneCase(cfg, db, id, f).cases| == |db.cases|
    ensures forall i :: 0 <= i < |db.cases| && i != id ==> TombstoneCase(cfg, db, id, f).cases[i] == db.cases[i]
  {
  }

  lemma CreateProgresses(db: Db, session: nat, actor: string, content: Content)
    ensures Progresses(db, CreateDraft(db, session, actor, content).db)
  {
    hide Complete;
  }

  lemma PatchProgresses(db: Db, id: nat, patch: Patch, actor: string, privileged: bool)
    ensures Progresses(db, PatchDraft(db, id, patch, actor, privileged).db)
  {
    hide Complete, Patched;
  }

  lemma SubmitProgresses(db: Db, id: nat, actor: string, privileged: bool, evidence: set<string>, key: Option<IdemKey>)
    ensures Progresses(db, Submit(db, id, actor, privileged, evidence, key).db)
  {
    hide Complete, MissingCaseFields;
  }

  lemma ReviseProgresses(db: Db, id: nat, patch: Patch, actor: string, key: Option<IdemKey>, noted: bool)
    ensures Progresses(db, Revise(db, id, patch, actor, key, noted).db)
  {
    hide Complete, Patched;
  }

  /** Every call, in either mode and with any failures, moves each case only along the
      lifecycle. */
  lemma CallsProgress(cfg: Config, db: Db, call: Call)
    requires Lawful(db)
    ensures Progresses(db, Serve(cfg, db, call).db)
  {
    hide Review, Disable, Reindex, Complete, MissingCaseFields, CreateDraft, PatchDraft, Submit, Revise;
    match call
    case CallCreate(session, actor, content) => CreateProgresses(db, session, actor, content);
    case CallPatch(id, patch, actor, privileged) => PatchProgresses(db, id, patch, actor, privileged);
    case CallSubmit(id, actor, privileged, evidence, key) => SubmitProgresses(db, id, actor, privileged, evidence, key);
    case CallReview(id, approve, comment, actor, key, f, g) =>
      ReviewProgresses(cfg, db, id, approve, comment, actor, key, f, g);
    case CallDisable(id, reason, key, f) => DisableProgresses(cfg, db, id, reason, key, f);
    case CallRevise(id, patch, actor, key, noted) => ReviseProgresses(db, id, patch, actor, key, noted);
    case CallReindex(id, key, f) => ReindexProgresses(cfg, db, id, key, f);
  }

  lemma ProgressIsLawful(db: Db, db': Db)
    requires Lawful(db) && Progresses(db, db')
    ensures Lawful(db')
  {
    forall i | 0 <= i < |db'.cases| ensures LawfulCase(db'.cases, i) {
      if i < |db.cases| {
        assert LawfulCase(db.cases, i) && CaseStep(db.cases[i], db'.cases[i]);
        if db.cases[i].supersedes.Some? {
          var s := db.cases[i].supersedes.value;
          assert CaseStep(db.cases[s], db'.cases[s]);
        }
      } else if db'.cases[i].supersedes.Some? {
        var s := db'.cases[i].supersedes.value;
        assert CaseStep(db.cases[s], db'.cases[s]);
      }
    }
  }

  /** In every reachable state, in both modes: a reviewed case was reviewed by someone other
      than its creator, a case past DRAFT is complete, a revision is a younger version of a
      reviewed case of its session, and versions of a session are distinct. */
  lemma {:induction false} ReachableIsLawful(cfg: Config, calls: seq<Call>)
    ensures Lawful(ServeAll(cfg, EMPTY_DB, calls))
    decreases |calls|
  {
    if calls != [] {
      var before := calls[..|calls| - 1];
      ReachableIsLawful(cfg, before);
      CallsProgress(cfg, ServeAll(cfg, EMPTY_DB, before), calls[|calls| - 1]);
      ProgressIsLawful(ServeAll(cfg, EMPTY_DB, before), ServeAll(cfg, EMPTY_DB, calls));
    }
  }

  /** REJECTED, DISABLED and SUPERSEDED are never left. */
  lemma {:induction false} FinalStatusesAreFinal(cfg: Config, calls: seq<Call>, k: nat, id: nat)
    requires k <= |calls| && id < |ServeAll(cfg, EMPTY_DB, calls[..k]).cases|
    requires ServeAll(cfg, EMPTY_DB, calls[..k]).cases[id].status in {Rejected, Disabled, Superseded}
    ensures id < |ServeAll(cfg, EMPTY_DB, calls).cases|
    ensures ServeAll(cfg, EMPTY_DB, calls).cases[id].status == ServeAll(cfg, EMPTY_DB, calls[..k]).cases[id].status
    decreases |calls|
  {
    if k == |calls| {
      assert calls[..k] == calls;
    } else {
      var before := calls[..|calls| - 1];
      assert before[..k] == calls[..k];
      FinalStatusesAreFinal(cfg, before, k, id);
      ReachableIsLawful(cfg, before);
      var db := ServeAll(cfg, EMPTY_DB, before);
      CallsProgress(cfg, db, calls[|calls| - 1]);
      assert CaseStep(db.cases[id], ServeAll(cfg, EMPTY_DB, calls).cases[id]);
    }
  }

  /** The case, its predecessor, the predecessor's predecessor, and so on. */
  function Chain(cases: seq<Case>, i: nat): (chain: seq<nat>)
    requires i < |cases| && forall j :: 0 <= j < |cases| ==> LawfulLineage(cases, j)
    ensures |chain| > 0 && chain[0] == i
    ensures forall k :: 0 <= k < |chain| ==> chain[k] <= i < |cases|
  {
    assert LawfulLineage(cases, i);
    if cases[i].supersedes.None? then [i] else [i] + Chain(cases, cases[i].supersedes.value)
  }

  /** Every revision chain is finite and acyclic: versions strictly fall along it, inside one
      session, until a case that supersedes nothing. */
  lemma {:induction false} ChainsDescend(cases: seq<Case>, i: nat)
    requires i < |cases| && forall j :: 0 <= j < |cases| ==> LawfulLineage(cases, j)
    ensures forall k :: 0 <= k < |Chain(cases, i)| ==> cases[Chain(cases, i)[k]].session == cases[i].session
    ensures forall k, l :: 0 <= k < l < |Chain(cases, i)| ==>
              cases[Chain(cases, i)[l]].version < cases[Chain(cases, i)[k]].version
    ensures cases[Chain(cases, i)[|Chain(cases, i)| - 1]].supersedes.None?
  {
    assert LawfulLineage(cases, i);
    if cases[i].supersedes.Some? {
      var s := cases[i].supersedes.value;
      ChainsDescend(cases, s);
      var chain, rest := Chain(cases, i), Chain(cases, s);
      assert chain == [i] + rest;
      forall k, l | 0 <= k < l < |chain| ensures cases[chain[l]].version < cases[chain[k]].version {
        if k == 0 && l > 1 { assert cases[rest[l - 1]].version < cases[rest[0]].version; }
      }
    }
  }

  /** Sent again with the same key, a revision creates no second draft if and only if the first
      one was remembered: the draft and the event are two transactions. */
  lemma RevisionIsRepeatedUnlessNoted(db: Db, id: nat, patch: Patch, actor: string, k: IdemKey, noted: bool)
    requires id < |db.cases| && db.cases[id].status in {Approved, Rejected} && (id, k) !in db.reviews
    ensures var first := Revise(db, id, patch, actor, Some(k), noted).db;
            var second := Revise(first, id, patch, actor, Some(k), true).db;
            |first.cases| == |db.cases| + 1 && (second == first <==> noted)
            && (!noted ==> |second.cases| == |db.cases| + 2)
  {
    hide Patched, MaxVersion;
  }
}
