/** What moves a case: its status is the history of the calls made for it, and a call that was
    accepted under a key is never carried out again. Both execution modes. */
module CaseDecisions {
  import opened Text
  import opened CaseModel
  import opened CaseLifecycle
  import opened CaseHistory

  predicate Recorded(db: Db, id: nat, key: Option<IdemKey>) {
    key.Some? && (id, key.value) in db.reviews
  }

  /** Clients send keys of their own. */
  predicate ClientCall(call: Call) {
    var keyed := call.CallSubmit? || call.CallReview? || call.CallDisable? || call.CallRevise? || call.CallReindex?;
    keyed && call.key.Some? ==> call.key.value.ClientKey?
  }

  datatype Move = Submission | Approval | Rejection | Disabling | Supersession

  predicate Submits(db: Db, call: Call, id: nat) {
    && call.CallSubmit? && call.id == id && id < |db.cases| && db.cases[id].status == Draft
    && (call.actor == db.cases[id].createdBy || call.privileged)
    && Complete(db.cases[id].content, db.cases[id].createdBy)
    && (forall e :: e in db.cases[id].content.evidenceRefs ==> e in call.evidence)
    && !Recorded(db, id, call.key)
  }

  /** A decision on a submitted case by someone other than its creator. */
  predicate Decides(db: Db, call: Call, id: nat, approve: bool) {
    && call.CallReview? && call.id == id && call.approve == approve
    && id < |db.cases| && db.cases[id].status == PendingReview && call.actor != db.cases[id].createdBy
    && !Recorded(db, id, call.key)
  }

  predicate Disables(db: Db, call: Call, id: nat) {
    call.CallDisable? && call.id == id && id < |db.cases| && db.cases[id].status == Approved
    && !Recorded(db, id, call.key)
  }

  /** In sync mode the approval of a revision, once indexed, withdraws what it revises. */
  predicate Replaces(cfg: Config, db: Db, call: Call, id: nat) {
    && !cfg.queued && cfg.embedding && cfg.milvus
    && call.CallReview? && Decides(db, call, call.id, true) && db.cases[call.id].supersedes == Some(id)
    && !call.f.embed && !call.f.write && !call.f.record && !call.f.audit
    && id < |db.cases| && db.cases[id].status == Approved && !Recorded(db, id, Some(SupersedeKey(id)))
  }

  predicate Makes(cfg: Config, db: Db, call: Call, id: nat, move: Move) {
    match move
    case Submission => Submits(db, call, id)
    case Approval => Decides(db, call, id, true)
    case Rejection => Decides(db, call, id, false)
    case Disabling => Disables(db, call, id)
    case Supersession => Replaces(cfg, db, call, id)
  }

  /** The status of a case after a call: where the move leads, if the call makes one. */
  function StatusAfter(cfg: Config, db: Db, call: Call, id: nat): CaseStatus
    requires id < |db.cases|
  {
    if Submits(db, call, id) then PendingReview
    else if Decides(db, call, id, true) then Approved
    else if Decides(db, call, id, false) then Rejected
    else if Disables(db, call, id) then Disabled
    else if Replaces(cfg, db, call, id) then Superseded
    else db.cases[id].status
  }

  ghost predicate StatusIs(db: Db, id: nat, status: CaseStatus) {
    id < |db.cases| && db.cases[id].status == status
  }

  lemma NothingMissing(c: Content, createdBy: string, evidence: set<string>)
    ensures MissingCaseFields(c, createdBy, evidence) == [] <==>
              Complete(c, createdBy) && forall e :: e in c.evidenceRefs ==> e in evidence
  {
    hide Complete;
    assert (forall e :: e in c.evidenceRefs ==> e in evidence)
      <==> (forall i :: 0 <= i < |c.evidenceRefs| ==> c.evidenceRefs[i] in evidence);
  }

  lemma SubmissionMoves(cfg: Config, db: Db, call: Call, id: nat)
    requires id < |db.cases| && call.CallSubmit?
    ensures StatusIs(Serve(cfg, db, call).db, id, StatusAfter(cfg, db, call, id))
  {
    hide Complete, MissingCaseFields;
    if call.id < |db.cases| {
      NothingMissing(db.cases[call.id].content, db.cases[call.id].createdBy, call.evidence);
    }
  }

  lemma DraftCallsMoveNothing(cfg: Config, db: Db, call: Call, id: nat)
    requires id < |db.cases| && (call.CallCreate? || call.CallPatch? || call.CallRevise?)
    ensures StatusIs(Serve(cfg, db, call).db, id, StatusAfter(cfg, db, call, id))
  {
    hide Patched, MaxVersion, Complete;
  }

  lemma IndexingMovesNothing(cfg: Config, db: Db, id: nat, f: Faults, i: nat)
    requires id < |db.cases| && i < |db.cases|
    ensures StatusIs(IndexCase(cfg, db, id, f), i, db.cases[i].status)
    ensures StatusIs(TombstoneCase(cfg, db, id, f), i, db.cases[i].status)
    ensures IndexCase(cfg, db, id, f).reviews == db.reviews
  {
    IndexCaseIsIndexOnly(cfg, db, id, f);
    TombstoneIsIndexOnly(cfg, db, id, f);
    hide IndexCase, TombstoneCase;
    assert SameButIndex(db.cases[i], IndexCase(cfg, db, id, f).cases[i]);
    assert SameButIndex(db.cases[i], TombstoneCase(cfg, db, id, f).cases[i]);
  }

  lemma DisablingMoves(cfg: Config, db: Db, call: Call, id: nat)
    requires id < |db.cases| && call.CallDisable?
    ensures StatusIs(Serve(cfg, db, call).db, id, StatusAfter(cfg, db, call, id))
  {
    hide TombstoneCase, IndexCase, Complete;
    if call.id < |db.cases| {
      match Transit(db, call.id, Approved, Disabled, call.key, DisableRequest(call.reason))
      case Moved(db') => IndexingMovesNothing(cfg, Withdraw(cfg, db', call.id), call.id, call.f, id);
      case Replayed => IndexingMovesNothing(cfg, db, call.id, call.f, id);
      case _ =>
    }
  }

  lemma ReindexMovesNothing(cfg: Config, db: Db, call: Call, id: nat)
    requires id < |db.cases| && call.CallReindex?
    ensures StatusIs(Serve(cfg, db, call).db, id, StatusAfter(cfg, db, call, id))
  {
    hide TombstoneCase, IndexCase, Complete;
    if call.id < |db.cases| {
      IndexingMovesNothing(cfg, Remember(db, call.id, call.key, ReindexRequest), call.id, call.f, id);
    }
  }

  lemma SupersedeMoves(cfg: Config, db: Db, s: nat, g: Faults, i: nat)
    requires i < |db.cases|
    ensures StatusIs(SupersedeCase(cfg, db, s, g).db, i,
              if i == s && db.cases[i].status == Approved && !Recorded(db, i, Some(SupersedeKey(i))) then Superseded
              else db.cases[i].status)
  {
    hide TombstoneCase;
    SupersedeTouchesOne(cfg, db, s, g);
    if s < |db.cases| {
      match Transit(db, s, Approved, Superseded, Some(SupersedeKey(s)), SupersedeRequest)
      case Moved(db') => IndexingMovesNothing(cfg, Withdraw(cfg, db', s), s, g, i);
      case Replayed => IndexingMovesNothing(cfg, db, s, g, i);
      case _ =>
    }
  }

  /** The case with the decision recorded on it. */
  function Signed(db: Db, call: Call): Db
    requires call.CallReview? && call.id < |db.cases|
  {
    var c := db.cases[call.id].(status := if call.approve then Approved else Rejected, reviewer := Some(call.actor));
    Db(db.cases[call.id := c],
       if call.key.Some? then db.reviews[(call.id, call.key.value) := ReviewRequest(call.approve, call.comment)]
       else db.reviews,
       db.vectors)
  }

  predicate RecordedAs(db: Db, id: nat, key: Option<IdemKey>, request: Request) {
    Recorded(db, id, key) && db.reviews[(id, key.value)] == request
  }

  /** A review is a decision, or it is one that was recorded before, or it is refused. A
      rejection changes the case's status and reviewer and nothing else, in either mode. */
  lemma ReviewIsDecision(cfg: Config, db: Db, call: Call)
    requires call.CallReview?
    ensures Serve(cfg, db, call) ==
              if !Decides(db, call, call.id, call.approve) then
                var again := call.id < |db.cases| && call.actor != db.cases[call.id].createdBy
                  && RecordedAs(db, call.id, call.key, ReviewRequest(call.approve, call.comment));
                Served(db, NoRequest, if again then Accepted else Refused)
              else if call.approve then AfterApproval(cfg, Signed(db, call), call.id, call.f, call.g)
              else Served(Signed(db, call), NoRequest, Accepted)
  {
    hide AfterApproval;
    if Decides(db, call, call.id, call.approve) {
      var c := db.cases[call.id];
      var decided := c.(status := if call.approve then Approved else Rejected);
      assert db.cases[call.id := decided][call.id := decided.(reviewer := Some(call.actor))]
          == db.cases[call.id := decided.(reviewer := Some(call.actor))];
    }
  }

  lemma ReviewMoves(cfg: Config, db: Db, call: Call, id: nat)
    requires id < |db.cases| && call.CallReview? && Lawful(db)
    requires call.key.Some? ==> call.key.value.ClientKey?
    ensures StatusIs(Serve(cfg, db, call).db, id, StatusAfter(cfg, db, call, id))
  {
    ReviewIsDecision(cfg, db, call);
    hide IndexCase, SupersedeCase, Complete, Serve;
    if Decides(db, call, call.id, true) {
      assert LawfulCase(db.cases, call.id);
      ApprovalMoves(cfg, Signed(db, call), call.id, call.f, call.g, id);
    }
  }

  lemma ApprovalMoves(cfg: Config, db: Db, id: nat, f: Faults, g: Faults, i: nat)
    requires id < |db.cases| && i < |db.cases|
    ensures StatusIs(AfterApproval(cfg, db, id, f, g).db, i,
              if && !cfg.queued && cfg.embedding && cfg.milvus && !f.embed && !f.write && !f.record && !f.audit
                 && db.cases[id].supersedes == Some(i) && db.cases[i].status == Approved
                 && !Recorded(db, i, Some(SupersedeKey(i)))
              then Superseded else db.cases[i].status)
  {
    hide IndexCase, SupersedeCase;
    IndexingMovesNothing(cfg, db, id, f, i);
    if db.cases[id].supersedes.Some? {
      SupersedeMoves(cfg, IndexCase(cfg, db, id, f), db.cases[id].supersedes.value, g, i);
    }
  }

  /** One call, any case: its status after it. */
  lemma CallsMove(cfg: Config, db: Db, call: Call, id: nat)
    requires id < |db.cases| && Lawful(db) && ClientCall(call)
    ensures StatusIs(Serve(cfg, db, call).db, id, StatusAfter(cfg, db, call, id))
  {
    hide Serve, StatusAfter, Lawful;
    match call
    case CallSubmit(_, _, _, _, _) => SubmissionMoves(cfg, db, call, id);
    case CallReview(_, _, _, _, _, _, _) => ReviewMoves(cfg, db, call, id);
    case CallDisable(_, _, _, _) => DisablingMoves(cfg, db, call, id);
    case CallReindex(_, _, _) => ReindexMovesNothing(cfg, db, call, id);
    case _ => DraftCallsMoveNothing(cfg, db, call, id);
  }

  // ----- over whole runs -----

  /** The k-th call of the run makes the move. */
  ghost predicate MadeAt(cfg: Config, calls: seq<Call>, k: nat, id: nat, move: Move) {
    k < |calls| && Makes(cfg, ServeAll(cfg, EMPTY_DB, calls[..k]), calls[k], id, move)
  }

  ghost predicate Happened(cfg: Config, calls: seq<Call>, id: nat, move: Move) {
    exists k: nat :: MadeAt(cfg, calls, k, id, move)
  }

  lemma MadeInPrefix(cfg: Config, calls: seq<Call>, k: nat, id: nat, move: Move)
    requires calls != [] && k < |calls| - 1
    ensures MadeAt(cfg, calls[..|calls| - 1], k, id, move) <==> MadeAt(cfg, calls, k, id, move)
  {
    var before := calls[..|calls| - 1];
    assert before[..k] == calls[..k] && before[k] == calls[k];
  }

  lemma HappenedUpToTheLast(cfg: Config, calls: seq<Call>, id: nat, move: Move)
    requires calls != []
    ensures var before := calls[..|calls| - 1];
            Happened(cfg, calls, id, move)
            <==> Happened(cfg, before, id, move)
                 || Makes(cfg, ServeAll(cfg, EMPTY_DB, before), calls[|calls| - 1], id, move)
  {
    var n := |calls| - 1;
    var before := calls[..n];
    assert MadeAt(cfg, calls, n, id, move)
      <==> Makes(cfg, ServeAll(cfg, EMPTY_DB, before), calls[|calls| - 1], id, move);
    forall k: nat ensures MadeAt(cfg, calls, k, id, move) <==>
        MadeAt(cfg, before, k, id, move) || (k == n && MadeAt(cfg, calls, n, id, move)) {
      if k < n { MadeInPrefix(cfg, calls, k, id, move); }
    }
    hide MadeAt, Makes, ServeAll;
  }

  /** What has happened to a case that is in this status. */
  ghost predicate Explains(cfg: Config, calls: seq<Call>, id: nat, status: CaseStatus) {
    && (Happened(cfg, calls, id, Submission) <==> status != Draft)
    && (Happened(cfg, calls, id, Rejection) <==> status == Rejected)
    && (Happened(cfg, calls, id, Approval) <==> status in {Approved, Disabled, Superseded})
    && (Happened(cfg, calls, id, Disabling) <==> status == Disabled)
    && (Happened(cfg, calls, id, Supersession) <==> status == Superseded)
  }

  lemma {:induction false} NothingHappenedYet(cfg: Config, calls: seq<Call>, id: nat)
    requires id >= |ServeAll(cfg, EMPTY_DB, calls).cases|
    ensures forall move :: !Happened(cfg, calls, id, move)
    decreases |calls|
  {
    if calls != [] {
      var before := calls[..|calls| - 1];
      var db := ServeAll(cfg, EMPTY_DB, before);
      ReachableIsLawful(cfg, before);
      CallsProgress(cfg, db, calls[|calls| - 1]);
      NothingHappenedYet(cfg, before, id);
      forall move ensures !Happened(cfg, calls, id, move) {
        HappenedUpToTheLast(cfg, calls, id, move);
        NoMoveOfMissing(cfg, db, calls[|calls| - 1], id);
      }
    }
  }

  lemma MoveExplains(cfg: Config, db: Db, call: Call, id: nat, calls: seq<Call>, before: seq<Call>)
    requires id < |db.cases| && Explains(cfg, before, id, db.cases[id].status)
    requires forall move :: Happened(cfg, calls, id, move)
               <==> Happened(cfg, before, id, move) || Makes(cfg, db, call, id, move)
    ensures Explains(cfg, calls, id, StatusAfter(cfg, db, call, id))
  {
    hide Happened, Complete;
    assert Makes(cfg, db, call, id, Submission) <==> Submits(db, call, id);
    assert Makes(cfg, db, call, id, Approval) <==> Decides(db, call, id, true);
    assert Makes(cfg, db, call, id, Rejection) <==> Decides(db, call, id, false);
    assert Makes(cfg, db, call, id, Disabling) <==> Disables(db, call, id);
    assert Makes(cfg, db, call, id, Supersession) <==> Replaces(cfg, db, call, id);
  }

  /** In every state the status of a case is what has happened to it: it is past DRAFT exactly
      if it was submitted, rejected exactly if a reviewer rejected it, and so on. */
  lemma {:induction false} StatusIsHistory(cfg: Config, calls: seq<Call>, id: nat)
    requires forall k :: 0 <= k < |calls| ==> ClientCall(calls[k])
    requires id < |ServeAll(cfg, EMPTY_DB, calls).cases|
    ensures Explains(cfg, calls, id, ServeAll(cfg, EMPTY_DB, calls).cases[id].status)
    decreases |calls|
  {
    var before, call := calls[..|calls| - 1], calls[|calls| - 1];
    var db := ServeAll(cfg, EMPTY_DB, before);
    assert ServeAll(cfg, EMPTY_DB, calls) == Serve(cfg, db, call).db;
    hide Serve, ServeAll, Lawful, Makes, StatusAfter, Happened, Explains, Progresses, ClientCall;
    assert ClientCall(call);
    ReachableIsLawful(cfg, before);
    if id < |db.cases| {
      StatusIsHistory(cfg, before, id);
      HistoryStep(cfg, calls, id);
    } else {
      NothingHappenedYet(cfg, before, id);
      HistoryBegins(cfg, before, call, calls, id);
    }
  }

  lemma HistoryStep(cfg: Config, calls: seq<Call>, id: nat)
    requires calls != []
    requires var db := ServeAll(cfg, EMPTY_DB, calls[..|calls| - 1]);
             && Lawful(db) && ClientCall(calls[|calls| - 1]) && id < |db.cases|
             && Explains(cfg, calls[..|calls| - 1], id, db.cases[id].status)
    ensures id < |ServeAll(cfg, EMPTY_DB, calls).cases|
    ensures Explains(cfg, calls, id, ServeAll(cfg, EMPTY_DB, calls).cases[id].status)
  {
    var before, call := calls[..|calls| - 1], calls[|calls| - 1];
    var db := ServeAll(cfg, EMPTY_DB, before);
    assert ServeAll(cfg, EMPTY_DB, calls) == Serve(cfg, db, call).db;
    hide Serve, ServeAll, Lawful, Makes, StatusAfter, Happened, Explains, ClientCall;
    forall move
      ensures Happened(cfg, calls, id, move) <==> Happened(cfg, before, id, move) || Makes(cfg, db, call, id, move)
    {
      HappenedUpToTheLast(cfg, calls, id, move);
    }
    CallsMove(cfg, db, call, id);
    MoveExplains(cfg, db, call, id, calls, before);
  }

  lemma NewCasesAreDrafts(cfg: Config, db: Db, call: Call, id: nat)
    requires Lawful(db) && |db.cases| <= id < |Serve(cfg, db, call).db.cases|
    ensures Serve(cfg, db, call).db.cases[id].status == Draft
  {
    hide Serve, Lawful, CaseStep;
    CallsProgress(cfg, db, call);
  }

  lemma HistoryBegins(cfg: Config, before: seq<Call>, call: Call, calls: seq<Call>, id: nat)
    requires calls != [] && before == calls[..|calls| - 1] && call == calls[|calls| - 1]
    requires Lawful(ServeAll(cfg, EMPTY_DB, before))
    requires |ServeAll(cfg, EMPTY_DB, before).cases| <= id < |ServeAll(cfg, EMPTY_DB, calls).cases|
    requires forall move :: !Happened(cfg, before, id, move)
    ensures Explains(cfg, calls, id, ServeAll(cfg, EMPTY_DB, calls).cases[id].status)
  {
    var db := ServeAll(cfg, EMPTY_DB, before);
    hide Serve, Lawful, Makes, Happened, Explains;
    NewCasesAreDrafts(cfg, db, call, id);
    hide ServeAll;
    forall move ensures !Happened(cfg, calls, id, move) {
      HappenedUpToTheLast(cfg, calls, id, move);
      NoMoveOfMissing(cfg, db, call, id);
    }
    DraftsHaveNoHistory(cfg, calls, id);
  }

  lemma DraftsHaveNoHistory(cfg: Config, calls: seq<Call>, id: nat)
    requires forall move :: !Happened(cfg, calls, id, move)
    ensures Explains(cfg, calls, id, Draft)
  {
    hide Happened;
  }

  lemma NoMoveOfMissing(cfg: Config, db: Db, call: Call, id: nat)
    requires id >= |db.cases|
    ensures forall move :: !Makes(cfg, db, call, id, move)
  {
    hide Complete;
  }

  // ----- keys -----

  function KeyOfCall(call: Call): Option<IdemKey> {
    match call
    case CallCreate(_, _, _) => None
    case CallPatch(_, _, _, _) => None
    case _ => call.key
  }

  /** What a key stands for. */
  function RequestOf(call: Call): Request
    requires KeyOfCall(call).Some?
  {
    match call
    case CallSubmit(_, _, _, _, _) => SubmitRequest
    case CallReview(_, approve, comment, _, _, _, _) => ReviewRequest(approve, comment)
    case CallDisable(_, reason, _, _) => DisableRequest(reason)
    case CallRevise(_, patch, _, _, _) => RevisionRequest(patch)
    case CallReindex(_, _, _) => ReindexRequest
  }

  ghost predicate Keeps(db: Db, db': Db) {
    forall e :: e in db.reviews ==> e in db'.reviews && db'.reviews[e] == db.reviews[e]
  }

  lemma SupersedeKeeps(cfg: Config, db: Db, s: nat, g: Faults)
    ensures Keeps(db, SupersedeCase(cfg, db, s, g).db)
  {
    hide IndexCase, Complete;
  }

  lemma IndexingKeeps(cfg: Config, db: Db, id: nat, f: Faults)
    requires id < |db.cases|
    ensures IndexCase(cfg, db, id, f).reviews == db.reviews == TombstoneCase(cfg, db, id, f).reviews
  {
  }

  lemma ReviewKeeps(cfg: Config, db: Db, call: Call)
    requires call.CallReview?
    ensures Keeps(db, Serve(cfg, db, call).db)
  {
    ReviewIsDecision(cfg, db, call);
    hide Serve, IndexCase, SupersedeCase;
    if Decides(db, call, call.id, true) {
      var signed := Signed(db, call);
      IndexingKeeps(cfg, signed, call.id, call.f);
      if db.cases[call.id].supersedes.Some? {
        SupersedeKeeps(cfg, IndexCase(cfg, signed, call.id, call.f), db.cases[call.id].supersedes.value, call.g);
      }
    }
  }

  /** What a key was recorded for is never changed or forgotten. */
  lemma KeysAreKept(cfg: Config, db: Db, call: Call)
    ensures Keeps(db, Serve(cfg, db, call).db)
  {
    hide IndexCase, SupersedeCase, TombstoneCase, MissingCaseFields, Patched, MaxVersion, Complete, AfterApproval;
    match call
    case CallReview(_, _, _, _, _, _, _) => ReviewKeeps(cfg, db, call);
    case CallDisable(id, reason, key, f) =>
      match Transit(db, id, Approved, Disabled, key, DisableRequest(reason)) {
        case Moved(db') => IndexingKeeps(cfg, Withdraw(cfg, db', id), id, f);
        case Replayed => IndexingKeeps(cfg, db, id, f);
        case _ =>
      }
    case CallReindex(id, key, f) =>
      if id < |db.cases| { IndexingKeeps(cfg, Remember(db, id, key, ReindexRequest), id, f); }
    case _ =>
  }

  /** The key of an accepted call is recorded, for this call. */
  lemma AcceptedIsRecorded(cfg: Config, db: Db, call: Call)
    requires KeyOfCall(call).Some? && Serve(cfg, db, call).reply == Accepted
    ensures call.id < |db.cases| && RecordedAs(Serve(cfg, db, call).db, call.id, KeyOfCall(call), RequestOf(call))
  {
    hide IndexCase, SupersedeCase, TombstoneCase, Patched, MaxVersion, Complete, MissingCaseFields, AfterApproval;
    match call
    case CallReview(_, _, _, _, _, _, _) =>
      ReviewIsDecision(cfg, db, call);
      if Decides(db, call, call.id, true) { ApprovalKeeps(cfg, Signed(db, call), call.id, call.f, call.g); }
    case CallDisable(id, reason, key, f) =>
      match Transit(db, id, Approved, Disabled, key, DisableRequest(reason)) {
        case Moved(db') => IndexingKeeps(cfg, Withdraw(cfg, db', id), id, f);
        case Replayed => IndexingKeeps(cfg, db, id, f);
        case _ =>
      }
    case CallReindex(id, key, f) =>
      if id < |db.cases| { IndexingKeeps(cfg, Remember(db, id, key, ReindexRequest), id, f); }
    case _ =>
  }

  lemma ApprovalKeeps(cfg: Config, db: Db, id: nat, f: Faults, g: Faults)
    requires id < |db.cases|
    ensures Keeps(db, AfterApproval(cfg, db, id, f, g).db)
  {
    hide IndexCase, SupersedeCase;
    IndexingKeeps(cfg, db, id, f);
    if db.cases[id].supersedes.Some? {
      SupersedeKeeps(cfg, IndexCase(cfg, db, id, f), db.cases[id].supersedes.value, g);
    }
  }

  /** The checks that come before the key is looked up. In sync mode a repeated disabling
      deletes the vector again, so it is left out. */
  predicate Repeatable(cfg: Config, db: Db, call: Call) {
    match call
    case CallSubmit(id, actor, privileged, evidence, _) =>
      id < |db.cases| && (db.cases[id].createdBy == actor || privileged)
      && MissingCaseFields(db.cases[id].content, db.cases[id].createdBy, evidence) == []
    case CallReview(id, _, _, actor, _, _, _) => id < |db.cases| && db.cases[id].createdBy != actor
    case CallDisable(id, _, _, _) => id < |db.cases| && cfg.queued
    case CallRevise(id, _, _, _, _) => id < |db.cases|
    case CallReindex(id, _, _) => id < |db.cases|
    case _ => false
  }

  lemma RecordedIsReplayed(cfg: Config, db: Db, call: Call)
    requires KeyOfCall(call).Some? && Repeatable(cfg, db, call)
    requires RecordedAs(db, call.id, KeyOfCall(call), RequestOf(call))
    ensures Serve(cfg, db, call) == Served(db, NoRequest, Accepted)
  {
    hide IndexCase, SupersedeCase, TombstoneCase, Patched, MaxVersion, MissingCaseFields, AfterApproval;
    match call
    case CallReview(_, _, _, _, _, _, _) =>
    case CallDisable(_, _, _, _) =>
    case CallReindex(_, _, _) =>
    case CallSubmit(_, _, _, _, _) =>
    case CallRevise(_, _, _, _, _) =>
  }

  /** A key that stands for another request refuses this one, and nothing changes. */
  lemma AKeyServesOneRequest(cfg: Config, db: Db, call: Call)
    requires KeyOfCall(call).Some? && Recorded(db, call.id, KeyOfCall(call))
    requires db.reviews[(call.id, KeyOfCall(call).value)] != RequestOf(call)
    ensures Serve(cfg, db, call) == Served(db, NoRequest, Refused)
  {
    hide IndexCase, SupersedeCase, TombstoneCase, Patched, MaxVersion, MissingCaseFields, AfterApproval;
    match call
    case CallReview(_, _, _, _, _, _, _) =>
    case CallDisable(_, _, _, _) =>
    case CallReindex(_, _, _) =>
    case CallSubmit(_, _, _, _, _) =>
    case CallRevise(_, _, _, _, _) =>
  }

  lemma {:induction false} KeysAreKeptForEver(cfg: Config, calls: seq<Call>, k: nat)
    requires k <= |calls|
    ensures Keeps(ServeAll(cfg, EMPTY_DB, calls[..k]), ServeAll(cfg, EMPTY_DB, calls))
    decreases |calls|
  {
    hide Serve;
    if k == |calls| {
      assert calls[..k] == calls;
    } else {
      var before := calls[..|calls| - 1];
      assert before[..k] == calls[..k];
      KeysAreKeptForEver(cfg, before, k);
      KeysAreKept(cfg, ServeAll(cfg, EMPTY_DB, before), calls[|calls| - 1]);
    }
  }

  /** A call that was accepted under a key is never carried out again: whatever has been done
      since, the same call is accepted and changes nothing, and the key serves no other request
      for the case. */
  lemma AcceptedOnlyOnce(cfg: Config, calls: seq<Call>, k: nat, other: Call)
    requires k < |calls| && KeyOfCall(calls[k]).Some?
    requires Serve(cfg, ServeAll(cfg, EMPTY_DB, calls[..k]), calls[k]).reply == Accepted
    requires KeyOfCall(other) == KeyOfCall(calls[k]) && other.id == calls[k].id
    ensures var db := ServeAll(cfg, EMPTY_DB, calls);
            && (RequestOf(other) == RequestOf(calls[k]) && Repeatable(cfg, db, other) ==>
                  Serve(cfg, db, other) == Served(db, NoRequest, Accepted))
            && (RequestOf(other) != RequestOf(calls[k]) ==> Serve(cfg, db, other) == Served(db, NoRequest, Refused))
  {
    var early, db := ServeAll(cfg, EMPTY_DB, calls[..k]), ServeAll(cfg, EMPTY_DB, calls);
    assert calls[..k + 1][..k] == calls[..k];
    assert ServeAll(cfg, EMPTY_DB, calls[..k + 1]) == Serve(cfg, early, calls[k]).db;
    hide Serve, ServeAll, Repeatable;
    AcceptedIsRecorded(cfg, early, calls[k]);
    KeysAreKeptForEver(cfg, calls, k + 1);
    if RequestOf(other) == RequestOf(calls[k]) {
      if Repeatable(cfg, db, other) { RecordedIsReplayed(cfg, db, other); }
    } else {
      AKeyServesOneRequest(cfg, db, other);
    }
  }
}
