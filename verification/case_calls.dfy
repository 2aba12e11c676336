/** What single calls do, in terms of the fields they set: drafts, requests for index jobs, and
    the repair of a case whose index is broken. */
module CaseCalls {
  import opened Text
  import opened CaseModel
  import opened CaseLifecycle
  import opened CaseHistory
  import opened CaseDecisions
  import opened CaseCalm

  /** All cases but one are as before. */
  predicate SameElsewhere(cases: seq<Case>, cases': seq<Case>, id: nat) {
    |cases| <= |cases'| && forall i :: 0 <= i < |cases| && i != id ==> cases'[i] == cases[i]
  }

  // ----- drafts -----

  predicate Sets<T(==)>(f: Field<T>, before: T, after: T) {
    match f
    case Put(value) => after == value
    case Keep => after == before
  }

  predicate SetsFields(p: Patch, c: Content, c': Content) {
    && Sets(p.deviceType, c.deviceType, c'.deviceType) && Sets(p.deviceModel, c.deviceModel, c'.deviceModel)
    && Sets(p.alarmName, c.alarmName, c'.alarmName) && Sets(p.symptomSummary, c.symptomSummary, c'.symptomSummary)
    && Sets(p.timeseries, c.timeseries, c'.timeseries) && Sets(p.rootCause, c.rootCause, c'.rootCause)
    && Sets(p.resolutionSteps, c.resolutionSteps, c'.resolutionSteps)
    && Sets(p.evidenceRefs, c.evidenceRefs, c'.evidenceRefs)
  }

  /** A draft is edited by its creator or a privileged actor, field by field; anything else is
      refused. */
  lemma PatchIsExact(db: Db, id: nat, patch: Patch, actor: string, privileged: bool)
    ensures var r := PatchDraft(db, id, patch, actor, privileged);
            var may := id < |db.cases| && db.cases[id].status == Draft
                && (actor == db.cases[id].createdBy || privileged);
            if !may then r == Served(db, NoRequest, Refused)
            else
              && r.job == NoRequest && r.reply == Accepted
              && r.db.reviews == db.reviews && r.db.vectors == db.vectors && |r.db.cases| == |db.cases|
              && SameElsewhere(db.cases, r.db.cases, id)
              && r.db.cases[id] == db.cases[id].(content := r.db.cases[id].content)
              && SetsFields(patch, db.cases[id].content, r.db.cases[id].content)
  {
  }

  /** One more than the greatest version of the session so far, or one. */
  predicate NextOf(cases: seq<Case>, session: nat, version: nat) {
    && (forall i :: 0 <= i < |cases| && cases[i].session == session ==> cases[i].version < version)
    && (version == 1
        || exists i :: 0 <= i < |cases| && cases[i].session == session && cases[i].version == version - 1)
  }

  /** The case `c` is added as a draft of this session, creator and predecessor. */
  predicate AddsDraft(db: Db, db': Db, session: nat, actor: string, supersedes: Option<nat>) {
    && |db'.cases| == |db.cases| + 1 && db'.cases[..|db.cases|] == db.cases && db'.vectors == db.vectors
    && var c := db'.cases[|db.cases|];
       && c == Case(session, c.version, Draft, Waiting, false, actor, None, supersedes, None, c.content)
       && NextOf(db.cases, session, c.version)
  }

  lemma CreationIsExact(db: Db, session: nat, actor: string, content: Content)
    ensures var r := CreateDraft(db, session, actor, content);
            && AddsDraft(db, r.db, session, actor, None) && r.db.cases[|db.cases|].content == content
            && r.db.reviews == db.reviews && r.job == NoRequest && r.reply == Accepted
  {
  }

  /** A revision of an approved or rejected case: a draft of the same session that names it,
      with the given fields changed, and its own creator. */
  lemma RevisionIsExact(db: Db, id: nat, patch: Patch, actor: string, key: Option<IdemKey>)
    ensures var r := Revise(db, id, patch, actor, key, true);
            var may := id < |db.cases| && db.cases[id].status in {Approved, Rejected} && !Recorded(db, id, key);
            if !may then
              var again := id < |db.cases| && RecordedAs(db, id, key, RevisionRequest(patch));
              r == Served(db, NoRequest, if again then Accepted else Refused)
            else
              && AddsDraft(db, r.db, db.cases[id].session, actor, Some(id))
              && SetsFields(patch, db.cases[id].content, r.db.cases[|db.cases|].content)
              && r.db.reviews ==
                   (if key.Some? then db.reviews[(id, key.value) := RevisionRequest(patch)] else db.reviews)
              && r.job == NoRequest && r.reply == Accepted
  {
    hide Patched;
    if id < |db.cases| { PatchedSets(db.cases[id].content, patch); }
  }

  lemma PatchedSets(c: Content, p: Patch)
    ensures SetsFields(p, c, Patched(c, p))
  {
  }

  // ----- requests in RabbitMQ mode -----

  /** The case with its index bookkeeping replaced, and the key recorded. */
  function Requeued(db: Db, id: nat, c: Case, key: Option<IdemKey>, request: Request): Db
    requires id < |db.cases|
  {
    Db(db.cases[id := c.(index := Enqueued, active := false)],
       if key.Some? then db.reviews[(id, key.value) := request] else db.reviews,
       db.vectors)
  }

  /** An approval takes effect later: the case waits, inactive, with its upsert requested. */
  lemma ApprovalQueues(cfg: Config, db: Db, call: Call)
    requires cfg.queued && call.CallReview? && Decides(db, call, call.id, true)
    ensures var c := db.cases[call.id].(status := Approved, reviewer := Some(call.actor));
            Serve(cfg, db, call) ==
              Served(Requeued(db, call.id, c, call.key, ReviewRequest(true, call.comment)),
                     WantUpsert(call.id), Accepted)
  {
    ReviewIsDecision(cfg, db, call);
    hide IndexCase, SupersedeCase, Serve;
    var c := db.cases[call.id].(status := Approved, reviewer := Some(call.actor));
    var queued := c.(index := Enqueued, active := false);
    assert db.cases[call.id := c][call.id := queued] == db.cases[call.id := queued];
  }

  /** A disabling withdraws the case at once, with its tombstone requested. */
  lemma DisablingQueues(cfg: Config, db: Db, call: Call)
    requires cfg.queued && call.CallDisable?
    ensures Serve(cfg, db, call) ==
              if Disables(db, call, call.id) then
                Served(Requeued(db, call.id, db.cases[call.id].(status := Disabled), call.key,
                                DisableRequest(call.reason)),
                       WantTombstone(call.id), Accepted)
              else
                var again := call.id < |db.cases|
                  && RecordedAs(db, call.id, call.key, DisableRequest(call.reason));
                Served(db, NoRequest, if again then Accepted else Refused)
  {
    hide TombstoneCase;
    if Disables(db, call, call.id) {
      var c := db.cases[call.id].(status := Disabled);
      var queued := c.(index := Enqueued, active := false);
      assert db.cases[call.id := c][call.id := queued] == db.cases[call.id := queued];
    }
  }

  // ----- reindexing -----

  /** The index of an approved or withdrawn case can be repaired while it is broken, waits, or
      lacks the graph. */
  predicate Repairable(db: Db, call: Call) {
    && call.CallReindex? && call.id < |db.cases| && !Recorded(db, call.id, call.key)
    && db.cases[call.id].status in {Approved, Disabled, Superseded}
    && db.cases[call.id].index in {Broken, Waiting, Partial}
  }

  /** A reindex asks for the job of the case's status, or is refused. */
  lemma ReindexQueues(cfg: Config, db: Db, call: Call)
    requires cfg.queued && call.CallReindex?
    ensures Serve(cfg, db, call) ==
              if Repairable(db, call) then
                Served(Requeued(db, call.id, db.cases[call.id], call.key, ReindexRequest),
                       if db.cases[call.id].status == Approved then WantReindex(call.id) else WantTombstone(call.id),
                       Accepted)
              else
                var again := call.id < |db.cases| && RecordedAs(db, call.id, call.key, ReindexRequest);
                Served(db, NoRequest, if again then Accepted else Refused)
  {
    hide TombstoneCase, IndexCase;
  }

  /** Without a fault, a repair in sync mode is the indexing or the removal itself. */
  lemma RepairRuns(db: Db, call: Call)
    requires call.CallReindex? && NoFaults(call.f)
    ensures Serve(SYNC, db, call) ==
              if Repairable(db, call) then
                var noted := Remember(db, call.id, call.key, ReindexRequest);
                Served(if db.cases[call.id].status == Approved then IndexCase(SYNC, noted, call.id, call.f)
                       else TombstoneCase(SYNC, noted, call.id, call.f), NoRequest, Accepted)
              else
                var again := call.id < |db.cases| && RecordedAs(db, call.id, call.key, ReindexRequest);
                Served(db, NoRequest, if again then Accepted else Refused)
  {
    hide TombstoneCase, IndexCase;
  }

  predicate SameVectorsElsewhere(vectors: map<nat, Vector>, vectors': map<nat, Vector>, id: nat) {
    && (forall i :: i in vectors && i != id ==> i in vectors' && vectors'[i] == vectors[i])
    && (forall i :: i in vectors' && i != id ==> i in vectors)
  }

  /** One case fits its status; the rest of the state, but for the keys, is as before. */
  predicate Repaired(db: Db, db': Db, id: nat) {
    && id < |db.cases| == |db'.cases| && SameElsewhere(db.cases, db'.cases, id)
    && Settled(db'.cases[id], id, db'.vectors) && SameButIndex(db.cases[id], db'.cases[id])
    && SameVectorsElsewhere(db.vectors, db'.vectors, id)
  }

  lemma IndexingRepairs(db: Db, id: nat, f: Faults)
    requires id < |db.cases| && db.cases[id].status == Approved && NoFaults(f)
    ensures Repaired(db, IndexCase(SYNC, db, id, f), id)
  {
    hide IndexCase, BuildEmbeddingText;
    IndexesNow(db, id, f);
  }

  lemma RemovingRepairs(db: Db, id: nat, f: Faults)
    requires id < |db.cases| && db.cases[id].status in {Disabled, Superseded} && NoFaults(f)
    ensures Repaired(db, TombstoneCase(SYNC, db, id, f), id)
  {
    hide TombstoneCase, BuildEmbeddingText;
    RemovesNow(db, id, f);
  }

  /** In sync mode it repairs the index at once: without a fault the case fits its status
      again, whatever state its index and its vector were in. */
  lemma ReindexRepairs(db: Db, call: Call)
    requires Repairable(db, call) && NoFaults(call.f)
    ensures Repaired(db, Serve(SYNC, db, call).db, call.id) && Serve(SYNC, db, call).reply == Accepted
  {
    hide TombstoneCase, IndexCase, Serve, Settled, SameButIndex;
    var noted := Remember(db, call.id, call.key, ReindexRequest);
    RepairRuns(db, call);
    if db.cases[call.id].status == Approved {
      IndexingRepairs(noted, call.id, call.f);
    } else {
      RemovingRepairs(noted, call.id, call.f);
    }
  }
}
