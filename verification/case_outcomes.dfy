/** RabbitMQ mode: what the invariants of the whole system mean for its users. */
module CaseOutcomes {
  import opened Text
  import opened IndexContracts
  import opened IndexStore
  import opened IndexProtocol
  import opened CaseModel
  import opened CaseHistory
  import opened L = CaseLifecycle
  import opened CaseQueue
  import opened CaseConvergence
  import D = IndexDelivery

  /** One step moves cases only along the lifecycle and revives nothing. */
  lemma StepsProgress(s: System, a: Action)
    requires Convergent(s)
    ensures Progresses(s.db, Next(s, a).db) && NoRevival(s.db, Next(s, a).db)
  {
    hide Lawful, JobsFit, OutcomesFit, Complete, Sound, HandleCase, Serve, WorkRecorded, MarkBroken, KeyFits;
    Stands(s.db);
    match a
    case Service(call, limit) =>
      CallsProgress(QUEUED_MODE, s.db, call);
      if call.CallReview? { ReviewIsGentle(s.db, call); }
      else if call.CallDisable? || call.CallReindex? { WithdrawalIsGentle(s.db, call); }
      else { DraftCallsAreGentle(s.db, call); }
      GentleKeepsWithdrawn(s.db, Serve(QUEUED_MODE, s.db, call));
    case Work(e) => MarkingBrokenIsQuiet(s.db, s.proto, e);
    case Handle(tag, fault, degraded) =>
      if CanHandle(s, tag) { CaseHandledHere(s, tag, fault, degraded); }
  }

  lemma CaseHandledHere(s: System, tag: nat, fault: Fault, degraded: bool)
    requires Convergent(s) && CanHandle(s, tag)
    ensures Progresses(s.db, Handling(s, tag, fault, degraded).db)
              && NoRevival(s.db, Handling(s, tag, fault, degraded).db)
  {
    hide Lawful, OutcomesFit, Complete, Sound, HandleCase, WorkRecorded;
    var j := s.proto.deliveries[tag].body.job;
    assert Fits(s.db, s.proto.store.jobs[j].key, s.proto.store.jobs[j].status);
    CaseHandledWell(s.db, s.proto.store.jobs[j].key, fault, degraded);
  }

  predicate IsTombstoneOf(p: Proto, j: nat, id: nat) {
    j < |p.store.jobs| && p.store.jobs[j].key.entity == CaseEntity(id) && p.store.jobs[j].key.operation == Tombstone
  }

  /** The tombstone of a case never settles as stale, and once it has settled as tombstoned
      the case is withdrawn, inactive and without a vector. */
  lemma TombstonesTakeEffect(acts: seq<Action>, j: nat, id: nat)
    requires IsTombstoneOf(RunAll(acts).proto, j, id)
    ensures RunAll(acts).proto.store.jobs[j].status != Stale
    ensures RunAll(acts).proto.store.jobs[j].status == Tombstoned ==> Cleared(RunAll(acts).db, id)
  {
    EveryStateConverges(acts);
    var p := RunAll(acts).proto;
    assert Fits(RunAll(acts).db, p.store.jobs[j].key, p.store.jobs[j].status);
  }

  /** A cleared case stays cleared: late and repeated messages cannot bring it back. */
  lemma {:induction false} ClearedForEver(acts: seq<Action>, k: nat, id: nat)
    requires k <= |acts| && Cleared(RunAll(acts[..k]).db, id)
    ensures Cleared(RunAll(acts).db, id)
    decreases |acts|
  {
    hide Next, Convergent, Complete;
    if k == |acts| {
      assert acts[..k] == acts;
    } else {
      var before := acts[..|acts| - 1];
      assert before[..k] == acts[..k];
      ClearedForEver(before, k, id);
      EveryStateConverges(before);
      StepsProgress(RunAll(before), acts[|acts| - 1]);
      assert CaseStep(RunAll(before).db.cases[id], RunAll(acts).db.cases[id]);
    }
  }

  /** Once its tombstone has settled, a withdrawn case is out of retrieval for good. */
  lemma TombstonedForEver(acts: seq<Action>, k: nat, j: nat, id: nat)
    requires k <= |acts| && IsTombstoneOf(RunAll(acts[..k]).proto, j, id)
    requires RunAll(acts[..k]).proto.store.jobs[j].status == Tombstoned
    ensures Cleared(RunAll(acts).db, id)
  {
    TombstonesTakeEffect(acts[..k], j, id);
    ClearedForEver(acts, k, id);
  }

  /** Every withdrawn case is inactive and has a tombstone job, and that job has cleared the
      case, waits for an operator, or is still carried by the outbox, the broker or a worker. */
  lemma WithdrawnCasesAreOnTheirWayOut(acts: seq<Action>, id: nat)
    requires D.NeverStrands(AllEvents(acts))
    requires id < |RunAll(acts).db.cases| && Withdrawn(RunAll(acts).db.cases[id].status)
    ensures !RunAll(acts).db.cases[id].active
    ensures exists j: nat ::
              IsTombstoneOf(RunAll(acts).proto, j, id) &&
              var status := RunAll(acts).proto.store.jobs[j].status;
              if status == Tombstoned then Cleared(RunAll(acts).db, id)
              else status == Failed || D.HasCarrier(RunAll(acts).proto, j)
  {
    var s := RunAll(acts);
    EveryStateConverges(acts);
    SystemRunsTheProtocol(acts);
    D.JobsAreLostOnlyByStranding(AllEvents(acts));
    assert AllEvents(acts)[..|AllEvents(acts)|] == AllEvents(acts);
    hide Lawful, Sound, OutcomesFit, RunAll, AllEvents, Run;
    assert HasKey(s.proto.store, CaseKey(s.db, id, Tombstone));
    var j :| 0 <= j < |s.proto.store.jobs| && s.proto.store.jobs[j].key == CaseKey(s.db, id, Tombstone);
    assert IsTombstoneOf(s.proto, j, id);
    assert Fits(s.db, s.proto.store.jobs[j].key, s.proto.store.jobs[j].status);
    assert !Terminal(s.proto.store.jobs[j].status) ==> D.Owed(s.proto, j);
  }

  ghost predicate JobWith(p: Proto, j: nat, key: Key) {
    j < |p.store.jobs| && p.store.jobs[j].key == key
  }

  ghost predicate HasJob(s: System, id: nat, operation: Operation)
    requires id < |s.db.cases|
  {
    HasKey(s.proto.store, CaseKey(s.db, id, operation))
  }

  /** Decisions and jobs match: a case has an upsert job exactly if it has been approved, a
      tombstone exactly if it has been withdrawn, and a reindex job only if it was approved. */
  lemma JobsMatchDecisions(acts: seq<Action>, id: nat)
    requires id < |RunAll(acts).db.cases|
    ensures var s := RunAll(acts);
            && (HasJob(s, id, Upsert) <==> s.db.cases[id].status in {Approved, Disabled, Superseded})
            && (HasJob(s, id, Tombstone) <==> s.db.cases[id].status in {Disabled, Superseded})
            && (HasJob(s, id, Operation.Reindex) ==> s.db.cases[id].status in {Approved, Disabled, Superseded})
  {
    EveryStateConverges(acts);
    var s := RunAll(acts);
    hide Lawful, Sound, OutcomesFit, RunAll;
    forall operation | HasJob(s, id, operation) ensures KeyFits(s.db, CaseKey(s.db, id, operation)) {
      var j :| 0 <= j < |s.proto.store.jobs| && s.proto.store.jobs[j].key == CaseKey(s.db, id, operation);
      assert Fits(s.db, s.proto.store.jobs[j].key, s.proto.store.jobs[j].status);
    }
  }

  /** A job of a case settles as stale only once the case has been withdrawn. */
  lemma StaleMeansWithdrawn(acts: seq<Action>, j: nat, id: nat)
    requires j < |RunAll(acts).proto.store.jobs| && RunAll(acts).proto.store.jobs[j].key.entity == CaseEntity(id)
    requires RunAll(acts).proto.store.jobs[j].status == Stale
    ensures id < |RunAll(acts).db.cases| && RunAll(acts).db.cases[id].status in {Disabled, Superseded}
  {
    EveryStateConverges(acts);
    hide RunAll;
    var s := RunAll(acts);
    assert Fits(s.db, s.proto.store.jobs[j].key, s.proto.store.jobs[j].status);
  }

  /** The upsert job of an approved case is indexed, in full or without the graph, or has
      failed, or is still carried: it never settles as stale. */
  lemma ApprovedCasesAreOnTheirWayIn(acts: seq<Action>, id: nat)
    requires D.NeverStrands(AllEvents(acts))
    requires id < |RunAll(acts).db.cases| && RunAll(acts).db.cases[id].status == Approved
    ensures exists j: nat ::
              && JobWith(RunAll(acts).proto, j, CaseKey(RunAll(acts).db, id, Upsert))
              && (RunAll(acts).proto.store.jobs[j].status in {Indexed, Degraded, Failed}
                  || D.HasCarrier(RunAll(acts).proto, j))
  {
    var s := RunAll(acts);
    EveryStateConverges(acts);
    SystemRunsTheProtocol(acts);
    D.JobsAreLostOnlyByStranding(AllEvents(acts));
    assert AllEvents(acts)[..|AllEvents(acts)|] == AllEvents(acts);
    hide Lawful, Sound, OutcomesFit, RunAll, AllEvents, Run;
    assert HasKey(s.proto.store, CaseKey(s.db, id, Upsert));
    var j :| 0 <= j < |s.proto.store.jobs| && s.proto.store.jobs[j].key == CaseKey(s.db, id, Upsert);
    assert JobWith(s.proto, j, CaseKey(s.db, id, Upsert));
    assert Fits(s.db, s.proto.store.jobs[j].key, s.proto.store.jobs[j].status);
    assert !Terminal(s.proto.store.jobs[j].status) ==> D.Owed(s.proto, j);
  }

  /** When an upsert or reindex of a case has settled, the case it supersedes is not
      approved, in that state and in every later one. */
  lemma SupersessionIsComplete(acts: seq<Action>, k: nat, j: nat, id: nat)
    requires k <= |acts| && j < |RunAll(acts[..k]).proto.store.jobs|
    requires var job := RunAll(acts[..k]).proto.store.jobs[j];
             job.key.entity == CaseEntity(id) && job.key.operation != Tombstone && job.status in {Indexed, Degraded}
    ensures PredecessorDone(RunAll(acts).db, id)
  {
    EveryStateConverges(acts[..k]);
    var s := RunAll(acts[..k]);
    assert Fits(s.db, s.proto.store.jobs[j].key, s.proto.store.jobs[j].status);
    PredecessorStaysDone(acts, k, id);
  }

  lemma {:induction false} PredecessorStaysDone(acts: seq<Action>, k: nat, id: nat)
    requires k <= |acts| && PredecessorDone(RunAll(acts[..k]).db, id)
    ensures PredecessorDone(RunAll(acts).db, id)
    decreases |acts|
  {
    hide Next, Complete, Sound, JobsFit, OutcomesFit;
    if k == |acts| {
      assert acts[..k] == acts;
    } else {
      var before := acts[..|acts| - 1];
      assert before[..k] == acts[..k];
      PredecessorStaysDone(before, k, id);
      EveryStateConverges(before);
      var db, db' := RunAll(before).db, RunAll(acts).db;
      StepsProgress(RunAll(before), acts[|acts| - 1]);
      assert CaseStep(db.cases[id], db'.cases[id]) && LawfulCase(db.cases, id);
      if db.cases[id].supersedes.Some? {
        assert CaseStep(db.cases[db.cases[id].supersedes.value], db'.cases[db.cases[id].supersedes.value]);
      }
    }
  }

  // ----- a queued reindex may queue nothing -----

  /** Some job with this key is neither settled nor failed. */
  ghost predicate WorkIsOwed(p: Proto, key: Key) {
    exists j: nat :: JobWith(p, j, key) && D.Owed(p, j)
  }

  /** The job a call requests is owed afterwards unless a job with the same tuple has already
      settled or failed: `add_job` returns that one and records nothing. */
  lemma RequestIsOwed(s: System, call: Call, limit: nat)
    requires Convergent(s) && MIN_ATTEMPTS <= limit <= MAX_ATTEMPTS
    requires !Reaction(s, call).job.NoRequest?
    requires Reaction(s, call).job.id < |Reaction(s, call).db.cases|
    ensures var key := KeyOf(Reaction(s, call).db.cases, Reaction(s, call).job);
            WorkIsOwed(Next(s, Service(call, limit)).proto, key)
            <==> !exists j: nat :: JobWith(s.proto, j, key) && Terminal(s.proto.store.jobs[j].status)
  {
    hide Serve, Lawful, JobsFit, OutcomesFit, WorkRecorded, WithdrawnInactive;
    var r := Reaction(s, call);
    var key := KeyOf(r.db.cases, r.job);
    var q := Next(s, Service(call, limit)).proto;
    assert Requested(r.db.cases, r.job, limit) == [Create(key, limit)];
    RunOne(s.proto, Create(key, limit));
    assert q.store == AddJob(s.proto.store, key, limit);
    if HasKey(s.proto.store, key) {
      var j :| 0 <= j < |s.proto.store.jobs| && s.proto.store.jobs[j].key == key;
      assert JobWith(s.proto, j, key) && JobWith(q, j, key);
      assert forall i: nat :: JobWith(s.proto, i, key) ==> i == j;
      if !Terminal(s.proto.store.jobs[j].status) { assert D.Owed(q, j); }
    } else {
      var j := |s.proto.store.jobs|;
      assert forall i: nat :: !JobWith(s.proto, i, key);
      assert JobWith(q, j, key) && D.Owed(q, j);
    }
  }
}
