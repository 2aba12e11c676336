/** RabbitMQ mode: withdrawn cases leave the index and stay out of it, and approved revisions
    replace their predecessors, over every run of the whole system. */
module CaseConvergence {
  import opened Text
  import opened IndexContracts
  import opened IndexStore
  import opened IndexProtocol
  import opened CaseModel
  import opened CaseHistory
  import opened L = CaseLifecycle
  import opened CaseQueue
  import A = IndexAttempts
  import D = IndexDelivery

  /** Out of retrieval for good: withdrawn, inactive and without a vector. */
  predicate Cleared(db: Db, id: nat) {
    id < |db.cases| && Withdrawn(db.cases[id].status) && !db.cases[id].active && id !in db.vectors
  }

  /** No case that `id` supersedes is still approved. */
  predicate PredecessorDone(db: Db, id: nat) {
    id < |db.cases| &&
    var s := db.cases[id].supersedes;
    s.Some? ==> s.value < |db.cases| && db.cases[s.value].status != Approved
  }

  predicate KeyFits(db: Db, key: Key) {
    key.entity.CaseEntity? ==>
      && key.entity.id < |db.cases|
      && key.version == db.cases[key.entity.id].version
      && key.operation in {Upsert, Operation.Reindex, Tombstone}
      && WasApproved(db.cases[key.entity.id].status)
      && (key.operation == Tombstone ==> Withdrawn(db.cases[key.entity.id].status))
  }

  /** What the status of a case job says about the case. */
  predicate Fits(db: Db, key: Key, status: JobStatus) {
    && KeyFits(db, key)
    && (key.entity.CaseEntity? ==>
          if key.operation == Tombstone then
            status !in {Stale, Indexed, Degraded} && (status == Tombstoned ==> Cleared(db, key.entity.id))
          else
            && status != Tombstoned && (status in {Indexed, Degraded} ==> PredecessorDone(db, key.entity.id))
            && (status == Stale ==> Withdrawn(db.cases[key.entity.id].status)))
  }

  predicate OutcomeFits(db: Db, key: Key, o: Outcome) {
    match o
    case Ok(status) => Fits(db, key, status)
    case StaleEvent => Fits(db, key, Stale)
    case _ => true
  }

  predicate JobsFit(db: Db, p: Proto) {
    forall j :: 0 <= j < |p.store.jobs| ==> Fits(db, p.store.jobs[j].key, p.store.jobs[j].status)
  }

  predicate DeliveryFits(db: Db, p: Proto, t: nat)
    requires t in p.deliveries
  {
    var d := p.deliveries[t];
    d.phase.Done? && d.body.Message? && d.body.job < |p.store.jobs| ==>
      OutcomeFits(db, p.store.jobs[d.body.job].key, d.phase.outcome)
  }

  predicate OutcomesFit(db: Db, p: Proto) {
    forall t :: t in p.deliveries ==> DeliveryFits(db, p, t)
  }

  predicate WithdrawnInactive(db: Db) {
    forall i :: 0 <= i < |db.cases| && Withdrawn(db.cases[i].status) ==> !db.cases[i].active
  }

  function CaseKey(db: Db, id: nat, operation: Operation): Key
    requires id < |db.cases|
  {
    Key(CaseEntity(id), db.cases[id].version, operation)
  }

  /** Every approved case has an upsert job, and every withdrawn one a tombstone as well. */
  ghost predicate WorkRecorded(db: Db, st: Store) {
    && (forall i :: 0 <= i < |db.cases| && WasApproved(db.cases[i].status) ==> HasKey(st, CaseKey(db, i, Upsert)))
    && (forall i :: 0 <= i < |db.cases| && Withdrawn(db.cases[i].status) ==> HasKey(st, CaseKey(db, i, Tombstone)))
  }

  ghost predicate Convergent(s: System) {
    && Lawful(s.db) && WithdrawnInactive(s.db)
    && Sound(s.proto)
    && JobsFit(s.db, s.proto) && OutcomesFit(s.db, s.proto)
    && WorkRecorded(s.db, s.proto.store)
  }

  // ----- the cases move first -----

  /** Withdrawn cases are not revived, and get no vector. */
  predicate NoRevival(db: Db, db': Db) {
    |db.cases| <= |db'.cases|
    && forall i :: 0 <= i < |db.cases| && Withdrawn(db.cases[i].status) ==>
         (db'.cases[i].active ==> db.cases[i].active) && (i in db'.vectors ==> i in db.vectors)
  }

  lemma FitsAfterwards(db: Db, db': Db, key: Key, status: JobStatus)
    requires Lawful(db) && Progresses(db, db') && NoRevival(db, db')
    requires Fits(db, key, status)
    ensures Fits(db', key, status)
  {
    hide Complete;
    if key.entity.CaseEntity? {
      var id := key.entity.id;
      assert CaseStep(db.cases[id], db'.cases[id]);
      if key.operation != Tombstone && db.cases[id].supersedes.Some? {
        var s := db.cases[id].supersedes.value;
        assert LawfulCase(db.cases, id);
        assert CaseStep(db.cases[s], db'.cases[s]);
      }
    }
  }

  lemma AllFitAfterwards(db: Db, db': Db, p: Proto)
    requires Lawful(db) && Progresses(db, db') && NoRevival(db, db')
    requires JobsFit(db, p) && OutcomesFit(db, p)
    ensures JobsFit(db', p) && OutcomesFit(db', p)
  {
    hide Lawful, Progresses, NoRevival, Fits;
    forall j | 0 <= j < |p.store.jobs| ensures Fits(db', p.store.jobs[j].key, p.store.jobs[j].status) {
      FitsAfterwards(db, db', p.store.jobs[j].key, p.store.jobs[j].status);
    }
    forall t | t in p.deliveries ensures DeliveryFits(db', p, t) {
      assert DeliveryFits(db, p, t);
      var d := p.deliveries[t];
      if d.phase.Done? && d.body.Message? && d.body.job < |p.store.jobs| {
        var key := p.store.jobs[d.body.job].key;
        if d.phase.outcome.Ok? { FitsAfterwards(db, db', key, d.phase.outcome.status); }
        if d.phase.outcome.StaleEvent? { FitsAfterwards(db, db', key, Stale); }
      }
    }
  }

  // ----- then the protocol, with the cases fixed -----

  predicate EventFits(db: Db, p: Proto, e: Event) {
    && (e.Create? ==> KeyFits(db, e.key))
    && (e.Worker? && e.act.Handled? && ForCase(p, e.tag) ==>
          OutcomeFits(db, p.store.jobs[p.deliveries[e.tag].body.job].key, e.act.outcome))
  }

  lemma NeutralFits(db: Db, key: Key, from: JobStatus, to: JobStatus)
    requires Fits(db, key, from) && to in {Pending, Queued, Running, Failed}
    ensures Fits(db, key, to)
  {
  }

  lemma JobFitsAfter(db: Db, p: Proto, e: Event, j: nat)
    requires Sound(p) && JobsFit(db, p) && OutcomesFit(db, p) && EventFits(db, p, e)
    requires j < |Step(p, e).store.jobs|
    ensures Fits(db, Step(p, e).store.jobs[j].key, Step(p, e).store.jobs[j].status)
  {
    hide KeyFits, Fits;
    A.JobStep(p, e, j);
    if j < |p.store.jobs| {
      var key, status := p.store.jobs[j].key, p.store.jobs[j].status;
      assert Fits(db, key, status);
      if A.Records(p, e, j) {
        assert DeliveryFits(db, p, e.tag);
        var o := p.deliveries[e.tag].phase.outcome;
        if !o.Ok? && !o.StaleEvent? { NeutralFits(db, key, status, Step(p, e).store.jobs[j].status); }
      } else if Step(p, e).store.jobs[j].status != status {
        NeutralFits(db, key, status, Step(p, e).store.jobs[j].status);
      }
    } else {
      NewJobFits(db, p, e, j);
    }
  }

  lemma NewJobFits(db: Db, p: Proto, e: Event, j: nat)
    requires Sound(p) && EventFits(db, p, e)
    requires |p.store.jobs| <= j < |Step(p, e).store.jobs|
    ensures Fits(db, Step(p, e).store.jobs[j].key, Step(p, e).store.jobs[j].status)
  {
  }

  lemma OtherEntitiesFit(db: Db, key: Key, o: Outcome)
    requires !key.entity.CaseEntity?
    ensures OutcomeFits(db, key, o)
  {
  }

  lemma UntouchedDeliveryFits(db: Db, p: Proto, e: Event, t: nat)
    requires Sound(p) && OutcomesFit(db, p) && !Touches(e, t) && t in Step(p, e).deliveries
    ensures DeliveryFits(db, Step(p, e), t)
  {
    StoreStep(p, e);
    OthersUntouched(p, e, t);
    hide Step, OutcomeFits, WellFormed;
    assert DeliveryFits(db, p, t) && SaneDelivery(p.deliveries[t], |p.store.jobs|);
  }

  lemma HandledDeliveryFits(db: Db, p: Proto, t: nat, o: Outcome)
    requires Sound(p) && Enabled(p, Worker(t, Handled(o))) && EventFits(db, p, Worker(t, Handled(o)))
    ensures t in Step(p, Worker(t, Handled(o))).deliveries && DeliveryFits(db, Step(p, Worker(t, Handled(o))), t)
  {
    hide Fits, KeyFits;
    var key := p.store.jobs[p.deliveries[t].body.job].key;
    if !key.entity.CaseEntity? { OtherEntitiesFit(db, key, o); }
  }

  lemma WorkedDeliveryFits(db: Db, p: Proto, t: nat, act: Act)
    requires Sound(p) && OutcomesFit(db, p) && Enabled(p, Worker(t, act)) && !act.Handled?
    requires t in Step(p, Worker(t, act)).deliveries
    ensures DeliveryFits(db, Step(p, Worker(t, act)), t)
  {
    hide Fits, KeyFits, WellFormed;
    assert DeliveryFits(db, p, t);
    match act
    case Begin =>
    case Settle =>
    case _ =>
  }

  lemma DeliveryFitsAfter(db: Db, p: Proto, e: Event, t: nat)
    requires Sound(p) && OutcomesFit(db, p) && EventFits(db, p, e)
    requires t in Step(p, e).deliveries
    ensures DeliveryFits(db, Step(p, e), t)
  {
    hide OutcomeFits, WellFormed, WorkerStep, EventFits;
    if !Touches(e, t) {
      UntouchedDeliveryFits(db, p, e, t);
    } else if e.Worker? && Enabled(p, e) {
      if e.act.Handled? { HandledDeliveryFits(db, p, t, e.act.outcome); } else { WorkedDeliveryFits(db, p, t, e.act); }
    } else {
      assert t in p.deliveries ==> DeliveryFits(db, p, t);
    }
  }

  lemma EventKeepsFit(db: Db, p: Proto, e: Event)
    requires Sound(p) && JobsFit(db, p) && OutcomesFit(db, p) && EventFits(db, p, e)
    ensures Sound(Step(p, e)) && JobsFit(db, Step(p, e)) && OutcomesFit(db, Step(p, e))
    ensures Extends(p.store, Step(p, e).store)
  {
    hide Fits, DeliveryFits, EventFits;
    SoundStep(p, e);
    StoreStep(p, e);
    forall j | 0 <= j < |Step(p, e).store.jobs|
      ensures Fits(db, Step(p, e).store.jobs[j].key, Step(p, e).store.jobs[j].status)
    {
      JobFitsAfter(db, p, e, j);
    }
    forall t | t in Step(p, e).deliveries ensures DeliveryFits(db, Step(p, e), t) {
      DeliveryFitsAfter(db, p, e, t);
    }
  }

  // ----- service calls -----

  /** A queued call writes no vector, activates nothing, and approves or withdraws a case only
      together with the request for its upsert or tombstone. */
  predicate Gentle(db: Db, r: L.Served) {
    && r.db.vectors == db.vectors
    && |db.cases| <= |r.db.cases|
    && (forall i :: 0 <= i < |db.cases| ==> GentleStep(db.cases[i], r.db.cases[i], i, r.job))
    && (forall i :: |db.cases| <= i < |r.db.cases| ==> !WasApproved(r.db.cases[i].status))
    && (!r.job.NoRequest? ==> r.job.id < |r.db.cases| && WasApproved(r.db.cases[r.job.id].status))
    && (r.job.WantTombstone? ==> Withdrawn(r.db.cases[r.job.id].status))
  }

  predicate GentleStep(a: Case, b: Case, i: nat, job: JobRequest) {
    && (b.active ==> a.active)
    && (Withdrawn(b.status) && !Withdrawn(a.status) ==> !b.active && WasApproved(a.status) && job == WantTombstone(i))
    && (WasApproved(b.status) && !WasApproved(a.status) ==> job == WantUpsert(i))
  }

  lemma DraftCallsAreGentle(db: Db, call: Call)
    requires call.CallCreate? || call.CallPatch? || call.CallSubmit? || call.CallRevise?
    ensures Gentle(db, Serve(QUEUED_MODE, db, call))
  {
    hide MissingCaseFields, Patched, MaxVersion, Complete;
    match call
    case CallCreate(_, _, _) =>
    case CallPatch(_, _, _, _) =>
    case CallSubmit(_, _, _, _, _) =>
    case CallRevise(_, _, _, _, _) =>
  }

  lemma ReviewIsGentle(db: Db, call: Call)
    requires call.CallReview?
    ensures Gentle(db, Serve(QUEUED_MODE, db, call))
  {
    hide IndexCase, SupersedeCase;
  }

  lemma WithdrawalIsGentle(db: Db, call: Call)
    requires call.CallDisable? || call.CallReindex?
    ensures Gentle(db, Serve(QUEUED_MODE, db, call))
  {
    hide IndexCase, TombstoneCase;
    match call
    case CallDisable(_, _, _, _) =>
    case CallReindex(_, _, _) =>
  }

  lemma GentleKeepsWithdrawn(db: Db, r: L.Served)
    requires WithdrawnInactive(db) && Gentle(db, r) && Progresses(db, r.db)
    ensures WithdrawnInactive(r.db) && NoRevival(db, r.db)
    ensures !r.job.NoRequest? ==> KeyFits(r.db, KeyOf(r.db.cases, r.job))
  {
    hide Complete;
    forall i | 0 <= i < |r.db.cases| && Withdrawn(r.db.cases[i].status) ensures !r.db.cases[i].active {
      if i < |db.cases| { assert GentleStep(db.cases[i], r.db.cases[i], i, r.job); }
    }
    forall i | 0 <= i < |db.cases| ensures r.db.cases[i].active ==> db.cases[i].active {
      assert GentleStep(db.cases[i], r.db.cases[i], i, r.job);
    }
  }

  // ----- adding one job -----

  /** A recorded job is still there for the case, which keeps its version. */
  lemma KeyStays(db: Db, db': Db, st: Store, st': Store, i: nat, operation: Operation)
    requires Extends(st, st') && Progresses(db, db') && i < |db.cases| && HasKey(st, CaseKey(db, i, operation))
    ensures HasKey(st', CaseKey(db', i, operation))
  {
    hide Complete;
    assert CaseStep(db.cases[i], db'.cases[i]);
    var j :| 0 <= j < |st.jobs| && st.jobs[j].key == CaseKey(db, i, operation);
    assert st'.jobs[j].key == CaseKey(db', i, operation);
  }

  lemma WorkStaysRecorded(db: Db, db': Db, st: Store, st': Store)
    requires WorkRecorded(db, st) && Extends(st, st') && Progresses(db, db')
    requires forall i :: 0 <= i < |db'.cases| && WasApproved(db'.cases[i].status) ==>
               (i < |db.cases| && WasApproved(db.cases[i].status)) || HasKey(st', CaseKey(db', i, Upsert))
    requires forall i :: 0 <= i < |db'.cases| && Withdrawn(db'.cases[i].status) ==>
               (i < |db.cases| && Withdrawn(db.cases[i].status)) || HasKey(st', CaseKey(db', i, Tombstone))
    ensures WorkRecorded(db', st')
  {
    hide Progresses, HasKey, Extends, CaseKey;
    forall i | 0 <= i < |db'.cases| && WasApproved(db'.cases[i].status) ensures HasKey(st', CaseKey(db', i, Upsert)) {
      if i < |db.cases| && WasApproved(db.cases[i].status) { KeyStays(db, db', st, st', i, Upsert); }
    }
    forall i | 0 <= i < |db'.cases| && Withdrawn(db'.cases[i].status) ensures HasKey(st', CaseKey(db', i, Tombstone)) {
      if i < |db.cases| && Withdrawn(db.cases[i].status) { KeyStays(db, db', st, st', i, Tombstone); }
    }
  }

  lemma CreatedKeyIsThere(p: Proto, key: Key, limit: nat)
    requires MIN_ATTEMPTS <= limit <= MAX_ATTEMPTS
    ensures HasKey(Step(p, Create(key, limit)).store, key)
  {
    if !HasKey(p.store, key) {
      assert AddJob(p.store, key, limit).jobs[|p.store.jobs|].key == key;
    }
  }

  /** A case that is newly approved or withdrawn has its job requested. */
  predicate Asked(cases: seq<Case>, c: Case, i: nat, request: JobRequest) {
    && (Withdrawn(c.status) && (i < |cases| ==> !Withdrawn(cases[i].status)) ==> request == WantTombstone(i))
    && (WasApproved(c.status) && (i < |cases| ==> !WasApproved(cases[i].status)) ==> request == WantUpsert(i))
  }

  /** The cases have moved to `db'`; the request, if any, is recorded next. */
  lemma RequestConverges(s: System, db': Db, request: JobRequest, limit: nat)
    requires Convergent(s) && Lawful(db') && Progresses(s.db, db') && NoRevival(s.db, db') && WithdrawnInactive(db')
    requires MIN_ATTEMPTS <= limit <= MAX_ATTEMPTS
    requires !request.NoRequest? ==> request.id < |db'.cases| && KeyFits(db', KeyOf(db'.cases, request))
    requires forall i :: 0 <= i < |db'.cases| ==> Asked(s.db.cases, db'.cases[i], i, request)
    ensures Convergent(System(db', Run(s.proto, Requested(db'.cases, request, limit))))
  {
    hide Lawful, Fits, KeyFits, WithdrawnInactive, NoRevival, OutcomesFit, JobsFit, SaneDelivery;
    AllFitAfterwards(s.db, db', s.proto);
    var es := Requested(db'.cases, request, limit);
    var q := Run(s.proto, es);
    if request.NoRequest? {
      assert q == s.proto;
    } else {
      var key := KeyOf(db'.cases, request);
      assert es == [Create(key, limit)];
      RunOne(s.proto, Create(key, limit));
      EventKeepsFit(db', s.proto, Create(key, limit));
      CreatedKeyIsThere(s.proto, key, limit);
    }
    WorkStaysRecorded(s.db, db', s.proto.store, q.store);
  }

  lemma Stands(db: Db)
    requires WithdrawnInactive(db)
    ensures Progresses(db, db) && NoRevival(db, db)
  {
    hide Complete;
  }

  lemma EventConverges(s: System, e: Event)
    requires Convergent(s) && EventFits(s.db, s.proto, e)
    ensures Convergent(System(s.db, Step(s.proto, e)))
  {
    hide Lawful, JobsFit, OutcomesFit, Sound, EventFits;
    Stands(s.db);
    EventKeepsFit(s.db, s.proto, e);
    WorkStaysRecorded(s.db, s.db, s.proto.store, Step(s.proto, e).store);
  }

  // ----- the three kinds of step -----

  lemma ServiceConverges(s: System, call: Call, limit: nat)
    requires Convergent(s)
    ensures Convergent(Next(s, Service(call, limit)))
  {
    hide Lawful, JobsFit, OutcomesFit, Serve, KeyFits, Complete, WorkRecorded, Sound;
    if MIN_ATTEMPTS <= limit <= MAX_ATTEMPTS {
      var r := Serve(QUEUED_MODE, s.db, call);
      CallsProgress(QUEUED_MODE, s.db, call);
      ProgressIsLawful(s.db, r.db);
      if call.CallReview? { ReviewIsGentle(s.db, call); }
      else if call.CallDisable? || call.CallReindex? { WithdrawalIsGentle(s.db, call); }
      else { DraftCallsAreGentle(s.db, call); }
      GentleKeepsWithdrawn(s.db, r);
      assert forall i :: 0 <= i < |s.db.cases| ==> GentleStep(s.db.cases[i], r.db.cases[i], i, r.job);
      RequestConverges(s, r.db, r.job, limit);
    } else {
      assert Next(s, Service(call, limit)) == s;
    }
  }

  lemma MarkingBrokenIsQuiet(db: Db, p: Proto, e: Event)
    requires Lawful(db) && WithdrawnInactive(db)
    ensures Progresses(db, MarkBroken(db, p, e)) && NoRevival(db, MarkBroken(db, p, e))
    ensures Lawful(MarkBroken(db, p, e)) && WithdrawnInactive(MarkBroken(db, p, e))
    ensures |MarkBroken(db, p, e).cases| == |db.cases|
    ensures forall i :: 0 <= i < |db.cases| ==> MarkBroken(db, p, e).cases[i].status == db.cases[i].status
  {
    hide Lawful, Complete;
    assert Progresses(db, MarkBroken(db, p, e));
    ProgressIsLawful(db, MarkBroken(db, p, e));
  }

  lemma WorkConverges(s: System, e: Event)
    requires Convergent(s)
    ensures Convergent(Next(s, Work(e)))
  {
    hide Lawful, JobsFit, OutcomesFit, Complete, Sound, MarkBroken;
    if Free(s.proto, e) {
      var db' := MarkBroken(s.db, s.proto, e);
      MarkingBrokenIsQuiet(s.db, s.proto, e);
      RequestConverges(s, db', NoRequest, MIN_ATTEMPTS);
      assert Requested(db'.cases, NoRequest, MIN_ATTEMPTS) == [];
      RunOne(s.proto, e);
      EventConverges(System(db', s.proto), e);
    } else {
      assert Next(s, Work(e)) == s;
    }
  }

  /** What a handler call does to the cases, and what its outcome is worth. */
  ghost predicate HandlesWell(db: Db, key: Key, h: CaseHandled) {
    && Progresses(db, h.db) && NoRevival(db, h.db) && WithdrawnInactive(h.db)
    && OutcomeFits(h.db, key, h.outcome)
    && |h.db.cases| == |db.cases|
    && (forall i :: 0 <= i < |db.cases| && Withdrawn(h.db.cases[i].status) && !Withdrawn(db.cases[i].status) ==>
          h.superseded == Some(i))
    && (forall i :: 0 <= i < |db.cases| && WasApproved(h.db.cases[i].status) ==> WasApproved(db.cases[i].status))
    && (h.superseded.Some? ==> h.superseded.value < |db.cases| && Withdrawn(h.db.cases[h.superseded.value].status))
  }

  lemma TombstoneHandledWell(db: Db, key: Key, fault: Fault)
    requires WithdrawnInactive(db) && KeyFits(db, key)
    requires key.entity.CaseEntity? && key.operation == Tombstone
    ensures HandlesWell(db, key, HandleTombstone(db, key.entity.id, fault))
  {
    hide Complete;
  }

  /** Up to the record of the index status only the one approved case changes. */
  lemma UpsertRecords(db: Db, id: nat, fault: Fault, degraded: bool)
    requires id < |db.cases| && WithdrawnInactive(db)
    ensures var h := HandleUpsert(db, id, fault, degraded);
            h.superseded.None? ==>
              Progresses(db, h.db) && NoRevival(db, h.db) && WithdrawnInactive(h.db) && IndexOnly(db, h.db)
  {
    hide Complete, HandlerText;
  }

  lemma UpsertSupersedes(db: Db, id: nat, fault: Fault, degraded: bool)
    requires id < |db.cases| && WithdrawnInactive(db) && LawfulLineage(db.cases, id)
    ensures var h := HandleUpsert(db, id, fault, degraded);
            h.superseded.Some? ==>
              h.superseded.value < |db.cases| == |h.db.cases|
              && Progresses(db, h.db) && NoRevival(db, h.db) && WithdrawnInactive(h.db)
              && Withdrawn(h.db.cases[h.superseded.value].status)
              && forall i :: 0 <= i < |db.cases| && i != h.superseded.value ==>
                  h.db.cases[i].status == db.cases[i].status
  {
    hide Complete, HandlerText;
  }

  lemma UpsertOutcomeFits(db: Db, key: Key, fault: Fault, degraded: bool)
    requires KeyFits(db, key) && key.entity.CaseEntity? && key.operation != Tombstone
    requires LawfulLineage(db.cases, key.entity.id)
    ensures var h := HandleUpsert(db, key.entity.id, fault, degraded);
            |h.db.cases| == |db.cases| && OutcomeFits(h.db, key, h.outcome)
  {
    hide Complete, HandlerText;
  }

  lemma CaseHandledWell(db: Db, key: Key, fault: Fault, degraded: bool)
    requires Lawful(db) && WithdrawnInactive(db) && KeyFits(db, key) && key.entity.CaseEntity?
    ensures HandlesWell(db, key, HandleCase(db, key, fault, degraded))
  {
    hide Complete, HandleTombstone, HandleUpsert;
    Stands(db);
    var id := key.entity.id;
    if key.operation == Tombstone {
      TombstoneHandledWell(db, key, fault);
    } else {
      assert LawfulCase(db.cases, id);
      UpsertRecords(db, id, fault, degraded);
      UpsertSupersedes(db, id, fault, degraded);
      UpsertOutcomeFits(db, key, fault, degraded);
    }
  }

  lemma HandleConverges(s: System, tag: nat, fault: Fault, degraded: bool)
    requires Convergent(s)
    ensures Convergent(Next(s, Handle(tag, fault, degraded)))
  {
    hide Lawful, OutcomesFit, Complete, Sound, HandleCase, SaneDelivery, WorkRecorded;
    if CanHandle(s, tag) {
      var key := s.proto.store.jobs[s.proto.deliveries[tag].body.job].key;
      var h := Handling(s, tag, fault, degraded);
      var request := if h.superseded.Some? then WantTombstone(h.superseded.value) else NoRequest;
      assert Fits(s.db, key, s.proto.store.jobs[s.proto.deliveries[tag].body.job].status);
      CaseHandledWell(s.db, key, fault, degraded);
      ProgressIsLawful(s.db, h.db);
      RequestConverges(s, h.db, request, SUPERSEDE_ATTEMPTS);
      var es := Requested(h.db.cases, request, SUPERSEDE_ATTEMPTS);
      RequestKeepsDeliveries(s.proto, h.db.cases, request, SUPERSEDE_ATTEMPTS);
      var e := Worker(tag, Handled(h.outcome));
      RunSplits(s.proto, es, [e]);
      RunOne(Run(s.proto, es), e);
      EventConverges(System(h.db, Run(s.proto, es)), e);
    } else {
      assert Next(s, Handle(tag, fault, degraded)) == s;
    }
  }

  lemma RequestKeepsDeliveries(p: Proto, cases: seq<Case>, request: JobRequest, limit: nat)
    ensures Run(p, Requested(cases, request, limit)).deliveries == p.deliveries
    ensures p.store.jobs <= Run(p, Requested(cases, request, limit)).store.jobs
  {
    if !request.NoRequest? && request.id < |cases| {
      RunOne(p, Create(KeyOf(cases, request), limit));
    }
  }

  // ----- over whole runs -----

  lemma {:induction false} EveryStateConverges(acts: seq<Action>)
    ensures Convergent(RunAll(acts))
    decreases |acts|
  {
    hide Next, Convergent;
    if acts == [] {
      assert Convergent(START) by { StartConverges(); }
    } else {
      var s := RunAll(acts[..|acts| - 1]);
      EveryStateConverges(acts[..|acts| - 1]);
      match acts[|acts| - 1]
      case Service(call, limit) => ServiceConverges(s, call, limit);
      case Work(e) => WorkConverges(s, e);
      case Handle(tag, fault, degraded) => HandleConverges(s, tag, fault, degraded);
    }
  }

  lemma StartConverges()
    ensures Convergent(START)
  {
  }
}
