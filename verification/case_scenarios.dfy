/** A concrete run in RabbitMQ mode: an approved case that is indexed without its graph, and
    reindexed twice. The second reindex takes it out of retrieval and queues nothing. */
module CaseScenarios {
  import opened Text
  import opened IndexContracts
  import opened IndexStore
  import opened IndexProtocol
  import opened CaseModel
  import opened L = CaseLifecycle
  import opened CaseQueue
  import D = IndexDelivery

  lemma Act(acts: seq<Action>, s: System, a: Action, s': System)
    requires RunAll(acts) == s && Next(s, a) == s'
    ensures RunAll(acts + [a]) == s'
  {
    assert (acts + [a])[..|acts|] == acts;
  }

  /** A protocol event that concerns no case. */
  lemma WorkNext(s: System, e: Event)
    requires Free(s.proto, e) && MarkBroken(s.db, s.proto, e) == s.db
    ensures Next(s, Work(e)) == System(s.db, Step(s.proto, e))
  {
    hide Step, Run, MarkBroken, Free;
    RunOne(s.proto, e);
  }

  /** A service call that asks for a job. */
  lemma ServiceNext(s: System, call: Call, db: Db, job: JobRequest)
    requires Reaction(s, call) == L.Served(db, job, Accepted) && !job.NoRequest? && job.id < |db.cases|
    ensures Next(s, Service(call, 3)) == System(db, Step(s.proto, Create(KeyOf(db.cases, job), 3)))
  {
    hide Reaction, Step, Run;
    RunOne(s.proto, Create(KeyOf(db.cases, job), 3));
  }

  /** One case, the jobs and rows so far, and nothing in the queues or with a worker. */
  function Quiet(c: Case, vectors: map<nat, Vector>, st: Store, confirmed: set<nat>): System {
    System(Db([c], map[], vectors), Proto(st, confirmed, multiset{}, multiset{}, multiset{}, map[]))
  }

  function CaseKey(operation: Operation): Key {
    Key(CaseEntity(0), 1, operation)
  }

  predicate Upserts(c: Case, st: Store, confirmed: set<nat>, j: nat, operation: Operation) {
    && c.status == Approved && c.version == 1 && c.supersedes == None && operation in {Upsert, Operation.Reindex}
    && j < |st.jobs| == |st.outbox| && st.jobs[j] == Job(CaseKey(operation), Pending, 0, 3)
    && st.outbox[j] == Row(j, false, 0)
  }

  function Working0(st: Store, confirmed: set<nat>, j: nat, phase: Phase): Proto {
    Proto(st, confirmed, multiset{}, multiset{}, multiset{}, map[0 := Delivery(Message(j), phase, true)])
  }

  lemma MessageArrives(acts: seq<Action>, c: Case, vs: map<nat, Vector>, st: Store, confirmed: set<nat>, j: nat,
                       op: Operation)
    returns (more: seq<Action>)
    requires RunAll(acts) == Quiet(c, vs, st, confirmed) && Upserts(c, st, confirmed, j, op)
    ensures RunAll(more) == System(Db([c], map[], vs), Working0(st, confirmed + {j}, j, Got))
  {
    var s := Quiet(c, vs, st, confirmed);
    var p1 := s.proto.(confirmed := confirmed + {j}, waiting := multiset{Message(j)});
    RunOne(s.proto, Publish(j));
    Act(acts, s, Work(Publish(j)), System(s.db, p1));
    var p2 := Working0(st, confirmed + {j}, j, Got);
    RunOne(p1, Deliver(0, Message(j)));
    assert Step(p1, Deliver(0, Message(j))) == p2;
    Act(acts + [Work(Publish(j))], System(s.db, p1), Work(Deliver(0, Message(j))), System(s.db, p2));
    more := acts + [Work(Publish(j))] + [Work(Deliver(0, Message(j)))];
  }

  function Started0(st: Store, j: nat): Store
    requires j < |st.jobs|
  {
    st.(jobs := st.jobs[j := st.jobs[j].(status := Running, attempts := 1)])
  }

  function Settled0(st: Store, j: nat): Store
    requires j < |st.jobs|
  {
    st.(jobs := st.jobs[j := st.jobs[j].(status := Degraded, attempts := 1)])
  }

  lemma Replaced(j: nat, phase: Phase, phase': Phase)
    ensures map[0 := Delivery(Message(j), phase, true)][0 := Delivery(Message(j), phase', true)]
              == map[0 := Delivery(Message(j), phase', true)]
    ensures map[0 := Delivery(Message(j), phase, true)] - {0} == map[]
  {
  }

  lemma BeginsWorking(st: Store, confirmed: set<nat>, j: nat)
    requires j < |st.jobs| && st.jobs[j].status == Pending && st.jobs[j].attempts == 0 && st.jobs[j].maxAttempts == 3
    ensures Step(Working0(st, confirmed, j, Got), Worker(0, Begin))
              == Working0(Started0(st, j), confirmed, j, Working(1, 3))
  {
    Replaced(j, Got, Working(1, 3));
  }

  lemma EndsWorking(st: Store, confirmed: set<nat>, j: nat)
    requires j < |st.jobs|
    ensures Step(Working0(st, confirmed, j, Working(1, 3)), Worker(0, Handled(Ok(Degraded))))
              == Working0(st, confirmed, j, Done(Ok(Degraded), 1, 3))
  {
    Replaced(j, Working(1, 3), Done(Ok(Degraded), 1, 3));
  }

  lemma SettlesDegraded(st: Store, confirmed: set<nat>, j: nat)
    requires j < |st.jobs|
    ensures Step(Working0(Started0(st, j), confirmed, j, Done(Ok(Degraded), 1, 3)), Worker(0, Settle))
         == Working0(Settled0(st, j), confirmed, j, Acking(true, 1, 3))
  {
    Replaced(j, Done(Ok(Degraded), 1, 3), Acking(true, 1, 3));
    assert Started0(st, j).jobs[j := Started0(st, j).jobs[j].(status := Degraded)] == Settled0(st, j).jobs;
  }

  lemma IsAcknowledged(st: Store, confirmed: set<nat>, j: nat)
    ensures Step(Working0(st, confirmed, j, Acking(true, 1, 3)), Worker(0, IndexProtocol.Ack))
         == Proto(st, confirmed, multiset{}, multiset{}, multiset{}, map[])
  {
    Replaced(j, Acking(true, 1, 3), ACKING);
  }

  lemma JobStarts(acts: seq<Action>, c: Case, vs: map<nat, Vector>, st: Store, confirmed: set<nat>, j: nat,
                  op: Operation)
    returns (more: seq<Action>)
    requires Upserts(c, st, confirmed, j, op)
    requires RunAll(acts) == System(Db([c], map[], vs), Working0(st, confirmed, j, Got))
    ensures RunAll(more) == System(Db([c], map[], vs), Working0(Started0(st, j), confirmed, j, Working(1, 3)))
  {
    hide RunAll, Step, Run, Next;
    var s := RunAll(acts);
    BeginsWorking(st, confirmed, j);
    WorkNext(s, Worker(0, Begin));
    Act(acts, s, Work(Worker(0, Begin)), System(s.db, Working0(Started0(st, j), confirmed, j, Working(1, 3))));
    more := acts + [Work(Worker(0, Begin))];
  }

  /** The handler stores the vector but not the graph. */
  function Degraded0(c: Case): Case {
    c.(index := Partial, active := true, embeddingText := Some(HandlerText(c)))
  }

  lemma HandledDegraded(c: Case, vs: map<nat, Vector>, op: Operation)
    requires c.status == Approved && c.version == 1 && c.supersedes == None && op in {Upsert, Operation.Reindex}
    ensures HandleCase(Db([c], map[], vs), CaseKey(op), NoFault, true)
         == CaseHandled(Db([Degraded0(c)], map[], vs[0 := Embedded(HandlerText(c))]), Ok(Degraded), None)
  {
    hide HandlerText;
  }

  lemma HandleNext(s: System, db: Db)
    requires CanHandle(s, 0) && Handling(s, 0, NoFault, true) == CaseHandled(db, Ok(Degraded), None)
    ensures Next(s, Handle(0, NoFault, true)) == System(db, Step(s.proto, Worker(0, Handled(Ok(Degraded)))))
  {
    hide Handling, Step, Run;
    RunOne(s.proto, Worker(0, Handled(Ok(Degraded))));
    assert [] + [Worker(0, Handled(Ok(Degraded)))] == [Worker(0, Handled(Ok(Degraded)))];
  }

  lemma HandlerDegrades(acts: seq<Action>, c: Case, vs: map<nat, Vector>, st: Store, confirmed: set<nat>, j: nat,
                        op: Operation)
    returns (more: seq<Action>)
    requires Upserts(c, st, confirmed, j, op)
    requires RunAll(acts) == System(Db([c], map[], vs), Working0(Started0(st, j), confirmed, j, Working(1, 3)))
    ensures RunAll(more) == System(Db([Degraded0(c)], map[], vs[0 := Embedded(HandlerText(c))]),
                                   Working0(Started0(st, j), confirmed, j, Done(Ok(Degraded), 1, 3)))
  {
    hide HandlerText, RunAll, Step, Run, HandleCase, Next;
    var s := RunAll(acts);
    var db := Db([Degraded0(c)], map[], vs[0 := Embedded(HandlerText(c))]);
    HandledDegraded(c, vs, op);
    HandleNext(s, db);
    EndsWorking(Started0(st, j), confirmed, j);
    Act(acts, s, Handle(0, NoFault, true),
        System(db, Working0(Started0(st, j), confirmed, j, Done(Ok(Degraded), 1, 3))));
    more := acts + [Handle(0, NoFault, true)];
  }

  lemma JobSettles(acts: seq<Action>, db: Db, st: Store, confirmed: set<nat>, j: nat)
    returns (more: seq<Action>)
    requires j < |st.jobs|
    requires RunAll(acts) == System(db, Working0(Started0(st, j), confirmed, j, Done(Ok(Degraded), 1, 3)))
    ensures RunAll(more) == System(db, Proto(Settled0(st, j), confirmed, multiset{}, multiset{}, multiset{}, map[]))
  {
    var s := RunAll(acts);
    hide RunAll, Step, Run, Next;
    var p := Working0(Settled0(st, j), confirmed, j, Acking(true, 1, 3));
    SettlesDegraded(st, confirmed, j);
    WorkNext(s, Worker(0, Settle));
    Act(acts, s, Work(Worker(0, Settle)), System(db, p));
    IsAcknowledged(Settled0(st, j), confirmed, j);
    WorkNext(System(db, p), Worker(0, IndexProtocol.Ack));
    Act(acts + [Work(Worker(0, Settle))], System(db, p), Work(Worker(0, IndexProtocol.Ack)),
        System(db, Proto(Settled0(st, j), confirmed, multiset{}, multiset{}, multiset{}, map[])));
    more := acts + [Work(Worker(0, Settle))] + [Work(Worker(0, IndexProtocol.Ack))];
  }

  /** Publish, deliver, start, handle, settle, acknowledge. */
  lemma DegradedRound(acts: seq<Action>, c: Case, vs: map<nat, Vector>, st: Store, confirmed: set<nat>, j: nat,
                      op: Operation)
    returns (more: seq<Action>)
    requires RunAll(acts) == Quiet(c, vs, st, confirmed) && Upserts(c, st, confirmed, j, op)
    ensures RunAll(more) == Quiet(Degraded0(c), vs[0 := Embedded(HandlerText(c))], Settled0(st, j), confirmed + {j})
  {
    hide RunAll, HandlerText;
    more := MessageArrives(acts, c, vs, st, confirmed, j, op);
    more := JobStarts(more, c, vs, st, confirmed + {j}, j, op);
    more := HandlerDegrades(more, c, vs, st, confirmed + {j}, j, op);
    more := JobSettles(more, Db([Degraded0(c)], map[], vs[0 := Embedded(HandlerText(c))]), st, confirmed + {j}, j);
  }

  // ----- the service calls -----

  function Draft0(content: Content): Case {
    Case(0, 1, Draft, Waiting, false, "author", None, None, None, content)
  }

  function Approved0(content: Content): Case {
    Draft0(content).(status := Approved, index := Enqueued, reviewer := Some("reviewer"))
  }

  const NO_FAULTS := Faults(false, false, false, false, false, false, false, false)

  const REINDEX := Service(CallReindex(0, None, NO_FAULTS), 3)

  const UPSERT_QUEUED := Store([Job(Key(CaseEntity(0), 1, Upsert), Pending, 0, 3)], [Row(0, false, 0)])

  lemma ACaseIsApproved(content: Content) returns (acts: seq<Action>)
    requires Complete(content, "author")
    ensures RunAll(acts) == Quiet(Approved0(content), map[], UPSERT_QUEUED, {})
  {
    hide Complete;
    var evidence := set i | 0 <= i < |content.evidenceRefs| :: content.evidenceRefs[i];
    var create := Service(CallCreate(0, "author", content), 3);
    var s1 := Quiet(Draft0(content), map[], EMPTY, {});
    assert Next(START, create) == s1;
    Act([], START, create, s1);
    var submit := Service(CallSubmit(0, "author", false, evidence, None), 3);
    var s2 := Quiet(Draft0(content).(status := PendingReview), map[], EMPTY, {});
    assert MissingCaseFields(content, "author", evidence) == [];
    hide MissingCaseFields;
    assert Next(s1, submit) == s2;
    Act([] + [create], s1, submit, s2);
    ACaseIsReviewed([] + [create] + [submit], content, s2);
    acts := [] + [create] + [submit] + [Service(CallReview(0, true, "", "reviewer", None, NO_FAULTS, NO_FAULTS), 3)];
  }

  lemma ACaseIsReviewed(acts: seq<Action>, content: Content, s: System)
    requires s == Quiet(Draft0(content).(status := PendingReview), map[], EMPTY, {}) && RunAll(acts) == s
    ensures RunAll(acts + [Service(CallReview(0, true, "", "reviewer", None, NO_FAULTS, NO_FAULTS), 3)])
         == Quiet(Approved0(content), map[], UPSERT_QUEUED, {})
  {
    hide RunAll, Next, Run;
    var review := CallReview(0, true, "", "reviewer", None, NO_FAULTS, NO_FAULTS);
    var s' := Quiet(Approved0(content), map[], UPSERT_QUEUED, {});
    ReviewReaction(content, s);
    ServiceNext(s, review, s'.db, WantUpsert(0));
    assert Step(s.proto, Create(CaseKey(Upsert), 3)) == s'.proto;
    hide Reaction, Step;
    Act(acts, s, Service(review, 3), s');
  }

  lemma ReviewReaction(content: Content, s: System)
    requires s == Quiet(Draft0(content).(status := PendingReview), map[], EMPTY, {})
    ensures Reaction(s, CallReview(0, true, "", "reviewer", None, NO_FAULTS, NO_FAULTS))
         == L.Served(Db([Approved0(content)], map[], map[]), WantUpsert(0), Accepted)
  {
    hide IndexCase, SupersedeCase;
  }

  lemma ReindexReaction(c: Case, vs: map<nat, Vector>, p: Proto)
    requires c.status == Approved && c.index == Partial
    ensures Reaction(System(Db([c], map[], vs), p), CallReindex(0, None, NO_FAULTS))
         == L.Served(Db([c.(index := Enqueued, active := false)], map[], vs), WantReindex(0), Accepted)
  {
    hide IndexCase, TombstoneCase;
  }

  /** A reindex of the degraded case: a job is added only when there is none for it yet. */
  lemma AReindexIsAsked(acts: seq<Action>, c: Case, vs: map<nat, Vector>, st: Store, confirmed: set<nat>)
    requires c.status == Approved && c.index == Partial && c.version == 1
    requires RunAll(acts) == Quiet(c, vs, st, confirmed)
    ensures RunAll(acts + [REINDEX])
         == Quiet(c.(index := Enqueued, active := false), vs, AddJob(st, CaseKey(Operation.Reindex), 3), confirmed)
  {
    hide RunAll, Next, Run, AddJob;
    var s := RunAll(acts);
    var out := c.(index := Enqueued, active := false);
    ReindexReaction(c, vs, s.proto);
    hide Reaction;
    ServiceNext(s, CallReindex(0, None, NO_FAULTS), Db([out], map[], vs), WantReindex(0));
    Act(acts, s, REINDEX, Quiet(out, vs, AddJob(st, CaseKey(Operation.Reindex), 3), confirmed));
  }

  /** An active, approved case that a reindex takes out of retrieval with nothing queued that
      could bring it back: its index is degraded, and its reindex job has settled before. */
  lemma AReindexMayQueueNothing(content: Content)
    requires Complete(content, "author")
    ensures exists acts ::
      var s, s' := RunAll(acts), RunAll(acts + [REINDEX]);
      && |s.db.cases| == 1 && s.db.cases[0].active && s.db.cases[0].status == Approved
      && |s'.db.cases| == 1 && !s'.db.cases[0].active && s'.db.cases[0].status == Approved
      && s'.proto == s.proto && forall j: nat :: !D.Owed(s'.proto, j)
  {
    hide RunAll, Complete, HandlerText;
    var acts := ACaseIsApproved(content);
    var c := Approved0(content);
    acts := DegradedRound(acts, c, map[], UPSERT_QUEUED, {}, 0, Upsert);
    var c1, vs1, st1 := Degraded0(c), map[][0 := Embedded(HandlerText(c))], Settled0(UPSERT_QUEUED, 0);
    AReindexIsAsked(acts, c1, vs1, st1, {} + {0});
    acts := acts + [REINDEX];
    var c2, st2 := c1.(index := Enqueued, active := false), AddJob(st1, CaseKey(Operation.Reindex), 3);
    assert st2 == Store(st1.jobs + [Job(CaseKey(Operation.Reindex), Pending, 0, 3)], st1.outbox + [Row(1, false, 0)]);
    acts := DegradedRound(acts, c2, vs1, st2, {} + {0}, 1, Operation.Reindex);
    var c3, st3 := Degraded0(c2), Settled0(st2, 1);
    AReindexIsAsked(acts, c3, vs1[0 := Embedded(HandlerText(c2))], st3, {} + {0} + {1});
    assert HasKey(st3, CaseKey(Operation.Reindex)) by { assert st3.jobs[1].key == CaseKey(Operation.Reindex); }
    var s, s' := RunAll(acts), RunAll(acts + [REINDEX]);
    assert s'.proto == s.proto && s.proto.store == st3;
    assert forall j: nat :: !D.Owed(s'.proto, j);
    assert s.db.cases == [c3] && s'.db.cases == [c3.(index := Enqueued, active := false)];
  }
}
