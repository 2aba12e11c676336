/** RabbitMQ mode: service calls, the indexing protocol and the case handler together. A step
    is one service call, one protocol event or one handler call. */
module CaseQueue {
  import opened Text
  import opened IndexContracts
  import opened IndexStore
  import opened IndexProtocol
  import opened CaseModel
  import opened CaseHistory
  import opened L = CaseLifecycle

  datatype System = System(db: Db, proto: Proto)

  const START := System(EMPTY_DB, INITIAL)

  const QUEUED_MODE := Config(true, true, true)

  /** Where a handler call raises, if it does. */
  datatype Fault = NoFault | AtRead | BeforeVector | AfterVector | AfterRecord

  datatype Action =
    | Service(call: Call, limit: nat)
    | Work(e: Event)
    | Handle(tag: nat, fault: Fault, degraded: bool)

  // ----- the case handler -----

  function RawPart(o: Option<string>): seq<string> {
    if o.Some? && o.value != "" then [o.value] else []
  }

  function RawText(c: Content): string {
    Join(
      RawPart(c.deviceType) + RawPart(c.deviceModel) + RawPart(c.alarmName) + RawPart(c.symptomSummary)
      + RawPart(c.timeseries) + RawPart(Some(c.rootCause)) + RawPart(Some(Join(c.resolutionSteps, STEP_SEPARATOR))),
      "\n")
  }

  /** The stored text, or the text of the fields when none is stored yet. */
  function HandlerText(c: Case): string {
    if Filled(c.embeddingText) then c.embeddingText.value else RawText(c.content)
  }

  /** The state after a handler call, its outcome, and the predecessor it superseded. */
  datatype CaseHandled = CaseHandled(db: Db, outcome: Outcome, superseded: Option<nat>)

  function HandleTombstone(db: Db, id: nat, fault: Fault): CaseHandled
    requires id < |db.cases|
  {
    if db.cases[id].active || !Withdrawn(db.cases[id].status) then CaseHandled(db, StaleEvent, None)
    else if fault == BeforeVector then CaseHandled(db, Transient, None)
    else
      var deleted := db.(vectors := db.vectors - {id});
      if fault == AfterVector then CaseHandled(deleted, Transient, None)
      else
        var outcome := if fault == AfterRecord then Transient else Ok(Tombstoned);
        CaseHandled(SetIndex(deleted, id, Removed, None, false), outcome, None)
  }

  /** `_queue_superseded_case`: only an approved predecessor is superseded. */
  function SupersedePredecessor(db: Db, pred: Option<nat>): (Db, Option<nat>) {
    if pred.Some? && pred.value < |db.cases| && db.cases[pred.value].status == Approved then
      (SetCase(db, pred.value, db.cases[pred.value].(status := Superseded, active := false, index := Enqueued)), pred)
    else (db, None)
  }

  function HandleUpsert(db: Db, id: nat, fault: Fault, degraded: bool): CaseHandled
    requires id < |db.cases|
  {
    if db.cases[id].status != Approved then CaseHandled(db, StaleEvent, None)
    else if fault == BeforeVector then CaseHandled(db, Transient, None)
    else
      var text := HandlerText(db.cases[id]);
      var written := db.(vectors := db.vectors[id := Embedded(text)]);
      if fault == AfterVector then CaseHandled(written, Transient, None)
      else
        var recorded := SetIndex(written, id, if degraded then Partial else Live, Some(text), true);
        if fault == AfterRecord then CaseHandled(recorded, Transient, None)
        else
          var (out, superseded) := SupersedePredecessor(recorded, db.cases[id].supersedes);
          CaseHandled(out, Ok(if degraded then Degraded else Indexed), superseded)
  }

  function HandleCase(db: Db, key: Key, fault: Fault, degraded: bool): CaseHandled
    requires key.entity.CaseEntity?
  {
    var id := key.entity.id;
    if fault == AtRead then CaseHandled(db, Transient, None)
    else if id >= |db.cases| then CaseHandled(db, Permanent, None)
    else if db.cases[id].version != key.version then CaseHandled(db, StaleEvent, None)
    else if key.operation == Tombstone then HandleTombstone(db, id, fault)
    else HandleUpsert(db, id, fault, degraded)
  }

  // ----- steps -----

  function KeyOf(cases: seq<Case>, request: JobRequest): Key
    requires !request.NoRequest? && request.id < |cases|
  {
    Key(CaseEntity(request.id), cases[request.id].version,
        match request
        case WantTombstone(_) => Tombstone
        case WantReindex(_) => Operation.Reindex
        case _ => Upsert)
  }

  function Requested(cases: seq<Case>, request: JobRequest, limit: nat): seq<Event> {
    if request.NoRequest? || request.id >= |cases| then [] else [Create(KeyOf(cases, request), limit)]
  }

  predicate ForCase(p: Proto, tag: nat) {
    && tag in p.deliveries && p.deliveries[tag].body.Message? && p.deliveries[tag].body.job < |p.store.jobs|
    && p.store.jobs[p.deliveries[tag].body.job].key.entity.CaseEntity?
  }

  /** Jobs of cases come from service calls and supersession, and their outcomes from the
      case handler; every other protocol event may happen by itself. */
  predicate Free(p: Proto, e: Event) {
    && (e.Create? ==> !e.key.entity.CaseEntity?)
    && (e.Worker? && e.act.Handled? ==> !ForCase(p, e.tag))
  }

  /** A dead-lettered job marks its case as broken and takes it out of retrieval. */
  function MarkBroken(db: Db, p: Proto, e: Event): Db {
    if && e.Worker? && e.act.Settle? && Enabled(p, e) && ForCase(p, e.tag)
       && SettledAs(p.deliveries[e.tag].phase).0 == Failed then
      var id := p.store.jobs[p.deliveries[e.tag].body.job].key.entity.id;
      if id < |db.cases| then SetIndex(db, id, Broken, None, false) else db
    else db
  }

  predicate CanHandle(s: System, tag: nat) {
    ForCase(s.proto, tag) && s.proto.deliveries[tag].phase.Working?
  }

  function Handling(s: System, tag: nat, fault: Fault, degraded: bool): CaseHandled
    requires CanHandle(s, tag)
  {
    HandleCase(s.db, s.proto.store.jobs[s.proto.deliveries[tag].body.job].key, fault, degraded)
  }

  function Reaction(s: System, call: Call): L.Served {
    Serve(QUEUED_MODE, s.db, call)
  }

  const SUPERSEDE_ATTEMPTS := 3

  /** The protocol events a step consists of. */
  function Events(s: System, a: Action): seq<Event> {
    match a
    case Service(call, limit) =>
      if MIN_ATTEMPTS <= limit <= MAX_ATTEMPTS then
        Requested(Reaction(s, call).db.cases, Reaction(s, call).job, limit)
      else []
    case Work(e) => if Free(s.proto, e) then [e] else []
    case Handle(tag, fault, degraded) =>
      if CanHandle(s, tag) then
        var h := Handling(s, tag, fault, degraded);
        var request := if h.superseded.Some? then WantTombstone(h.superseded.value) else NoRequest;
        Requested(h.db.cases, request, SUPERSEDE_ATTEMPTS)
        + [Worker(tag, Handled(h.outcome))]
      else []
  }

  function DbAfter(s: System, a: Action): Db {
    match a
    case Service(call, limit) => if MIN_ATTEMPTS <= limit <= MAX_ATTEMPTS then Reaction(s, call).db else s.db
    case Work(e) => if Free(s.proto, e) then MarkBroken(s.db, s.proto, e) else s.db
    case Handle(tag, fault, degraded) => if CanHandle(s, tag) then Handling(s, tag, fault, degraded).db else s.db
  }

  function Next(s: System, a: Action): System {
    System(DbAfter(s, a), Run(s.proto, Events(s, a)))
  }

  function RunAll(acts: seq<Action>): System
    decreases |acts|
  {
    if acts == [] then START else Next(RunAll(acts[..|acts| - 1]), acts[|acts| - 1])
  }

  function AllEvents(acts: seq<Action>): seq<Event>
    decreases |acts|
  {
    if acts == [] then [] else AllEvents(acts[..|acts| - 1]) + Events(RunAll(acts[..|acts| - 1]), acts[|acts| - 1])
  }

  /** The whole system runs the protocol: its theorems hold of it. */
  lemma {:induction false} SystemRunsTheProtocol(acts: seq<Action>)
    ensures RunAll(acts).proto == Run(INITIAL, AllEvents(acts))
    decreases |acts|
  {
    if acts != [] {
      var before := acts[..|acts| - 1];
      SystemRunsTheProtocol(before);
      RunSplits(INITIAL, AllEvents(before), Events(RunAll(before), acts[|acts| - 1]));
    }
  }
}
