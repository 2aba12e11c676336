/** The case application service as functions on the stored state: one function per call,
    with every failure of an external system as a parameter. */
module CaseLifecycle {
  import opened Text
  import opened CaseModel

  /** A client's idempotency key, or the one `_supersede` builds from the case id. */
  datatype IdemKey = ClientKey(k: nat) | SupersedeKey(id: nat)

  /** What the request fingerprint covers, besides the case id. */
  datatype Request =
    | SubmitRequest
    | ReviewRequest(approve: bool, comment: string)
    | DisableRequest(reason: string)
    | SupersedeRequest
    | RevisionRequest(patch: Patch)
    | ReindexRequest

  /** Cases are never deleted, so an id is a position. */
  datatype Db = Db(cases: seq<Case>, reviews: map<(nat, IdemKey), Request>, vectors: map<nat, Vector>)

  const EMPTY_DB := Db([], map[], map[])

  /** `queued` is the RabbitMQ execution mode. */
  datatype Config = Config(queued: bool, embedding: bool, milvus: bool)

  /** Which external calls raise. A vector write that raises may still have landed; `rescue`
      is the record of a failure, and `rescueAudit` the audit call after it. */
  datatype Faults = Faults(
    embed: bool, write: bool, lands: bool, record: bool, audit: bool, rescue: bool, rescueAudit: bool, announce: bool)

  datatype Reply = Accepted | Refused | Raised

  datatype JobRequest = NoRequest | WantUpsert(id: nat) | WantReindex(id: nat) | WantTombstone(id: nat)

  /** The state after a call, the index job recorded in its transaction, and the reply. */
  datatype Served = Served(db: Db, job: JobRequest, reply: Reply)

  function SetCase(db: Db, id: nat, c: Case): Db
    requires id < |db.cases|
  {
    db.(cases := db.cases[id := c])
  }

  /** `set_index` with its optional arguments. */
  function SetIndex(db: Db, id: nat, index: CaseIndex, text: Option<string>, active: bool): Db
    requires id < |db.cases|
  {
    var c := db.cases[id];
    SetCase(db, id, c.(index := index, active := active, embeddingText := if text.Some? then text else c.embeddingText))
  }

  datatype Transition = Missing | Clash | Replayed | Moved(db: Db)

  function Remember(db: Db, id: nat, key: Option<IdemKey>, request: Request): Db {
    if key.Some? then db.(reviews := db.reviews[(id, key.value) := request]) else db
  }

  /** A recorded key replays or clashes; otherwise the case must be in the expected status. */
  function Transit(db: Db, id: nat, expected: CaseStatus, target: CaseStatus, key: Option<IdemKey>,
                   request: Request): Transition {
    if id >= |db.cases| then Missing
    else if key.Some? && (id, key.value) in db.reviews then
      if db.reviews[(id, key.value)] == request then Replayed else Clash
    else if db.cases[id].status != expected then Clash
    else Moved(Remember(SetCase(db, id, db.cases[id].(status := target)), id, key, request))
  }

  // ----- indexing inside the call -----

  function Rescue(db: Db, id: nat, text: Option<string>, f: Faults): Db
    requires id < |db.cases|
  {
    if f.rescue then db else SetIndex(db, id, Broken, text, false)
  }

  /** Embed, write the vector, record the result; any exception goes to the rescue. */
  function IndexCase(cfg: Config, db: Db, id: nat, f: Faults): Db
    requires id < |db.cases|
  {
    var text := BuildEmbeddingText(db.cases[id].content);
    if !cfg.embedding || !cfg.milvus || f.embed then Rescue(db, id, Some(text), f)
    else
      var written := if f.write && !f.lands then db else db.(vectors := db.vectors[id := Embedded(text)]);
      if f.write || f.record then Rescue(written, id, Some(text), f)
      else
        var recorded := SetIndex(written, id, Live, Some(text), true);
        if f.audit then Rescue(recorded, id, Some(text), f) else recorded
  }

  predicate IndexSucceeds(cfg: Config, f: Faults) {
    cfg.embedding && cfg.milvus && !f.embed && !f.write && !f.record && !f.audit
  }

  /** The failure reaches the caller only when recording it or the audit call after that fails
      too. */
  predicate IndexRaises(cfg: Config, f: Faults) {
    !IndexSucceeds(cfg, f) && (f.rescue || f.rescueAudit)
  }

  function TombstoneCase(cfg: Config, db: Db, id: nat, f: Faults): Db
    requires id < |db.cases|
  {
    var deleted := if !cfg.milvus || (f.write && !f.lands) then db else db.(vectors := db.vectors - {id});
    if (cfg.milvus && f.write) || f.record then Rescue(deleted, id, None, f)
    else
      var recorded := SetIndex(deleted, id, Removed, None, false);
      if f.audit then Rescue(recorded, id, None, f) else recorded
  }

  predicate TombstoneRaises(cfg: Config, f: Faults) {
    ((cfg.milvus && f.write) || f.record || f.audit) && (f.rescue || f.rescueAudit)
  }

  function Told(raised: bool): Reply {
    if raised then Raised else Accepted
  }

  // ----- the calls -----

  function MaxVersion(cases: seq<Case>, session: nat): (v: nat)
    ensures forall i :: 0 <= i < |cases| && cases[i].session == session ==> cases[i].version <= v
    ensures v == 0 || exists i :: 0 <= i < |cases| && cases[i].session == session && cases[i].version == v
  {
    if cases == [] then 0
    else
      var last := cases[|cases| - 1];
      var v := MaxVersion(cases[..|cases| - 1], session);
      if last.session == session && last.version > v then last.version else v
  }

  function NewDraft(db: Db, session: nat, actor: string, content: Content, supersedes: Option<nat>): Case {
    Case(session, MaxVersion(db.cases, session) + 1, Draft, Waiting, false, actor, None, supersedes, None, content)
  }

  function CreateDraft(db: Db, session: nat, actor: string, content: Content): Served {
    Served(db.(cases := db.cases + [NewDraft(db, session, actor, content, None)]), NoRequest, Accepted)
  }

  function PatchDraft(db: Db, id: nat, patch: Patch, actor: string, privileged: bool): Served {
    if id >= |db.cases| || db.cases[id].status != Draft || (db.cases[id].createdBy != actor && !privileged) then
      Served(db, NoRequest, Refused)
    else
      Served(SetCase(db, id, db.cases[id].(content := Patched(db.cases[id].content, patch))), NoRequest, Accepted)
  }

  function Submit(db: Db, id: nat, actor: string, privileged: bool, evidence: set<string>,
                  key: Option<IdemKey>): Served {
    if id >= |db.cases| || (db.cases[id].createdBy != actor && !privileged) then Served(db, NoRequest, Refused)
    else if MissingCaseFields(db.cases[id].content, db.cases[id].createdBy, evidence) != [] then
      Served(db, NoRequest, Refused)
    else match Transit(db, id, Draft, PendingReview, key, SubmitRequest)
      case Moved(db') => Served(db', NoRequest, Accepted)
      case Replayed => Served(db, NoRequest, Accepted)
      case _ => Served(db, NoRequest, Refused)
  }

  /** Take the case out of retrieval as part of its transition. */
  function Withdraw(cfg: Config, db: Db, id: nat): Db
    requires id < |db.cases|
  {
    SetCase(db, id, db.cases[id].(active := false, index := if cfg.queued then Enqueued else Waiting))
  }

  function SupersedeCase(cfg: Config, db: Db, id: nat, f: Faults): Served {
    match Transit(db, id, Approved, Superseded, Some(SupersedeKey(id)), SupersedeRequest)
    case Moved(db') =>
      var out := Withdraw(cfg, db', id);
      if cfg.queued then Served(out, WantTombstone(id), Accepted)
      else Served(TombstoneCase(cfg, out, id, f), NoRequest, Told(TombstoneRaises(cfg, f)))
    case Replayed =>
      if cfg.queued then Served(db, NoRequest, Accepted)
      else Served(TombstoneCase(cfg, db, id, f), NoRequest, Told(TombstoneRaises(cfg, f)))
    case _ => Served(db, NoRequest, Raised)
  }

  function AfterApproval(cfg: Config, db: Db, id: nat, f: Faults, g: Faults): Served
    requires id < |db.cases|
  {
    if cfg.queued then
      Served(SetCase(db, id, db.cases[id].(index := Enqueued, active := false)), WantUpsert(id), Accepted)
    else
      var indexed := IndexCase(cfg, db, id, f);
      if !IndexSucceeds(cfg, f) then Served(indexed, NoRequest, Told(IndexRaises(cfg, f)))
      else if db.cases[id].supersedes.Some? then SupersedeCase(cfg, indexed, db.cases[id].supersedes.value, g)
      else Served(indexed, NoRequest, Accepted)
  }

  function Decision(approve: bool): CaseStatus {
    if approve then Approved else Rejected
  }

  function Review(cfg: Config, db: Db, id: nat, approve: bool, comment: string, actor: string, key: Option<IdemKey>,
                  f: Faults, g: Faults): Served
  {
    if id >= |db.cases| || db.cases[id].createdBy == actor then Served(db, NoRequest, Refused)
    else match Transit(db, id, PendingReview, Decision(approve), key, ReviewRequest(approve, comment))
      case Moved(db') =>
        var signed := SetCase(db', id, db'.cases[id].(reviewer := Some(actor)));
        if approve then AfterApproval(cfg, signed, id, f, g) else Served(signed, NoRequest, Accepted)
      case Replayed => Served(db, NoRequest, Accepted)
      case _ => Served(db, NoRequest, Refused)
  }

  function Disable(cfg: Config, db: Db, id: nat, reason: string, key: Option<IdemKey>, f: Faults): Served {
    match Transit(db, id, Approved, Disabled, key, DisableRequest(reason))
    case Moved(db') =>
      var out := Withdraw(cfg, db', id);
      if cfg.queued then Served(out, WantTombstone(id), Accepted)
      else Served(TombstoneCase(cfg, out, id, f), NoRequest, Told(TombstoneRaises(cfg, f)))
    case Replayed =>
      if cfg.queued then Served(db, NoRequest, Accepted)
      else Served(TombstoneCase(cfg, db, id, f), NoRequest, Told(TombstoneRaises(cfg, f)))
    case _ => Served(db, NoRequest, Refused)
  }

  /** The draft and the event that remembers it are two transactions; `noted` is false when
      the second one fails. */
  function Revise(db: Db, id: nat, patch: Patch, actor: string, key: Option<IdemKey>, noted: bool): Served {
    if id >= |db.cases| then Served(db, NoRequest, Refused)
    else if key.Some? && (id, key.value) in db.reviews then
      Served(db, NoRequest, if db.reviews[(id, key.value)] == RevisionRequest(patch) then Accepted else Refused)
    else if db.cases[id].status !in {Approved, Rejected} then Served(db, NoRequest, Refused)
    else
      var original := db.cases[id];
      var draft := NewDraft(db, original.session, actor, Patched(original.content, patch), Some(id));
      var created := db.(cases := db.cases + [draft]);
      if noted then Served(Remember(created, id, key, RevisionRequest(patch)), NoRequest, Accepted)
      else Served(created, NoRequest, Raised)
  }

  predicate Retryable(index: CaseIndex) {
    index in {Broken, Waiting, Partial}
  }

  function Reindex(cfg: Config, db: Db, id: nat, key: Option<IdemKey>, f: Faults): Served {
    if id >= |db.cases| then Served(db, NoRequest, Refused)
    else if key.Some? && (id, key.value) in db.reviews then
      Served(db, NoRequest, if db.reviews[(id, key.value)] == ReindexRequest then Accepted else Refused)
    else
      var c := db.cases[id];
      var upsert := c.status == Approved && Retryable(c.index);
      var tombstone := Withdrawn(c.status) && Retryable(c.index);
      if !upsert && !tombstone then Served(db, NoRequest, Refused)
      else
        var noted := Remember(db, id, key, ReindexRequest);
        if cfg.queued then
          Served(SetCase(noted, id, c.(index := Enqueued, active := false)),
                 if upsert then WantReindex(id) else WantTombstone(id), Accepted)
        else if f.announce then Served(noted, NoRequest, Raised)
        else if tombstone then Served(TombstoneCase(cfg, noted, id, f), NoRequest, Told(TombstoneRaises(cfg, f)))
        else Served(IndexCase(cfg, noted, id, f), NoRequest, Told(IndexRaises(cfg, f)))
  }

  datatype Call =
    | CallCreate(session: nat, actor: string, content: Content)
    | CallPatch(id: nat, patch: Patch, actor: string, privileged: bool)
    | CallSubmit(id: nat, actor: string, privileged: bool, evidence: set<string>, key: Option<IdemKey>)
    | CallReview(id: nat, approve: bool, comment: string, actor: string, key: Option<IdemKey>, f: Faults, g: Faults)
    | CallDisable(id: nat, reason: string, key: Option<IdemKey>, f: Faults)
    | CallRevise(id: nat, patch: Patch, actor: string, key: Option<IdemKey>, noted: bool)
    | CallReindex(id: nat, key: Option<IdemKey>, f: Faults)

  function Serve(cfg: Config, db: Db, call: Call): Served {
    match call
    case CallCreate(session, actor, content) => CreateDraft(db, session, actor, content)
    case CallPatch(id, patch, actor, privileged) => PatchDraft(db, id, patch, actor, privileged)
    case CallSubmit(id, actor, privileged, evidence, key) => Submit(db, id, actor, privileged, evidence, key)
    case CallReview(id, approve, comment, actor, key, f, g) => Review(cfg, db, id, approve, comment, actor, key, f, g)
    case CallDisable(id, reason, key, f) => Disable(cfg, db, id, reason, key, f)
    case CallRevise(id, patch, actor, key, noted) => Revise(db, id, patch, actor, key, noted)
    case CallReindex(id, key, f) => Reindex(cfg, db, id, key, f)
  }

  function ServeAll(cfg: Config, db: Db, calls: seq<Call>): Db
    decreases |calls|
  {
    if calls == [] then db
    else Serve(cfg, ServeAll(cfg, db, calls[..|calls| - 1]), calls[|calls| - 1]).db
  }
}
