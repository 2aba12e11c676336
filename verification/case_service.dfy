/** The case service and the case handler as they run: methods that update stored cases, the
    idempotency records and the vector store step by step, proved against the functions that
    the theorems are about. */
module CaseService {
  import opened Text
  import opened IndexContracts
  import opened IndexProtocol
  import opened CaseModel
  import opened L = CaseLifecycle
  import opened CaseQueue

  datatype TransitionReply = IsMissing | IsClash | IsReplayed | IsMoved

  /** The fields a transition sets besides the status. */
  datatype Updates = Updates(reviewer: Option<string>, index: Option<CaseIndex>, active: Option<bool>)

  function Updated(c: Case, u: Updates): Case {
    c.(reviewer := if u.reviewer.Some? then u.reviewer else c.reviewer,
       index := if u.index.Some? then u.index.value else c.index,
       active := if u.active.Some? then u.active.value else c.active)
  }

  /** The case repository and the vector store. */
  class CaseStore {
    var cases: seq<Case>
    var reviews: map<(nat, IdemKey), Request>
    var vectors: map<nat, Vector>

    function Contents(): Db
      reads this
    {
      Db(cases, reviews, vectors)
    }

    constructor ()
      ensures Contents() == EMPTY_DB
    {
      cases, reviews, vectors := [], map[], map[];
    }

    /** One transaction: the status moves, the fields are updated, the key is recorded and the
        index job is asked for, or nothing changes. */
    method Transition(id: nat, expected: CaseStatus, target: CaseStatus, key: Option<IdemKey>, request: Request,
                      updates: Updates, job: JobRequest)
      returns (reply: TransitionReply, recorded: JobRequest)
      modifies this
      ensures match Transit(old(Contents()), id, expected, target, key, request)
              case Missing => reply == IsMissing && Contents() == old(Contents())
              case Clash => reply == IsClash && Contents() == old(Contents())
              case Replayed => reply == IsReplayed && Contents() == old(Contents())
              case Moved(db) => reply == IsMoved && Contents() == SetCase(db, id, Updated(db.cases[id], updates))
      ensures recorded == if reply == IsMoved then job else NoRequest
    {
      if id >= |cases| { return IsMissing, NoRequest; }
      if key.Some? && (id, key.value) in reviews {
        return if reviews[(id, key.value)] == request then IsReplayed else IsClash, NoRequest;
      }
      if cases[id].status != expected { return IsClash, NoRequest; }
      cases := cases[id := Updated(cases[id].(status := target), updates)];
      if key.Some? { reviews := reviews[(id, key.value) := request]; }
      return IsMoved, job;
    }

    method SetIndex(id: nat, index: CaseIndex, text: Option<string>, active: bool)
      requires id < |cases|
      modifies this`cases
      ensures Contents() == L.SetIndex(old(Contents()), id, index, text, active)
    {
      var embedded := if text.Some? then text else cases[id].embeddingText;
      cases := cases[id := cases[id].(index := index, active := active, embeddingText := embedded)];
    }

    /** One more than the greatest version of the session. */
    method NextVersion(session: nat) returns (v: nat)
      ensures v == MaxVersion(cases, session) + 1
    {
      v := 0;
      for i := 0 to |cases|
        invariant v == MaxVersion(cases[..i], session)
      {
        assert cases[..i + 1][..i] == cases[..i];
        if cases[i].session == session && cases[i].version > v { v := cases[i].version; }
      }
      assert cases[..|cases|] == cases;
      v := v + 1;
    }
  }

  class CaseApplicationService {
    const cfg: Config
    const store: CaseStore

    constructor (cfg: Config, store: CaseStore)
      ensures this.cfg == cfg && this.store == store
    {
      this.cfg, this.store := cfg, store;
    }

    // ----- indexing inside the call -----

    /** The guarded part of `_index`: false when something in it raises. */
    method TryIndex(id: nat, text: string, f: Faults) returns (succeeded: bool)
      requires id < |store.cases|
      modifies store`cases, store`vectors
      ensures succeeded == IndexSucceeds(cfg, f) && |store.cases| == |old(store.cases)|
      ensures var db := old(store.Contents());
              var written := if f.write && !f.lands then db else db.(vectors := db.vectors[id := Embedded(text)]);
              store.Contents() ==
                if !cfg.embedding || !cfg.milvus || f.embed then db
                else if f.write || f.record then written
                else L.SetIndex(written, id, Live, Some(text), true)
    {
      if !cfg.embedding || !cfg.milvus { return false; }
      if f.embed { return false; }
      if !f.write || f.lands { store.vectors := store.vectors[id := Embedded(text)]; }
      if f.write || f.record { return false; }
      store.SetIndex(id, Live, Some(text), true);
      return !f.audit;
    }

    method Index(id: nat, f: Faults) returns (raised: bool)
      requires id < |store.cases|
      modifies store`cases, store`vectors
      ensures store.Contents() == IndexCase(cfg, old(store.Contents()), id, f)
      ensures raised == IndexRaises(cfg, f)
    {
      var text := BuildEmbeddingText(store.cases[id].content);
      hide BuildEmbeddingText;
      var succeeded := TryIndex(id, text, f);
      if succeeded { return false; }
      if f.rescue { return true; }
      store.SetIndex(id, Broken, Some(text), false);
      return f.rescueAudit;
    }

    method Tombstone(id: nat, f: Faults) returns (raised: bool)
      requires id < |store.cases|
      modifies store`cases, store`vectors
      ensures store.Contents() == TombstoneCase(cfg, old(store.Contents()), id, f)
      ensures raised == TombstoneRaises(cfg, f)
    {
      var failed := false;
      if cfg.milvus {
        if !f.write || f.lands { store.vectors := store.vectors - {id}; }
        failed := f.write;
      }
      if !failed && f.record { failed := true; }
      if !failed {
        store.SetIndex(id, Removed, None, false);
        failed := f.audit;
      }
      if !failed { return false; }
      if f.rescue { return true; }
      store.SetIndex(id, Broken, None, false);
      return f.rescueAudit;
    }

    /** The updates and the job of a withdrawal. */
    function Withdrawal(id: nat): (Updates, JobRequest) {
      (Updates(None, Some(if cfg.queued then Enqueued else Waiting), Some(false)),
       if cfg.queued then WantTombstone(id) else NoRequest)
    }

    method Supersede(id: nat, f: Faults) returns (job: JobRequest, reply: Reply)
      modifies store
      ensures Served(store.Contents(), job, reply) == SupersedeCase(cfg, old(store.Contents()), id, f)
    {
      hide TombstoneCase;
      var (updates, request) := Withdrawal(id);
      var moved;
      moved, job := store.Transition(id, Approved, Superseded, Some(SupersedeKey(id)), SupersedeRequest,
                                     updates, request);
      if moved.IsMissing? || moved.IsClash? { return NoRequest, Raised; }
      reply := Accepted;
      if !cfg.queued {
        var raised := Tombstone(id, f);
        reply := Told(raised);
      }
    }

    // ----- the calls -----

    method Submit(id: nat, actor: string, privileged: bool, evidence: set<string>, key: Option<IdemKey>)
      returns (reply: Reply)
      modifies store
      ensures Served(store.Contents(), NoRequest, reply)
                == L.Submit(old(store.Contents()), id, actor, privileged, evidence, key)
    {
      hide MissingCaseFields;
      if id >= |store.cases| { return Refused; }
      var current := store.cases[id];
      if current.createdBy != actor && !privileged { return Refused; }
      var missing := MissingCaseFields(current.content, current.createdBy, evidence);
      if missing != [] { return Refused; }
      var moved, _ := store.Transition(id, Draft, PendingReview, key, SubmitRequest,
          Updates(None, None, None), NoRequest);
      return if moved.IsMoved? || moved.IsReplayed? then Accepted else Refused;
    }

    method ReviewCase(id: nat, approve: bool, comment: string, actor: string, key: Option<IdemKey>,
                      f: Faults, g: Faults)
      returns (job: JobRequest, reply: Reply)
      modifies store
      ensures Served(store.Contents(), job, reply)
                == Review(cfg, old(store.Contents()), id, approve, comment, actor, key, f, g)
    {
      hide IndexCase, SupersedeCase;
      if id >= |store.cases| || store.cases[id].createdBy == actor { return NoRequest, Refused; }
      var target := Decision(approve);
      var queued := approve && cfg.queued;
      var updates :=
        if queued then Updates(Some(actor), Some(Enqueued), Some(false)) else Updates(Some(actor), None, None);
      var moved;
      moved, job := store.Transition(id, PendingReview, target, key, ReviewRequest(approve, comment), updates,
                                     if queued then WantUpsert(id) else NoRequest);
      if moved.IsReplayed? { return NoRequest, Accepted; }
      if !moved.IsMoved? { return NoRequest, Refused; }
      reply := Accepted;
      if approve && !cfg.queued { job, reply := IndexApproved(id, f, g); }
    }

    /** What approval does in sync mode. */
    method IndexApproved(id: nat, f: Faults, g: Faults) returns (job: JobRequest, reply: Reply)
      requires id < |store.cases| && !cfg.queued
      modifies store
      ensures Served(store.Contents(), job, reply) == AfterApproval(cfg, old(store.Contents()), id, f, g)
    {
      hide IndexCase, SupersedeCase;
      var predecessor := store.cases[id].supersedes;
      var raised := Index(id, f);
      if raised { return NoRequest, Raised; }
      if IndexSucceeds(cfg, f) && predecessor.Some? {
        job, reply := Supersede(predecessor.value, g);
        return;
      }
      return NoRequest, Accepted;
    }

    method DisableCase(id: nat, reason: string, key: Option<IdemKey>, f: Faults) returns (job: JobRequest, reply: Reply)
      modifies store
      ensures Served(store.Contents(), job, reply) == Disable(cfg, old(store.Contents()), id, reason, key, f)
    {
      hide TombstoneCase;
      var (updates, request) := Withdrawal(id);
      var moved;
      moved, job := store.Transition(id, Approved, Disabled, key, DisableRequest(reason), updates, request);
      if moved.IsMissing? || moved.IsClash? { return NoRequest, Refused; }
      reply := Accepted;
      if !cfg.queued {
        var raised := Tombstone(id, f);
        reply := Told(raised);
      }
    }

    /** Two transactions: the draft, and the event that remembers it. */
    method Revision(id: nat, patch: Patch, actor: string, key: Option<IdemKey>, noted: bool) returns (reply: Reply)
      modifies store
      ensures Served(store.Contents(), NoRequest, reply) == Revise(old(store.Contents()), id, patch, actor, key, noted)
    {
      hide Patched, MaxVersion;
      if id >= |store.cases| { return Refused; }
      if key.Some? && (id, key.value) in store.reviews {
        return if store.reviews[(id, key.value)] == RevisionRequest(patch) then Accepted else Refused;
      }
      var original := store.cases[id];
      if original.status !in {Approved, Rejected} { return Refused; }
      var version := store.NextVersion(original.session);
      var draft := Case(original.session, version, Draft, Waiting, false, actor, None, Some(id), None,
          Patched(original.content, patch));
      store.cases := store.cases + [draft];
      if !noted { return Raised; }
      if key.Some? { store.reviews := store.reviews[(id, key.value) := RevisionRequest(patch)]; }
      return Accepted;
    }

    method ReindexCase(id: nat, key: Option<IdemKey>, f: Faults) returns (job: JobRequest, reply: Reply)
      modifies store
      ensures Served(store.Contents(), job, reply) == L.Reindex(cfg, old(store.Contents()), id, key, f)
    {
      hide IndexCase, TombstoneCase;
      if id >= |store.cases| { return NoRequest, Refused; }
      if key.Some? && (id, key.value) in store.reviews {
        return NoRequest, if store.reviews[(id, key.value)] == ReindexRequest then Accepted else Refused;
      }
      var current := store.cases[id];
      var upsert := current.status == Approved && Retryable(current.index);
      var tombstone := Withdrawn(current.status) && Retryable(current.index);
      if !upsert && !tombstone { return NoRequest, Refused; }
      if key.Some? { store.reviews := store.reviews[(id, key.value) := ReindexRequest]; }
      if cfg.queued {
        store.cases := store.cases[id := current.(index := Enqueued, active := false)];
        return if upsert then WantReindex(id) else WantTombstone(id), Accepted;
      }
      if f.announce { return NoRequest, Raised; }
      if tombstone {
        var raised := Tombstone(id, f);
        return NoRequest, Told(raised);
      }
      var raised := Index(id, f);
      return NoRequest, Told(raised);
    }
  }

  // ----- the handler -----

  class IndexHandlerRuntime {
    const store: CaseStore

    constructor (store: CaseStore)
      ensures this.store == store
    {
      this.store := store;
    }

    method HandleCaseEvent(key: Key, fault: Fault, degraded: bool) returns (outcome: Outcome, superseded: Option<nat>)
      requires key.entity.CaseEntity?
      modifies store
      ensures CaseHandled(store.Contents(), outcome, superseded)
                == HandleCase(old(store.Contents()), key, fault, degraded)
    {
      hide HandlerText, SupersedePredecessor;
      var id := key.entity.id;
      if fault == AtRead { return Transient, None; }
      if id >= |store.cases| { return Permanent, None; }
      var current := store.cases[id];
      if current.version != key.version { return StaleEvent, None; }
      if key.operation == Operation.Tombstone {
        if current.active || !Withdrawn(current.status) { return StaleEvent, None; }
        if fault == BeforeVector { return Transient, None; }
        store.vectors := store.vectors - {id};
        if fault == AfterVector { return Transient, None; }
        store.SetIndex(id, Removed, None, false);
        return if fault == AfterRecord then Transient else Ok(Tombstoned), None;
      }
      if current.status != Approved { return StaleEvent, None; }
      if fault == BeforeVector { return Transient, None; }
      var text := HandlerText(current);
      store.vectors := store.vectors[id := Embedded(text)];
      if fault == AfterVector { return Transient, None; }
      store.SetIndex(id, if degraded then Partial else Live, Some(text), true);
      if fault == AfterRecord { return Transient, None; }
      superseded := QueueSupersededCase(current.supersedes);
      outcome := Ok(if degraded then Degraded else Indexed);
    }

    /** An approved predecessor is superseded; any other is left alone. */
    method QueueSupersededCase(predecessor: Option<nat>) returns (superseded: Option<nat>)
      modifies store`cases
      ensures (store.Contents(), superseded) == SupersedePredecessor(old(store.Contents()), predecessor)
    {
      if predecessor.None? || predecessor.value >= |store.cases| { return None; }
      var stored := store.cases[predecessor.value];
      if stored.status != Approved { return None; }
      var withdrawn := stored.(status := Superseded, active := false, index := Enqueued);
      store.cases := store.cases[predecessor.value := withdrawn];
      return predecessor;
    }
  }
}
