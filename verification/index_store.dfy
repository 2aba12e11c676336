/** The job and outbox tables, as values. Each function is the effect of one committed
    transaction; rows are appended and never deleted, so an id is a position. */
module IndexStore {
  import opened IndexContracts

  datatype Job = Job(key: Key, status: JobStatus, attempts: nat, maxAttempts: nat)

  datatype Row = Row(job: nat, sent: bool, tries: nat)

  datatype Store = Store(jobs: seq<Job>, outbox: seq<Row>)

  const EMPTY := Store([], [])

  /** What the consumer learns from `start`; a rolled-back start is `OverLimit`. */
  datatype StartResult =
    | NoJob
    | AlreadySettled(status: JobStatus)
    | OverLimit
    | Started(attempts: nat, maxAttempts: nat)

  predicate HasKey(st: Store, key: Key) {
    exists i :: 0 <= i < |st.jobs| && st.jobs[i].key == key
  }

  /** The unique constraint on the idempotency tuple. */
  predicate UniqueKeys(st: Store) {
    forall i, j :: 0 <= i < j < |st.jobs| ==> st.jobs[i].key != st.jobs[j].key
  }

  predicate WellFormed(st: Store) {
    && UniqueKeys(st)
    && (forall i :: 0 <= i < |st.jobs| ==> st.jobs[i].attempts <= st.jobs[i].maxAttempts && 1 <= st.jobs[i].maxAttempts)
    && (forall r :: 0 <= r < |st.outbox| ==> st.outbox[r].job < |st.jobs|)
  }

  function AddJob(st: Store, key: Key, maxAttempts: nat): Store {
    if HasKey(st, key) then st
    else Store(st.jobs + [Job(key, Pending, 0, maxAttempts)], st.outbox + [Row(|st.jobs|, false, 0)])
  }

  function SetJob(st: Store, id: nat, job: Job): Store
    requires id < |st.jobs|
  {
    st.(jobs := st.jobs[id := job])
  }

  /** The row and the job are looked up separately, and each is skipped when it is missing. */
  function MarkPublished(st: Store, row: nat, job: nat): Store {
    Store(
      if job < |st.jobs| && st.jobs[job].status == Pending then st.jobs[job := st.jobs[job].(status := Queued)]
      else st.jobs,
      if row < |st.outbox| && !st.outbox[row].sent then
        st.outbox[row := st.outbox[row].(sent := true, tries := st.outbox[row].tries + 1)]
      else st.outbox)
  }

  function MarkPublishFailed(st: Store, row: nat): Store {
    if row < |st.outbox| then
      st.(outbox := st.outbox[row := st.outbox[row].(tries := st.outbox[row].tries + 1)])
    else st
  }

  function StartOutcome(st: Store, id: nat): StartResult {
    if id >= |st.jobs| then NoJob
    else if Settled(st.jobs[id].status) then AlreadySettled(st.jobs[id].status)
    else if st.jobs[id].attempts >= st.jobs[id].maxAttempts then OverLimit
    else Started(st.jobs[id].attempts + 1, st.jobs[id].maxAttempts)
  }

  function Start(st: Store, id: nat): Store {
    if StartOutcome(st, id).Started? then
      SetJob(st, id, st.jobs[id].(status := Running, attempts := st.jobs[id].attempts + 1))
    else st
  }

  function Finish(st: Store, id: nat, status: JobStatus): Store {
    if id < |st.jobs| then SetJob(st, id, st.jobs[id].(status := status)) else st
  }

  function Fail(st: Store, id: nat, dead: bool): Store {
    Finish(st, id, if dead then Failed else Queued)
  }

  function Retry(st: Store, id: nat): Store {
    if id < |st.jobs| && st.jobs[id].status == Failed then
      Store(st.jobs[id := st.jobs[id].(status := Pending, attempts := 0)], st.outbox + [Row(id, false, 0)])
    else st
  }

  /** What every transaction keeps: the constraints, and the identity of existing rows. */
  predicate Extends(st: Store, st': Store) {
    && WellFormed(st')
    && |st.jobs| <= |st'.jobs|
    && |st.outbox| <= |st'.outbox|
    && (forall i :: 0 <= i < |st.jobs| ==>
          st'.jobs[i].key == st.jobs[i].key && st'.jobs[i].maxAttempts == st.jobs[i].maxAttempts)
    && (forall r :: 0 <= r < |st.outbox| ==> st'.outbox[r].job == st.outbox[r].job)
  }

  lemma AddJobExtends(st: Store, key: Key, m: nat)
    requires WellFormed(st) && 1 <= m
    ensures Extends(st, AddJob(st, key, m))
  {
  }

  lemma StartExtends(st: Store, id: nat)
    requires WellFormed(st)
    ensures Extends(st, Start(st, id))
  {
  }

  lemma FinishExtends(st: Store, id: nat, status: JobStatus)
    requires WellFormed(st)
    ensures Extends(st, Finish(st, id, status))
  {
  }

  lemma MarkExtends(st: Store, row: nat, job: nat)
    requires WellFormed(st)
    ensures Extends(st, MarkPublished(st, row, job))
    ensures Extends(st, MarkPublishFailed(st, row))
  {
  }

  lemma RetryExtends(st: Store, id: nat)
    requires WellFormed(st)
    ensures Extends(st, Retry(st, id))
  {
  }

  /** A second request with the same tuple finds the one existing job: nothing is added. */
  lemma RecreationReturnsTheJob(st: Store, key: Key, m1: nat, m2: nat)
    requires UniqueKeys(st)
    ensures AddJob(AddJob(st, key, m1), key, m2) == AddJob(st, key, m1)
    ensures UniqueKeys(AddJob(st, key, m1))
    ensures exists i :: 0 <= i < |AddJob(st, key, m1).jobs| && AddJob(st, key, m1).jobs[i].key == key
  {
    var st' := AddJob(st, key, m1);
    if !HasKey(st, key) {
      assert st'.jobs[|st.jobs|].key == key;
    }
  }
}
