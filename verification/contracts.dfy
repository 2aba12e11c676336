/** The vocabulary of asynchronous indexing: job states, the idempotency tuple and the
    dead-letter rule. */
module IndexContracts {

  datatype JobStatus =
    | Pending | Queued | Running
    | Indexed | Degraded | Failed | Tombstoned | Stale

  /** The statuses on which `start` returns the stored record unchanged. */
  predicate Settled(status: JobStatus) {
    status in {Indexed, Degraded, Tombstoned, Stale}
  }

  /** Nothing more is owed to such a job; a failed job waits for an operator. */
  predicate Terminal(status: JobStatus) {
    Settled(status) || status == Failed
  }

  datatype Operation = Upsert | Reindex | Tombstone | GraphProject

  /** What an event is about: its entity type and its entity id. */
  datatype Entity =
    | Document(id: nat)
    | Ticket(id: nat)
    | CaseEntity(id: nat)
    | TemplateGraph(id: nat)

  /** The idempotency tuple. */
  datatype Key = Key(entity: Entity, version: nat, operation: Operation)

  const MIN_ATTEMPTS := 1
  const MAX_ATTEMPTS := 20

  predicate ShouldDeadLetter(attempts: nat, maxAttempts: nat, retryable: bool) {
    !retryable || attempts >= maxAttempts
  }
}
