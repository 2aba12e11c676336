/** The running parts: the repository with its two tables, the broker's queues, and the
    deliveries the broker waits for. Every method is one protocol step or none. */
module IndexRuntime {
  import opened IndexContracts
  import opened IndexStore
  import opened IndexProtocol

  /** Unsent rows below `r` in order, none of them passed over for a later one. */
  predicate OldestUnsent(outbox: seq<Row>, rows: seq<nat>, r: nat)
    requires r <= |outbox|
  {
    && (forall i :: 0 <= i < |rows| ==> rows[i] < r && !outbox[rows[i]].sent)
    && (forall i, j :: 0 <= i < j < |rows| ==> rows[i] < rows[j])
    && (forall i, u :: 0 <= i < |rows| && 0 <= u < rows[i] && !outbox[u].sent ==> u in rows)
  }

  class IndexRepository {
    var jobs: seq<Job>
    var outbox: seq<Row>

    function Rows(): Store
      reads this
    {
      Store(jobs, outbox)
    }

    constructor ()
      ensures Rows() == EMPTY
    {
      jobs, outbox := [], [];
    }

    method AddJob(key: Key, maxAttempts: nat) returns (id: nat)
      modifies this
      ensures Rows() == IndexStore.AddJob(old(Rows()), key, maxAttempts)
      ensures id < |jobs| && jobs[id].key == key
    {
      for i := 0 to |jobs|
        invariant forall k :: 0 <= k < i ==> jobs[k].key != key
      {
        if jobs[i].key == key { return i; }
      }
      id := |jobs|;
      jobs := jobs + [Job(key, Pending, 0, maxAttempts)];
      outbox := outbox + [Row(id, false, 0)];
    }

    /** The first unsent rows, oldest first. */
    method PendingOutbox(limit: nat) returns (rows: seq<nat>)
      ensures |rows| <= limit && OldestUnsent(outbox, rows, |outbox|)
      ensures |rows| < limit ==> forall r :: 0 <= r < |outbox| && !outbox[r].sent ==> r in rows
    {
      rows := [];
      var r := 0;
      while r < |outbox| && |rows| < limit
        invariant r <= |outbox| && |rows| <= limit && OldestUnsent(outbox, rows, r)
        invariant forall u :: 0 <= u < r && !outbox[u].sent ==> u in rows
      {
        if !outbox[r].sent { rows := rows + [r]; }
        r := r + 1;
      }
    }

    method MarkPublished(row: nat, job: nat)
      modifies this
      ensures Rows() == IndexStore.MarkPublished(old(Rows()), row, job)
    {
      if row < |outbox| && !outbox[row].sent {
        outbox := outbox[row := outbox[row].(sent := true, tries := outbox[row].tries + 1)];
      }
      if job < |jobs| && jobs[job].status == Pending {
        jobs := jobs[job := jobs[job].(status := Queued)];
      }
    }

    method MarkPublishFailed(row: nat)
      modifies this
      ensures Rows() == IndexStore.MarkPublishFailed(old(Rows()), row)
    {
      if row < |outbox| {
        outbox := outbox[row := outbox[row].(tries := outbox[row].tries + 1)];
      }
    }

    /** The record is validated before the transaction commits: an attempt beyond the limit
        raises, and the change is rolled back. */
    method Start(id: nat) returns (r: StartResult)
      modifies this
      ensures r == StartOutcome(old(Rows()), id) && Rows() == IndexStore.Start(old(Rows()), id)
    {
      if id >= |jobs| { return NoJob; }
      if Settled(jobs[id].status) { return AlreadySettled(jobs[id].status); }
      var before := jobs;
      jobs := jobs[id := jobs[id].(status := Running, attempts := jobs[id].attempts + 1)];
      if jobs[id].attempts > jobs[id].maxAttempts {
        jobs := before;
        return OverLimit;
      }
      return Started(jobs[id].attempts, jobs[id].maxAttempts);
    }

    method Finish(id: nat, status: JobStatus)
      modifies this
      ensures Rows() == IndexStore.Finish(old(Rows()), id, status)
    {
      if id < |jobs| { jobs := jobs[id := jobs[id].(status := status)]; }
    }

    method Fail(id: nat, dead: bool)
      modifies this
      ensures Rows() == IndexStore.Fail(old(Rows()), id, dead)
    {
      if id < |jobs| { jobs := jobs[id := jobs[id].(status := if dead then Failed else Queued)]; }
    }

    method Retry(id: nat) returns (reopened: bool)
      modifies this
      ensures Rows() == IndexStore.Retry(old(Rows()), id)
      ensures reopened <==> id < |old(jobs)| && old(jobs)[id].status == Failed
    {
      if id >= |jobs| || jobs[id].status != Failed { return false; }
      outbox := outbox + [Row(id, false, 0)];
      jobs := jobs[id := jobs[id].(status := Pending, attempts := 0)];
      return true;
    }
  }

  datatype Route = Main | RetryRoute | DeadRoute

  /** The queues, the unacknowledged deliveries with the place their worker has reached, and
      the publishes the publisher has seen confirmed. */
  class MessageBroker {
    var waiting: multiset<Body>
    var delayed: multiset<Body>
    var dead: multiset<Body>
    var deliveries: map<nat, Delivery>
    var confirmed: set<nat>

    constructor ()
      ensures waiting == delayed == dead == multiset{} && deliveries == map[] && confirmed == {}
    {
      waiting, delayed, dead, deliveries, confirmed := multiset{}, multiset{}, multiset{}, map[], {};
    }

    method Publish(body: Body, route: Route)
      modifies this
      ensures deliveries == old(deliveries) && confirmed == old(confirmed)
      ensures waiting == if route == Main then old(waiting) + multiset{body} else old(waiting)
      ensures delayed == if route == RetryRoute then old(delayed) + multiset{body} else old(delayed)
      ensures dead == if route == DeadRoute then old(dead) + multiset{body} else old(dead)
    {
      match route
      case Main => waiting := waiting + multiset{body};
      case RetryRoute => delayed := delayed + multiset{body};
      case DeadRoute => dead := dead + multiset{body};
    }

    method Ack(tag: nat)
      requires tag in deliveries && deliveries[tag].owned
      modifies this`deliveries
      ensures deliveries == old(deliveries) - {tag}
    {
      deliveries := deliveries - {tag};
    }

    /** A rejected message is dead-lettered. */
    method Reject(tag: nat)
      requires tag in deliveries && deliveries[tag].owned
      modifies this`deliveries, this`dead
      ensures deliveries == old(deliveries) - {tag} && dead == old(dead) + multiset{old(deliveries)[tag].body}
    {
      dead := dead + multiset{deliveries[tag].body};
      deliveries := deliveries - {tag};
    }
  }

  /** The protocol state that a repository and a broker are in. */
  function View(repository: IndexRepository, broker: MessageBroker): Proto
    reads repository, broker
  {
    Proto(repository.Rows(), broker.confirmed, broker.waiting, broker.delayed, broker.dead, broker.deliveries)
  }

  // ----- the publisher -----

  /** How the publish of one row goes: marked; refused by the broker; accepted although the
      publisher sees an error; accepted, with the marking failing afterwards; or marked, with
      an error after the marking has committed. Each error is recorded on the row, unless
      recording it fails as well, which ends the poll. */
  datatype Fate =
    | Marked
    | Refused
    | Unconfirmed
    | MarkFails
    | MarkedThenRaises
    | RecordFails(accepted: bool)

  /** The row is sent afterwards. */
  predicate Sends(fate: Fate) {
    fate.Marked? || fate.MarkedThenRaises?
  }

  function RowEvents(row: nat, fate: Fate): seq<Event> {
    match fate
    case Marked => [Publish(row), Mark(row)]
    case Refused => [PublishFailed(row)]
    case Unconfirmed => [PublishUnconfirmed(row), PublishFailed(row)]
    case MarkFails => [Publish(row), PublisherDies(row), PublishFailed(row)]
    case MarkedThenRaises => [Publish(row), Mark(row), PublishFailed(row)]
    case RecordFails(accepted) => if accepted then [PublishUnconfirmed(row)] else []
  }

  lemma RunTwo(p: Proto, e: Event, f: Event)
    ensures Run(p, [e, f]) == Step(Step(p, e), f)
  {
    assert [e, f][..1] == [e];
    RunOne(p, e);
  }

  lemma RunThree(p: Proto, e: Event, f: Event, g: Event)
    ensures Run(p, [e, f, g]) == Step(Step(Step(p, e), f), g)
  {
    assert [e, f, g][..2] == [e, f];
    RunTwo(p, e, f);
  }

  function Sending(p: Proto, row: nat): multiset<Body>
    requires row < |p.store.outbox|
  {
    p.waiting + multiset{Message(p.store.outbox[row].job)}
  }

  /** The state after one row has been dealt with. */
  function RowDone(p: Proto, row: nat, fate: Fate): Proto
    requires HasRow(p, row)
  {
    var marked := IndexStore.MarkPublished(p.store, row, p.store.outbox[row].job);
    var counted := IndexStore.MarkPublishFailed(p.store, row);
    match fate
    case Marked => p.(store := marked, confirmed := p.confirmed + {row}, waiting := Sending(p, row))
    case Refused => p.(store := counted)
    case Unconfirmed => p.(store := counted, waiting := Sending(p, row))
    case MarkFails => p.(store := counted, confirmed := p.confirmed - {row}, waiting := Sending(p, row))
    case MarkedThenRaises =>
      p.(store := IndexStore.MarkPublishFailed(marked, row),
         confirmed := p.confirmed + {row}, waiting := Sending(p, row))
    case RecordFails(accepted) => if accepted then p.(waiting := Sending(p, row)) else p
  }

  predicate HasRow(p: Proto, row: nat) {
    row < |p.store.outbox| && p.store.outbox[row].job < |p.store.jobs|
  }

  lemma PublishStep(p: Proto, row: nat)
    requires HasRow(p, row)
    ensures Step(p, Publish(row)) == p.(confirmed := p.confirmed + {row}, waiting := Sending(p, row))
    ensures Step(p, PublishUnconfirmed(row)) == p.(waiting := Sending(p, row))
  {
  }

  lemma MarkStep(p: Proto, row: nat)
    requires HasRow(p, row)
    ensures row in p.confirmed ==>
              Step(p, Mark(row)) == p.(store := IndexStore.MarkPublished(p.store, row, p.store.outbox[row].job))
    ensures Step(p, PublishFailed(row)) == p.(store := IndexStore.MarkPublishFailed(p.store, row))
    ensures Step(p, PublisherDies(row)) == p.(confirmed := p.confirmed - {row})
  {
  }

  lemma MarkingKeepsRows(st: Store, row: nat, job: nat)
    requires row < |st.outbox| && st.outbox[row].job < |st.jobs|
    ensures var st' := IndexStore.MarkPublished(st, row, job);
            row < |st'.outbox| && st'.outbox[row].job < |st'.jobs|
  {
  }

  lemma RowEventsStep(p: Proto, row: nat, fate: Fate)
    requires HasRow(p, row)
    ensures Run(p, RowEvents(row, fate)) == RowDone(p, row, fate)
  {
    hide Run, Step, IndexStore.MarkPublished, IndexStore.MarkPublishFailed;
    PublishStep(p, row);
    MarkStep(p, row);
    var q := p.(confirmed := p.confirmed + {row}, waiting := Sending(p, row));
    match fate
    case Marked =>
      RunTwo(p, Publish(row), Mark(row));
      MarkStep(q, row);
    case Refused =>
      RunOne(p, PublishFailed(row));
    case Unconfirmed =>
      RunTwo(p, PublishUnconfirmed(row), PublishFailed(row));
      MarkStep(p.(waiting := Sending(p, row)), row);
    case MarkFails =>
      RunThree(p, Publish(row), PublisherDies(row), PublishFailed(row));
      MarkStep(q, row);
      assert p.confirmed + {row} - {row} == p.confirmed - {row};
      MarkStep(q.(confirmed := p.confirmed - {row}), row);
    case MarkedThenRaises =>
      RunThree(p, Publish(row), Mark(row), PublishFailed(row));
      MarkStep(q, row);
      MarkingKeepsRows(p.store, row, p.store.outbox[row].job);
      MarkStep(q.(store := IndexStore.MarkPublished(p.store, row, p.store.outbox[row].job)), row);
    case RecordFails(accepted) =>
      if accepted { RunOne(p, PublishUnconfirmed(row)); } else { RunNothing(p); }
  }

  lemma RunNothing(p: Proto)
    ensures Run(p, []) == p
  {
  }
}
