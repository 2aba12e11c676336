/** The publisher and the consumer as they run when nothing interrupts them. Each leaves the
    system in a state that the protocol reaches by its own steps. */
module IndexWorkers {
  import opened IndexContracts
  import opened IndexStore
  import opened IndexProtocol
  import opened IndexRuntime
  import A = IndexAttempts

  // ----- the publisher -----

  function RowsEvents(rows: seq<nat>, fate: nat -> Fate): seq<Event>
    decreases |rows|
  {
    if rows == [] then []
    else RowsEvents(rows[..|rows| - 1], fate) + RowEvents(rows[|rows| - 1], fate(rows[|rows| - 1]))
  }

  function CountMarked(rows: seq<nat>, fate: nat -> Fate): nat
    decreases |rows|
  {
    if rows == [] then 0
    else CountMarked(rows[..|rows| - 1], fate) + (if fate(rows[|rows| - 1]) == Marked then 1 else 0)
  }

  /** The same rows and jobs; a row is sent exactly when it was before or its marking
      committed. */
  predicate SentAfter(before: Store, st: Store, rows: seq<nat>, fate: nat -> Fate) {
    && |st.outbox| == |before.outbox| && |st.jobs| == |before.jobs|
    && (forall r :: 0 <= r < |st.outbox| ==> st.outbox[r].job == before.outbox[r].job)
    && (forall r :: 0 <= r < |st.outbox| ==>
          (st.outbox[r].sent <==> before.outbox[r].sent || (r in rows && Sends(fate(r)))))
  }

  lemma RowDoneSends(before: Store, p: Proto, rows: seq<nat>, row: nat, fate: nat -> Fate)
    requires SentAfter(before, p.store, rows, fate) && HasRow(p, row)
    ensures SentAfter(before, RowDone(p, row, fate(row)).store, rows + [row], fate)
  {
    var q := RowDone(p, row, fate(row)).store;
    assert |q.outbox| == |p.store.outbox|;
    assert forall r :: 0 <= r < |q.outbox| && r != row ==> q.outbox[r] == p.store.outbox[r];
    assert q.outbox[row].job == p.store.outbox[row].job;
    assert q.outbox[row].sent <==> p.store.outbox[row].sent || Sends(fate(row));
    hide RowDone;
  }

  predicate NoError(rows: seq<nat>, fate: nat -> Fate) {
    forall i :: 0 <= i < |rows| ==> !fate(rows[i]).RecordFails?
  }

  /** A poll raises at the last row it deals with, and nowhere before. */
  predicate EndsAtError(rows: seq<nat>, fate: nat -> Fate, raised: bool) {
    if raised then rows != [] && fate(rows[|rows| - 1]).RecordFails? && NoError(rows[..|rows| - 1], fate)
    else NoError(rows, fate)
  }

  lemma PrefixIsOldest(outbox: seq<Row>, pending: seq<nat>, k: nat)
    requires k <= |pending| && OldestUnsent(outbox, pending, |outbox|)
    ensures OldestUnsent(outbox, pending[..k], |outbox|)
  {
    var rows := pending[..k];
    forall i, u | 0 <= i < |rows| && 0 <= u < rows[i] && !outbox[u].sent ensures u in rows {
      assert u in pending;
      var j :| 0 <= j < |pending| && pending[j] == u;
      assert j < i;
      assert rows[j] == u;
    }
  }

  /** The poll so far: a run over the rows dealt with. */
  predicate Polled(begin: Proto, p: Proto, rows: seq<nat>, fate: nat -> Fate) {
    p == Run(begin, RowsEvents(rows, fate)) && SentAfter(begin.store, p.store, rows, fate)
  }

  lemma OneMoreRow(begin: Proto, p: Proto, pending: seq<nat>, i: nat, fate: nat -> Fate)
    requires i < |pending| && Polled(begin, p, pending[..i], fate) && WellFormed(begin.store)
    requires OldestUnsent(begin.store.outbox, pending, |begin.store.outbox|)
    ensures HasRow(p, pending[i]) && Polled(begin, RowDone(p, pending[i], fate(pending[i])), pending[..i + 1], fate)
    ensures CountMarked(pending[..i + 1], fate)
              == CountMarked(pending[..i], fate) + (if fate(pending[i]) == Marked then 1 else 0)
  {
    var row := pending[i];
    assert HasRow(p, row);
    assert pending[..i + 1] == pending[..i] + [row] && pending[..i + 1][..i] == pending[..i];
    RowDoneSends(begin.store, p, pending[..i], row, fate);
    RowEventsStep(p, row, fate(row));
    RunSplits(begin, RowsEvents(pending[..i], fate), RowEvents(row, fate(row)));
    hide Run, RowDone, SentAfter, RowEvents;
  }

  lemma NothingPolled(begin: Proto, fate: nat -> Fate)
    ensures Polled(begin, begin, [], fate)
  {
  }

  class OutboxPublisher {
    const repository: IndexRepository
    const broker: MessageBroker

    constructor (repository: IndexRepository, broker: MessageBroker)
      ensures this.repository == repository && this.broker == broker
    {
      this.repository, this.broker := repository, broker;
    }

    /** Publishes before it marks. Whatever raises is counted on the row and not published; an
        error while counting is passed on. */
    method PublishRow(row: nat, fate: Fate) returns (published: bool, raised: bool)
      requires HasRow(View(repository, broker), row)
      modifies repository, broker
      ensures View(repository, broker) == RowDone(old(View(repository, broker)), row, fate)
      ensures published <==> fate == Marked
      ensures raised <==> fate.RecordFails?
    {
      hide IndexStore.MarkPublished, IndexStore.MarkPublishFailed;
      var job := repository.outbox[row].job;
      if fate != Refused && fate != RecordFails(false) { broker.Publish(Message(job), Main); }
      if Sends(fate) || fate == MarkFails { broker.confirmed := broker.confirmed + {row}; }
      if Sends(fate) { repository.MarkPublished(row, job); }
      if fate == Marked { return true, false; }
      if fate == MarkFails {
        broker.confirmed := broker.confirmed - {row};
        assert broker.confirmed == old(broker.confirmed) - {row};
      }
      if fate.RecordFails? { return false, true; }
      repository.MarkPublishFailed(row);
      return false, false;
    }

    /** One poll: the oldest unsent rows, each with its own fate, up to the first whose error
        cannot be recorded. A row is sent afterwards exactly when it was before or its marking
        committed now. */
    method PublishOnce(limit: nat, fate: nat -> Fate) returns (published: nat, raised: bool, ghost rows: seq<nat>)
      requires WellFormed(repository.Rows())
      modifies repository, broker
      ensures OldestUnsent(old(repository.outbox), rows, |old(repository.outbox)|) && |rows| <= limit
      ensures !raised && |rows| < limit ==>
                forall r :: 0 <= r < |old(repository.outbox)| && !old(repository.outbox)[r].sent ==> r in rows
      ensures EndsAtError(rows, fate, raised)
      ensures View(repository, broker) == Run(old(View(repository, broker)), RowsEvents(rows, fate))
      ensures published == CountMarked(rows, fate)
      ensures SentAfter(old(repository.Rows()), repository.Rows(), rows, fate)
    {
      ghost var begin := View(repository, broker);
      hide WellFormed, OldestUnsent, SentAfter, Run;
      var pending := repository.PendingOutbox(limit);
      ghost var done;
      published, raised, done := PublishRows(pending, fate, begin);
      rows := pending[..done];
      PrefixIsOldest(begin.store.outbox, pending, done);
      assert pending[..|pending|] == pending;
    }

    /** The rows in turn, until one raises. */
    method PublishRows(pending: seq<nat>, fate: nat -> Fate, ghost begin: Proto)
      returns (published: nat, raised: bool, ghost done: nat)
      requires begin == View(repository, broker) && WellFormed(begin.store)
      requires OldestUnsent(begin.store.outbox, pending, |begin.store.outbox|)
      modifies repository, broker
      ensures done <= |pending| && (!raised ==> done == |pending|)
      ensures Polled(begin, View(repository, broker), pending[..done], fate)
      ensures published == CountMarked(pending[..done], fate) && EndsAtError(pending[..done], fate, raised)
    {
      hide WellFormed, RowDone, OldestUnsent, SentAfter, Run;
      NothingPolled(begin, fate);
      published, raised, done := 0, false, 0;
      for i := 0 to |pending|
        invariant done == i && Polled(begin, View(repository, broker), pending[..i], fate)
        invariant published == CountMarked(pending[..i], fate) && NoError(pending[..i], fate) && !raised
      {
        OneMoreRow(begin, View(repository, broker), pending, i, fate);
        var ok;
        ok, raised := PublishRow(pending[i], fate(pending[i]));
        if ok { published := published + 1; }
        done := i + 1;
        assert pending[..i + 1] == pending[..i] + [pending[i]];
        if raised { return; }
      }
    }
  }

  // ----- the consumer -----

  /** The failure branch also sees a success whose acknowledgement raised. */
  function Final(outcome: Outcome, ackRaises: bool): Outcome {
    if outcome.Ok? && ackRaises then Transient else outcome
  }

  /** A started job gets its result, and the message is acknowledged; after a failure a copy
      has been queued for a retry or as dead. */
  function Concluded(p: Proto, tag: nat, job: nat, final: Outcome, attempt: nat, limit: nat): Proto
    requires tag in p.deliveries
  {
    var (status, phase) := SettledAs(Done(final, attempt, limit));
    var q := Forget(p, tag).(store := IndexStore.Finish(p.store, job, status));
    if !phase.Republishing? then q
    else if phase.dead then q.(dead := p.dead + multiset{p.deliveries[tag].body})
    else q.(delayed := p.delayed + multiset{p.deliveries[tag].body})
  }

  /** The state after one uninterrupted call. */
  function Consumed(p: Proto, tag: nat, outcome: Outcome, ackRaises: bool): Proto
    requires tag in p.deliveries
  {
    var body := p.deliveries[tag].body;
    match body
    case Malformed => Forget(p, tag).(dead := p.dead + multiset{body})
    case Message(job) =>
      match StartOutcome(p.store, job)
      case NoJob => Forget(p, tag).(dead := p.dead + multiset{body})
      case AlreadySettled(_) => Forget(p, tag)
      case OverLimit => p
      case Started(attempt, limit) =>
        Concluded(p.(store := IndexStore.Start(p.store, job)), tag, job, Final(outcome, ackRaises), attempt, limit)
  }

  class IndexConsumer {
    const repository: IndexRepository
    const broker: MessageBroker

    constructor (repository: IndexRepository, broker: MessageBroker)
      ensures this.repository == repository && this.broker == broker
    {
      this.repository, this.broker := repository, broker;
    }

    method Consume(tag: nat, outcome: Outcome, ackRaises: bool)
      requires tag in broker.deliveries && broker.deliveries[tag].owned && broker.deliveries[tag].phase == Got
      modifies repository, broker
      ensures View(repository, broker) == Consumed(old(View(repository, broker)), tag, outcome, ackRaises)
    {
      hide IndexStore.Start, Concluded;
      var body := broker.deliveries[tag].body;
      if body.Malformed? {
        broker.Reject(tag);
        return;
      }
      var started := repository.Start(body.job);
      if !started.Started? { NothingStarts(old(repository.Rows()), body.job); }
      match started
      case NoJob =>
        broker.Publish(body, DeadRoute);
        broker.Ack(tag);
      case AlreadySettled(_) =>
        broker.Ack(tag);
      case OverLimit =>
      case Started(attempt, limit) =>
        Conclude(tag, body.job, attempt, limit, outcome, ackRaises);
    }

    /** From the handler's result on. The acknowledgement of a success is the only one whose
        exception reaches the failure branch. */
    method Conclude(tag: nat, job: nat, attempt: nat, limit: nat, outcome: Outcome, ackRaises: bool)
      requires tag in broker.deliveries && broker.deliveries[tag].owned && broker.deliveries[tag].body == Message(job)
      modifies repository, broker
      ensures View(repository, broker)
           == Concluded(old(View(repository, broker)), tag, job, Final(outcome, ackRaises), attempt, limit)
    {
      if outcome.Ok? && !ackRaises {
        repository.Finish(job, outcome.status);
        broker.Ack(tag);
      } else if outcome.StaleEvent? {
        repository.Finish(job, Stale);
        broker.Ack(tag);
      } else {
        if outcome.Ok? {
          repository.Finish(job, outcome.status);
          var status := if ShouldDeadLetter(attempt, limit, true) then Failed else Queued;
          FinishTwice(old(repository.Rows()), job, outcome.status, status);
        }
        var dead := ShouldDeadLetter(attempt, limit, !outcome.Permanent?);
        FailAndRepublish(tag, job, dead);
      }
    }

    method FailAndRepublish(tag: nat, job: nat, dead: bool)
      requires tag in broker.deliveries && broker.deliveries[tag].owned && broker.deliveries[tag].body == Message(job)
      modifies repository, broker
      ensures repository.Rows() == IndexStore.Fail(old(repository.Rows()), job, dead)
      ensures broker.deliveries == old(broker.deliveries) - {tag}
      ensures broker.waiting == old(broker.waiting) && broker.confirmed == old(broker.confirmed)
      ensures broker.dead == if dead then old(broker.dead) + multiset{Message(job)} else old(broker.dead)
      ensures broker.delayed == if dead then old(broker.delayed) else old(broker.delayed) + multiset{Message(job)}
    {
      repository.Fail(job, dead);
      broker.Publish(Message(job), if dead then DeadRoute else RetryRoute);
      broker.Ack(tag);
    }
  }

  lemma NothingStarts(st: Store, job: nat)
    requires !StartOutcome(st, job).Started?
    ensures IndexStore.Start(st, job) == st
  {
  }

  /** The message of an unsettled job with an attempt left is not consumed for nothing: the
      job is settled and no copy is queued, or it waits and exactly one copy is in the retry
      queue with an attempt still left, or it has failed and exactly one copy is dead. */
  lemma ConsumedForSomething(p: Proto, tag: nat, outcome: Outcome, ackRaises: bool)
    requires tag in p.deliveries && p.deliveries[tag].body.Message?
    requires StartOutcome(p.store, p.deliveries[tag].body.job).Started?
    requires outcome.Ok? ==> Successful(outcome.status)
    ensures var body, q := p.deliveries[tag].body, Consumed(p, tag, outcome, ackRaises);
            var job := body.job;
            var after := q.store.jobs[job];
            && q.deliveries == p.deliveries - {tag} && after.attempts == p.store.jobs[job].attempts + 1
            && (if Settled(after.status) then q.delayed == p.delayed && q.dead == p.dead
                else if after.status == Queued then
                  q.delayed == p.delayed + multiset{body} && q.dead == p.dead && after.attempts < after.maxAttempts
                else after.status == Failed && q.delayed == p.delayed && q.dead == p.dead + multiset{body})
            && (Settled(after.status) <==> (outcome.Ok? && !ackRaises) || outcome.StaleEvent?)
  {
  }

  /** For the job, the call is one pass over it. */
  lemma ConsumeIsAPass(p: Proto, tag: nat, outcome: Outcome, ackRaises: bool)
    requires tag in p.deliveries && p.deliveries[tag].body.Message?
    ensures Consumed(p, tag, outcome, ackRaises).store
              == A.Pass(p.store, p.deliveries[tag].body.job, Final(outcome, ackRaises))
  {
    hide IndexStore.Start, IndexStore.Finish;
  }

  // ----- the call is a run of the protocol -----

  function WorkerEvents(tag: nat, acts: seq<Act>): seq<Event>
    decreases |acts|
  {
    if acts == [] then [] else WorkerEvents(tag, acts[..|acts| - 1]) + [Worker(tag, acts[|acts| - 1])]
  }

  function ConsumeActs(p: Proto, tag: nat, outcome: Outcome, ackRaises: bool): seq<Act>
    requires tag in p.deliveries
  {
    match p.deliveries[tag].body
    case Malformed => [Begin]
    case Message(job) =>
      match StartOutcome(p.store, job)
      case NoJob => [Begin] + [Republish] + [Ack]
      case AlreadySettled(_) => [Begin] + [Ack]
      case OverLimit => [Begin]
      case Started(_, _) =>
        if outcome.Ok? && ackRaises then
          [Begin] + [Handled(outcome)] + [Settle] + [AckRaises] + [Settle] + [Republish] + [Ack]
        else if outcome.Ok? || outcome.StaleEvent? then [Begin] + [Handled(outcome)] + [Settle] + [Ack]
        else [Begin] + [Handled(outcome)] + [Settle] + [Republish] + [Ack]
  }

  /** One more act of the worker. */
  lemma Acted(p: Proto, tag: nat, acts: seq<Act>, act: Act)
    ensures Run(p, WorkerEvents(tag, acts + [act])) == Step(Run(p, WorkerEvents(tag, acts)), Worker(tag, act))
  {
    var es := WorkerEvents(tag, acts);
    assert (acts + [act])[..|acts|] == acts;
    assert (es + [Worker(tag, act)])[..|es|] == es;
  }

  /** The worker at `tag` in another phase, over another store. */
  function Placed(p: Proto, tag: nat, phase: Phase, st: Store): Proto
    requires tag in p.deliveries
  {
    SetPhase(p, tag, phase).(store := st)
  }

  lemma StepsOfAStartedCall(p: Proto, tag: nat, st: Store, o: Outcome, attempt: nat, limit: nat)
    requires tag in p.deliveries && p.deliveries[tag].owned && p.deliveries[tag].body.Message?
    requires o.Ok? ==> Successful(o.status)
    ensures var (status, phase) := SettledAs(Done(o, attempt, limit));
            var q := Placed(p, tag, Working(attempt, limit), st);
            Step(q, Worker(tag, Handled(o))) == Placed(p, tag, Done(o, attempt, limit), st)
            && Step(Placed(p, tag, Done(o, attempt, limit), st), Worker(tag, Settle))
               == Placed(p, tag, phase, IndexStore.Finish(st, p.deliveries[tag].body.job, status))
  {
    assert p.deliveries[tag := p.deliveries[tag].(phase := Working(attempt, limit))]
      [tag := p.deliveries[tag].(phase := Done(o, attempt, limit))]
      == p.deliveries[tag := p.deliveries[tag].(phase := Done(o, attempt, limit))];
    var (status, phase) := SettledAs(Done(o, attempt, limit));
    assert p.deliveries[tag := p.deliveries[tag].(phase := Done(o, attempt, limit))]
      [tag := p.deliveries[tag].(phase := phase)]
      == p.deliveries[tag := p.deliveries[tag].(phase := phase)];
  }

  /** What the first step makes of the message. */
  lemma BeginStepOf(p: Proto, tag: nat)
    requires tag in p.deliveries && p.deliveries[tag].phase == Got
    ensures Step(p, Worker(tag, Begin)) ==
              match p.deliveries[tag].body
              case Malformed => Forget(p, tag).(dead := p.dead + multiset{Malformed})
              case Message(job) =>
                match StartOutcome(p.store, job)
                case NoJob => Placed(p, tag, Republishing(true), p.store)
                case AlreadySettled(_) => Placed(p, tag, ACKING, p.store)
                case OverLimit => p
                case Started(a, l) => Placed(p, tag, Working(a, l), IndexStore.Start(p.store, job))
  {
    hide IndexStore.Start;
  }

  lemma PlacedAgain(p: Proto, tag: nat, phase: Phase, st: Store, phase': Phase, st': Store)
    requires tag in p.deliveries
    ensures Placed(Placed(p, tag, phase, st), tag, phase', st') == Placed(p, tag, phase', st')
    ensures Forget(Placed(p, tag, phase, st), tag) == Forget(p, tag).(store := st)
  {
    var d := p.deliveries;
    assert d[tag := d[tag].(phase := phase)][tag := d[tag].(phase := phase')] == d[tag := d[tag].(phase := phase')];
    assert d[tag := d[tag].(phase := phase)] - {tag} == d - {tag};
  }

  lemma AckSteps(p: Proto, tag: nat, st: Store, guarded: bool, a: nat, l: nat)
    requires tag in p.deliveries && p.deliveries[tag].owned
    ensures Step(Placed(p, tag, Acking(guarded, a, l), st), Worker(tag, Ack)) == Forget(p, tag).(store := st)
    ensures Step(Placed(p, tag, Acking(true, a, l), st), Worker(tag, AckRaises))
              == Placed(p, tag, Done(Transient, a, l), st)
  {
    PlacedAgain(p, tag, Acking(guarded, a, l), st, ACKING, st);
    PlacedAgain(p, tag, Acking(true, a, l), st, Done(Transient, a, l), st);
  }

  lemma RepublishSteps(p: Proto, tag: nat, st: Store, dead: bool)
    requires tag in p.deliveries && p.deliveries[tag].owned
    ensures Step(Step(Placed(p, tag, Republishing(dead), st), Worker(tag, Republish)), Worker(tag, Ack)) ==
              var b := multiset{p.deliveries[tag].body};
              if dead then Forget(p, tag).(store := st, dead := p.dead + b)
              else Forget(p, tag).(store := st, delayed := p.delayed + b)
  {
    var q := Placed(p, tag, Republishing(dead), st);
    PlacedAgain(p, tag, Republishing(dead), st, ACKING, st);
    var r := Step(q, Worker(tag, Republish));
    var b := multiset{p.deliveries[tag].body};
    assert r == if dead then Placed(p, tag, ACKING, st).(dead := p.dead + b)
        else Placed(p, tag, ACKING, st).(delayed := p.delayed + b);
    AckSteps(if dead then p.(dead := p.dead + b) else p.(delayed := p.delayed + b), tag, st, false, 0, 0);
  }

  lemma FirstAct(p: Proto, tag: nat)
    ensures Run(p, WorkerEvents(tag, [Begin])) == Step(p, Worker(tag, Begin))
  {
    Acted(p, tag, [], Begin);
    assert [] + [Begin] == [Begin];
  }

  predicate Fresh(p: Proto, tag: nat) {
    tag in p.deliveries && p.deliveries[tag].owned && p.deliveries[tag].phase == Got
  }

  predicate Unstartable(p: Proto, tag: nat)
    requires tag in p.deliveries
  {
    p.deliveries[tag].body.Malformed? || StartOutcome(p.store, p.deliveries[tag].body.job).OverLimit?
  }

  lemma OneStepCallIsARun(p: Proto, tag: nat, o: Outcome, ackRaises: bool)
    requires Fresh(p, tag) && Unstartable(p, tag)
    ensures Run(p, WorkerEvents(tag, ConsumeActs(p, tag, o, ackRaises))) == Consumed(p, tag, o, ackRaises)
  {
    FirstAct(p, tag);
    BeginStepOf(p, tag);
    hide Run, WorkerEvents, Step, IndexStore.Start, Concluded, Placed;
  }

  lemma ShortCallIsARun(p: Proto, tag: nat, o: Outcome, ackRaises: bool)
    requires Fresh(p, tag) && !Unstartable(p, tag) && !StartOutcome(p.store, p.deliveries[tag].body.job).Started?
    ensures Run(p, WorkerEvents(tag, ConsumeActs(p, tag, o, ackRaises))) == Consumed(p, tag, o, ackRaises)
  {
    FirstAct(p, tag);
    BeginStepOf(p, tag);
    hide Run, WorkerEvents, Step, Concluded, Placed, IndexStore.Start;
    if StartOutcome(p.store, p.deliveries[tag].body.job).NoJob? {
      Acted(p, tag, [Begin], Republish);
      Acted(p, tag, [Begin] + [Republish], Ack);
      RepublishSteps(p, tag, p.store, true);
    } else {
      Acted(p, tag, [Begin], Ack);
      AckSteps(p, tag, p.store, false, 0, 0);
    }
  }

  /** What the uninterrupted call does, the protocol does in the worker's own steps: all that
      holds over every run of the protocol holds across calls. */
  lemma ConsumeIsARun(p: Proto, tag: nat, outcome: Outcome, ackRaises: bool)
    requires Fresh(p, tag) && (outcome.Ok? ==> Successful(outcome.status))
    ensures Run(p, WorkerEvents(tag, ConsumeActs(p, tag, outcome, ackRaises))) == Consumed(p, tag, outcome, ackRaises)
  {
    hide Run, WorkerEvents, ConsumeActs, Consumed;
    if Unstartable(p, tag) {
      OneStepCallIsARun(p, tag, outcome, ackRaises);
    } else if !StartOutcome(p.store, p.deliveries[tag].body.job).Started? {
      ShortCallIsARun(p, tag, outcome, ackRaises);
    } else {
      var r := StartOutcome(p.store, p.deliveries[tag].body.job);
      FirstAct(p, tag);
      BeginStepOf(p, tag);
      hide Step, Placed, IndexStore.Start;
      var st := IndexStore.Start(p.store, p.deliveries[tag].body.job);
      StartedCallIsARun(p, tag, outcome, ackRaises, st, r.attempts, r.maxAttempts);
    }
  }

  lemma StartedCallIsARun(p: Proto, tag: nat, o: Outcome, ackRaises: bool, st: Store, a: nat, l: nat)
    requires tag in p.deliveries && p.deliveries[tag].owned && p.deliveries[tag].body.Message?
    requires o.Ok? ==> Successful(o.status)
    requires StartOutcome(p.store, p.deliveries[tag].body.job) == Started(a, l)
    requires st == IndexStore.Start(p.store, p.deliveries[tag].body.job)
    requires Run(p, WorkerEvents(tag, [Begin])) == Placed(p, tag, Working(a, l), st)
    ensures Run(p, WorkerEvents(tag, ConsumeActs(p, tag, o, ackRaises))) == Consumed(p, tag, o, ackRaises)
  {
    hide Run, WorkerEvents, Step, Placed, IndexStore.Start;
    var job := p.deliveries[tag].body.job;
    var (status, phase) := SettledAs(Done(o, a, l));
    var settled := IndexStore.Finish(st, job, status);
    var three := [Begin] + [Handled(o)] + [Settle];
    Acted(p, tag, [Begin], Handled(o));
    Acted(p, tag, [Begin] + [Handled(o)], Settle);
    StepsOfAStartedCall(p, tag, st, o, a, l);
    assert Run(p, WorkerEvents(tag, three)) == Placed(p, tag, phase, settled);
    if o.Ok? && ackRaises {
      var (status', phase') := SettledAs(Done(Transient, a, l));
      Acted(p, tag, three, AckRaises);
      AckSteps(p, tag, settled, true, a, l);
      StepsOfAStartedCall(p, tag, settled, Transient, a, l);
      var five := three + [AckRaises] + [Settle];
      Acted(p, tag, three + [AckRaises], Settle);
      Acted(p, tag, five, Republish);
      Acted(p, tag, five + [Republish], Ack);
      FinishTwice(st, job, status, status');
      RepublishSteps(p, tag, IndexStore.Finish(settled, job, status'), phase'.dead);
    } else if o.Ok? || o.StaleEvent? {
      Acted(p, tag, three, Ack);
      AckSteps(p, tag, settled, o.Ok?, if o.Ok? then a else 0, if o.Ok? then l else 0);
    } else {
      Acted(p, tag, three, Republish);
      Acted(p, tag, three + [Republish], Ack);
      RepublishSteps(p, tag, settled, phase.dead);
    }
  }

  lemma FinishTwice(st: Store, job: nat, s: JobStatus, t: JobStatus)
    ensures IndexStore.Finish(IndexStore.Finish(st, job, s), job, t) == IndexStore.Finish(st, job, t)
  {
    if job < |st.jobs| {
      assert st.jobs[job := st.jobs[job].(status := s)][job := st.jobs[job].(status := t)]
          == st.jobs[job := st.jobs[job].(status := t)];
    }
  }
}
