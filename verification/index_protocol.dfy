/** Jobs, outbox, broker and workers as one transition system.

    A step is one committed transaction, one broker action or one loss of a process. The
    event label carries every choice, so `Step` is a function; an event whose guard is
    false changes nothing. `Run` folds it over any sequence of events. */
module IndexProtocol {
  import opened IndexContracts
  import opened IndexStore

  /** A message body names a job, or cannot be parsed. */
  datatype Body = Message(job: nat) | Malformed

  /** How a handler call ended. */
  datatype Outcome = Ok(status: JobStatus) | StaleEvent | Permanent | Transient

  /** Only these come from a handler that succeeded. */
  predicate Successful(status: JobStatus) {
    status in {Indexed, Degraded, Tombstoned}
  }

  /** Where the worker is with a delivered message. An acknowledgement is guarded when an
      exception it raises still reaches the failure branch. */
  datatype Phase =
    | Got
    | Working(attempt: nat, limit: nat)
    | Done(outcome: Outcome, attempt: nat, limit: nat)
    | Republishing(dead: bool)
    | Acking(guarded: bool, attempt: nat, limit: nat)

  const ACKING := Acking(false, 0, 0)

  /** `owned` is false once the broker has taken the message back while the worker that
      received it still runs. */
  datatype Delivery = Delivery(body: Body, phase: Phase, owned: bool)

  datatype Proto = Proto(
    store: Store,
    confirmed: set<nat>,              // outbox rows whose publish was confirmed, perhaps not yet marked
    waiting: multiset<Body>,          // main queue
    delayed: multiset<Body>,          // retry queue
    dead: multiset<Body>,
    deliveries: map<nat, Delivery>)

  const INITIAL := Proto(EMPTY, {}, multiset{}, multiset{}, multiset{}, map[])

  datatype Event =
    | Create(key: Key, maxAttempts: nat)
    | OperatorRetry(job: nat)
    | Mark(row: nat)
    | PublishFailed(row: nat)
    | Publish(row: nat)               // the broker confirmed the publish
    | PublishUnconfirmed(row: nat)    // the message arrived but the confirmation was lost
    | PublisherDies(row: nat)         // the confirmation is forgotten before it is marked
    | Deliver(tag: nat, body: Body)
    | RetryExpires(body: Body)
    | Foreign(body: Body)             // something else put a message on the main queue
    | Worker(tag: nat, act: Act)

  datatype Act =
    | Begin
    | Handled(outcome: Outcome)
    | Settle
    | Republish
    | Ack
    | AckRaises
    | WorkerDies                      // the broker redelivers an unacknowledged message
    | ChannelLost                     // the broker redelivers, the worker carries on
    | StrayDies                       // a worker that lost its delivery stops

  // ----- steps of a worker -----

  function SetPhase(p: Proto, tag: nat, phase: Phase): Proto
    requires tag in p.deliveries
  {
    p.(deliveries := p.deliveries[tag := p.deliveries[tag].(phase := phase)])
  }

  function Forget(p: Proto, tag: nat): Proto {
    p.(deliveries := p.deliveries - {tag})
  }

  /** Malformed bodies are rejected to the dead queue; a start without a job publishes to
      the dead queue first; a settled job is acknowledged; an over-limit start rolls back. */
  function BeginStep(p: Proto, tag: nat): Proto
    requires tag in p.deliveries && p.deliveries[tag].phase == Got
  {
    match p.deliveries[tag].body
    case Malformed => Forget(p, tag).(dead := p.dead + multiset{Malformed})
    case Message(job) =>
      match StartOutcome(p.store, job)
      case NoJob => SetPhase(p, tag, Republishing(true))
      case AlreadySettled(_) => SetPhase(p, tag, ACKING)
      case OverLimit => p
      case Started(attempt, limit) => SetPhase(p, tag, Working(attempt, limit)).(store := Start(p.store, job))
  }

  function DeadLetters(phase: Phase): bool
    requires phase.Done?
  {
    ShouldDeadLetter(phase.attempt, phase.limit, !phase.outcome.Permanent?)
  }

  /** The job status and the worker's phase after finish or fail. */
  function SettledAs(phase: Phase): (JobStatus, Phase)
    requires phase.Done?
  {
    match phase.outcome
    case Ok(status) => (status, Acking(true, phase.attempt, phase.limit))
    case StaleEvent => (Stale, ACKING)
    case _ => (if DeadLetters(phase) then Failed else Queued, Republishing(DeadLetters(phase)))
  }

  function SettleStep(p: Proto, tag: nat): Proto
    requires tag in p.deliveries && p.deliveries[tag].phase.Done? && p.deliveries[tag].body.Message?
  {
    var (status, phase) := SettledAs(p.deliveries[tag].phase);
    SetPhase(p, tag, phase).(store := Finish(p.store, p.deliveries[tag].body.job, status))
  }

  function RepublishStep(p: Proto, tag: nat): Proto
    requires tag in p.deliveries && p.deliveries[tag].phase.Republishing?
  {
    var d := p.deliveries[tag];
    if d.phase.dead then SetPhase(p, tag, ACKING).(dead := p.dead + multiset{d.body})
    else SetPhase(p, tag, ACKING).(delayed := p.delayed + multiset{d.body})
  }

  predicate CanAct(d: Delivery, act: Act) {
    match act
    case Begin => d.phase == Got
    case Handled(o) => d.phase.Working? && (o.Ok? ==> Successful(o.status))
    case Settle => d.phase.Done? && d.body.Message?
    case Republish => d.phase.Republishing?
    case Ack => d.phase.Acking? && d.owned
    case AckRaises => d.phase.Acking? && d.phase.guarded
    case WorkerDies => d.owned
    case ChannelLost => d.owned
    case StrayDies => !d.owned
  }

  function WorkerStep(p: Proto, tag: nat, act: Act): Proto
    requires tag in p.deliveries && CanAct(p.deliveries[tag], act)
  {
    var d := p.deliveries[tag];
    match act
    case Begin => BeginStep(p, tag)
    case Handled(o) => SetPhase(p, tag, Done(o, d.phase.attempt, d.phase.limit))
    case Settle => SettleStep(p, tag)
    case Republish => RepublishStep(p, tag)
    case Ack => Forget(p, tag)
    case AckRaises => SetPhase(p, tag, Done(Transient, d.phase.attempt, d.phase.limit))
    case WorkerDies => Forget(p, tag).(waiting := p.waiting + multiset{d.body})
    case ChannelLost =>
      p.(deliveries := p.deliveries[tag := d.(owned := false)], waiting := p.waiting + multiset{d.body})
    case StrayDies => Forget(p, tag)
  }

  // ----- steps of the system -----

  predicate Enabled(p: Proto, e: Event) {
    match e
    case Create(_, m) => MIN_ATTEMPTS <= m <= MAX_ATTEMPTS
    case OperatorRetry(_) => true
    case Mark(r) => r in p.confirmed && r < |p.store.outbox| && p.store.outbox[r].job < |p.store.jobs|
    case PublishFailed(r) => r < |p.store.outbox|
    case Publish(r) => r < |p.store.outbox|
    case PublishUnconfirmed(r) => r < |p.store.outbox|
    case PublisherDies(_) => true
    case Deliver(t, b) => b in p.waiting && t !in p.deliveries
    case RetryExpires(b) => b in p.delayed
    case Foreign(_) => true
    case Worker(t, act) => t in p.deliveries && CanAct(p.deliveries[t], act)
  }

  function Step(p: Proto, e: Event): Proto {
    if !Enabled(p, e) then p
    else match e
      case Create(key, m) => p.(store := AddJob(p.store, key, m))
      case OperatorRetry(j) => p.(store := Retry(p.store, j))
      case Mark(r) => p.(store := MarkPublished(p.store, r, p.store.outbox[r].job))
      case PublishFailed(r) => p.(store := MarkPublishFailed(p.store, r))
      case Publish(r) =>
        p.(confirmed := p.confirmed + {r}, waiting := p.waiting + multiset{Message(p.store.outbox[r].job)})
      case PublishUnconfirmed(r) => p.(waiting := p.waiting + multiset{Message(p.store.outbox[r].job)})
      case PublisherDies(r) => p.(confirmed := p.confirmed - {r})
      case Deliver(t, b) =>
        p.(waiting := p.waiting - multiset{b}, deliveries := p.deliveries[t := Delivery(b, Got, true)])
      case RetryExpires(b) => p.(delayed := p.delayed - multiset{b}, waiting := p.waiting + multiset{b})
      case Foreign(b) => p.(waiting := p.waiting + multiset{b})
      case Worker(t, act) => WorkerStep(p, t, act)
  }

  function Run(p: Proto, es: seq<Event>): Proto
    decreases |es|
  {
    if es == [] then p else Step(Run(p, es[..|es| - 1]), es[|es| - 1])
  }

  /** Running a concatenation is running one part after the other. */
  lemma {:induction false} RunSplits(p: Proto, es: seq<Event>, fs: seq<Event>)
    ensures Run(p, es + fs) == Run(Run(p, es), fs)
    decreases |fs|
  {
    if fs == [] {
      assert es + fs == es;
    } else {
      var last := |fs| - 1;
      assert (es + fs)[..|es + fs| - 1] == es + fs[..last];
      RunSplits(p, es, fs[..last]);
    }
  }

  lemma RunOne(p: Proto, e: Event)
    ensures Run(p, [e]) == Step(p, e)
  {
    assert [e][..0] == [];
  }

  lemma Extend(es: seq<Event>, p: Proto, e: Event, q: Proto)
    requires Run(INITIAL, es) == p && Step(p, e) == q
    ensures Run(INITIAL, es + [e]) == q
  {
    assert (es + [e])[..|es|] == es;
  }

  // ----- what every step keeps -----

  predicate IsActive(phase: Phase) {
    phase.Working? || phase.Done?
  }

  predicate SaneDelivery(d: Delivery, jobs: nat) {
    var named := d.body.Message? && d.body.job < jobs;
    match d.phase
    case Got => true
    case Working(_, _) => named
    case Done(o, _, _) => named && (o.Ok? ==> Successful(o.status))
    case Republishing(dead) => dead || named
    case Acking(guarded, _, _) => guarded ==> named
  }

  predicate Sound(p: Proto) {
    && WellFormed(p.store)
    && (forall r :: r in p.confirmed ==> r < |p.store.outbox|)
    && (forall t :: t in p.deliveries ==> SaneDelivery(p.deliveries[t], |p.store.jobs|))
  }

  lemma StoreStep(p: Proto, e: Event)
    requires WellFormed(p.store)
    ensures Extends(p.store, Step(p, e).store)
  {
    if Enabled(p, e) {
      match e
      case Create(key, m) => AddJobExtends(p.store, key, m);
      case Mark(r) => MarkExtends(p.store, r, p.store.outbox[r].job);
      case PublishFailed(r) => MarkExtends(p.store, r, 0);
      case OperatorRetry(j) => RetryExtends(p.store, j);
      case Worker(t, Begin) =>
        if p.deliveries[t].body.Message? { StartExtends(p.store, p.deliveries[t].body.job); }
      case Worker(t, Settle) => FinishExtends(p.store, p.deliveries[t].body.job, SettledAs(p.deliveries[t].phase).0);
      case _ =>
    }
  }

  predicate Touches(e: Event, t: nat) {
    (e.Worker? || e.Deliver?) && e.tag == t
  }

  /** A step concerns at most the delivery it names. */
  lemma OthersUntouched(p: Proto, e: Event, t: nat)
    requires !Touches(e, t)
    ensures t in Step(p, e).deliveries <==> t in p.deliveries
    ensures t in p.deliveries ==> Step(p, e).deliveries[t] == p.deliveries[t]
  {
    if e.Worker? && Enabled(p, e) {
      match e.act
      case Begin =>
      case _ =>
    }
  }

  lemma DeliveryStep(p: Proto, e: Event, t: nat)
    requires Sound(p) && t in Step(p, e).deliveries
    ensures SaneDelivery(Step(p, e).deliveries[t], |Step(p, e).store.jobs|)
  {
    StoreStep(p, e);
    if !Touches(e, t) {
      OthersUntouched(p, e, t);
    } else if e.Worker? && Enabled(p, e) {
      match e.act
      case Begin =>
      case Settle =>
      case _ =>
    }
  }

  lemma SoundStep(p: Proto, e: Event)
    requires Sound(p)
    ensures Sound(Step(p, e))
  {
    StoreStep(p, e);
    forall t | t in Step(p, e).deliveries ensures SaneDelivery(Step(p, e).deliveries[t], |Step(p, e).store.jobs|) {
      DeliveryStep(p, e, t);
    }
  }

  lemma {:induction false} SoundRun(p: Proto, es: seq<Event>)
    requires Sound(p)
    ensures Sound(Run(p, es))
    decreases |es|
  {
    if es != [] {
      SoundRun(p, es[..|es| - 1]);
      SoundStep(Run(p, es[..|es| - 1]), es[|es| - 1]);
    }
  }
}
