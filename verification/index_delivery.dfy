/** No job is lost: whatever the interleaving, a job that is neither settled nor failed is
    still carried by an unsent outbox row, a queued message or a worker. */
module IndexDelivery {
  import opened IndexContracts
  import opened IndexStore
  import opened IndexProtocol

  datatype Carrier = InOutbox(row: nat) | InMain | InRetry | WithWorker(tag: nat)

  /** The worker still owes the job a start, a result or a republish. */
  predicate IsLive(phase: Phase) {
    phase.Got? || IsActive(phase) || phase == Republishing(false)
  }

  /** An unsent row counts only while its publish is not in flight: once the broker has
      confirmed it, the message is what carries the job. */
  predicate Carries(p: Proto, job: nat, c: Carrier) {
    match c
    case InOutbox(r) =>
      r < |p.store.outbox| && p.store.outbox[r].job == job && !p.store.outbox[r].sent && r !in p.confirmed
    case InMain => Message(job) in p.waiting
    case InRetry => Message(job) in p.delayed
    case WithWorker(t) => t in p.deliveries && p.deliveries[t].body == Message(job) && IsLive(p.deliveries[t].phase)
  }

  predicate Owed(p: Proto, job: nat) {
    job < |p.store.jobs| && !Terminal(p.store.jobs[job].status)
  }

  ghost predicate HasCarrier(p: Proto, job: nat) {
    exists c :: Carries(p, job, c)
  }

  ghost predicate NothingLost(p: Proto) {
    forall job: nat :: Owed(p, job) ==> HasCarrier(p, job)
  }

  /** The one way to lose a job: a worker whose delivery was taken back stops while it alone
      carries an unsettled job. */
  ghost predicate Strands(p: Proto, e: Event) {
    && e.Worker? && e.act.StrayDies?
    && Enabled(p, e)
    && p.deliveries[e.tag].body.Message?
    && Owed(p, p.deliveries[e.tag].body.job)
    && forall c :: Carries(p, p.deliveries[e.tag].body.job, c) ==> c == WithWorker(e.tag)
  }

  /** The carrier of a job after a step, given the one it had before. */
  function CarrierAfter(p: Proto, e: Event, job: nat, c: Carrier): Carrier {
    match e
    case Create(_, _) => if job >= |p.store.jobs| then InOutbox(|p.store.outbox|) else c
    case OperatorRetry(j) =>
      if j == job && job < |p.store.jobs| && p.store.jobs[j].status == Failed then InOutbox(|p.store.outbox|) else c
    case Publish(r) => if c == InOutbox(r) then InMain else c
    case Deliver(t, b) => if c == InMain && b == Message(job) && t !in p.deliveries then WithWorker(t) else c
    case RetryExpires(b) => if c == InRetry && b == Message(job) then InMain else c
    case Worker(t, act) =>
      if !Enabled(p, e) || p.deliveries[t].body != Message(job) then c
      else if act.Begin? || act.Settle? then WithWorker(t)
      else if act.Republish? && c == WithWorker(t) then InRetry
      else if act.WorkerDies? && c == WithWorker(t) then InMain
      else c
    case _ => c
  }

  predicate Carried(p: Proto, job: nat, c: Carrier) {
    Owed(p, job) ==> Carries(p, job, c)
  }

  lemma CarriedByTransaction(p: Proto, e: Event, job: nat, c: Carrier)
    requires e.Create? || e.OperatorRetry? || e.Mark? || e.PublishFailed?
    requires forall r :: r in p.confirmed ==> r < |p.store.outbox|
    requires Carried(p, job, c)
    ensures Carried(Step(p, e), job, CarrierAfter(p, e, job, c))
  {
  }

  lemma CarriedOnDelivery(p: Proto, t: nat, b: Body, job: nat, c: Carrier)
    requires Enabled(p, Deliver(t, b)) && Carried(p, job, c)
    ensures Carried(Step(p, Deliver(t, b)), job, CarrierAfter(p, Deliver(t, b), job, c))
  {
    hide WorkerStep;
  }

  lemma CarriedOnExpiry(p: Proto, b: Body, job: nat, c: Carrier)
    requires Enabled(p, RetryExpires(b)) && Carried(p, job, c)
    ensures Carried(Step(p, RetryExpires(b)), job, CarrierAfter(p, RetryExpires(b), job, c))
  {
    hide WorkerStep;
  }

  lemma CarriedOnPublish(p: Proto, e: Event, job: nat, c: Carrier)
    requires e.Publish? || e.PublishUnconfirmed? || e.PublisherDies? || e.Foreign?
    requires Enabled(p, e) && Carried(p, job, c)
    ensures Carried(Step(p, e), job, CarrierAfter(p, e, job, c))
  {
    hide WorkerStep;
  }

  lemma CarriedByBroker(p: Proto, e: Event, job: nat, c: Carrier)
    requires e.Publish? || e.PublishUnconfirmed? || e.PublisherDies? || e.Deliver? || e.RetryExpires? || e.Foreign?
    requires Enabled(p, e) && Carried(p, job, c)
    ensures Carried(Step(p, e), job, CarrierAfter(p, e, job, c))
  {
    hide Step, Enabled, Carried, CarrierAfter;
    match e
    case Deliver(t, b) => CarriedOnDelivery(p, t, b, job, c);
    case RetryExpires(b) => CarriedOnExpiry(p, b, job, c);
    case _ => CarriedOnPublish(p, e, job, c);
  }

  lemma CarriedByCommit(p: Proto, t: nat, act: Act, job: nat, c: Carrier)
    requires Enabled(p, Worker(t, act)) && (act.Begin? || act.Settle?)
    requires SaneDelivery(p.deliveries[t], |p.store.jobs|)
    requires Carried(p, job, c)
    ensures Carried(Step(p, Worker(t, act)), job, CarrierAfter(p, Worker(t, act), job, c))
  {
    if act.Begin? {
    } else {
    }
  }

  lemma CarriedByWorker(p: Proto, t: nat, act: Act, job: nat, c: Carrier)
    requires Enabled(p, Worker(t, act))
    requires SaneDelivery(p.deliveries[t], |p.store.jobs|)
    requires Carried(p, job, c)
    requires act.StrayDies? ==> c != WithWorker(t)
    ensures Carried(Step(p, Worker(t, act)), job, CarrierAfter(p, Worker(t, act), job, c))
  {
    hide BeginStep, SettleStep;
    match act
    case Begin => CarriedByCommit(p, t, act, job, c);
    case Settle => CarriedByCommit(p, t, act, job, c);
    case Republish =>
    case WorkerDies =>
    case ChannelLost =>
    case _ =>
  }

  lemma CarrierKept(p: Proto, e: Event, job: nat, c: Carrier)
    requires Sound(p) && Carried(p, job, c)
    requires e.Worker? && e.act.StrayDies? && Enabled(p, e) ==> c != WithWorker(e.tag)
    ensures Carried(Step(p, e), job, CarrierAfter(p, e, job, c))
  {
    if Enabled(p, e) {
      if e.Worker? {
        CarriedByWorker(p, e.tag, e.act, job, c);
      } else if e.Create? || e.OperatorRetry? || e.Mark? || e.PublishFailed? {
        CarriedByTransaction(p, e, job, c);
      } else {
        CarriedByBroker(p, e, job, c);
      }
    }
  }

  /** One step keeps every job carried exactly when it does not strand one. */
  lemma LosesOnlyByStranding(p: Proto, e: Event)
    requires Sound(p) && NothingLost(p)
    ensures NothingLost(Step(p, e)) <==> !Strands(p, e)
  {
    if Strands(p, e) {
      var job := p.deliveries[e.tag].body.job;
      assert Owed(Step(p, e), job);
      forall c ensures !Carries(Step(p, e), job, c) {
        if Carries(Step(p, e), job, c) { assert Carries(p, job, c); }
      }
    } else {
      forall job: nat | Owed(Step(p, e), job) ensures HasCarrier(Step(p, e), job) {
        var c := InMain;
        if Owed(p, job) {
          if e.Worker? && e.act.StrayDies? && Enabled(p, e) && p.deliveries[e.tag].body == Message(job) {
            c :| Carries(p, job, c) && c != WithWorker(e.tag);
          } else {
            c :| Carries(p, job, c);
          }
        }
        CarrierKept(p, e, job, c);
      }
    }
  }

  /** No step of the run strands a job. */
  ghost predicate NeverStrands(es: seq<Event>) {
    forall k :: 0 <= k < |es| ==> !Strands(Run(INITIAL, es[..k]), es[k])
  }

  /** In every state of the run, the first and the last included, each owed job is carried. */
  ghost predicate AlwaysCarried(es: seq<Event>) {
    forall k :: 0 <= k <= |es| ==> NothingLost(Run(INITIAL, es[..k]))
  }

  lemma PrefixOfPrefix(es: seq<Event>, n: nat, k: nat)
    requires k <= n <= |es|
    ensures es[..n][..k] == es[..k]
  {
  }

  lemma CarriedUpToTheLast(es: seq<Event>)
    requires es != []
    ensures AlwaysCarried(es) <==> AlwaysCarried(es[..|es| - 1]) && NothingLost(Run(INITIAL, es))
  {
    hide NothingLost, Run;
    var n := |es| - 1;
    assert es[..n + 1] == es;
    forall k | 0 <= k <= n ensures es[..n][..k] == es[..k] { PrefixOfPrefix(es, n, k); }
  }

  lemma StrandsUpToTheLast(es: seq<Event>)
    requires es != []
    ensures var n := |es| - 1;
            NeverStrands(es) <==> NeverStrands(es[..n]) && !Strands(Run(INITIAL, es[..n]), es[n])
  {
    hide Strands, Run;
    var n := |es| - 1;
    forall k | 0 <= k < n ensures es[..n][..k] == es[..k] && es[..n][k] == es[k] { PrefixOfPrefix(es, n, k); }
  }

  /** A run carries every owed job throughout if and only if none of its steps strands one. */
  lemma {:induction false} JobsAreLostOnlyByStranding(es: seq<Event>)
    ensures AlwaysCarried(es) <==> NeverStrands(es)
    decreases |es|
  {
    if es == [] {
      assert NothingLost(Run(INITIAL, []));
      assert es[..0] == [];
    } else {
      var before := es[..|es| - 1];
      JobsAreLostOnlyByStranding(before);
      CarriedUpToTheLast(es);
      StrandsUpToTheLast(es);
      StrandingOfLastStep(es);
      assert before[..|before|] == before;
      assert AlwaysCarried(before) ==> NothingLost(Run(INITIAL, before)) by { hide NothingLost, Run; }
      hide NothingLost, Strands, Run, AlwaysCarried, NeverStrands;
    }
  }

  lemma StrandingOfLastStep(es: seq<Event>)
    requires es != []
    ensures var p := Run(INITIAL, es[..|es| - 1]);
            NothingLost(p) ==> (NothingLost(Run(INITIAL, es)) <==> !Strands(p, es[|es| - 1]))
  {
    var before := es[..|es| - 1];
    SoundRun(INITIAL, before);
    hide NothingLost, Strands;
    if NothingLost(Run(INITIAL, before)) { LosesOnlyByStranding(Run(INITIAL, before), es[|es| - 1]); }
  }

  /** No worker that has lost its delivery stops before it is through with the message; one
      that only has an acknowledgement or a dead letter left may stop. */
  predicate StraysFinish(es: seq<Event>)
    decreases |es|
  {
    es == [] || (StraysFinish(es[..|es| - 1]) && Finishes(Run(INITIAL, es[..|es| - 1]), es[|es| - 1]))
  }

  predicate Finishes(p: Proto, e: Event) {
    e.Worker? && e.act.StrayDies? && Enabled(p, e) ==> !IsLive(p.deliveries[e.tag].phase)
  }

  lemma FinishingStrandsNothing(p: Proto, e: Event)
    requires NothingLost(p) && Finishes(p, e)
    ensures !Strands(p, e)
  {
    if e.Worker? && e.act.StrayDies? && Enabled(p, e) && p.deliveries[e.tag].body.Message? {
      var job := p.deliveries[e.tag].body.job;
      if Owed(p, job) {
        var c :| Carries(p, job, c);
        assert c != WithWorker(e.tag);
      }
    }
  }

  /** No job is ever lost, under every interleaving in which strays finish. */
  lemma {:induction false} NoJobIsLost(es: seq<Event>)
    requires StraysFinish(es)
    ensures Sound(Run(INITIAL, es)) && NothingLost(Run(INITIAL, es)) && NeverStrands(es)
    decreases |es|
  {
    SoundRun(INITIAL, es);
    if es != [] {
      var n := |es| - 1;
      var before, e := es[..n], es[n];
      NoJobIsLost(before);
      var p := Run(INITIAL, before);
      FinishingStrandsNothing(p, e);
      LosesOnlyByStranding(p, e);
      StrandsUpToTheLast(es);
    }
  }

  predicate NeverTakenBack(es: seq<Event>) {
    forall i :: 0 <= i < |es| ==> !(es[i].Worker? && es[i].act.ChannelLost?)
  }

  predicate AllOwned(p: Proto) {
    forall t :: t in p.deliveries ==> p.deliveries[t].owned
  }

  lemma {:induction false} DeliveriesStayOwned(es: seq<Event>)
    requires NeverTakenBack(es)
    ensures AllOwned(Run(INITIAL, es))
    decreases |es|
  {
    if es != [] {
      var before, e := es[..|es| - 1], es[|es| - 1];
      DeliveriesStayOwned(before);
      var p := Run(INITIAL, before);
      forall t | t in Step(p, e).deliveries ensures Step(p, e).deliveries[t].owned {
        if !Touches(e, t) { OthersUntouched(p, e, t); }
      }
    }
  }

  /** What carries a job for the database and the broker alone. */
  predicate Stored(p: Proto, job: nat, c: Carrier) {
    match c
    case InOutbox(r) => r < |p.store.outbox| && p.store.outbox[r].job == job && !p.store.outbox[r].sent
    case InMain => Message(job) in p.waiting
    case InRetry => Message(job) in p.delayed
    case WithWorker(t) => t in p.deliveries && p.deliveries[t].body == Message(job) && p.deliveries[t].owned
  }

  /** When a message comes back only after its worker is gone, every process may die at any
      point: the outbox or the broker, unacknowledged deliveries included, still holds
      something for each job that is owed. */
  lemma NoJobIsLostByCrashes(es: seq<Event>, job: nat)
    requires NeverTakenBack(es)
    requires Owed(Run(INITIAL, es), job)
    ensures exists c :: Stored(Run(INITIAL, es), job, c)
  {
    var p := Run(INITIAL, es);
    StraysNeedLostChannels(es);
    NoJobIsLost(es);
    DeliveriesStayOwned(es);
    var c :| Carries(p, job, c);
    assert Stored(p, job, c);
  }

  /** Without lost channels there are no strays. */
  lemma {:induction false} StraysNeedLostChannels(es: seq<Event>)
    requires NeverTakenBack(es)
    ensures StraysFinish(es)
    decreases |es|
  {
    if es != [] {
      var before := es[..|es| - 1];
      StraysNeedLostChannels(before);
      DeliveriesStayOwned(before);
    }
  }
}
