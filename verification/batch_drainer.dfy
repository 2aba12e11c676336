/** The drainer of evaluation runs: a batch goes to the handlers at once, and a batch that
    raises is bisected. Its effect is that of handling the messages one by one. */
module BatchDrainer {
  import opened IndexContracts
  import opened IndexStore
  import opened IndexProtocol
  import opened IndexRuntime
  import opened IndexWorkers

  /** A started message that waits for its batch. */
  datatype Pending = Pending(tag: nat, job: nat, attempt: nat, limit: nat)

  /** The drainer has no branch for stale events: they are failures like any other. */
  function DrainOutcome(o: Outcome): Outcome {
    if o.StaleEvent? then Transient else o
  }

  /** What handling each job alone gives. */
  type Alone = nat -> Outcome

  predicate Ready(deliveries: map<nat, Delivery>, items: seq<Pending>) {
    && (forall i :: 0 <= i < |items| ==> Holds(deliveries, items[i]))
    && (forall i, j :: 0 <= i < j < |items| ==> items[i].tag != items[j].tag)
  }

  predicate Holds(deliveries: map<nat, Delivery>, item: Pending) {
    item.tag in deliveries && deliveries[item.tag].owned && deliveries[item.tag].body == Message(item.job)
  }

  function Drained(p: Proto, item: Pending, alone: Alone): Proto
    requires item.tag in p.deliveries
  {
    Concluded(p, item.tag, item.job, DrainOutcome(alone(item.job)), item.attempt, item.limit)
  }

  /** The reference: one message after the other. */
  function OneByOne(p: Proto, items: seq<Pending>, alone: Alone): (q: Proto)
    requires Ready(p.deliveries, items)
    ensures q.deliveries == p.deliveries - Tags(items)
    decreases |items|
  {
    LastTag(p.deliveries, items);
    if items == [] then p
    else Drained(OneByOne(p, items[..|items| - 1], alone), items[|items| - 1], alone)
  }

  lemma LastTag(deliveries: map<nat, Delivery>, items: seq<Pending>)
    requires Ready(deliveries, items)
    ensures items == [] ==> deliveries - Tags(items) == deliveries
    ensures items != [] ==>
              var before, last := items[..|items| - 1], items[|items| - 1];
              Ready(deliveries, before) && last.tag in deliveries - Tags(before)
              && deliveries - Tags(items) == deliveries - Tags(before) - {last.tag}
  {
    if items != [] {
      var before, last := items[..|items| - 1], items[|items| - 1];
      assert last.tag !in Tags(before);
      assert Tags(items) == Tags(before) + {last.tag};
    }
  }

  function Tags(items: seq<Pending>): set<nat> {
    set i | 0 <= i < |items| :: items[i].tag
  }

  // ----- counts -----

  predicate Succeeds(item: Pending, alone: Alone) {
    alone(item.job).Ok?
  }

  predicate Dies(item: Pending, alone: Alone) {
    !Succeeds(item, alone) && ShouldDeadLetter(item.attempt, item.limit, !alone(item.job).Permanent?)
  }

  function CountCompleted(items: seq<Pending>, alone: Alone): nat
    decreases |items|
  {
    if items == [] then 0
    else CountCompleted(items[..|items| - 1], alone) + (if Succeeds(items[|items| - 1], alone) then 1 else 0)
  }

  function CountDead(items: seq<Pending>, alone: Alone): nat
    decreases |items|
  {
    if items == [] then 0
    else CountDead(items[..|items| - 1], alone) + (if Dies(items[|items| - 1], alone) then 1 else 0)
  }

  lemma {:induction false} OneByOneSplits(p: Proto, a: seq<Pending>, b: seq<Pending>, alone: Alone)
    requires Ready(p.deliveries, a + b)
    ensures Ready(p.deliveries, a) && Ready(OneByOne(p, a, alone).deliveries, b)
    ensures OneByOne(p, a + b, alone) == OneByOne(OneByOne(p, a, alone), b, alone)
    ensures CountCompleted(a + b, alone) == CountCompleted(a, alone) + CountCompleted(b, alone)
    ensures CountDead(a + b, alone) == CountDead(a, alone) + CountDead(b, alone)
    decreases |b|
  {
    RestIsReady(p, a, b, alone);
    if b == [] {
      assert a + b == a;
    } else {
      var b', last := b[..|b| - 1], b[|b| - 1];
      assert (a + b)[..|a + b| - 1] == a + b' && (a + b)[|a + b| - 1] == last;
      assert Ready(p.deliveries, a + b') by {
        forall i | 0 <= i < |a + b'| ensures (a + b')[i] == (a + b)[i] {}
      }
      OneByOneSplits(p, a, b', alone);
      hide Drained, Ready, Tags, Succeeds, Dies;
    }
  }

  lemma RestIsReady(p: Proto, a: seq<Pending>, b: seq<Pending>, alone: Alone)
    requires Ready(p.deliveries, a + b)
    ensures Ready(p.deliveries, a) && Ready(OneByOne(p, a, alone).deliveries, b)
  {
    var s := a + b;
    forall i | 0 <= i < |a| ensures s[i] == a[i] {}
    assert Ready(p.deliveries, a);
    hide OneByOne;
    forall i | 0 <= i < |b| ensures Holds(OneByOne(p, a, alone).deliveries, b[i]) {
      assert s[|a| + i] == b[i];
      assert b[i].tag !in Tags(a);
    }
    forall i, j | 0 <= i < j < |b| ensures b[i].tag != b[j].tag {
      assert s[|a| + i] == b[i] && s[|a| + j] == b[j];
    }
  }

  /** Every message is completed, dead-lettered or queued again, and only that: the retry and
      dead queues grow by exactly the numbers reported. */
  lemma {:induction false} EveryMessageEndsOnce(p: Proto, items: seq<Pending>, alone: Alone)
    requires Ready(p.deliveries, items)
    ensures var q := OneByOne(p, items, alone);
            && |q.dead| == |p.dead| + CountDead(items, alone)
            && |q.delayed| - |p.delayed| + CountDead(items, alone) + CountCompleted(items, alone) == |items|
            && q.deliveries == p.deliveries - Tags(items)
    decreases |items|
  {
    if items != [] {
      var before, last := items[..|items| - 1], items[|items| - 1];
      OneByOneSplits(p, before, [last], alone);
      assert items == before + [last];
      EveryMessageEndsOnce(p, before, alone);
      OneMessageEnds(OneByOne(p, before, alone), last, alone);
      hide OneByOne, Drained, Concluded;
    }
  }

  lemma OneMessageEnds(p: Proto, item: Pending, alone: Alone)
    requires item.tag in p.deliveries
    ensures var q := Drained(p, item, alone);
            && |q.dead| == |p.dead| + (if Dies(item, alone) then 1 else 0)
            && |q.delayed| == |p.delayed| + (if Dies(item, alone) || Succeeds(item, alone) then 0 else 1)
  {
  }

  class EvaluationBatchDrainer {
    const repository: IndexRepository
    const broker: MessageBroker
    var completed: nat
    var failed: nat
    /** How often the handlers were called. */
    var calls: nat

    constructor (repository: IndexRepository, broker: MessageBroker)
      ensures this.repository == repository && this.broker == broker && completed == failed == calls == 0
    {
      this.repository, this.broker := repository, broker;
      completed, failed, calls := 0, 0, 0;
    }

    /** The same state as one by one, in order, with at most 2n - 1 handler calls. */
    method Process(pending: seq<Pending>, alone: Alone)
      requires pending != [] && Ready(broker.deliveries, pending)
      modifies this, repository, broker
      ensures View(repository, broker) == OneByOne(old(View(repository, broker)), pending, alone)
      ensures completed == old(completed) + CountCompleted(pending, alone)
      ensures failed == old(failed) + CountDead(pending, alone)
      ensures old(calls) < calls <= old(calls) + 2 * |pending| - 1
      decreases |pending|
    {
      calls := calls + 1;
      if forall i :: 0 <= i < |pending| ==> Succeeds(pending[i], alone) {
        FinishAll(pending, alone);
      } else if |pending| > 1 {
        var middle := |pending| / 2;
        assert pending == pending[..middle] + pending[middle..];
        OneByOneSplits(View(repository, broker), pending[..middle], pending[middle..], alone);
        Process(pending[..middle], alone);
        Process(pending[middle..], alone);
      } else {
        SingleItem(View(repository, broker), pending, alone);
        Fail(pending[0], alone(pending[0].job));
      }
    }

    method FinishAll(pending: seq<Pending>, alone: Alone)
      requires Ready(broker.deliveries, pending)
      requires forall i :: 0 <= i < |pending| ==> Succeeds(pending[i], alone)
      modifies this, repository, broker
      ensures View(repository, broker) == OneByOne(old(View(repository, broker)), pending, alone)
      ensures completed == old(completed) + CountCompleted(pending, alone)
                && CountCompleted(pending, alone) == |pending|
      ensures failed == old(failed) + CountDead(pending, alone) && calls == old(calls)
    {
      ghost var begin := View(repository, broker);
      hide Concluded;
      PrefixesAreReady(begin.deliveries, pending);
      for i := 0 to |pending|
        invariant Ready(begin.deliveries, pending[..i])
        invariant View(repository, broker) == OneByOne(begin, pending[..i], alone)
        invariant completed == old(completed) + i && CountCompleted(pending[..i], alone) == i
        invariant CountDead(pending[..i], alone) == 0 && failed == old(failed) && calls == old(calls)
      {
        var item := pending[i];
        NextItem(begin, pending, i, alone);
        Complete(item, alone(item.job));
      }
      assert pending[..|pending|] == pending;
    }

    method Complete(item: Pending, outcome: Outcome)
      requires Holds(broker.deliveries, item) && outcome.Ok?
      modifies this, repository, broker
      ensures View(repository, broker)
           == Concluded(old(View(repository, broker)),
                        item.tag, item.job, DrainOutcome(outcome), item.attempt, item.limit)
      ensures completed == old(completed) + 1 && calls == old(calls) && failed == old(failed)
    {
      hide IndexStore.Finish;
      repository.Finish(item.job, outcome.status);
      broker.Ack(item.tag);
      completed := completed + 1;
    }

    method Fail(item: Pending, outcome: Outcome)
      requires Holds(broker.deliveries, item) && !outcome.Ok?
      modifies this, repository, broker
      ensures View(repository, broker)
           == Concluded(old(View(repository, broker)),
                        item.tag, item.job, DrainOutcome(outcome), item.attempt, item.limit)
      ensures completed == old(completed) && calls == old(calls)
      ensures failed == old(failed) + (if ShouldDeadLetter(item.attempt, item.limit, !outcome.Permanent?) then 1 else 0)
    {
      FailureConcluded(View(repository, broker), item, outcome);
      hide IndexStore.Fail, Concluded;
      var dead := ShouldDeadLetter(item.attempt, item.limit, !outcome.Permanent?);
      repository.Fail(item.job, dead);
      broker.Publish(Message(item.job), if dead then DeadRoute else RetryRoute);
      broker.Ack(item.tag);
      if dead { failed := failed + 1; }
    }
  }

  lemma FailureConcluded(p: Proto, item: Pending, outcome: Outcome)
    requires Holds(p.deliveries, item) && !outcome.Ok?
    ensures var dead := ShouldDeadLetter(item.attempt, item.limit, !outcome.Permanent?);
            var q := Forget(p, item.tag).(store := IndexStore.Fail(p.store, item.job, dead));
            Concluded(p, item.tag, item.job, DrainOutcome(outcome), item.attempt, item.limit) ==
              if dead then q.(dead := p.dead + multiset{Message(item.job)})
              else q.(delayed := p.delayed + multiset{Message(item.job)})
  {
    hide IndexStore.Finish;
  }

  lemma PrefixesAreReady(deliveries: map<nat, Delivery>, items: seq<Pending>)
    requires Ready(deliveries, items)
    ensures forall i :: 0 <= i <= |items| ==> Ready(deliveries, items[..i])
  {
  }

  lemma NextItem(p: Proto, items: seq<Pending>, i: nat, alone: Alone)
    requires i < |items| && Ready(p.deliveries, items) && Ready(p.deliveries, items[..i])
    ensures Ready(p.deliveries, items[..i + 1]) && Holds(OneByOne(p, items[..i], alone).deliveries, items[i])
    ensures OneByOne(p, items[..i + 1], alone) == Drained(OneByOne(p, items[..i], alone), items[i], alone)
    ensures CountCompleted(items[..i + 1], alone)
              == CountCompleted(items[..i], alone) + (if Succeeds(items[i], alone) then 1 else 0)
    ensures CountDead(items[..i + 1], alone) == CountDead(items[..i], alone) + (if Dies(items[i], alone) then 1 else 0)
  {
    PrefixesAreReady(p.deliveries, items);
    assert items[..i + 1][..i] == items[..i];
    assert items[i].tag !in Tags(items[..i]);
    hide Drained, Ready, Dies, Succeeds;
  }

  lemma SingleItem(p: Proto, items: seq<Pending>, alone: Alone)
    requires |items| == 1 && Ready(p.deliveries, items)
    ensures Holds(p.deliveries, items[0]) && OneByOne(p, items, alone) == Drained(p, items[0], alone)
    ensures CountCompleted(items, alone) == (if Succeeds(items[0], alone) then 1 else 0)
    ensures CountDead(items, alone) == (if Dies(items[0], alone) then 1 else 0)
  {
    assert items[..0] == [];
    assert OneByOne(p, [], alone) == p;
    NextItem(p, items, 0, alone);
    assert items[..1] == items;
  }

  /** The drainer concludes a message as the consumer does exactly when the event is not
      stale: the consumer settles a stale event, the drainer retries or dead-letters it. */
  lemma AgreesWithConsumerUnlessStale(p: Proto, item: Pending, alone: Alone)
    requires item.tag in p.deliveries
    ensures Drained(p, item, alone) == Concluded(p, item.tag, item.job, alone(item.job), item.attempt, item.limit)
       <==> !alone(item.job).StaleEvent?
  {
    if alone(item.job).StaleEvent? {
      var q := Drained(p, item, alone);
      OneMessageEnds(p, item, alone);
      var r := Concluded(p, item.tag, item.job, alone(item.job), item.attempt, item.limit);
      assert r.dead == p.dead && r.delayed == p.delayed;
      assert |q.dead| + |q.delayed| == |p.dead| + |p.delayed| + 1;
    }
  }
}
