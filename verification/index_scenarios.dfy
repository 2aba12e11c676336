/** Concrete runs of one job, for the properties that need a condition: what happens to
    the job when the condition fails. */
module IndexScenarios {
  import opened IndexContracts
  import opened IndexStore
  import opened IndexProtocol
  import opened IndexDelivery
  import A = IndexAttempts

  /** The state with one published job and the given workers. */
  function OneJob(job: Job, waiting: multiset<Body>, ds: map<nat, Delivery>): Proto {
    Proto(Store([job], [Row(0, true, 1)]), {0}, waiting, multiset{}, multiset{}, ds)
  }

  function At(phase: Phase, owned: bool): Delivery {
    Delivery(Message(0), phase, owned)
  }

  lemma OneJobIsPublished(key: Key, limit: nat) returns (es: seq<Event>)
    requires MIN_ATTEMPTS <= limit <= MAX_ATTEMPTS
    ensures es == [Create(key, limit), Publish(0), Mark(0)]
    ensures Run(INITIAL, es) == OneJob(Job(key, Queued, 0, limit), multiset{Message(0)}, map[])
  {
    var st1 := Store([Job(key, Pending, 0, limit)], [Row(0, false, 0)]);
    var p1 := Proto(st1, {}, multiset{}, multiset{}, multiset{}, map[]);
    Extend([], INITIAL, Create(key, limit), p1);
    var p2 := p1.(confirmed := {0}, waiting := multiset{Message(0)});
    Extend([] + [Create(key, limit)], p1, Publish(0), p2);
    var p3 := OneJob(Job(key, Queued, 0, limit), multiset{Message(0)}, map[]);
    Extend([] + [Create(key, limit)] + [Publish(0)], p2, Mark(0), p3);
    es := [] + [Create(key, limit)] + [Publish(0)] + [Mark(0)];
  }

  function StartedJob(job: Job): Job {
    job.(status := Running, attempts := job.attempts + 1)
  }

  lemma AWorkerBegins(job: Job, ds: map<nat, Delivery>, t: nat, owned: bool)
    requires job.attempts < job.maxAttempts && !Settled(job.status)
    ensures Step(OneJob(job, multiset{}, ds[t := At(Got, owned)]), Worker(t, Begin))
         == OneJob(StartedJob(job), multiset{}, ds[t := At(Working(job.attempts + 1, job.maxAttempts), owned)])
  {
    var working := At(Working(job.attempts + 1, job.maxAttempts), owned);
    assert [job][0 := StartedJob(job)] == [StartedJob(job)];
    assert ds[t := At(Got, owned)][t := working] == ds[t := working];
  }

  lemma AWorkerGets(job: Job, ds: map<nat, Delivery>, t: nat)
    requires t !in ds
    ensures Step(OneJob(job, multiset{Message(0)}, ds), Deliver(t, Message(0)))
              == OneJob(job, multiset{}, ds[t := At(Got, true)])
  {
  }

  /** One worker takes the message and starts the job. */
  lemma AWorkerStarts(es: seq<Event>, job: Job, ds: map<nat, Delivery>, t: nat) returns (fs: seq<Event>)
    requires Run(INITIAL, es) == OneJob(job, multiset{Message(0)}, ds)
    requires t !in ds && job.attempts < job.maxAttempts && !Settled(job.status)
    ensures fs == es + [Deliver(t, Message(0)), Worker(t, Begin)]
    ensures Run(INITIAL, fs)
         == OneJob(StartedJob(job), multiset{}, ds[t := At(Working(job.attempts + 1, job.maxAttempts), true)])
  {
    var got := OneJob(job, multiset{}, ds[t := At(Got, true)]);
    AWorkerGets(job, ds, t);
    AWorkerBegins(job, ds, t, true);
    hide Run, Step, OneJob, Settled;
    Extend(es, OneJob(job, multiset{Message(0)}, ds), Deliver(t, Message(0)), got);
    Extend(es + [Deliver(t, Message(0))], got, Worker(t, Begin),
           OneJob(StartedJob(job), multiset{}, ds[t := At(Working(job.attempts + 1, job.maxAttempts), true)]));
    fs := es + [Deliver(t, Message(0)), Worker(t, Begin)];
    assert fs == es + [Deliver(t, Message(0))] + [Worker(t, Begin)];
  }

  /** The handler ends and its outcome is recorded. */
  lemma AWorkerSettles(es: seq<Event>, job: Job, ds: map<nat, Delivery>, t: nat, a: nat, limit: nat, o: Outcome)
    returns (fs: seq<Event>)
    requires Run(INITIAL, es) == OneJob(job, multiset{}, ds)
    requires t in ds && ds[t].body == Message(0) && ds[t].phase == Working(a, limit) && (o.Ok? ==> Successful(o.status))
    ensures fs == es + [Worker(t, Handled(o)), Worker(t, Settle)]
    ensures var (s, phase) := SettledAs(Done(o, a, limit));
            Run(INITIAL, fs) == OneJob(job.(status := s), multiset{}, ds[t := ds[t].(phase := phase)])
  {
    var (s, phase) := SettledAs(Done(o, a, limit));
    var handled := OneJob(job, multiset{}, ds[t := ds[t].(phase := Done(o, a, limit))]);
    Extend(es, OneJob(job, multiset{}, ds), Worker(t, Handled(o)), handled);
    var q := OneJob(job.(status := s), multiset{}, ds[t := ds[t].(phase := phase)]);
    assert Step(handled, Worker(t, Settle)) == q by {
      assert ds[t := ds[t].(phase := Done(o, a, limit))][t := ds[t].(phase := phase)] == q.deliveries;
    }
    Extend(es + [Worker(t, Handled(o))], handled, Worker(t, Settle), q);
    fs := es + [Worker(t, Handled(o)), Worker(t, Settle)];
    assert fs == es + [Worker(t, Handled(o))] + [Worker(t, Settle)];
  }

  /** The worker dies, or only its channel does, and the message is queued again. */
  lemma TheBrokerTakesBack(es: seq<Event>, job: Job, ds: map<nat, Delivery>, t: nat, dies: bool)
    returns (fs: seq<Event>)
    requires Run(INITIAL, es) == OneJob(job, multiset{}, ds)
    requires t in ds && ds[t].body == Message(0) && ds[t].owned
    ensures fs == es + [Worker(t, if dies then WorkerDies else ChannelLost)]
    ensures Run(INITIAL, fs) ==
            OneJob(job, multiset{Message(0)}, if dies then ds - {t} else ds[t := ds[t].(owned := false)])
  {
    var act := if dies then WorkerDies else ChannelLost;
    Extend(es, OneJob(job, multiset{}, ds), Worker(t, act),
           OneJob(job, multiset{Message(0)}, if dies then ds - {t} else ds[t := ds[t].(owned := false)]));
    fs := es + [Worker(t, act)];
  }

  /** The worker is through with the message, or stops after it lost the message. */
  lemma AWorkerLeaves(es: seq<Event>, job: Job, ds: map<nat, Delivery>, t: nat) returns (fs: seq<Event>)
    requires Run(INITIAL, es) == OneJob(job, multiset{}, ds)
    requires t in ds && (ds[t].owned ==> ds[t].phase.Acking?)
    ensures fs == es + [Worker(t, if ds[t].owned then Ack else StrayDies)]
    ensures Run(INITIAL, fs) == OneJob(job, multiset{}, ds - {t})
  {
    var act := if ds[t].owned then Ack else StrayDies;
    Extend(es, OneJob(job, multiset{}, ds), Worker(t, act), OneJob(job, multiset{}, ds - {t}));
    fs := es + [Worker(t, act)];
  }

  function Job1(key: Key, status: JobStatus, attempts: nat): Job {
    Job(key, status, attempts, 3)
  }

  /** Two workers on the job: the first one lost its channel while it worked. */
  lemma AStrayAndAWorker(key: Key, limit: nat) returns (es: seq<Event>)
    requires 2 <= limit <= MAX_ATTEMPTS
    ensures forall i :: 0 <= i < |es| ==> !Dies(es[i])
    ensures Run(INITIAL, es) == OneJob(Job(key, Running, 2, limit), multiset{},
                                       map[0 := At(Working(1, limit), false), 1 := At(Working(2, limit), true)])
  {
    hide Run, Step, OneJob;
    es := OneJobIsPublished(key, limit);
    es := AWorkerStarts(es, Job(key, Queued, 0, limit), map[], 0);
    var first := map[][0 := At(Working(1, limit), true)];
    es := TheBrokerTakesBack(es, Job(key, Running, 1, limit), first, 0, false);
    var strayed := map[0 := At(Working(1, limit), false)];
    assert first[0 := first[0].(owned := false)] == strayed;
    es := AWorkerStarts(es, Job(key, Running, 1, limit), strayed, 1);
    assert strayed[1 := At(Working(2, limit), true)]
        == map[0 := At(Working(1, limit), false), 1 := At(Working(2, limit), true)];
  }

  predicate Dies(e: Event) {
    e.PublisherDies? || (e.Worker? && (e.act.WorkerDies? || e.act.StrayDies?))
  }

  /** The second worker finishes the job. */
  lemma FinishedBehindAStray(key: Key) returns (es: seq<Event>)
    ensures Run(INITIAL, es) == OneJob(Job1(key, Indexed, 2), multiset{}, map[0 := At(Working(1, 3), false)])
  {
    hide Run, Step, OneJob;
    es := AStrayAndAWorker(key, 3);
    var second := map[0 := At(Working(1, 3), false), 1 := At(Working(2, 3), true)];
    es := AWorkerSettles(es, Job1(key, Running, 2), second, 1, 2, 3, Ok(Indexed));
    var third := second[1 := second[1].(phase := Acking(true, 2, 3))];
    es := AWorkerLeaves(es, Job1(key, Indexed, 2), third, 1);
    assert third - {1} == map[0 := At(Working(1, 3), false)];
  }

  /** A job that is lost: the broker takes the delivery back, a second worker finishes the
      job, the first one then fails it for a retry and stops before it republishes. On the
      way the finished job falls back to QUEUED. */
  lemma AStrayCanStrandAJob(key: Key)
    ensures exists es, fs :: Run(INITIAL, es).store.jobs == [Job1(key, Indexed, 2)]
                          && Run(INITIAL, es + fs).store.jobs == [Job1(key, Queued, 2)]
                          && !NothingLost(Run(INITIAL, es + fs))
  {
    var es := FinishedBehindAStray(key);
    var stray := map[0 := At(Working(1, 3), false)];
    var more := AWorkerSettles(es, Job1(key, Indexed, 2), stray, 0, 1, 3, Transient);
    var last := stray[0 := stray[0].(phase := Republishing(false))];
    more := AWorkerLeaves(more, Job1(key, Queued, 2), last, 0);
    assert last - {0} == map[];
    NobodyCarries(Job1(key, Queued, 2), map[]);
    hide Run, NothingLost;
    var fs := [Worker(0, Handled(Transient)), Worker(0, Settle)] + [Worker(0, StrayDies)];
    assert more == es + fs;
    assert Run(INITIAL, es).store.jobs == [Job1(key, Indexed, 2)];
  }

  lemma NobodyCarries(job: Job, ds: map<nat, Delivery>)
    requires !Terminal(job.status) && forall t :: t in ds ==> !IsLive(ds[t].phase)
    ensures !NothingLost(OneJob(job, multiset{}, ds))
  {
    var p := OneJob(job, multiset{}, ds);
    assert Owed(p, 0);
    assert forall c :: !Carries(p, 0, c);
  }

  /** A worker has the message but not begun, and its channel is lost. */
  lemma AMessageLeftBehind(key: Key) returns (es: seq<Event>)
    ensures forall i :: 0 <= i < |es| ==> es[i] != Worker(0, Settle)
    ensures Run(INITIAL, es) == OneJob(Job1(key, Queued, 0), multiset{Message(0)}, map[0 := At(Got, false)])
  {
    hide Run, Step, OneJob;
    es := OneJobIsPublished(key, 3);
    var d0 := map[][0 := At(Got, true)];
    AWorkerGets(Job1(key, Queued, 0), map[], 0);
    Extend(es, OneJob(Job1(key, Queued, 0), multiset{Message(0)}, map[]), Deliver(0, Message(0)),
           OneJob(Job1(key, Queued, 0), multiset{}, d0));
    es := TheBrokerTakesBack(es + [Deliver(0, Message(0))], Job1(key, Queued, 0), d0, 0, false);
    assert d0[0 := d0[0].(owned := false)] == map[0 := At(Got, false)];
  }

  /** A second worker fails the job for good. */
  lemma FailedBehindAStray(key: Key) returns (es: seq<Event>)
    ensures forall i :: 0 <= i < |es| ==> es[i] != Worker(0, Settle)
    ensures Run(INITIAL, es) == OneJob(Job1(key, Failed, 1), multiset{},
                                       map[1 := At(Republishing(true), true)][0 := At(Got, false)])
  {
    hide Run, Step, OneJob;
    es := AMessageLeftBehind(key);
    var d1 := map[0 := At(Got, false)];
    es := AWorkerStarts(es, Job1(key, Queued, 0), d1, 1);
    var d2 := d1[1 := At(Working(1, 3), true)];
    es := AWorkerSettles(es, Job1(key, Running, 1), d2, 1, 1, 3, Permanent);
    assert d2[1 := d2[1].(phase := Republishing(true))] == map[1 := At(Republishing(true), true)][0 := At(Got, false)];
  }

  /** Another job that is lost, without the stray ever recording a result: the first worker
      begins the failed job, which a start does not refuse, and stops at work. */
  lemma ABelatedStartCanStrandAJob(key: Key)
    ensures exists es :: && Run(INITIAL, es).store.jobs == [Job1(key, Running, 2)]
                         && !NothingLost(Run(INITIAL, es))
                         && (forall i :: 0 <= i < |es| ==> es[i] != Worker(0, Settle))
  {
    var es := FailedBehindAStray(key);
    var rest := map[1 := At(Republishing(true), true)];
    AWorkerBegins(Job1(key, Failed, 1), rest, 0, false);
    NobodyCarries(Job1(key, Running, 2), rest);
    assert OneJob(Job1(key, Running, 2), multiset{}, rest).store.jobs == [Job1(key, Running, 2)];
    hide Run, Step, OneJob, NothingLost;
    var d := rest[0 := At(Working(2, 3), false)];
    Extend(es, OneJob(Job1(key, Failed, 1), multiset{}, rest[0 := At(Got, false)]), Worker(0, Begin),
           OneJob(Job1(key, Running, 2), multiset{}, d));
    es := AWorkerLeaves(es + [Worker(0, Begin)], Job1(key, Running, 2), d, 0);
    assert d - {0} == rest;
  }

  /** The acknowledgement raises inside the guarded block, and the failure is recorded. */
  lemma AnAckRaises(es: seq<Event>, job: Job) returns (fs: seq<Event>)
    requires Run(INITIAL, es) == OneJob(job, multiset{}, map[0 := At(Acking(true, 1, 3), true)])
    ensures fs == es + [Worker(0, AckRaises), Worker(0, Settle)]
    ensures Run(INITIAL, fs) == OneJob(job.(status := Queued), multiset{}, map[0 := At(Republishing(false), true)])
  {
    var p := OneJob(job, multiset{}, map[0 := At(Acking(true, 1, 3), true)]);
    var p1 := OneJob(job, multiset{}, map[0 := At(Done(Transient, 1, 3), true)]);
    Extend(es, p, Worker(0, AckRaises), p1);
    var p2 := OneJob(job.(status := Queued), multiset{}, map[0 := At(Republishing(false), true)]);
    Extend(es + [Worker(0, AckRaises)], p1, Worker(0, Settle), p2);
    fs := es + [Worker(0, AckRaises), Worker(0, Settle)];
    assert fs == es + [Worker(0, AckRaises)] + [Worker(0, Settle)];
  }

  /** A finished job falls back without any second delivery: the acknowledgement raises
      inside the guarded block, and the failure branch queues the job again. */
  lemma ARaisingAckReopensAJob(key: Key)
    ensures exists es, fs :: Run(INITIAL, es).store.jobs == [Job1(key, Indexed, 1)]
                          && Run(INITIAL, es + fs).store.jobs == [Job1(key, Queued, 1)]
  {
    var es := OneJobIsPublished(key, 3);
    es := AWorkerStarts(es, Job1(key, Queued, 0), map[], 0);
    var d0 := map[][0 := At(Working(1, 3), true)];
    es := AWorkerSettles(es, Job1(key, Running, 1), d0, 0, 1, 3, Ok(Indexed));
    assert d0[0 := d0[0].(phase := Acking(true, 1, 3))] == map[0 := At(Acking(true, 1, 3), true)];
    var fs := AnAckRaises(es, Job1(key, Indexed, 1));
  }

  /** A worker that crashes on the last attempt leaves the job running for ever: the message
      comes back, and its start rolls back each time. */
  lemma ACrashOnTheLastAttemptWedgesAJob(key: Key)
    ensures exists es :: Wedged(Run(INITIAL, es), key) && A.Abandoned(Run(INITIAL, es), 0)
  {
    var es := OneJobIsPublished(key, 1);
    es := AWorkerStarts(es, Job(key, Queued, 0, 1), map[], 0);
    var job := Job(key, Running, 1, 1);
    var d0 := map[][0 := At(Working(1, 1), true)];
    es := TheBrokerTakesBack(es, job, d0, 0, true);
    assert d0 - {0} == map[];
    TheStartRollsBack(es, job);
  }

  /** The job is running, nobody works on it, and the start of its message has no effect. */
  ghost predicate Wedged(p: Proto, key: Key) {
    && p.store.jobs == [Job(key, Running, 1, 1)]
    && p.deliveries.Keys == {1} && p.deliveries[1] == At(Got, true)
    && Step(p, Worker(1, Begin)) == p
  }

  lemma TheStartRollsBack(es: seq<Event>, job: Job)
    requires Run(INITIAL, es) == OneJob(job, multiset{Message(0)}, map[])
    requires job.status == Running && job.attempts == job.maxAttempts == 1
    ensures exists fs :: Wedged(Run(INITIAL, fs), job.key) && A.Abandoned(Run(INITIAL, fs), 0)
  {
    var p := OneJob(job, multiset{}, map[1 := At(Got, true)]);
    Extend(es, OneJob(job, multiset{Message(0)}, map[]), Deliver(1, Message(0)), p);
    assert Wedged(Run(INITIAL, es + [Deliver(1, Message(0))]), job.key);
  }

  lemma NobodyEndsIt(key: Key)
    ensures var p := OneJob(Job(key, Queued, 2, 2), multiset{},
                            map[0 := At(Republishing(false), false), 1 := At(Republishing(true), true)]);
            p.store.jobs == [Job(key, Queued, 2, 2)] && A.Abandoned(p, 0)
  {
  }

  /** A job can wait for ever although no process ever died: the first worker loses its
      channel, the second one fails the job on the last attempt, and the first one, which
      counts its own attempt, then queues it again. No start commits and no operator may
      retry it. */
  lemma AnOverlapWedgesAQueuedJob(key: Key)
    ensures exists es :: && (forall i :: 0 <= i < |es| ==> !Dies(es[i]))
                         && Run(INITIAL, es).store.jobs == [Job(key, Queued, 2, 2)]
                         && A.Abandoned(Run(INITIAL, es), 0)
  {
    hide Run, Step, OneJob, A.Abandoned;
    NobodyEndsIt(key);
    var d := map[0 := At(Republishing(false), false), 1 := At(Republishing(true), true)];
    var es := AStrayAndAWorker(key, 2);
    var d2 := map[0 := At(Working(1, 2), false), 1 := At(Working(2, 2), true)];
    es := AWorkerSettles(es, Job(key, Running, 2, 2), d2, 1, 2, 2, Transient);
    var d3 := d2[1 := d2[1].(phase := Republishing(true))];
    es := AWorkerSettles(es, Job(key, Failed, 2, 2), d3, 0, 1, 2, Transient);
    assert d3[0 := d3[0].(phase := Republishing(false))] == d;
  }
}
