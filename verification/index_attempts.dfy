/** Attempts are bounded and counted exactly, settled jobs stay settled while deliveries do
    not overlap, and without crashes no job gets stuck before its last attempt. */
module IndexAttempts {
  import opened IndexContracts
  import opened IndexStore
  import opened IndexProtocol

  predicate ActiveOn(p: Proto, t: nat, job: nat) {
    t in p.deliveries && p.deliveries[t].body == Message(job) && IsActive(p.deliveries[t].phase)
  }

  predicate Known(p: Proto, job: nat) {
    job < |p.store.jobs|
  }

  function StatusOf(p: Proto, job: nat): JobStatus
    requires Known(p, job)
  {
    p.store.jobs[job].status
  }

  // ----- what a step does to one job -----

  /** The start of `job` commits in this step. */
  predicate CommitsStart(p: Proto, e: Event, job: nat) {
    && e.Worker? && e.act.Begin? && Enabled(p, e)
    && p.deliveries[e.tag].body == Message(job)
    && StartOutcome(p.store, job).Started?
  }

  /** A worker records a result for `job` in this step. */
  predicate Records(p: Proto, e: Event, job: nat) {
    e.Worker? && e.act.Settle? && Enabled(p, e) && p.deliveries[e.tag].body == Message(job)
  }

  predicate Reopens(p: Proto, e: Event, job: nat) {
    e == OperatorRetry(job) && Known(p, job) && StatusOf(p, job) == Failed
  }

  predicate Queues(p: Proto, e: Event, job: nat) {
    e.Mark? && Enabled(p, e) && p.store.outbox[e.row].job == job && Known(p, job) && StatusOf(p, job) == Pending
  }

  function JobAfter(p: Proto, e: Event, job: nat): Job
    requires Known(p, job)
  {
    var j := p.store.jobs[job];
    if CommitsStart(p, e, job) then j.(status := Running, attempts := j.attempts + 1)
    else if Records(p, e, job) then j.(status := SettledAs(p.deliveries[e.tag].phase).0)
    else if Reopens(p, e, job) then j.(status := Pending, attempts := 0)
    else if Queues(p, e, job) then j.(status := Queued)
    else j
  }

  lemma JobStepOfWorker(p: Proto, tag: nat, act: Act, job: nat)
    requires Sound(p) && Enabled(p, Worker(tag, act)) && Known(p, job)
    ensures Known(Step(p, Worker(tag, act)), job)
    ensures Step(p, Worker(tag, act)).store.jobs[job] == JobAfter(p, Worker(tag, act), job)
    ensures |Step(p, Worker(tag, act)).store.jobs| == |p.store.jobs|
  {
    match act
    case Begin =>
    case Settle =>
    case _ =>
  }

  lemma WorkersAddNoJobs(p: Proto, tag: nat, act: Act)
    requires Enabled(p, Worker(tag, act))
    ensures |Step(p, Worker(tag, act)).store.jobs| == |p.store.jobs|
  {
    match act
    case Begin =>
    case Settle =>
    case _ =>
  }

  lemma JobStepOfMark(p: Proto, row: nat, job: nat)
    requires Enabled(p, Mark(row)) && Known(p, job)
    ensures Known(Step(p, Mark(row)), job) && Step(p, Mark(row)).store.jobs[job] == JobAfter(p, Mark(row), job)
  {
    hide WorkerStep;
  }

  lemma JobStepOfCreate(p: Proto, key: Key, limit: nat, job: nat)
    requires Enabled(p, Create(key, limit)) && Known(p, job)
    ensures Known(Step(p, Create(key, limit)), job)
    ensures Step(p, Create(key, limit)).store.jobs[job] == JobAfter(p, Create(key, limit), job)
  {
    hide WorkerStep;
  }

  lemma JobStepOfRetry(p: Proto, id: nat, job: nat)
    requires Known(p, job)
    ensures Known(Step(p, OperatorRetry(id)), job)
    ensures Step(p, OperatorRetry(id)).store.jobs[job] == JobAfter(p, OperatorRetry(id), job)
  {
    hide WorkerStep;
  }

  /** What is left changes no job. */
  lemma JobStepOfBroker(p: Proto, e: Event, job: nat)
    requires Enabled(p, e) && !e.Worker? && !e.Mark? && !e.Create? && !e.OperatorRetry? && Known(p, job)
    ensures Known(Step(p, e), job) && Step(p, e).store.jobs[job] == JobAfter(p, e, job)
  {
    hide WorkerStep, MarkPublished, AddJob, Retry, Start;
  }

  lemma JobStepOfOthers(p: Proto, e: Event, job: nat)
    requires Sound(p) && Enabled(p, e) && !e.Worker? && Known(p, job)
    ensures Known(Step(p, e), job) && Step(p, e).store.jobs[job] == JobAfter(p, e, job)
  {
    hide Sound, Step, JobAfter;
    match e
    case Mark(row) => JobStepOfMark(p, row, job);
    case Create(key, limit) => JobStepOfCreate(p, key, limit, job);
    case OperatorRetry(id) => JobStepOfRetry(p, id, job);
    case _ => JobStepOfBroker(p, e, job);
  }

  lemma NewJobStep(p: Proto, e: Event, job: nat)
    requires Sound(p) && !e.Worker? && !Known(p, job) && Known(Step(p, e), job)
    ensures StatusOf(Step(p, e), job) == Pending && Step(p, e).store.jobs[job].attempts == 0
    ensures 1 <= Step(p, e).store.jobs[job].maxAttempts
  {
    hide WorkerStep, SaneDelivery;
    match e
    case Mark(_) =>
    case Create(_, _) =>
    case OperatorRetry(_) =>
    case _ =>
  }

  lemma JobStep(p: Proto, e: Event, job: nat)
    requires Sound(p)
    ensures Known(p, job) ==> Known(Step(p, e), job) && Step(p, e).store.jobs[job] == JobAfter(p, e, job)
    ensures Known(Step(p, e), job) && !Known(p, job) ==>
              StatusOf(Step(p, e), job) == Pending && Step(p, e).store.jobs[job].attempts == 0
              && 1 <= Step(p, e).store.jobs[job].maxAttempts
  {
    if !Enabled(p, e) {
      hide Sound, Enabled, WorkerStep;
    } else {
      if e.Worker? { WorkersAddNoJobs(p, e.tag, e.act); }
      if Known(p, job) {
        if e.Worker? { JobStepOfWorker(p, e.tag, e.act, job); } else { JobStepOfOthers(p, e, job); }
      } else if Known(Step(p, e), job) && !e.Worker? {
        NewJobStep(p, e, job);
      }
      hide Step, JobAfter, Sound;
    }
  }

  // ----- attempts are exactly the committed starts -----

  /** Committed starts of `job` since it was created or last reopened by an operator. */
  function Starts(es: seq<Event>, job: nat): nat
    decreases |es|
  {
    if es == [] then 0
    else
      var before, e := es[..|es| - 1], es[|es| - 1];
      var p := Run(INITIAL, before);
      if Reopens(p, e, job) then 0
      else Starts(before, job) + (if CommitsStart(p, e, job) then 1 else 0)
  }

  /** In every committed state a job has used at most its limit, and exactly as many
      attempts as starts were committed since its creation or its last reopening. */
  lemma {:induction false} AttemptsAreCommittedStarts(es: seq<Event>, job: nat)
    ensures !Known(Run(INITIAL, es), job) ==> Starts(es, job) == 0
    ensures Known(Run(INITIAL, es), job) ==>
              Run(INITIAL, es).store.jobs[job].attempts == Starts(es, job)
              <= Run(INITIAL, es).store.jobs[job].maxAttempts
    decreases |es|
  {
    SoundRun(INITIAL, es);
    if es != [] {
      var before, e := es[..|es| - 1], es[|es| - 1];
      var p := Run(INITIAL, before);
      AttemptsAreCommittedStarts(before, job);
      SoundRun(INITIAL, before);
      JobStep(p, e, job);
    }
  }

  // ----- settled jobs stay settled -----

  /** A settled job changes exactly when a worker that began it records another result. */
  lemma SettledChangesOnlyBySettling(p: Proto, e: Event, job: nat)
    requires Sound(p) && Known(p, job) && Settled(StatusOf(p, job))
    ensures Known(Step(p, e), job)
    ensures StatusOf(Step(p, e), job) != StatusOf(p, job) <==>
              && e.Worker? && e.act.Settle? && Enabled(p, e)
              && p.deliveries[e.tag].body == Message(job)
              && SettledAs(p.deliveries[e.tag].phase).0 != StatusOf(p, job)
  {
    JobStep(p, e, job);
  }

  /** A start finds no other delivery of its job at work, and no acknowledgement raises. */
  predicate Orderly(p: Proto, e: Event) {
    && (e.Worker? && e.act.Begin? && Enabled(p, e) && p.deliveries[e.tag].body.Message? ==>
          forall t :: t in p.deliveries ==> !ActiveOn(p, t, p.deliveries[e.tag].body.job))
    && !(e.Worker? && e.act.AckRaises?)
  }

  predicate OrderlyRun(es: seq<Event>)
    decreases |es|
  {
    es == [] || (OrderlyRun(es[..|es| - 1]) && Orderly(Run(INITIAL, es[..|es| - 1]), es[|es| - 1]))
  }

  /** At most one delivery of a job is at work, and only on a job that is not settled. */
  ghost predicate OneAtWork(p: Proto) {
    && (forall t, job :: ActiveOn(p, t, job) ==> Known(p, job) && !Settled(StatusOf(p, job)))
    && (forall t, u, job :: ActiveOn(p, t, job) && ActiveOn(p, u, job) ==> t == u)
  }

  lemma ActiveBefore(p: Proto, e: Event, t: nat, job: nat)
    requires Sound(p) && Orderly(p, e) && ActiveOn(Step(p, e), t, job)
    ensures ActiveOn(p, t, job) || (CommitsStart(p, e, job) && e.tag == t)
    ensures ActiveOn(p, t, job) && e.Worker? && e.tag == t ==> e.act.Handled? || e.act.ChannelLost? || !Enabled(p, e)
  {
    if !Touches(e, t) {
      OthersUntouched(p, e, t);
    } else if e.Worker? && Enabled(p, e) {
      match e.act
      case Begin =>
      case Settle =>
      case Republish =>
      case _ =>
    }
  }

  lemma OneAtWorkStep(p: Proto, e: Event)
    requires Sound(p) && OneAtWork(p) && Orderly(p, e)
    ensures OneAtWork(Step(p, e))
  {
    var q := Step(p, e);
    forall t, job | ActiveOn(q, t, job) ensures Known(q, job) && !Settled(StatusOf(q, job)) {
      ActiveBefore(p, e, t, job);
      WorkKeepsJobOpen(p, e, t, job);
    }
    forall t, u, job | ActiveOn(q, t, job) && ActiveOn(q, u, job) ensures t == u {
      ActiveBefore(p, e, t, job);
      ActiveBefore(p, e, u, job);
    }
  }

  /** A delivery that is at work after an orderly step finds its job unsettled. */
  lemma WorkKeepsJobOpen(p: Proto, e: Event, t: nat, job: nat)
    requires Sound(p) && OneAtWork(p) && Orderly(p, e) && ActiveOn(Step(p, e), t, job)
    ensures Known(Step(p, e), job) && !Settled(StatusOf(Step(p, e), job))
  {
    ActiveBefore(p, e, t, job);
    JobStep(p, e, job);
    assert Records(p, e, job) ==> ActiveOn(p, e.tag, job);
  }

  lemma {:induction false} OrderlyRunsHaveOneAtWork(es: seq<Event>)
    requires OrderlyRun(es)
    ensures Sound(Run(INITIAL, es)) && OneAtWork(Run(INITIAL, es))
    decreases |es|
  {
    SoundRun(INITIAL, es);
    if es != [] {
      var before := es[..|es| - 1];
      OrderlyRunsHaveOneAtWork(before);
      OneAtWorkStep(Run(INITIAL, before), es[|es| - 1]);
    }
  }

  /** Settled work never regresses: once settled, the status is the same in every later
      state, whatever duplicates arrive, whenever the publish is marked, and whether an
      operator retries or the job is requested again. */
  lemma {:induction false} SettledIsFinal(es: seq<Event>, k: nat, job: nat)
    requires OrderlyRun(es) && k <= |es|
    requires Known(Run(INITIAL, es[..k]), job) && Settled(StatusOf(Run(INITIAL, es[..k]), job))
    ensures Known(Run(INITIAL, es), job)
    ensures StatusOf(Run(INITIAL, es), job) == StatusOf(Run(INITIAL, es[..k]), job)
    decreases |es|
  {
    if k == |es| {
      assert es[..k] == es;
    } else {
      var before, e := es[..|es| - 1], es[|es| - 1];
      assert before[..k] == es[..k];
      SettledIsFinal(before, k, job);
      OrderlyRunsHaveOneAtWork(before);
      var p := Run(INITIAL, before);
      SettledChangesOnlyBySettling(p, e, job);
      if StatusOf(Step(p, e), job) != StatusOf(p, job) {
        assert ActiveOn(p, e.tag, job);
        assert false;
      }
    }
  }

  // ----- without crashes no job is stuck -----

  /** Orderly, and no worker stops between its start and its result. */
  predicate Calm(p: Proto, e: Event) {
    && Orderly(p, e)
    && (e.Worker? && Enabled(p, e) && (e.act.WorkerDies? || e.act.StrayDies?) ==> !IsActive(p.deliveries[e.tag].phase))
  }

  predicate CalmRun(es: seq<Event>)
    decreases |es|
  {
    es == [] || (CalmRun(es[..|es| - 1]) && Calm(Run(INITIAL, es[..|es| - 1]), es[|es| - 1]))
  }

  ghost predicate BeingWorked(p: Proto, job: nat) {
    exists t :: ActiveOn(p, t, job)
  }

  /** Whoever works on a job holds its current attempt; a running job is being worked on;
      a job that waits has an attempt left. */
  ghost predicate NothingStuck(p: Proto) {
    && (forall t, job :: ActiveOn(p, t, job) ==> HoldsAttempt(p, t, job))
    && (forall t, u, job :: ActiveOn(p, t, job) && ActiveOn(p, u, job) ==> t == u)
    && (forall job: nat :: Known(p, job) ==> NotStuck(p, job))
  }

  predicate HoldsAttempt(p: Proto, t: nat, job: nat)
    requires ActiveOn(p, t, job)
  {
    && Known(p, job)
    && StatusOf(p, job) == Running
    && p.deliveries[t].phase.attempt == p.store.jobs[job].attempts
    && p.deliveries[t].phase.limit == p.store.jobs[job].maxAttempts
  }

  ghost predicate NotStuck(p: Proto, job: nat)
    requires Known(p, job)
  {
    && (StatusOf(p, job) == Running ==> BeingWorked(p, job))
    && (StatusOf(p, job) in {Pending, Queued} ==> p.store.jobs[job].attempts < p.store.jobs[job].maxAttempts)
  }

  lemma AttemptHeld(p: Proto, e: Event, t: nat, job: nat)
    requires Sound(p) && NothingStuck(p) && Calm(p, e) && ActiveOn(Step(p, e), t, job)
    ensures HoldsAttempt(Step(p, e), t, job)
  {
    ActiveBefore(p, e, t, job);
    JobStep(p, e, job);
    StoreStep(p, e);
    if ActiveOn(p, t, job) {
      assert HoldsAttempt(p, t, job);
      assert Records(p, e, job) ==> ActiveOn(p, e.tag, job);
      SamePhaseData(p, e, t, job);
    }
  }

  lemma SamePhaseData(p: Proto, e: Event, t: nat, job: nat)
    requires Sound(p) && Orderly(p, e) && ActiveOn(p, t, job) && ActiveOn(Step(p, e), t, job)
    ensures Step(p, e).deliveries[t].phase.attempt == p.deliveries[t].phase.attempt
    ensures Step(p, e).deliveries[t].phase.limit == p.deliveries[t].phase.limit
  {
    ActiveBefore(p, e, t, job);
    if !Touches(e, t) { OthersUntouched(p, e, t); }
  }

  /** A worker of the job that is not the one the step settles or loses is still there. */
  lemma StillWorked(p: Proto, e: Event, t: nat, job: nat)
    requires Sound(p) && Calm(p, e) && ActiveOn(p, t, job)
    requires !Records(p, e, job)
    ensures ActiveOn(Step(p, e), t, job)
  {
    if !Touches(e, t) {
      OthersUntouched(p, e, t);
    }
  }

  lemma NotStuckStep(p: Proto, e: Event, job: nat)
    requires Sound(p) && NothingStuck(p) && Calm(p, e) && Known(Step(p, e), job)
    ensures NotStuck(Step(p, e), job)
  {
    var q := Step(p, e);
    JobStep(p, e, job);
    if StatusOf(q, job) == Running {
      if CommitsStart(p, e, job) {
        StartedIsActive(p, e, job);
      } else {
        assert Known(p, job) && StatusOf(p, job) == Running && !Records(p, e, job);
        var t :| ActiveOn(p, t, job);
        StillWorked(p, e, t, job);
      }
    } else if Records(p, e, job) {
      assert HoldsAttempt(p, e.tag, job);
    }
  }

  lemma StartedIsActive(p: Proto, e: Event, job: nat)
    requires CommitsStart(p, e, job)
    ensures ActiveOn(Step(p, e), e.tag, job)
  {
  }

  lemma NothingStuckStep(p: Proto, e: Event)
    requires Sound(p) && NothingStuck(p) && Calm(p, e)
    ensures NothingStuck(Step(p, e))
  {
    var q := Step(p, e);
    forall t, job | ActiveOn(q, t, job) ensures HoldsAttempt(q, t, job) {
      AttemptHeld(p, e, t, job);
    }
    forall t, u, job | ActiveOn(q, t, job) && ActiveOn(q, u, job) ensures t == u {
      ActiveBefore(p, e, t, job);
      ActiveBefore(p, e, u, job);
    }
    forall job: nat | Known(q, job) ensures NotStuck(q, job) {
      NotStuckStep(p, e, job);
    }
  }

  lemma {:induction false} CalmRunsAreNotStuck(es: seq<Event>)
    requires CalmRun(es)
    ensures Sound(Run(INITIAL, es)) && NothingStuck(Run(INITIAL, es))
    decreases |es|
  {
    SoundRun(INITIAL, es);
    if es != [] {
      var before := es[..|es| - 1];
      CalmRunsAreNotStuck(before);
      NothingStuckStep(Run(INITIAL, before), es[|es| - 1]);
    }
  }

  /** In a calm run the message of an unfinished job, delivered while nobody works on the
      job, always starts it: the start cannot roll back. */
  lemma CalmStartsCommit(es: seq<Event>, t: nat, job: nat)
    requires CalmRun(es)
    requires Known(Run(INITIAL, es), job) && !Terminal(StatusOf(Run(INITIAL, es), job))
    requires Enabled(Run(INITIAL, es), Worker(t, Begin)) && Run(INITIAL, es).deliveries[t].body == Message(job)
    requires Orderly(Run(INITIAL, es), Worker(t, Begin))
    ensures ActiveOn(Step(Run(INITIAL, es), Worker(t, Begin)), t, job)
  {
    var p := Run(INITIAL, es);
    CalmRunsAreNotStuck(es);
    assert NotStuck(p, job);
    hide Run, CalmRun, Sound, NothingStuck;
    assert !BeingWorked(p, job);
  }

  /** A job takes at most as many handler runs as it has attempts: once that many starts have
      been committed in a calm run and nobody is at work, it is settled or failed. */
  lemma CalmRunsSettleInTime(es: seq<Event>, job: nat)
    requires CalmRun(es) && Known(Run(INITIAL, es), job)
    requires Starts(es, job) >= Run(INITIAL, es).store.jobs[job].maxAttempts && !BeingWorked(Run(INITIAL, es), job)
    ensures Starts(es, job) == Run(INITIAL, es).store.jobs[job].maxAttempts
    ensures Terminal(StatusOf(Run(INITIAL, es), job))
  {
    CalmRunsAreNotStuck(es);
    AttemptsAreCommittedStarts(es, job);
    assert NotStuck(Run(INITIAL, es), job);
    hide Run, CalmRun, Sound, NothingStuck, Starts, BeingWorked;
  }

  /** One pass of the consumer over a job: start it, run the handler, record the outcome. */
  function Pass(st: Store, job: nat, o: Outcome): Store {
    match StartOutcome(st, job)
    case Started(attempt, limit) => Finish(Start(st, job), job, SettledAs(Done(o, attempt, limit)).0)
    case _ => st
  }

  /** Passes go on while a retry message exists, that is, until the job is done. */
  function Passes(st: Store, job: nat, os: seq<Outcome>): Store
    requires job < |st.jobs|
    decreases |os|
  {
    if os == [] || Terminal(st.jobs[job].status) then st else Passes(Pass(st, job, os[0]), job, os[1..])
  }

  /** However the handler ends each time, a job that waits is settled or failed after as many
      passes as it has attempts left. */
  lemma {:induction false} SettlesWithinItsAttempts(st: Store, job: nat, os: seq<Outcome>)
    requires job < |st.jobs| && st.jobs[job].status in {Pending, Queued}
    requires st.jobs[job].attempts < st.jobs[job].maxAttempts
    requires |os| >= st.jobs[job].maxAttempts - st.jobs[job].attempts
    requires forall i :: 0 <= i < |os| && os[i].Ok? ==> Successful(os[i].status)
    ensures job < |Passes(st, job, os).jobs|
    ensures Terminal(Passes(st, job, os).jobs[job].status)
    decreases |os|
  {
    var next := Pass(st, job, os[0]);
    if next.jobs[job].status == Queued {
      SettlesWithinItsAttempts(next, job, os[1..]);
    } else {
      assert Terminal(next.jobs[job].status);
    }
  }

  // ----- which jobs can never end -----

  /** A worker in this phase can still settle or fail its job: it works, or has a result that
      ends the job, or an acknowledgement that may raise after the last attempt. */
  predicate CanEnd(phase: Phase) {
    match phase
    case Working(_, _) => true
    case Done(_, _, _) => Terminal(SettledAs(phase).0)
    case Acking(guarded, attempt, limit) => guarded && attempt >= limit
    case _ => false
  }

  predicate EndsIt(p: Proto, t: nat, job: nat) {
    t in p.deliveries && p.deliveries[t].body == Message(job) && CanEnd(p.deliveries[t].phase)
  }

  /** Neither settled nor failed, out of attempts, and no worker can end it. */
  ghost predicate Abandoned(p: Proto, job: nat) {
    && Known(p, job)
    && !Terminal(StatusOf(p, job))
    && p.store.jobs[job].attempts == p.store.jobs[job].maxAttempts
    && (forall t :: !EndsIt(p, t, job))
  }

  lemma WorkersKeepBodies(p: Proto, t: nat, act: Act)
    requires Enabled(p, Worker(t, act)) && t in Step(p, Worker(t, act)).deliveries
    ensures Step(p, Worker(t, act)).deliveries[t].body == p.deliveries[t].body
  {
    match act
    case Begin =>
    case _ =>
  }

  lemma WorkerStaysUseless(p: Proto, t: nat, act: Act, job: nat)
    requires Abandoned(p, job) && Enabled(p, Worker(t, act)) && p.deliveries[t].body == Message(job)
    requires SaneDelivery(p.deliveries[t], |p.store.jobs|)
    ensures !EndsIt(Step(p, Worker(t, act)), t, job)
  {
    assert !EndsIt(p, t, job);
    match act
    case Begin =>
    case Settle =>
    case AckRaises =>
    case _ =>
  }

  lemma StaysUseless(p: Proto, e: Event, t: nat, job: nat)
    requires Sound(p) && Abandoned(p, job)
    ensures !EndsIt(Step(p, e), t, job)
  {
    hide WorkerStep;
    if !Touches(e, t) {
      OthersUntouched(p, e, t);
      hide Step, CanEnd;
      assert !EndsIt(p, t, job);
    } else if e.Worker? && Enabled(p, e) {
      if p.deliveries[t].body == Message(job) {
        WorkerStaysUseless(p, t, e.act, job);
      } else if t in Step(p, e).deliveries {
        WorkersKeepBodies(p, t, e.act);
      }
    } else {
      assert !EndsIt(p, t, job);
    }
  }

  lemma AbandonedStep(p: Proto, e: Event, job: nat)
    requires Sound(p) && Abandoned(p, job)
    ensures Abandoned(Step(p, e), job)
  {
    JobStep(p, e, job);
    hide Step, Sound, WorkerStep;
    assert Records(p, e, job) ==> !EndsIt(p, e.tag, job);
    forall t ensures !EndsIt(Step(p, e), t, job) { StaysUseless(p, e, t, job); }
  }

  lemma {:induction false} AbandonedForEver(p: Proto, es: seq<Event>, job: nat)
    requires Sound(p) && Abandoned(p, job)
    ensures Abandoned(Run(p, es), job)
    decreases |es|
  {
    if es != [] {
      AbandonedForEver(p, es[..|es| - 1], job);
      SoundRun(p, es[..|es| - 1]);
      AbandonedStep(Run(p, es[..|es| - 1]), es[|es| - 1], job);
    }
  }

  predicate Ended(p: Proto, job: nat) {
    Known(p, job) && Terminal(StatusOf(p, job))
  }

  lemma Extended(p: Proto, es: seq<Event>, e: Event)
    ensures Run(p, es + [e]) == Step(Run(p, es), e)
  {
    assert (es + [e])[..|es|] == es;
  }

  /** A worker with a final result records it. */
  lemma SettlingEnds(p: Proto, es: seq<Event>, t: nat, job: nat)
    requires var q := Run(p, es);
             Sound(q) && Known(q, job) && EndsIt(q, t, job) && q.deliveries[t].phase.Done?
    ensures exists fs :: Ended(Run(p, fs), job)
  {
    var q, e := Run(p, es), Worker(t, Settle);
    Extended(p, es, e);
    JobStep(q, e, job);
    assert Records(q, e, job);
    hide Step, Run, Sound;
    assert Ended(Run(p, es + [e]), job);
  }

  /** A worker at work may fail the job for good. */
  lemma WorkingEnds(p: Proto, es: seq<Event>, t: nat, job: nat)
    requires var q := Run(p, es);
             Sound(q) && Known(q, job) && EndsIt(q, t, job) && q.deliveries[t].phase.Working?
    ensures exists fs :: Ended(Run(p, fs), job)
  {
    var q, e := Run(p, es), Worker(t, Handled(Permanent));
    Extended(p, es, e);
    JobStep(q, e, job);
    SoundStep(q, e);
    var d := q.deliveries[t];
    assert Step(q, e).deliveries[t] == d.(phase := Done(Permanent, d.phase.attempt, d.phase.limit));
    hide Step, Run, Sound;
    SettlingEnds(p, es + [e], t, job);
  }

  /** An acknowledgement after the last attempt may raise, and the failure is final. */
  lemma RaisingEnds(p: Proto, es: seq<Event>, t: nat, job: nat)
    requires var q := Run(p, es);
             Sound(q) && Known(q, job) && EndsIt(q, t, job) && q.deliveries[t].phase.Acking?
    ensures exists fs :: Ended(Run(p, fs), job)
  {
    var q, e := Run(p, es), Worker(t, AckRaises);
    Extended(p, es, e);
    JobStep(q, e, job);
    SoundStep(q, e);
    var d := q.deliveries[t];
    assert Step(q, e).deliveries[t] == d.(phase := Done(Transient, d.phase.attempt, d.phase.limit));
    hide Step, Run, Sound;
    SettlingEnds(p, es + [e], t, job);
  }

  lemma {:induction false} AFreshTag(tags: set<nat>) returns (t: nat)
    ensures forall u :: u in tags ==> u < t
    decreases tags
  {
    t := 0;
    if tags != {} {
      var u :| u in tags;
      var v := AFreshTag(tags - {u});
      t := if u < v then v else u + 1;
      forall w | w in tags ensures w < t { assert w == u || w in tags - {u}; }
    }
  }

  /** The message of a job comes once more. */
  lemma TheMessageComes(p: Proto, job: nat) returns (es: seq<Event>, t: nat)
    ensures t !in p.deliveries
    ensures Run(p, es) == p.(deliveries := p.deliveries[t := Delivery(Message(job), Got, true)])
  {
    t := AFreshTag(p.deliveries.Keys);
    var m := Message(job);
    var p1 := p.(waiting := p.waiting + multiset{m});
    Extended(p, [], Foreign(m));
    Extended(p, [] + [Foreign(m)], Deliver(t, m));
    assert p1.waiting - multiset{m} == p.waiting;
    es := [] + [Foreign(m)] + [Deliver(t, m)];
  }

  /** While an attempt is left, the message may come once more, start the job and fail it. */
  lemma AnAttemptEnds(p: Proto, job: nat)
    requires Sound(p) && Known(p, job) && !Terminal(StatusOf(p, job))
    requires p.store.jobs[job].attempts < p.store.jobs[job].maxAttempts
    ensures exists fs :: Ended(Run(p, fs), job)
  {
    hide Step, Run, Sound, CanEnd;
    var es, t := TheMessageComes(p, job);
    Extended(p, es, Worker(t, Begin));
    SoundRun(p, es + [Worker(t, Begin)]);
    BeginningWorks(Run(p, es), t, job);
    WorkingEnds(p, es + [Worker(t, Begin)], t, job);
  }

  lemma BeginningWorks(p: Proto, t: nat, job: nat)
    requires Known(p, job) && StartOutcome(p.store, job).Started?
    requires t in p.deliveries && p.deliveries[t] == Delivery(Message(job), Got, true)
    ensures var q := Step(p, Worker(t, Begin));
            EndsIt(q, t, job) && q.deliveries[t].phase.Working? && Known(q, job)
  {
  }

  /** A job never ends, whatever happens, if and only if it is abandoned. */
  lemma NeverEndsExactlyWhenAbandoned(p: Proto, job: nat)
    requires Sound(p) && Known(p, job)
    ensures Abandoned(p, job) <==> forall es :: !Ended(Run(p, es), job)
  {
    if Abandoned(p, job) {
      forall es ensures !Ended(Run(p, es), job) { AbandonedForEver(p, es, job); }
    } else {
      assert Run(p, []) == p;
      hide Run, Sound;
      if Terminal(StatusOf(p, job)) {
        assert Ended(Run(p, []), job);
      } else if p.store.jobs[job].attempts != p.store.jobs[job].maxAttempts {
        assert p.store.jobs[job].attempts < p.store.jobs[job].maxAttempts by { AttemptsFit(p, job); }
        AnAttemptEnds(p, job);
      } else {
        var t :| EndsIt(p, t, job);
        match p.deliveries[t].phase
        case Working(_, _) => WorkingEnds(p, [], t, job);
        case Done(_, _, _) => SettlingEnds(p, [], t, job);
        case Acking(_, _, _) => RaisingEnds(p, [], t, job);
      }
    }
  }

  lemma AttemptsFit(p: Proto, job: nat)
    requires Sound(p) && Known(p, job)
    ensures p.store.jobs[job].attempts <= p.store.jobs[job].maxAttempts
  {
  }
}
