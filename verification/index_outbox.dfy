/** The outbox over every run: what the two columns of a row say about its history. */
module IndexOutbox {
  import opened IndexContracts
  import opened IndexStore
  import opened IndexProtocol

  /** The marking of the row is committed in this step. */
  predicate MarksNow(p: Proto, e: Event, row: nat) {
    e == Mark(row) && row < |p.store.outbox| && row in p.confirmed && p.store.outbox[row].job < |p.store.jobs|
  }

  /** An error of the publisher is recorded on the row in this step. */
  predicate RecordsError(p: Proto, e: Event, row: nat) {
    e == PublishFailed(row) && row < |p.store.outbox|
  }

  ghost predicate WasMarked(es: seq<Event>, row: nat) {
    exists k :: 0 <= k < |es| && MarksNow(Run(INITIAL, es[..k]), es[k], row)
  }

  function ErrorsRecorded(es: seq<Event>, row: nat): nat
    decreases |es|
  {
    if es == [] then 0
    else
      var before := es[..|es| - 1];
      ErrorsRecorded(before, row) + (if RecordsError(Run(INITIAL, before), es[|es| - 1], row) then 1 else 0)
  }

  lemma MarkedUpToTheLast(es: seq<Event>, row: nat)
    requires es != []
    ensures var before := es[..|es| - 1];
            WasMarked(es, row) <==> WasMarked(before, row) || MarksNow(Run(INITIAL, before), es[|es| - 1], row)
  {
    var before := es[..|es| - 1];
    if k :| 0 <= k < |before| && MarksNow(Run(INITIAL, before[..k]), before[k], row) {
      assert before[..k] == es[..k] && MarksNow(Run(INITIAL, es[..k]), es[k], row);
    }
    if k :| 0 <= k < |es| && MarksNow(Run(INITIAL, es[..k]), es[k], row) {
      if k < |before| { assert before[..k] == es[..k] && MarksNow(Run(INITIAL, before[..k]), before[k], row); }
    }
  }

  lemma WorkersLeaveRows(p: Proto, tag: nat, act: Act)
    ensures Step(p, Worker(tag, act)).store.outbox == p.store.outbox
  {
    if Enabled(p, Worker(tag, act)) {
      match act
      case Begin =>
      case Settle =>
      case _ =>
    }
  }

  /** A step leaves a row alone but for a marking, which counts once, and a recorded error. */
  lemma RowStep(p: Proto, e: Event, row: nat)
    requires row < |p.store.outbox|
    ensures row < |Step(p, e).store.outbox|
    ensures var a, b := p.store.outbox[row], Step(p, e).store.outbox[row];
            && b.job == a.job && (b.sent <==> a.sent || MarksNow(p, e, row))
            && b.tries == a.tries + (if RecordsError(p, e, row) || (MarksNow(p, e, row) && !a.sent) then 1 else 0)
  {
    if e.Worker? { WorkersLeaveRows(p, e.tag, e.act); }
    hide WorkerStep;
  }

  lemma NewRowStep(p: Proto, e: Event, row: nat)
    requires |p.store.outbox| <= row < |Step(p, e).store.outbox|
    ensures !Step(p, e).store.outbox[row].sent && Step(p, e).store.outbox[row].tries == 0
    ensures !MarksNow(p, e, row) && !RecordsError(p, e, row)
  {
    if e.Worker? { WorkersLeaveRows(p, e.tag, e.act); }
    hide WorkerStep;
  }

  lemma {:induction false} NothingYet(es: seq<Event>, row: nat)
    requires row >= |Run(INITIAL, es).store.outbox|
    ensures !WasMarked(es, row) && ErrorsRecorded(es, row) == 0
    decreases |es|
  {
    if es != [] {
      var before := es[..|es| - 1];
      var p := Run(INITIAL, before);
      if row < |p.store.outbox| { RowStep(p, es[|es| - 1], row); }
      NothingYet(before, row);
      MarkedUpToTheLast(es, row);
    }
  }

  /** In every state a row is sent exactly when its marking has been committed, and its count
      of publish attempts is one for that and one for each error recorded on it. */
  lemma {:induction false} AttemptsToPublishAreCounted(es: seq<Event>, row: nat)
    requires row < |Run(INITIAL, es).store.outbox|
    ensures var r := Run(INITIAL, es).store.outbox[row];
            (r.sent <==> WasMarked(es, row)) && r.tries == ErrorsRecorded(es, row) + (if r.sent then 1 else 0)
    decreases |es|
  {
    var before, e := es[..|es| - 1], es[|es| - 1];
    var p := Run(INITIAL, before);
    MarkedUpToTheLast(es, row);
    hide Step, WasMarked;
    if row < |p.store.outbox| {
      AttemptsToPublishAreCounted(before, row);
      RowStep(p, e, row);
    } else {
      NothingYet(before, row);
      NewRowStep(p, e, row);
    }
  }
}
