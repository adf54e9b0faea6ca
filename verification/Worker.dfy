/** The queue worker: which messages of a batch it deletes. */
module Worker {
  import opened Wrappers
  import opened Timestamps
  import opened StateStore
  import opened Protocol
  import opened RemediationEngine

  datatype Body =
    | Unreadable  // not JSON, or not an object
    | Object(version: Option<string>, jobId: Option<string>, jobType: Option<string>, correlated: bool,
             payload: Option<map<string, string>>)  // None: missing, or not an object

  predicate NonEmpty(s: Option<string>) {
    s.Some? && s.value != ""
  }

  predicate ValidMessage(b: Body) {
    && b.Object? && b.version == Some("1") && NonEmpty(b.jobId) && NonEmpty(b.jobType) && b.correlated
    && b.payload.Some?
    && (b.jobType.value == "REMEDIATION" ==> "action_id" in b.payload.value)
  }

  predicate Remediation(b: Body) {
    ValidMessage(b) && b.jobType.value == "REMEDIATION"
  }

  function ActionId(b: Body): string
    requires Remediation(b)
  {
    b.payload.value["action_id"]
  }

  predicate Done(actions: map<string, Action>, id: string) {
    id in actions && Terminal(actions[id])
  }

  /** A worker call that is not interfered with deletes its message exactly when it leaves a terminal action. */
  lemma DeletesExactlyWhenDone(before: Option<Action>, max: int, now: nat, worker: string, outcome: Outcome)
    ensures var alone := Alone(before, max, now, Reading(worker), outcome, STEPS);
            alone.pc.Finished? && (alone.pc.result.Deletable? <==> alone.action.Some? && Terminal(alone.action.value))
  {
    hide Alone, Local;
    FirstRead(before, max, now, worker, outcome);
    if before.Some? && !Terminal(before.value) {
      var a := before.value;
      var claiming := Claiming(a.fingerprint, a, Queue(worker), now);
      if Claimable(a, max, Who(claiming, now), now) { RunsAlone(a, max, now, claiming, outcome, 4); }
      else if Exhausted(a, max) { ClosesAlone(a, max, now, claiming, outcome, 4); }
      else { RefusedAlone(a, max, now, claiming, outcome, 4); }
    }
  }

  // A worker call leaves a terminal action alone.
  lemma DoneStaysDone(a: Action, max: int, now: nat, worker: string, outcome: Outcome)
    requires Terminal(a)
    ensures Alone(Some(a), max, now, Reading(worker), outcome, STEPS).action == Some(a)
  {
    hide Alone, Local;
    FirstRead(Some(a), max, now, worker, outcome);
  }

  // The actions after one message of a batch.
  function AfterMessage(actions: map<string, Action>, b: Body, max: int, worker: string, outcome: Outcome, now: nat)
    : map<string, Action>
  {
    if !Remediation(b) then actions
    else
      var id := ActionId(b);
      var after := Alone(Record(actions, id), max, now, Reading(worker), outcome, STEPS).action;
      if after.Some? then actions[id := after.value] else actions
  }

  // The actions after the first `n` messages.
  function AfterMessages(actions: map<string, Action>, batch: seq<Body>, max: int, worker: string,
                         outcomes: seq<Outcome>, now: nat, n: nat): map<string, Action>
    requires |outcomes| == |batch| && n <= |batch|
  {
    if n == 0 then actions
    else
      AfterMessage(AfterMessages(actions, batch, max, worker, outcomes, now, n - 1), batch[n - 1], max, worker,
                   outcomes[n - 1], now)
  }

  // Whether the message is to be deleted.
  method ProcessMessage(b: Body, engine: RemediationEngine, worker: string, outcome: Outcome, now: nat)
    returns (success: bool)
    requires ValidMessage(b) && engine.store.Valid() && InRange(now) && InRange(now + LEASE_SECONDS * MICROS)
    modifies engine.store, engine`audit
    ensures engine.store.Valid()
    ensures if Remediation(b) then success == Done(engine.store.actions, ActionId(b))
            else success == (b.jobType.value == "WORKER_HEALTH_CHECK")
    ensures engine.store.actions == AfterMessage(old(engine.store.actions), b, engine.max, worker, outcome, now)
    ensures forall id :: Done(old(engine.store.actions), id) ==> Done(engine.store.actions, id)
  {
    hide Alone, Local;
    if b.jobType.value == "WORKER_HEALTH_CHECK" {
      success := true;
    } else if b.jobType.value == "REMEDIATION" {
      var id := b.payload.value["action_id"];
      ghost var before := Record(engine.store.actions, id);
      success := engine.ProcessAsync(id, worker, outcome, now);
      DeletesExactlyWhenDone(before, engine.max, now, worker, outcome);
      if before.Some? && Terminal(before.value) { DoneStaysDone(before.value, engine.max, now, worker, outcome); }
    } else {
      success := false;
    }
  }

  // A message that may go: a health check, or a remediation of a terminal action.
  predicate MayGo(b: Body, actions: map<string, Action>) {
    ValidMessage(b) && (b.jobType.value == "WORKER_HEALTH_CHECK" || (Remediation(b) && Done(actions, ActionId(b))))
  }

  // The messages among the first `n` that may go right after they have been handled.
  function Gone(actions: map<string, Action>, batch: seq<Body>, max: int, worker: string, outcomes: seq<Outcome>,
                now: nat, n: nat): set<nat>
    requires |outcomes| == |batch| && n <= |batch|
  {
    if n == 0 then {}
    else
      Gone(actions, batch, max, worker, outcomes, now, n - 1) +
      if MayGo(batch[n - 1], AfterMessages(actions, batch, max, worker, outcomes, now, n)) then {n - 1} else {}
  }

  lemma {:induction false} GoneExactly(actions: map<string, Action>, batch: seq<Body>, max: int, worker: string,
                                       outcomes: seq<Outcome>, now: nat, n: nat, i: nat)
    requires |outcomes| == |batch| && n <= |batch|
    ensures i in Gone(actions, batch, max, worker, outcomes, now, n) <==>
        i < n && MayGo(batch[i], AfterMessages(actions, batch, max, worker, outcomes, now, i + 1))
  {
    hide MayGo;
    if n > 0 { GoneExactly(actions, batch, max, worker, outcomes, now, n - 1, i); }
  }

  lemma DoneNext(actions: map<string, Action>, b: Body, max: int, worker: string, outcome: Outcome, now: nat,
                 id: string)
    requires Done(actions, id)
    ensures Done(AfterMessage(actions, b, max, worker, outcome, now), id)
  {
    if Remediation(b) && ActionId(b) == id { DoneStaysDone(actions[id], max, now, worker, outcome); }
  }

  lemma {:induction false} DoneLater(actions: map<string, Action>, batch: seq<Body>, max: int, worker: string,
                                     outcomes: seq<Outcome>, now: nat, i: nat, n: nat, id: string)
    requires |outcomes| == |batch| && i <= n <= |batch|
    requires Done(AfterMessages(actions, batch, max, worker, outcomes, now, i), id)
    ensures Done(AfterMessages(actions, batch, max, worker, outcomes, now, n), id)
    decreases n
  {
    hide AfterMessage, Done;
    if i < n {
      DoneLater(actions, batch, max, worker, outcomes, now, i, n - 1, id);
      DoneNext(AfterMessages(actions, batch, max, worker, outcomes, now, n - 1), batch[n - 1], max, worker,
               outcomes[n - 1], now, id);
    }
  }

  // What may go may still go after more messages.
  lemma MayGoLater(actions: map<string, Action>, batch: seq<Body>, max: int, worker: string, outcomes: seq<Outcome>,
                   now: nat, i: nat, n: nat, b: Body)
    requires |outcomes| == |batch| && i <= n <= |batch|
    requires MayGo(b, AfterMessages(actions, batch, max, worker, outcomes, now, i))
    ensures MayGo(b, AfterMessages(actions, batch, max, worker, outcomes, now, n))
  {
    hide AfterMessages, Done;
    if Remediation(b) { DoneLater(actions, batch, max, worker, outcomes, now, i, n, ActionId(b)); }
  }

  /** A deleted message is a health check or belongs to an action that is terminal at the end of the batch, and messages
      of actions that were terminal before are deleted. */
  lemma GoneMeans(actions: map<string, Action>, batch: seq<Body>, max: int, worker: string, outcomes: seq<Outcome>,
                  now: nat, n: nat, i: nat)
    requires |outcomes| == |batch| && n <= |batch|
    ensures var gone := Gone(actions, batch, max, worker, outcomes, now, n);
      && (i in gone ==> i < n && MayGo(batch[i], AfterMessages(actions, batch, max, worker, outcomes, now, n)))
      && (i < n && MayGo(batch[i], actions) ==> i in gone)
  {
    hide *;
    GoneExactly(actions, batch, max, worker, outcomes, now, n, i);
    NoMessages(actions, batch, max, worker, outcomes, now);
    if i < n && MayGo(batch[i], AfterMessages(actions, batch, max, worker, outcomes, now, i + 1)) {
      MayGoLater(actions, batch, max, worker, outcomes, now, i + 1, n, batch[i]);
    }
    if i < n && MayGo(batch[i], actions) {
      MayGoLater(actions, batch, max, worker, outcomes, now, 0, i + 1, batch[i]);
    }
  }

  lemma NoMessages(actions: map<string, Action>, batch: seq<Body>, max: int, worker: string, outcomes: seq<Outcome>,
                   now: nat)
    requires |outcomes| == |batch|
    ensures AfterMessages(actions, batch, max, worker, outcomes, now, 0) == actions
  {}

  /** Which messages go, in terms of the message itself: version "1", a job id and type, a correlation id and a payload;
      and either a health check, or a remediation whose action is completed, failed or skipped right after its own
      call. */
  lemma GoneMessages(actions: map<string, Action>, batch: seq<Body>, max: int, worker: string, outcomes: seq<Outcome>,
                     now: nat, n: nat, i: nat)
    requires |outcomes| == |batch| && n <= |batch|
    ensures i in Gone(actions, batch, max, worker, outcomes, now, n) <==>
      && i < n && batch[i].Object? && batch[i].version == Some("1")
      && batch[i].jobId.Some? && |batch[i].jobId.value| > 0 && batch[i].correlated && batch[i].payload.Some?
      && var after := AfterMessages(actions, batch, max, worker, outcomes, now, i + 1);
         || batch[i].jobType == Some("WORKER_HEALTH_CHECK")
         || (batch[i].jobType == Some("REMEDIATION") && "action_id" in batch[i].payload.value &&
             batch[i].payload.value["action_id"] in after &&
             after[batch[i].payload.value["action_id"]].status in {COMPLETED, FAILED, SKIPPED_EXEMPT})
  {
    GoneExactly(actions, batch, max, worker, outcomes, now, n, i);
    hide Gone, AfterMessages;
  }

  function Min(a: nat, b: nat): nat {
    if a < b then a else b
  }

  /** One received batch; shutdown is requested before message `stop`. The messages before it are handled in order, and
      of these exactly the health checks and the remediations whose action is terminal right after their own call are
      deleted. */
  method RunBatch(batch: seq<Body>, engine: RemediationEngine, worker: string, outcomes: seq<Outcome>, now: nat,
                  stop: nat)
    returns (deleted: set<nat>)
    requires |outcomes| == |batch|
    requires engine.store.Valid() && InRange(now) && InRange(now + LEASE_SECONDS * MICROS)
    modifies engine.store, engine`audit
    ensures engine.store.Valid()
    ensures var was, n := old(engine.store.actions), Min(|batch|, stop);
      && engine.store.actions == AfterMessages(was, batch, engine.max, worker, outcomes, now, n)
      && deleted == Gone(was, batch, engine.max, worker, outcomes, now, n)
    ensures forall i :: i in deleted ==> i < |batch| && i < stop && MayGo(batch[i], engine.store.actions)
    ensures forall i :: 0 <= i < |batch| && i < stop && MayGo(batch[i], old(engine.store.actions)) ==> i in deleted
    ensures forall id :: Done(old(engine.store.actions), id) ==> Done(engine.store.actions, id)
  {
    hide AfterMessage, MayGo, Done;
    deleted := {};
    ghost var was := engine.store.actions;
    var i := 0;
    while i < |batch|
      invariant i <= Min(|batch|, stop) && engine.store.Valid()
      invariant engine.store.actions == AfterMessages(was, batch, engine.max, worker, outcomes, now, i)
      invariant deleted == Gone(was, batch, engine.max, worker, outcomes, now, i)
    {
      if i >= stop { break; }
      var success := false;
      if ValidMessage(batch[i]) {
        success := ProcessMessage(batch[i], engine, worker, outcomes[i], now);
      } else {
        MalformedStays(engine.store.actions, batch[i], engine.max, worker, outcomes[i], now);
      }
      assert success == MayGo(batch[i], engine.store.actions) by { HandledMayGo(batch[i], engine.store.actions); }
      if success { deleted := deleted + {i}; }
      i := i + 1;
    }
    hide AfterMessages, Gone;
    NoMessages(was, batch, engine.max, worker, outcomes, now);
    forall k: nat ensures (k in deleted ==> k < i && MayGo(batch[k], engine.store.actions)) &&
                          (k < i && MayGo(batch[k], was) ==> k in deleted) {
      GoneMeans(was, batch, engine.max, worker, outcomes, now, i, k);
    }
    forall id | Done(was, id) ensures Done(engine.store.actions, id) {
      DoneLater(was, batch, engine.max, worker, outcomes, now, 0, i, id);
    }
  }

  lemma HandledMayGo(b: Body, actions: map<string, Action>)
    ensures MayGo(b, actions) <==>
      ValidMessage(b) &&
      if Remediation(b) then Done(actions, ActionId(b)) else b.jobType.value == "WORKER_HEALTH_CHECK"
  {}

  // Malformed messages are neither handled nor deleted.
  lemma MalformedStays(actions: map<string, Action>, b: Body, max: int, worker: string, outcome: Outcome, now: nat)
    requires !ValidMessage(b)
    ensures AfterMessage(actions, b, max, worker, outcome, now) == actions && !MayGo(b, actions)
  {}
}
