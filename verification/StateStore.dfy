/** The three conditional writes on a remediation action, and the store that performs them. */
module StateStore {
  import opened Wrappers
  import opened Text
  import opened Timestamps

  datatype Status = PENDING | IN_PROGRESS | COMPLETED | FAILED | FAILED_RETRYABLE | SKIPPED_EXEMPT

  // `lease` is the instant written as text into `lease_until`.
  datatype Action = Action(
    fingerprint: string, status: Status, attempts: nat,
    lease: Option<nat>, worker: Option<string>, error: Option<string>)

  predicate Terminal(a: Action) {
    a.status in {COMPLETED, FAILED, SKIPPED_EXEMPT}
  }

  // Who claims: a web caller, or a worker with a name and the end of its new lease.
  datatype Claimant = Caller | Worker(name: string, until: nat)

  predicate LeaseExpired(a: Action, now: nat) {
    a.status == IN_PROGRESS && a.lease.Some? && a.lease.value < now
  }

  predicate Claimable(a: Action, max: int, who: Claimant, now: nat) {
    && (a.status in {PENDING, FAILED_RETRYABLE} || (who.Worker? && LeaseExpired(a, now)))
    && a.attempts < max
  }

  // The same for any list of statuses the caller names.
  predicate ClaimableFrom(a: Action, statuses: seq<Status>, max: int, who: Claimant, now: nat) {
    && (a.status in statuses || (who.Worker? && LeaseExpired(a, now)))
    && a.attempts < max
  }

  function Claimed(a: Action, who: Claimant): Action {
    var b := a.(status := IN_PROGRESS, attempts := a.attempts + 1);
    match who
    case Caller => b
    case Worker(name, until) => b.(worker := Some(name), lease := Some(until))
  }

  datatype Updates = Updates(status: Status, error: Option<string>)

  predicate Updatable(a: Action, expected: Status, updates: Updates) {
    && a.status == expected
    && (expected == IN_PROGRESS ==> updates.status in {COMPLETED, FAILED, FAILED_RETRYABLE})
  }

  function Updated(a: Action, updates: Updates): Action {
    a.(status := updates.status, error := if updates.error.Some? then updates.error else a.error)
  }

  const LEASE_SECONDS: nat := 300

  /** The in-memory store. Its lease test compares texts, as the source does. */
  class MemoryStateStore {
    var actions: map<string, Action>

    ghost predicate Valid()
      reads this
    {
      forall id :: id in actions ==> actions[id].lease.Some? ==> InRange(actions[id].lease.value)
    }

    constructor ()
      ensures Valid() && actions == map[]
    {
      actions := map[];
    }

    method Get(id: string) returns (r: Option<Action>)
      ensures r == if id in actions then Some(actions[id]) else None
    {
      r := if id in actions then Some(actions[id]) else None;
    }

    method Create(id: string, a: Action) returns (ok: bool)
      requires Valid() && a.lease == None
      modifies this
      ensures Valid()
      ensures ok == (id !in old(actions))
      ensures actions == if ok then old(actions)[id := a] else old(actions)
    {
      if id in actions { return false; }
      actions := actions[id := a];
      return true;
    }

    /** `until` is `now` plus the lease; both are clock readings. */
    method Claim(id: string, statuses: seq<Status>, max: int, worker: Option<string>, now: nat, until: nat)
      returns (ok: bool)
      requires Valid() && InRange(now) && InRange(until)
      modifies this
      ensures Valid()
      ensures var who := if worker.Some? then Worker(worker.value, until) else Caller;
              && ok == (id in old(actions) && ClaimableFrom(old(actions)[id], statuses, max, who, now))
              && actions == if ok then old(actions)[id := Claimed(old(actions)[id], who)] else old(actions)
    {
      if id !in actions { return false; }
      var item := actions[id];
      var canClaim := false;
      if item.status in statuses {
        canClaim := true;
      } else if worker.Some? && item.status == IN_PROGRESS {
        if item.lease.Some? {
          TextOrderIsTimeOrder(item.lease.value, now);
          if TextLess(IsoFormat(item.lease.value), IsoFormat(now)) {
            canClaim := true;
          }
        }
      }
      if canClaim && item.attempts < max {
        item := item.(status := IN_PROGRESS, attempts := item.attempts + 1);
        if worker.Some? {
          item := item.(worker := Some(worker.value), lease := Some(until));
        }
        actions := actions[id := item];
        return true;
      }
      return false;
    }

    method Update(id: string, updates: Updates, expected: Status) returns (ok: bool)
      requires Valid()
      modifies this
      ensures Valid()
      ensures ok == (id in old(actions) && Updatable(old(actions)[id], expected, updates))
      ensures actions == if ok then old(actions)[id := Updated(old(actions)[id], updates)] else old(actions)
    {
      if expected == IN_PROGRESS && updates.status !in {COMPLETED, FAILED, FAILED_RETRYABLE} { return false; }
      if id !in actions || actions[id].status != expected { return false; }
      var item := actions[id].(status := updates.status);
      if updates.error.Some? {
        item := item.(error := updates.error);
      }
      actions := actions[id := item];
      return true;
    }
  }
}
