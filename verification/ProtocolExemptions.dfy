/** Exempt resources: an action that was requested as exempt is recorded as such and never executed. */
module ProtocolExemptions {
  import opened Wrappers
  import opened StateStore
  import opened Protocol
  import opened ProtocolRuns
  import opened ProtocolWitnesses

  // Event `i` starts web call `c` for `payload`, exempt or not.
  predicate Requested(max: int, now: nat, es: seq<Event>, i: nat, c: nat, payload: string, exempt: bool)
    requires i < |es|
  {
    es[i] == Request(c, payload, exempt) && c !in At(max, now, es, i).clients
  }

  // Event `j` is a step of call `c`, and the record is there after it but not before.
  predicate Creates(max: int, now: nat, es: seq<Event>, j: nat, c: nat)
    requires j < |es|
  {
    && es[j].Advance? && es[j].c == c
    && At(max, now, es, j).action.None? && At(max, now, es, j + 1).action.Some?
  }

  lemma CreatingStays(s: State, e: Event, c: nat, payload: string, exempt: bool)
    requires c in s.clients && (s.clients[c].Creating? ==> s.clients[c] == Creating(payload, exempt))
    ensures c in Apply(s, e).clients
    ensures Apply(s, e).clients[c].Creating? ==> Apply(s, e).clients[c] == Creating(payload, exempt)
  {}

  // A call that has not created anything yet still wants what it was started for.
  lemma {:induction false} CreatingAsRequested(max: int, now: nat, es: seq<Event>, i: nat, j: nat, c: nat,
                                               payload: string, exempt: bool)
    requires i < j <= |es| && Requested(max, now, es, i, c, payload, exempt)
    ensures var s := At(max, now, es, j);
      c in s.clients && (s.clients[c].Creating? ==> s.clients[c] == Creating(payload, exempt))
    decreases j
  {
    AtNext(max, now, es, j - 1);
    if j > i + 1 {
      CreatingAsRequested(max, now, es, i, j - 1, c, payload, exempt);
      CreatingStays(At(max, now, es, j - 1), es[j - 1], c, payload, exempt);
    }
  }

  lemma CreationStep(s: State, e: Event, c: nat)
    requires Inv(s) && e.Advance? && e.c == c && s.action.None? && Apply(s, e).action.Some?
    ensures c in s.clients && s.clients[c].Creating?
    ensures var a := Apply(s, e).action.value;
      && a.fingerprint == s.clients[c].payload && a.attempts == 0
      && a.status == if s.clients[c].exempt then SKIPPED_EXEMPT else PENDING
    ensures var t := Apply(s, e); t.claimers == {} && t.started == {} && t.mutations == 0
  {
    assert c in s.clients ==> ClientInv(s, c);
    assert s.claimers == {} && s.started == {};
  }

  lemma CreatedAsRequested(max: int, now: nat, es: seq<Event>, i: nat, j: nat, c: nat, payload: string, exempt: bool)
    requires i < j < |es| && Requested(max, now, es, i, c, payload, exempt) && Creates(max, now, es, j, c)
    ensures var t := At(max, now, es, j + 1);
      && t.action.value.fingerprint == payload && t.action.value.attempts == 0
      && t.action.value.status == (if exempt then SKIPPED_EXEMPT else PENDING)
      && t.claimers == {} && t.started == {} && t.mutations == 0
  {
    CreatingAsRequested(max, now, es, i, j, c, payload, exempt);
    AtNext(max, now, es, j);
    CreationStep(At(max, now, es, j), es[j], c);
  }

  /** An action created by a call for an exempt resource stays skipped: in every state of every continuation it has been
      claimed by no call and executed by none, whatever requests and workers follow. */
  lemma ExemptNeverExecuted(max: int, now: nat, es: seq<Event>, i: nat, j: nat, k: nat, c: nat, payload: string)
    requires i < j < k <= |es| && Requested(max, now, es, i, c, payload, true) && Creates(max, now, es, j, c)
    ensures var s := At(max, now, es, k);
      && s.action.Some? && s.action.value.status == SKIPPED_EXEMPT && s.action.value.attempts == 0
      && s.claimers == {} && s.started == {} && s.mutations == 0
  {
    CreatedAsRequested(max, now, es, i, j, c, payload, true);
    TerminalAbsorbs(max, now, es, j + 1, k);
    Reachable(max, now, es[..k]);
    hide Inv, RecordInv;
    LogsOfRun(max, now, es, k);
  }

  lemma LogsOfRun(max: int, now: nat, es: seq<Event>, k: nat)
    requires k <= |es|
    ensures var s := At(max, now, es, k); s.started <= s.claimers && s.mutations == |s.started|
  {
    Reachable(max, now, es[..k]);
  }

  /** An action created by a call for a resource that is not exempt is executed as soon as a worker gets to it. */
  lemma OtherwiseExecutable(max: int, now: nat, es: seq<Event>, i: nat, j: nat, c: nat, payload: string, d: nat,
                            worker: string)
    requires max >= 1 && i < j < |es| && d !in At(max, now, es, j + 1).clients
    requires Requested(max, now, es, i, c, payload, false) && Creates(max, now, es, j, c)
    ensures var s := At(max, now, es, j + 1);
      var t := After(s, [Deliver(d, worker), Go(d, Succeeded), Go(d, Succeeded), Go(d, Succeeded)]);
      s.mutations == 0 && t.mutations == 1 && t.started == {d}
  {
    var s := At(max, now, es, j + 1);
    CreatedAsRequested(max, now, es, i, j, c, payload, false);
    KeepsMax(Init(max, now), es[..j + 1]);
    hide At, After;
    TakeWorks(s, d, worker);
  }
}
