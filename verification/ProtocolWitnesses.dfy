/** Runs that show where the remediation protocol stops guaranteeing things. */
module ProtocolWitnesses {
  import opened Wrappers
  import opened StateStore
  import opened Protocol
  import opened ProtocolRuns

  const LEASE: nat := LEASE_SECONDS * MICROS

  function Go(c: nat, outcome: Outcome): Event {
    Advance(c, Healthy, outcome, 0)
  }

  lemma {:induction false} AfterConcat(s: State, es: seq<Event>, fs: seq<Event>)
    ensures After(s, es + fs) == After(After(s, es), fs)
  {
    if fs == [] {
      assert es + fs == es;
    } else {
      assert (es + fs)[..|es + fs| - 1] == es + fs[..|fs| - 1];
      AfterConcat(s, es, fs[..|fs| - 1]);
    }
  }

  lemma Step1(s: State, e: Event)
    ensures After(s, [e]) == Apply(s, e)
  {
    assert [e][..0] == [];
    assert After(s, [e][..0]) == s;
  }

  lemma Steps2(s: State, a: Event, b: Event)
    ensures After(s, [a, b]) == Apply(Apply(s, a), b)
  {
    Step1(s, a);
    assert [a, b][..1] == [a];
  }

  lemma Steps4(s: State, a: Event, b: Event, c: Event, d: Event)
    ensures After(s, [a, b, c, d]) == Apply(Apply(Apply(Apply(s, a), b), c), d)
  {
    Steps2(s, a, b);
    Steps2(After(s, [a, b]), c, d);
    AfterConcat(s, [a, b], [c, d]);
    assert [a, b] + [c, d] == [a, b, c, d];
  }

  // ----- Pieces of runs.

  // A worker receives the message, reads, claims and starts to execute.
  function Take(c: nat, w: string): seq<Event> {
    [Deliver(c, w), Go(c, Succeeded), Go(c, Succeeded), Go(c, Succeeded)]
  }

  function Taken(s: State, c: nat, who: Claimant): State
    requires s.action.Some?
  {
    s.(action := Some(Claimed(s.action.value, who)),
       clients := s.clients[c := Executing(s.action.value.fingerprint, who)],
       claimers := s.claimers + {c}, started := s.started + {c}, mutations := s.mutations + 1)
  }

  predicate Free(s: State, c: nat, who: Claimant) {
    c !in s.clients && s.action.Some? && !Terminal(s.action.value) && Claimable(s.action.value, s.max, who, s.now)
  }

  lemma ReadStep(s: State, c: nat, w: string)
    requires c !in s.clients && s.action.Some? && !Terminal(s.action.value)
    ensures Apply(Apply(s, Deliver(c, w)), Go(c, Succeeded)) ==
            s.(clients := s.clients[c := Claiming(s.action.value.fingerprint, s.action.value, Queue(w), s.now)])
  {}

  lemma ClaimStep(s: State, c: nat)
    requires c in s.clients && s.clients[c].Claiming? && s.clients[c].since == s.now
    requires s.action.Some? && Claimable(s.action.value, s.max, ClaimantOf(s.clients[c].role, s.now), s.now)
    ensures var who := ClaimantOf(s.clients[c].role, s.now);
            Apply(s, Go(c, Succeeded)) ==
            s.(action := Some(Claimed(s.action.value, who)), claimers := s.claimers + {c},
               clients := s.clients[c := Granted(s.clients[c].payload, who)])
  {}

  lemma StartStep(s: State, c: nat)
    requires c in s.clients && s.clients[c].Granted?
    ensures Apply(s, Go(c, Succeeded)) ==
            s.(clients := s.clients[c := Executing(s.clients[c].payload, s.clients[c].who)],
               started := s.started + {c}, mutations := s.mutations + 1)
  {}

  lemma TakeWorks(s: State, c: nat, w: string)
    requires Free(s, c, Worker(w, s.now + LEASE))
    ensures After(s, Take(c, w)) == Taken(s, c, Worker(w, s.now + LEASE))
  {
    Steps4(s, Deliver(c, w), Go(c, Succeeded), Go(c, Succeeded), Go(c, Succeeded));
    ReadStep(s, c, w);
    hide Apply, After;
    var s2 := Apply(Apply(s, Deliver(c, w)), Go(c, Succeeded));
    ClaimStep(s2, c);
    StartStep(Apply(s2, Go(c, Succeeded)), c);
  }

  // A web caller asks for an existing record with the same payload, claims it and starts to execute.
  function Ask(c: nat, payload: string): seq<Event> {
    [Request(c, payload, false), Go(c, Succeeded), Go(c, Succeeded), Go(c, Succeeded)] + [Go(c, Succeeded)]
  }

  lemma ResolveStep(s: State, c: nat)
    requires c !in s.clients && s.action.Some? && s.action.value.status in {PENDING, FAILED_RETRYABLE}
    ensures var fp := s.action.value.fingerprint;
            Apply(Apply(Apply(s, Request(c, fp, false)), Go(c, Succeeded)), Go(c, Succeeded)) ==
            s.(clients := s.clients[c := Claiming(fp, s.action.value, Web, s.now)])
  {
    var fp := s.action.value.fingerprint;
    assert Apply(Apply(s, Request(c, fp, false)), Go(c, Succeeded)) == s.(clients := s.clients[c := Resolving(fp)]);
  }

  lemma AskWorks(s: State, c: nat)
    requires Free(s, c, Caller)
    ensures After(s, Ask(c, s.action.value.fingerprint)) == Taken(s, c, Caller)
  {
    var e, go := Request(c, s.action.value.fingerprint, false), Go(c, Succeeded);
    AfterConcat(s, [e, go, go, go], [go]);
    Steps4(s, e, go, go, go);
    ResolveStep(s, c);
    hide Apply;
    var s3 := Apply(Apply(Apply(s, e), go), go);
    ClaimStep(s3, c);
    Step1(Apply(s3, go), go);
    StartStep(Apply(s3, go), c);
  }

  // An executing call gets its outcome and reports it.
  function Finish(c: nat, o: Outcome): seq<Event> {
    [Go(c, o), Go(c, o)]
  }

  lemma ExecuteStep(s: State, c: nat, o: Outcome)
    requires c in s.clients && s.clients[c].Executing?
    ensures Apply(s, Go(c, o)) ==
            s.(outcomes := s.outcomes[c := o], clients := s.clients[c := Reporting(o, s.clients[c].who)])
  {}

  lemma ReportStep(s: State, c: nat, o: Outcome)
    requires c in s.clients && s.clients[c].Reporting? && s.action.Some?
    ensures var r, a := s.clients[c], s.action.value;
            Apply(s, Go(c, o)) ==
            s.(action := Some(if a.status == IN_PROGRESS then Updated(a, Report(r.outcome)) else a),
               clients := s.clients[c := AfterReport(r.outcome, r.who)])
  {}

  lemma FinishWorks(s: State, c: nat, o: Outcome)
    requires c in s.clients && s.clients[c].Executing? && s.action.Some?
    ensures var a := s.action.value;
            After(s, Finish(c, o)) ==
            s.(action := Some(if a.status == IN_PROGRESS then Updated(a, Report(o)) else a),
               outcomes := s.outcomes[c := o], clients := s.clients[c := AfterReport(o, s.clients[c].who)])
  {
    Steps2(s, Go(c, o), Go(c, o));
    ExecuteStep(s, c, o);
    ReportStep(s.(outcomes := s.outcomes[c := o], clients := s.clients[c := Reporting(o, s.clients[c].who)]), c, o);
  }

  // A web caller creates the record and dies before it claims.
  function Create(): seq<Event> {
    [Request(0, "p", false), Go(0, Succeeded), Crash(0), Tick(0)]
  }

  function Created(max: int, now: nat): State {
    Init(max, now).(action := Some(NewAction("p", false)), clients := map[0 := Crashed])
  }

  lemma CreateStep(s: State, c: nat, fp: string)
    requires s.action.None? && c !in s.clients
    ensures var a := NewAction(fp, false);
            Apply(Apply(s, Request(c, fp, false)), Go(c, Succeeded)) ==
            s.(action := Some(a), clients := s.clients[c := Claiming(fp, a, Web, s.now)])
  {}

  lemma CreateWorks(max: int, now: nat)
    ensures After(Init(max, now), Create()) == Created(max, now)
  {
    var s := Init(max, now);
    Steps4(s, Request(0, "p", false), Go(0, Succeeded), Crash(0), Tick(0));
    CreateStep(s, 0, "p");
  }

  // Worker 1 starts and its lease runs out; then worker 2 takes the action over.
  function Opening(): seq<Event> {
    Create() + Take(1, "a") + [Tick(LEASE + 1)]
  }

  function Opened(max: int, now: nat): State {
    State(max, now + LEASE + 1, Some(Action("p", IN_PROGRESS, 1, Some(now + LEASE), Some("a"), None)),
          map[0 := Crashed, 1 := Executing("p", Worker("a", now + LEASE))], {1}, {1}, 1, map[], {}, 0)
  }

  lemma OpeningWorks(max: int, now: nat)
    requires max >= 1
    ensures After(Init(max, now), Opening()) == Opened(max, now)
  {
    hide After, Local;
    var s := Init(max, now);
    CreateWorks(max, now);
    AfterConcat(s, Create(), Take(1, "a"));
    TakeWorks(Created(max, now), 1, "a");
    AfterConcat(s, Create() + Take(1, "a"), [Tick(LEASE + 1)]);
    Step1(Taken(Created(max, now), 1, Worker("a", now + LEASE)), Tick(LEASE + 1));
  }

  function TakeoverRun(): seq<Event> {
    Opening() + Take(2, "b")
  }

  function TakenOver(max: int, now: nat): State {
    Taken(Opened(max, now), 2, Worker("b", now + LEASE + 1 + LEASE))
  }

  lemma TakeoverWorks(max: int, now: nat)
    requires max >= 2
    ensures After(Init(max, now), TakeoverRun()) == TakenOver(max, now)
  {
    hide After, Local;
    OpeningWorks(max, now);
    AfterConcat(Init(max, now), Opening(), Take(2, "b"));
    TakeWorks(Opened(max, now), 2, "b");
  }

  // ----- The witnesses.

  predicate BothExecute(s: State, c: nat, d: nat) {
    c != d && c in s.clients && d in s.clients && s.clients[c].Executing? && s.clients[d].Executing?
  }

  // Everybody but call `c` is done when `c` makes an ordinary claim of a record waiting for a retry, yet it overlaps.
  predicate OrdinaryClaimOverlaps(s: State, es: seq<Event>, c: nat) {
    && Reliable(es) && c !in After(s, es).clients
    && After(s, es).action.Some? && After(s, es).action.value.status == FAILED_RETRYABLE
    && BothExecute(After(s, es + Take(c, "c")), 2, c)
  }

  /** Overlap does not mean that the later claim found an expired lease: after a takeover the stale worker's report
      reopens the record under the new holder, and a third worker then claims it in the ordinary way. */
  lemma OrdinaryClaimMayOverlap(max: int, now: nat)
    requires max >= 3
    ensures exists es, c :: OrdinaryClaimOverlaps(Init(max, now), es, c)
  {
    hide After, Local;
    var s, o := Init(max, now), Retryable("Throttling");
    var es := TakeoverRun() + Finish(1, o);
    TakeoverWorks(max, now);
    AfterConcat(s, TakeoverRun(), Finish(1, o));
    FinishWorks(TakenOver(max, now), 1, o);
    var t := After(s, es);
    AfterConcat(s, es, Take(3, "c"));
    TakeWorks(t, 3, "c");
    assert OrdinaryClaimOverlaps(s, es, 3);
  }

  predicate DeletesUnfinished(s: State, es: seq<Event>, c: nat) {
    && Reliable(es) && Deleting(After(s, es), c)
    && After(s, es).action.Some? && !Terminal(After(s, es).action.value)
  }

  /** A message can be deleted although its action still waits for a retry. */
  lemma DeletionMayBeUnsafe(max: int, now: nat)
    requires max >= 2
    ensures exists es, c :: DeletesUnfinished(Init(max, now), es, c)
  {
    hide After, Local;
    var s, o := Init(max, now), Retryable("Throttling");
    TakeoverWorks(max, now);
    AfterConcat(s, TakeoverRun(), Finish(2, o));
    FinishWorks(TakenOver(max, now), 2, o);
    AfterConcat(s, TakeoverRun() + Finish(2, o), Finish(1, Succeeded));
    FinishWorks(After(s, TakeoverRun() + Finish(2, o)), 1, Succeeded);
    assert DeletesUnfinished(s, TakeoverRun() + Finish(2, o) + Finish(1, Succeeded), 1);
  }

  // Worker 1 is granted its claim and stalls until its lease has run out.
  function Stall(): seq<Event> {
    [Deliver(1, "a"), Go(1, Succeeded), Go(1, Succeeded), Tick(LEASE + 1)]
  }

  function Stalled(max: int, now: nat): State {
    State(max, now + LEASE + 1, Some(Action("p", IN_PROGRESS, 1, Some(now + LEASE), Some("a"), None)),
          map[0 := Crashed, 1 := Granted("p", Worker("a", now + LEASE))], {1}, {}, 0, map[], {}, 0)
  }

  lemma StallWorks(max: int, now: nat)
    requires max >= 1
    ensures After(Created(max, now), Stall()) == Stalled(max, now)
  {
    var s := Created(max, now);
    Steps4(s, Deliver(1, "a"), Go(1, Succeeded), Go(1, Succeeded), Tick(LEASE + 1));
    ReadStep(s, 1, "a");
    hide Apply, After;
    ClaimStep(Apply(Apply(s, Deliver(1, "a")), Go(1, Succeeded)), 1);
    TickStep(Apply(Apply(Apply(s, Deliver(1, "a")), Go(1, Succeeded)), Go(1, Succeeded)), LEASE + 1);
  }

  lemma TickStep(s: State, elapsed: nat)
    ensures Apply(s, Tick(elapsed)) == s.(now := s.now + elapsed)
  {}

  function LateRun(): seq<Event> {
    Create() + Stall() + Take(2, "b") + Finish(2, Succeeded)
  }

  // In `es` the action is completed after one mutation; one more step of call `c` enters it again.
  predicate RunsLate(s: State, es: seq<Event>, c: nat) {
    && Reliable(es)
    && After(s, es).action.Some? && After(s, es).action.value.status == COMPLETED && After(s, es).mutations == 1
    && After(s, es + [Go(c, Succeeded)]).mutations == 2
  }

  /** A worker that stalls between its claim and its mutation still runs it after another worker has completed the
      action. */
  lemma MutationMayRunLate(max: int, now: nat)
    requires max >= 2
    ensures exists es, c :: RunsLate(Init(max, now), es, c)
  {
    hide After, Local;
    var s, es := Init(max, now), LateRun();
    CreateWorks(max, now);
    AfterConcat(s, Create(), Stall());
    StallWorks(max, now);
    AfterConcat(s, Create() + Stall(), Take(2, "b"));
    TakeWorks(Stalled(max, now), 2, "b");
    AfterConcat(s, Create() + Stall() + Take(2, "b"), Finish(2, Succeeded));
    FinishWorks(Taken(Stalled(max, now), 2, Worker("b", now + LEASE + 1 + LEASE)), 2, Succeeded);
    var t := After(s, es);
    AfterConcat(s, es, [Go(1, Succeeded)]);
    Step1(t, Go(1, Succeeded));
    StartStep(t, 1);
    assert Reliable(es);
    assert RunsLate(s, es, 1);
  }

  // Worker 1 starts and reports a throttled write at once.
  function PunctualRun(): seq<Event> {
    Create() + Take(1, "a") + Finish(1, Retryable("Throttling"))
  }

  function Punctual(max: int, now: nat): State {
    State(max, now, Some(Action("p", FAILED_RETRYABLE, 1, Some(now + LEASE), Some("a"), Some("Throttling"))),
          map[0 := Crashed, 1 := Finished(Kept)], {1}, {1}, 1, map[1 := Retryable("Throttling")], {}, 0)
  }

  lemma PunctualWorks(max: int, now: nat)
    requires max >= 1
    ensures After(Init(max, now), PunctualRun()) == Punctual(max, now)
  {
    hide After, Local;
    var s := Init(max, now);
    CreateWorks(max, now);
    AfterConcat(s, Create(), Take(1, "a"));
    TakeWorks(Created(max, now), 1, "a");
    AfterConcat(s, Create() + Take(1, "a"), Finish(1, Retryable("Throttling")));
    FinishWorks(Taken(Created(max, now), 1, Worker("a", now + LEASE)), 1, Retryable("Throttling"));
  }

  // In `es` the only worker so far finished before its lease ended and nobody holds the action when `fs` ends;
  // a web caller then claims it, and a worker takes it over at once.
  predicate CallerTakenOver(s: State, es: seq<Event>, fs: seq<Event>) {
    && Reliable(es + fs)
    && After(s, es).clients.Keys == {0, 1} && After(s, es).clients[1].Finished? && After(s, es).now <= s.now + LEASE
    && !Live(After(s, es + fs))
    && BothExecute(After(s, es + fs + Ask(4, "p") + Take(2, "b")), 4, 2)
  }

  /** A web caller writes no lease, so the lease an earlier worker left behind, although that worker reported well
      within it, lets another worker take the action over in the very instant the caller claimed it. */
  lemma LeftoverLeaseTakesOverCaller(max: int, now: nat)
    requires max >= 3
    ensures exists es, fs :: CallerTakenOver(Init(max, now), es, fs)
  {
    hide After, Local;
    var s, es, fs := Init(max, now), PunctualRun(), [Tick(LEASE + 1)];
    PunctualWorks(max, now);
    AfterConcat(s, es, fs);
    Step1(Punctual(max, now), Tick(LEASE + 1));
    var t := Punctual(max, now).(now := now + LEASE + 1);
    AfterConcat(s, es + fs, Ask(4, "p"));
    AskWorks(t, 4);
    AfterConcat(s, es + fs + Ask(4, "p"), Take(2, "b"));
    TakeWorks(Taken(t, 4, Caller), 2, "b");
    assert CallerTakenOver(s, es, fs);
  }

  // Everything works until the store drops the last request, an update by call `c`; its message goes all the same.
  predicate DroppedUpdateDeletes(s: State, es: seq<Event>, c: nat, status: Status) {
    var last := Advance(c, Dropped, Succeeded, 0);
    && Reliable(es) && Deleting(After(s, es + [last]), c)
    && After(s, es + [last]).action.Some? && After(s, es + [last]).action.value.status == status
  }

  lemma DroppedReportStep(s: State, c: nat)
    requires c in s.clients && s.clients[c].Reporting?
    ensures var r := s.clients[c];
            Apply(s, Advance(c, Dropped, Succeeded, 0)) == s.(clients := s.clients[c := AfterReport(r.outcome, r.who)])
  {}

  /** A worker's successful report that the store drops leaves the action IN_PROGRESS and deletes the message. */
  lemma DroppedReportDeletes(max: int, now: nat)
    requires max >= 1
    ensures exists es, c :: DroppedUpdateDeletes(Init(max, now), es, c, IN_PROGRESS)
  {
    hide After, Local;
    var s, go, last := Init(max, now), Go(1, Succeeded), Advance(1, Dropped, Succeeded, 0);
    CreateWorks(max, now);
    AfterConcat(s, Create(), Take(1, "a"));
    TakeWorks(Created(max, now), 1, "a");
    var t, es := Taken(Created(max, now), 1, Worker("a", now + LEASE)), Create() + Take(1, "a") + [go];
    AfterConcat(s, Create() + Take(1, "a"), [go]);
    Step1(t, go);
    ExecuteStep(t, 1, Succeeded);
    AfterConcat(s, es, [last]);
    Step1(Apply(t, go), last);
    DroppedReportStep(Apply(t, go), 1);
    assert DroppedUpdateDeletes(s, es, 1, IN_PROGRESS);
  }

  // A claim without attempts left is refused, and the worker is about to close the action out.
  lemma RefusalSteps(s: State, c: nat)
    requires c in s.clients && s.clients[c].Claiming? && s.clients[c].role.Queue?
    requires s.action.Some? && Exhausted(s.action.value, s.max)
    ensures Apply(Apply(s, Go(c, Succeeded)), Go(c, Succeeded)) ==
            s.(clients := s.clients[c := Closing(s.clients[c].role)])
  {
    assert Apply(s, Go(c, Succeeded)) == s.(clients := s.clients[c := Refused(s.clients[c].seen, s.clients[c].role)]);
  }

  lemma DroppedCloseStep(s: State, c: nat)
    requires c in s.clients && s.clients[c].Closing?
    ensures Apply(s, Advance(c, Dropped, Succeeded, 0)) == s.(clients := s.clients[c := AfterClose(s.clients[c].role)])
  {}

  /** A worker's close-out that the store drops leaves the action FAILED_RETRYABLE with no attempt left, and deletes the
      message. */
  lemma DroppedCloseOutDeletes(now: nat)
    ensures exists es, c :: DroppedUpdateDeletes(Init(1, now), es, c, FAILED_RETRYABLE)
  {
    hide After, Local;
    var s, go, last := Init(1, now), Go(2, Succeeded), Advance(2, Dropped, Succeeded, 0);
    var p, fs := Punctual(1, now), [Deliver(2, "b"), go, go, go];
    PunctualWorks(1, now);
    AfterConcat(s, PunctualRun(), fs);
    Steps4(p, Deliver(2, "b"), go, go, go);
    ReadStep(p, 2, "b");
    RefusalSteps(Apply(Apply(p, Deliver(2, "b")), go), 2);
    var t := After(p, fs);
    AfterConcat(s, PunctualRun() + fs, [last]);
    Step1(t, last);
    DroppedCloseStep(t, 2);
    assert DroppedUpdateDeletes(s, PunctualRun() + fs, 2, FAILED_RETRYABLE);
  }
}
