/** How agent runs end and what is said of them, read off the requests that were made: which
    state a run ends in, who put it there, and which of its events are emitted. */
module AgentOutcomes {
  import opened Wrappers
  import opened AgentRuns

  const BY_REQUEST := "cancelled by request"

  // ------------------------------------------------- outcomes and requests

  /** A handler of a request has had that request. */
  ghost predicate ProcFrom(steps: seq<Step>, p: Proc) {
    match p
    case CancelChecked(r) => CancelStep(r) in steps
    case CompleteLooked(r, e, m) => CompleteStep(r, e, m) in steps
    case _ => true
  }

  /** A run is cancelled only by a cancel of it, and failed only by a report of it that said
      so, whose code and text it then has; otherwise it has neither. */
  ghost predicate RunFrom(steps: seq<Step>, r: string, run: AgentRun) {
    match run.state
    case Cancelled => run.exitCode == 0 && run.error == BY_REQUEST && CancelStep(r) in steps
    case Failed => (run.exitCode != 0 || run.error != "") && CompleteStep(r, run.exitCode, run.error) in steps
    case _ => run.exitCode == 0 && run.error == ""
  }

  ghost predicate Accounted(sys: System, steps: seq<Step>) {
    && (forall i :: 0 <= i < |sys.procs| ==> ProcFrom(steps, sys.procs[i]))
    && (forall r :: r in sys.store.runs ==> RunFrom(steps, r, sys.store.runs[r]))
  }

  lemma MoreSteps(sys: System, steps: seq<Step>, step: Step)
    requires Accounted(sys, steps)
    ensures Accounted(sys, steps + [step])
  {
    forall i | 0 <= i < |sys.procs| ensures ProcFrom(steps + [step], sys.procs[i]) {
      assert ProcFrom(steps, sys.procs[i]);
    }
    forall r | r in sys.store.runs ensures RunFrom(steps + [step], r, sys.store.runs[r]) {
      assert RunFrom(steps, r, sys.store.runs[r]);
    }
  }

  lemma TryAccounted(sys: System, steps: seq<Step>, i: nat, r: string, state: RunState, e: int, m: string, p: Proc)
    requires Accounted(sys, steps) && i < |sys.procs| && ProcFrom(steps, p)
    requires match state
      case Cancelled => e == 0 && m == BY_REQUEST && CancelStep(r) in steps
      case Failed => (e != 0 || m != "") && CompleteStep(r, e, m) in steps
      case _ => e == 0 && m == ""
    ensures Accounted(Try(sys, i, r, state, e, m, p), steps)
  {
    var sys' := Try(sys, i, r, state, e, m, p);
    forall k | k in sys'.store.runs ensures RunFrom(steps, k, sys'.store.runs[k]) {
      assert RunFrom(steps, k, sys.store.runs[k]);
    }
    forall j | 0 <= j < |sys'.procs| ensures ProcFrom(steps, sys'.procs[j]) {
      if j != i { assert sys'.procs[j] == sys.procs[j]; }
    }
  }

  lemma AdvanceAccounted(sys: System, steps: seq<Step>, i: nat)
    requires Accounted(sys, steps) && i < |sys.procs|
    ensures Accounted(Advance(sys, i), steps)
  {
    assert ProcFrom(steps, sys.procs[i]);
    match sys.procs[i]
    case StartCreated(r) => TryAccounted(sys, steps, i, r, Starting, 0, "", StartAnnounce(r));
    case SuperviseStarting(r) => TryAccounted(sys, steps, i, r, Running, 0, "", SuperviseRunning(r));
    case SuperviseRunning(r) => TryAccounted(sys, steps, i, r, Completed, 0, "", Announce(r, Completed, 0));
    case CancelChecked(r) => TryAccounted(sys, steps, i, r, Cancelled, 0, BY_REQUEST, Announce(r, Cancelled, 0));
    case CompleteLooked(r, e, m) =>
      TryAccounted(sys, steps, i, r, Outcome(e, m), e, m, Announce(r, Outcome(e, m), e));
    case _ =>
  }

  lemma NextAccounted(sys: System, steps: seq<Step>, step: Step)
    requires Accounted(sys, steps) && Enabled(sys, step)
    ensures Accounted(Next(sys, step), steps + [step])
  {
    MoreSteps(sys, steps, step);
    match step
    case AdvanceStep(i) => AdvanceAccounted(sys, steps + [step], i);
    case StartStep(_) =>
    case CancelStep(_) =>
    case CompleteStep(_, _, _) =>
  }

  lemma {:induction false} AlwaysAccounted(trace: seq<System>, steps: seq<Step>, k: nat)
    requires IsRun(trace, steps) && k < |trace|
    ensures Accounted(trace[k], steps[..k])
  {
    if k > 0 {
      AlwaysAccounted(trace, steps, k - 1);
      assert StepsTo(trace[k - 1], steps[k - 1], trace[k]);
      NextAccounted(trace[k - 1], steps[..k - 1], steps[k - 1]);
      assert steps[..k] == steps[..k - 1] + [steps[k - 1]];
    }
  }

  ghost predicate LeftAlone(steps: seq<Step>, r: string) {
    forall i :: 0 <= i < |steps| ==>
      match steps[i]
      case CancelStep(k) => k != r
      case CompleteStep(k, _, _) => k != r
      case _ => true
  }

  /** Once all handlers are done, for every interleaving: a run that no cancel and no report
      named is COMPLETED; a failed one has the code and the text of a report of it that
      carried either; a cancelled one was cancelled by request; and that is what
      `pi.run.completed` said. */
  lemma OutcomeOfRequests(trace: seq<System>, steps: seq<Step>, r: string)
    requires IsRun(trace, steps)
    requires var sys := trace[|trace| - 1]; Quiet(sys) && r in sys.store.runs
    ensures var sys := trace[|trace| - 1]; var run := sys.store.runs[r];
      && (LeftAlone(steps, r) ==> run.state.Completed?)
      && (run.state.Completed? ==> run.exitCode == 0 && run.error == "")
      && (run.state.Failed? ==>
            (run.exitCode != 0 || run.error != "") && CompleteStep(r, run.exitCode, run.error) in steps)
      && (run.state.Cancelled? ==> run.exitCode == 0 && run.error == BY_REQUEST && CancelStep(r) in steps)
      && RunCompleted(r, run.state, run.exitCode) in sys.events
  {
    var sys := trace[|trace| - 1];
    AlwaysAccounted(trace, steps, |trace| - 1);
    assert steps[..|trace| - 1] == steps;
    assert RunFrom(steps, r, sys.store.runs[r]);
    var k := CompletedExactlyOnce(trace, steps, r);
    assert sys.events[k] in sys.events;
  }

  // ------------------------------------------------------ who ended a run

  predicate Ends(p: Proc) { p.SuperviseRunning? || p.CancelChecked? || p.CompleteLooked? }

  /** Step `k` is the one that ends run `r`. */
  predicate EndsRun(sys: System, step: Step, r: string) {
    step.AdvanceStep? && step.i < |sys.procs| && Ends(sys.procs[step.i]) && sys.procs[step.i].run == r
    && CanUpdate(sys.store, r)
  }

  /** The outcome `p` gives the run it ends. */
  ghost predicate EndedBy(p: Proc, run: AgentRun) {
    match p
    case SuperviseRunning(_) => run.state.Completed? && run.exitCode == 0 && run.error == ""
    case CancelChecked(_) => run.state.Cancelled? && run.exitCode == 0 && run.error == BY_REQUEST
    case CompleteLooked(_, e, m) =>
      && run.exitCode == e && run.error == m
      && (if e == 0 && m == "" then run.state.Completed? else run.state.Failed?)
    case _ => false
  }

  lemma EndingStep(sys: System, steps: seq<Step>, step: Step, r: string)
    requires Accounted(sys, steps) && EndsRun(sys, step, r)
    ensures r in Next(sys, step).store.runs && EndedBy(sys.procs[step.i], Next(sys, step).store.runs[r])
  {
    assert RunFrom(steps, r, sys.store.runs[r]);
  }

  /** Whoever ends a run decides its outcome for good: the supervisor completes it, a cancel
      cancels it, and a report fails it exactly when it carries a code or a text. */
  lemma EnderDecides(trace: seq<System>, steps: seq<Step>, k: nat, j: nat, r: string)
    requires IsRun(trace, steps) && k < j < |trace| && EndsRun(trace[k], steps[k], r)
    ensures r in trace[j].store.runs && EndedBy(trace[k].procs[steps[k].i], trace[j].store.runs[r])
  {
    AlwaysAccounted(trace, steps, k);
    assert StepsTo(trace[k], steps[k], trace[k + 1]);
    EndingStep(trace[k], steps[..k], steps[k], r);
    StateNeverGoesBack(trace, steps, k + 1, j);
  }

  /** And a run that is over was ended by such a step. */
  lemma {:induction false} SomeoneEnded(trace: seq<System>, steps: seq<Step>, j: nat, r: string) returns (k: nat)
    requires IsRun(trace, steps) && j < |trace| && r in trace[j].store.runs && trace[j].store.runs[r].state.IsTerminal()
    ensures k < j && EndsRun(trace[k], steps[k], r)
    ensures EndedBy(trace[k].procs[steps[k].i], trace[j].store.runs[r])
  {
    var before := trace[j - 1];
    assert StepsTo(before, steps[j - 1], trace[j]);
    if r in before.store.runs && before.store.runs[r].state.IsTerminal() {
      k := SomeoneEnded(trace, steps, j - 1, r);
    } else {
      k := j - 1;
      OnlyEndersEnd(before, steps[k], r);
    }
    EnderDecides(trace, steps, k, j, r);
  }

  lemma OnlyEndersEnd(sys: System, step: Step, r: string)
    requires Enabled(sys, step) && (r in sys.store.runs ==> !sys.store.runs[r].state.IsTerminal())
    requires r in Next(sys, step).store.runs && Next(sys, step).store.runs[r].state.IsTerminal()
    ensures EndsRun(sys, step, r)
  {
  }

  // ---------------------------------------------------------- pi.run.started

  function StartedCount(events: seq<Event>, r: string): nat {
    if events == [] then 0
    else
      var e := events[|events| - 1];
      StartedCount(events[..|events| - 1], r) + (if e == RunStarted(r) then 1 else 0)
  }

  lemma StartedAppend(events: seq<Event>, e: Event, r: string)
    ensures StartedCount(events + [e], r) == StartedCount(events, r) + (if e == RunStarted(r) then 1 else 0)
  {
    assert (events + [e])[..|events|] == events;
  }

  predicate IsStarting(s: Store, r: string) { r in s.runs && s.runs[r].state.Starting? }

  /** The run has been STARTING at some moment so far. */
  ghost predicate Begun(trace: seq<System>, k: nat, r: string)
    requires k < |trace|
  {
    exists j :: 0 <= j <= k && IsStarting(trace[j].store, r)
  }

  lemma BegunMore(trace: seq<System>, k: nat, r: string)
    requires k + 1 < |trace|
    ensures Begun(trace, k + 1, r) <==> Begun(trace, k, r) || IsStarting(trace[k + 1].store, r)
  {
    if Begun(trace, k, r) {
      var j :| 0 <= j <= k && IsStarting(trace[j].store, r);
      assert 0 <= j <= k + 1;
    }
  }

  /** Handlers past the start of their run. */
  predicate PastStart(p: Proc, r: string) {
    (p.StartAnnounce? || p.SuperviseStarting? || p.SuperviseRunning?) && p.run == r
  }

  /** One announcement of the start is pending or emitted exactly when the run has begun. */
  ghost predicate AnnouncedOnce(sys: System, r: string, begun: bool) {
    Count(sys.procs, r, Starter) + StartedCount(sys.events, r) == if begun then 1 else 0
  }

  /** A run past PENDING has begun, or was ended before it could; one that completed has
      begun, or was reported complete. */
  ghost predicate StateFits(s: Store, steps: seq<Step>, r: string, begun: bool) {
    && (begun ==> r in s.runs && !s.runs[r].state.Pending?)
    && (IsStarting(s, r) ==> begun)
    && (r in s.runs && s.runs[r].state.Completed? ==> begun || CompleteStep(r, 0, "") in steps)
  }

  ghost predicate PastFits(procs: seq<Proc>, r: string, begun: bool) {
    forall i :: 0 <= i < |procs| && PastStart(procs[i], r) ==> begun
  }

  ghost predicate StartOk(sys: System, steps: seq<Step>, r: string, begun: bool) {
    AnnouncedOnce(sys, r, begun) && StateFits(sys.store, steps, r, begun) && PastFits(sys.procs, r, begun)
  }

  /** Handler `i` puts the run to STARTING. */
  predicate Launches(sys: System, i: nat, r: string)
    requires i < |sys.procs|
  {
    sys.procs[i] == StartCreated(r) && CanUpdate(sys.store, r)
  }

  lemma StarterMoves(sys: System, i: nat, r: string)
    requires i < |sys.procs|
    ensures var p := Advance(sys, i).procs[i];
      && Advance(sys, i).procs == sys.procs[i := p]
      && (Matches(p, r, Starter) <==> Launches(sys, i, r))
      && (Matches(sys.procs[i], r, Starter) <==> sys.procs[i] == StartAnnounce(r))
  {
  }

  lemma StartedMoves(sys: System, i: nat, r: string)
    requires i < |sys.procs|
    ensures StartedCount(Advance(sys, i).events, r)
         == StartedCount(sys.events, r) + (if sys.procs[i] == StartAnnounce(r) then 1 else 0)
  {
    if sys.procs[i].StartAnnounce? {
      StartedAppend(sys.events, RunStarted(sys.procs[i].run), r);
    } else if sys.procs[i].Announce? {
      StartedAppend(sys.events, RunCompleted(sys.procs[i].run, sys.procs[i].state, sys.procs[i].exitCode), r);
    }
  }

  lemma LaunchedOnce(sys: System, i: nat, r: string, begun: bool)
    requires i < |sys.procs| && AnnouncedOnce(sys, r, begun) && (Launches(sys, i, r) ==> !begun)
    ensures AnnouncedOnce(Advance(sys, i), r, begun || Launches(sys, i, r))
  {
    StarterMoves(sys, i, r);
    StartedMoves(sys, i, r);
    CountUpdate(sys.procs, i, Advance(sys, i).procs[i], r, Starter);
  }

  lemma LaunchFits(sys: System, steps: seq<Step>, i: nat, r: string, begun: bool)
    requires i < |sys.procs| && ProcOk(sys.store, sys.procs[i]) && ProcFrom(steps, sys.procs[i])
    requires StateFits(sys.store, steps, r, begun) && PastFits(sys.procs, r, begun)
    ensures Launches(sys, i, r) ==> !begun
    ensures StateFits(Advance(sys, i).store, steps, r, begun || Launches(sys, i, r))
    ensures begun || Launches(sys, i, r) <==> begun || IsStarting(Advance(sys, i).store, r)
  {
    assert PastStart(sys.procs[i], r) ==> begun;
    match sys.procs[i]
    case StartCreated(_) =>
    case SuperviseStarting(_) =>
    case SuperviseRunning(_) =>
    case CancelChecked(_) =>
    case CompleteLooked(_, _, _) =>
    case _ => assert Advance(sys, i).store == sys.store;
  }

  lemma LaunchPasses(sys: System, i: nat, r: string, begun: bool)
    requires i < |sys.procs| && PastFits(sys.procs, r, begun)
    ensures PastFits(Advance(sys, i).procs, r, begun || Launches(sys, i, r))
  {
    var sys' := Advance(sys, i);
    assert PastStart(sys'.procs[i], r) ==> PastStart(sys.procs[i], r) || Launches(sys, i, r);
    forall j | 0 <= j < |sys'.procs| && PastStart(sys'.procs[j], r) ensures begun || Launches(sys, i, r) {
      if j != i { assert PastStart(sys.procs[j], r); }
    }
  }

  lemma AdvanceStartOk(sys: System, steps: seq<Step>, i: nat, r: string, begun: bool)
    requires i < |sys.procs| && ProcOk(sys.store, sys.procs[i]) && ProcFrom(steps, sys.procs[i])
    requires StartOk(sys, steps, r, begun)
    ensures StartOk(Advance(sys, i), steps, r, begun || IsStarting(Advance(sys, i).store, r))
  {
    LaunchFits(sys, steps, i, r, begun);
    LaunchedOnce(sys, i, r, begun);
    LaunchPasses(sys, i, r, begun);
  }

  lemma SpawnStartOk(sys: System, steps: seq<Step>, p: Proc, r: string, begun: bool)
    requires StartOk(sys, steps, r, begun) && !p.StartAnnounce? && !PastStart(p, r)
    ensures StartOk(Spawn(sys, p), steps, r, begun)
  {
    CountAppend(sys.procs, p, r, Starter);
  }

  lemma CreatedStartOk(sys: System, steps: seq<Step>, run: AgentRun, r: string, begun: bool)
    requires StartOk(sys, steps, r, begun) && Enabled(sys, StartStep(run))
    ensures StartOk(Start(sys, run), steps, r, begun)
    ensures IsStarting(Start(sys, run).store, r) ==> begun
  {
    if !Refuses(sys.store, run.sandboxID) {
      var s1 := sys.(store := Created(sys.store, run));
      assert StartOk(s1, steps, r, begun);
      SpawnStartOk(s1, steps, StartCreated(run.runID), r, begun);
    }
  }

  lemma NextStartOk(sys: System, steps: seq<Step>, step: Step, r: string, begun: bool)
    requires Inv(sys) && Accounted(sys, steps) && Enabled(sys, step) && StartOk(sys, steps, r, begun)
    ensures StartOk(Next(sys, step), steps + [step], r, begun || IsStarting(Next(sys, step).store, r))
  {
    var more := steps + [step];
    assert StartOk(sys, more, r, begun);
    match step
    case AdvanceStep(i) =>
      MoreSteps(sys, steps, step);
      AdvanceStartOk(sys, more, i, r, begun);
    case StartStep(run) => CreatedStartOk(sys, more, run, r, begun);
    case CancelStep(k) => SpawnStartOk(sys, more, CancelChecked(k), r, begun);
    case CompleteStep(k, e, m) => SpawnStartOk(sys, more, CompleteLooked(k, e, m), r, begun);
  }

  lemma {:induction false} AlwaysStartOk(trace: seq<System>, steps: seq<Step>, k: nat, r: string)
    requires IsRun(trace, steps) && k < |trace|
    ensures StartOk(trace[k], steps[..k], r, Begun(trace, k, r))
  {
    if k > 0 {
      AlwaysStartOk(trace, steps, k - 1, r);
      StartOkAfter(trace, steps, k - 1, r, Begun(trace, k - 1, r));
      BegunMore(trace, k - 1, r);
    }
  }

  lemma StartOkAfter(trace: seq<System>, steps: seq<Step>, k: nat, r: string, begun: bool)
    requires IsRun(trace, steps) && k < |steps| && StartOk(trace[k], steps[..k], r, begun)
    ensures StartOk(trace[k + 1], steps[..k + 1], r, begun || IsStarting(trace[k + 1].store, r))
  {
    RunKeepsInv(trace, steps, k);
    AlwaysAccounted(trace, steps, k);
    assert StepsTo(trace[k], steps[k], trace[k + 1]);
    NextStartOk(trace[k], steps[..k], steps[k], r, begun);
    assert steps[..k + 1] == steps[..k] + [steps[k]];
  }

  /** Once all handlers are done `pi.run.started` was emitted once for each run that was ever
      STARTING and never for another; and a run that no cancel and no report named was. */
  lemma StartedOnceIff(trace: seq<System>, steps: seq<Step>, r: string)
    requires IsRun(trace, steps)
    requires var sys := trace[|trace| - 1]; Quiet(sys) && r in sys.store.runs
    ensures StartedCount(trace[|trace| - 1].events, r) == (if Begun(trace, |trace| - 1, r) then 1 else 0)
    ensures LeftAlone(steps, r) ==> Begun(trace, |trace| - 1, r)
  {
    AlwaysStartOk(trace, steps, |trace| - 1, r);
    assert steps[..|trace| - 1] == steps;
    CountNone(trace[|trace| - 1].procs, r, Starter);
    OutcomeOfRequests(trace, steps, r);
  }

  // -------------------------------------------------- handlers left alone

  /** Handler `i` takes `n` steps, and no other does. */
  function Steps(sys: System, i: nat, n: nat): (end: System)
    requires i < |sys.procs|
    ensures |end.procs| == |sys.procs|
  {
    if n == 0 then sys else Advance(Steps(sys, i, n - 1), i)
  }

  /** A start that nothing comes between takes its run to COMPLETED and reports both ends. */
  lemma StartAlone(sys: System, run: AgentRun)
    requires Enabled(sys, StartStep(run)) && !Refuses(sys.store, run.sandboxID)
    ensures var end := Steps(Start(sys, run), |sys.procs|, 5);
      && end.store.runs == sys.store.runs[run.runID := run.(state := Completed)]
      && end.store.sandbox == sys.store.sandbox[run.sandboxID := run.runID]
      && end.events == sys.events + [RunStarted(run.runID), RunCompleted(run.runID, Completed, 0)]
      && end.procs == sys.procs + [Gone] && end.replies == sys.replies
  {
    var i, r, s0 := |sys.procs|, run.runID, Start(sys, run);
    var s2 := StartedUp(sys, run);
    var s3 := Advance(s2, i);
    assert s3 == s2.(store := s0.store.(runs := sys.store.runs[r := run.(state := Running)]),
                     procs := sys.procs + [SuperviseRunning(r)]);
    var s4 := Advance(s3, i);
    assert s4 == s3.(store := s0.store.(runs := sys.store.runs[r := run.(state := Completed)]),
                     procs := sys.procs + [Announce(r, Completed, 0)]);
    var s5 := Advance(s4, i);
    assert s5.procs == sys.procs + [Gone];
    assert sys.events + [RunStarted(r)] + [RunCompleted(r, Completed, 0)]
        == sys.events + [RunStarted(r), RunCompleted(r, Completed, 0)];
    assert s3 == Steps(s0, i, 3);
    assert s4 == Steps(s0, i, 4);
  }

  lemma StartedUp(sys: System, run: AgentRun) returns (s2: System)
    requires Enabled(sys, StartStep(run)) && !Refuses(sys.store, run.sandboxID)
    ensures s2 == Steps(Start(sys, run), |sys.procs|, 2)
    ensures s2 == System(Store(sys.store.runs[run.runID := run.(state := Starting)],
                               sys.store.sandbox[run.sandboxID := run.runID]),
                         sys.procs + [SuperviseStarting(run.runID)],
                         sys.events + [RunStarted(run.runID)], sys.replies)
  {
    var i, r, s0 := |sys.procs|, run.runID, Start(sys, run);
    var s1 := Advance(s0, i);
    assert s1 == s0.(store := s0.store.(runs := sys.store.runs[r := run.(state := Starting)]),
                     procs := sys.procs + [StartAnnounce(r)]);
    s2 := Advance(s1, i);
    assert s2.procs == sys.procs + [SuperviseStarting(r)];
    assert s1 == Steps(s0, i, 1);
  }

  /** A cancel of a live run that nothing comes between cancels it, reports it and answers
      so; of an unknown run or one that is over it changes nothing. */
  lemma CancelAlone(sys: System, steps: seq<Step>, r: string)
    requires Accounted(sys, steps)
    ensures !CanUpdate(sys.store, r) ==> Cancel(sys, r) == sys
    ensures CanUpdate(sys.store, r) ==>
      var run := sys.store.runs[r].(state := Cancelled, exitCode := 0, error := BY_REQUEST);
      Steps(Cancel(sys, r), |sys.procs|, 3)
      == System(sys.store.(runs := sys.store.runs[r := run]), sys.procs + [Gone],
                sys.events + [RunCompleted(r, Cancelled, 0)], sys.replies + [Reply(r, true)])
  {
    if CanUpdate(sys.store, r) {
      assert RunFrom(steps, r, sys.store.runs[r]);
      var i, s0 := |sys.procs|, Cancel(sys, r);
      var run := sys.store.runs[r].(state := Cancelled, exitCode := 0, error := BY_REQUEST);
      var s1 := Advance(s0, i);
      assert s1 == s0.(store := sys.store.(runs := sys.store.runs[r := run]),
                       procs := sys.procs + [Announce(r, Cancelled, 0)]);
      var s2 := Advance(s1, i);
      assert s2 == s1.(events := sys.events + [RunCompleted(r, Cancelled, 0)],
                       procs := sys.procs + [Replying(r, true)]);
      var s3 := Advance(s2, i);
      assert s3 == s2.(replies := sys.replies + [Reply(r, true)], procs := sys.procs + [Gone]);
      assert s1 == Steps(s0, i, 1);
      assert s2 == Steps(s0, i, 2);
      assert s3 == Steps(s0, i, 3);
    }
  }

  /** A report on a live run that nothing comes between ends and reports it; on an unknown
      run it does nothing, and on one that is over nothing either. */
  lemma ReportAlone(sys: System, steps: seq<Step>, r: string, e: int, m: string)
    requires Accounted(sys, steps)
    ensures r !in sys.store.runs ==> Complete(sys, r, e, m) == sys
    ensures r in sys.store.runs && !CanUpdate(sys.store, r) ==>
      Steps(Complete(sys, r, e, m), |sys.procs|, 1) == sys.(procs := sys.procs + [Gone])
    ensures CanUpdate(sys.store, r) ==>
      var state := if e == 0 && m == "" then Completed else Failed;
      var run := sys.store.runs[r].(state := state, exitCode := e, error := m);
      Steps(Complete(sys, r, e, m), |sys.procs|, 2)
      == System(sys.store.(runs := sys.store.runs[r := run]), sys.procs + [Gone],
                sys.events + [RunCompleted(r, state, e)], sys.replies)
  {
    var i, s0 := |sys.procs|, Complete(sys, r, e, m);
    if r in sys.store.runs {
      var s1 := Advance(s0, i);
      assert s1 == Steps(s0, i, 1);
      if CanUpdate(sys.store, r) {
        assert RunFrom(steps, r, sys.store.runs[r]);
        var state := if e == 0 && m == "" then Completed else Failed;
        var run := sys.store.runs[r].(state := state, exitCode := e, error := m);
        assert s1 == s0.(store := sys.store.(runs := sys.store.runs[r := run]),
                         procs := sys.procs + [Announce(r, state, e)]);
        var s2 := Advance(s1, i);
        assert s2 == s1.(events := sys.events + [RunCompleted(r, state, e)], procs := sys.procs + [Gone]);
        assert s2 == Steps(s0, i, 2);
      } else {
        assert s1 == s0.(procs := sys.procs + [Gone]);
      }
    }
  }

  // ---------------------------------------------------------- admission

  predicate Busy(s: Store, sandboxID: string) {
    exists r :: r in s.runs && s.runs[r].sandboxID == sandboxID
      && (s.runs[r].state.Starting? || s.runs[r].state.Running?)
  }

  /** A start is refused only when the sandbox has a run that is STARTING or RUNNING; and as
      long as no start fell during a PENDING run it is refused whenever there is one. */
  lemma RefusedIffBusy(trace: seq<System>, steps: seq<Step>, k: nat, run: AgentRun)
    requires IsRun(trace, steps) && k < |trace| && Enabled(trace[k], StartStep(run))
    ensures Start(trace[k], run) == trace[k] ==> Busy(trace[k].store, run.sandboxID)
    ensures NoStartWhilePending(trace, steps) ==>
      (Start(trace[k], run) == trace[k] <==> Busy(trace[k].store, run.sandboxID))
  {
    PointersAlwaysOk(trace, steps, k);
    assert !Refuses(trace[k].store, run.sandboxID) ==> |Start(trace[k], run).procs| == |trace[k].procs| + 1;
    if NoStartWhilePending(trace, steps) { OneActiveRunPerSandbox(trace, steps, k); }
  }
}
