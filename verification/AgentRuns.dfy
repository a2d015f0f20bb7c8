/** Agent runs: the locked run store and the handlers that race over it.  Store calls are
    atomic; a handler is interrupted between any two of them, and between the call that
    ends a run and the event that reports it. */
module AgentRuns {
  import opened Wrappers

  datatype RunState = Pending | Starting | Running | Completed | Failed | Cancelled {
    predicate IsTerminal() { Completed? || Failed? || Cancelled? }

    function Rank(): nat {
      match this
      case Pending => 0
      case Starting => 1
      case Running => 2
      case _ => 3
    }
  }

  datatype AgentRun = AgentRun(
    runID: string, sandboxID: string, agent: string, repoURL: string, prompt: string,
    state: RunState, exitCode: int, error: string)

  // ------------------------------------------------------------- the store

  datatype Store = Store(runs: map<string, AgentRun>, sandbox: map<string, string>)

  /** `Create` refuses only while the sandbox's latest run is STARTING or RUNNING. */
  predicate Refuses(s: Store, sandboxID: string) {
    && sandboxID in s.sandbox && s.sandbox[sandboxID] in s.runs
    && var st := s.runs[s.sandbox[sandboxID]].state; st.Running? || st.Starting?
  }

  function Created(s: Store, run: AgentRun): Store {
    Store(s.runs[run.runID := run], s.sandbox[run.sandboxID := run.runID])
  }

  predicate CanUpdate(s: Store, runID: string) {
    runID in s.runs && !s.runs[runID].state.IsTerminal()
  }

  function UpdatedRun(run: AgentRun, state: RunState, exitCode: int, err: string): AgentRun {
    run.(state := state,
         exitCode := if exitCode != 0 then exitCode else run.exitCode,
         error := if err != "" then err else run.error)
  }

  function Updated(s: Store, runID: string, state: RunState, exitCode: int, err: string): Store {
    if CanUpdate(s, runID)
    then s.(runs := s.runs[runID := UpdatedRun(s.runs[runID], state, exitCode, err)])
    else s
  }

  class AgentRunStore {
    var runs: map<string, AgentRun>
    var sandbox: map<string, string>

    ghost function View(): Store reads this { Store(runs, sandbox) }

    constructor ()
      ensures View() == Store(map[], map[])
    {
      runs, sandbox := map[], map[];
    }

    method Create(runID: string, sandboxID: string, agent: string, repoURL: string, prompt: string)
      returns (ok: bool)
      modifies this
      ensures ok == !Refuses(old(View()), sandboxID)
      ensures View() == if ok
        then Created(old(View()), AgentRun(runID, sandboxID, agent, repoURL, prompt, Pending, 0, ""))
        else old(View())
    {
      if sandboxID in sandbox {
        var existing := sandbox[sandboxID];
        if existing in runs && (runs[existing].state == Running || runs[existing].state == Starting) {
          return false;
        }
      }
      var run := AgentRun(runID, sandboxID, agent, repoURL, prompt, Pending, 0, "");
      runs := runs[runID := run];
      sandbox := sandbox[sandboxID := runID];
      ok := true;
    }

    method Get(runID: string) returns (r: Option<AgentRun>)
      ensures r == if runID in runs then Some(runs[runID]) else None
    {
      if runID in runs { return Some(runs[runID]); }
      r := None;
    }

    /** Rejects any transition out of a terminal state. */
    method UpdateState(runID: string, state: RunState, exitCode: int, err: string) returns (ok: bool)
      modifies this
      ensures ok == CanUpdate(old(View()), runID)
      ensures View() == Updated(old(View()), runID, state, exitCode, err)
    {
      if runID !in runs || runs[runID].state.IsTerminal() { return false; }
      var run := runs[runID].(state := state);
      if exitCode != 0 { run := run.(exitCode := exitCode); }
      if err != "" { run := run.(error := err); }
      runs := runs[runID := run];
      ok := true;
    }
  }

  // ---------------------------------------------------------- the protocol

  /** Where a handler stands.  A cancel handler answers CANCELLED at the end; `won` is whether
      its own update ended the run.  The supervisor goroutine takes over its start handler's
      slot, because it begins where that handler ends. */
  datatype Proc =
    | StartCreated(run: string)
    | StartAnnounce(run: string)
    | SuperviseStarting(run: string)
    | SuperviseRunning(run: string)
    | CancelChecked(run: string)
    | CompleteLooked(run: string, exitCode: int, errMsg: string)
    | Announce(run: string, state: RunState, exitCode: int)
    | Replying(run: string, won: bool)
    | Gone

  datatype Event =
    | RunStarted(run: string)
    | RunCompleted(run: string, status: RunState, exitCode: int)

  /** The answer CANCELLED to a cancel request. */
  datatype Reply = Reply(run: string, won: bool)

  datatype System = System(store: Store, procs: seq<Proc>, events: seq<Event>, replies: seq<Reply>)

  function EmptySystem(): System { System(Store(map[], map[]), [], [], []) }

  function Spawn(sys: System, p: Proc): System { sys.(procs := sys.procs + [p]) }

  /** StartAgentRun up to the return of `Create`, with a fresh run id. */
  function Start(sys: System, run: AgentRun): System {
    if Refuses(sys.store, run.sandboxID) then sys
    else Spawn(sys.(store := Created(sys.store, run)), StartCreated(run.runID))
  }

  /** CancelAgentRun up to its terminal check. */
  function Cancel(sys: System, runID: string): System {
    if CanUpdate(sys.store, runID) then Spawn(sys, CancelChecked(runID)) else sys
  }

  /** CompleteAgentRun up to the return of `Get`. */
  function Complete(sys: System, runID: string, exitCode: int, errMsg: string): System {
    if runID in sys.store.runs then Spawn(sys, CompleteLooked(runID, exitCode, errMsg)) else sys
  }

  function Outcome(exitCode: int, errMsg: string): RunState {
    if exitCode != 0 || errMsg != "" then Failed else Completed
  }

  /** One store update by handler `i`: on success it moves to `then_`, otherwise it ends. */
  function Try(sys: System, i: nat, runID: string, state: RunState, exitCode: int, err: string, then_: Proc): System
    requires i < |sys.procs|
  {
    if CanUpdate(sys.store, runID)
    then sys.(store := Updated(sys.store, runID, state, exitCode, err), procs := sys.procs[i := then_])
    else sys.(procs := sys.procs[i := AfterLoss(sys.procs[i])])
  }

  /** A refused update ends the handler, but a cancel handler still answers. */
  function AfterLoss(p: Proc): Proc { if p.CancelChecked? then Replying(p.run, false) else Gone }

  function AfterReport(r: string, state: RunState): Proc { if state.Cancelled? then Replying(r, true) else Gone }

  /** Handler `i` runs its next atomic action. */
  function Advance(sys: System, i: nat): System
    requires i < |sys.procs|
  {
    match sys.procs[i]
    case StartCreated(r) => Try(sys, i, r, Starting, 0, "", StartAnnounce(r))
    case StartAnnounce(r) =>
      sys.(events := sys.events + [RunStarted(r)], procs := sys.procs[i := SuperviseStarting(r)])
    case SuperviseStarting(r) => Try(sys, i, r, Running, 0, "", SuperviseRunning(r))
    case SuperviseRunning(r) => Try(sys, i, r, Completed, 0, "", Announce(r, Completed, 0))
    case CancelChecked(r) =>
      Try(sys, i, r, Cancelled, 0, "cancelled by request", Announce(r, Cancelled, 0))
    case CompleteLooked(r, e, m) =>
      Try(sys, i, r, Outcome(e, m), e, m, Announce(r, Outcome(e, m), e))
    case Announce(r, st, e) =>
      sys.(events := sys.events + [RunCompleted(r, st, e)], procs := sys.procs[i := AfterReport(r, st)])
    case Replying(r, won) => sys.(replies := sys.replies + [Reply(r, won)], procs := sys.procs[i := Gone])
    case Gone => sys
  }

  datatype Step =
    | StartStep(run: AgentRun)
    | CancelStep(runID: string)
    | CompleteStep(runID: string, exitCode: int, errMsg: string)
    | AdvanceStep(i: nat)

  predicate Enabled(sys: System, step: Step) {
    match step
    case StartStep(run) =>
      // run ids are fresh UUIDs
      run.runID !in sys.store.runs && run.state.Pending? && run.exitCode == 0 && run.error == ""
    case AdvanceStep(i) => i < |sys.procs|
    case _ => true
  }

  function Next(sys: System, step: Step): System
    requires Enabled(sys, step)
  {
    match step
    case StartStep(run) => Start(sys, run)
    case CancelStep(r) => Cancel(sys, r)
    case CompleteStep(r, e, m) => Complete(sys, r, e, m)
    case AdvanceStep(i) => Advance(sys, i)
  }

  /** Any interleaving of requests and handler steps from the empty daemon. */
  ghost predicate IsRun(trace: seq<System>, steps: seq<Step>) {
    && |trace| == |steps| + 1 && trace[0] == EmptySystem()
    && forall i :: 0 <= i < |steps| ==> StepsTo(trace[i], steps[i], trace[i + 1])
  }

  ghost predicate StepsTo(sys: System, step: Step, sys': System) {
    Enabled(sys, step) && sys' == Next(sys, step)
  }

  // ------------------------------------------------------------- invariant

  datatype Kind = Driver | Announcer | Winner | Starter

  /** The driver of a run is its start handler, then its supervisor. */
  predicate Matches(p: Proc, r: string, kind: Kind) {
    !p.Gone? && p.run == r &&
    match kind
    case Driver => p.StartCreated? || p.StartAnnounce? || p.SuperviseStarting? || p.SuperviseRunning?
    case Announcer => p.Announce?
    case Starter => p.StartAnnounce?
    case Winner => (p.Announce? && p.state.Cancelled?) || (p.Replying? && p.won)
  }

  function Count(procs: seq<Proc>, r: string, kind: Kind): nat {
    if procs == [] then 0
    else Count(procs[..|procs| - 1], r, kind) + (if Matches(procs[|procs| - 1], r, kind) then 1 else 0)
  }

  function CompletedCount(events: seq<Event>, r: string): nat {
    if events == [] then 0
    else
      var e := events[|events| - 1];
      CompletedCount(events[..|events| - 1], r) + (if e.RunCompleted? && e.run == r then 1 else 0)
  }

  function WonCount(replies: seq<Reply>, r: string): nat {
    if replies == [] then 0
    else
      var e := replies[|replies| - 1];
      WonCount(replies[..|replies| - 1], r) + (if e.run == r && e.won then 1 else 0)
  }

  /** A handler's program point fits the state of its run. */
  predicate ProcOk(s: Store, p: Proc) {
    !p.Gone? ==>
      && p.run in s.runs
      && var run := s.runs[p.run];
         match p
         case StartCreated(_) => run.state.Pending? || run.state.IsTerminal()
         case StartAnnounce(_) => run.state.Starting? || run.state.IsTerminal()
         case SuperviseStarting(_) => run.state.Starting? || run.state.IsTerminal()
         case SuperviseRunning(_) => run.state.Running? || run.state.IsTerminal()
         case Announce(_, st, e) => st.IsTerminal() && st == run.state && e == run.exitCode
         case Replying(_, won) => ReplyOk(s, Reply(p.run, won))
         case _ => true
  }

  predicate ReplyOk(s: Store, e: Reply) {
    e.run in s.runs && s.runs[e.run].state.IsTerminal() && (e.won ==> s.runs[e.run].state.Cancelled?)
  }

  predicate EventOk(s: Store, e: Event) {
    e.run in s.runs
    && (e.RunCompleted? ==>
          e.status.IsTerminal() && e.status == s.runs[e.run].state && e.exitCode == s.runs[e.run].exitCode)
  }

  ghost predicate RunOk(sys: System, r: string)
    requires r in sys.store.runs
  {
    var run := sys.store.runs[r];
    && run.runID == r
    && (!run.state.IsTerminal() ==> run.exitCode == 0)
    && Count(sys.procs, r, Driver) <= 1
    && (!run.state.IsTerminal() ==> Count(sys.procs, r, Driver) == 1)
    && Count(sys.procs, r, Announcer) + CompletedCount(sys.events, r)
       == (if run.state.IsTerminal() then 1 else 0)
    && Count(sys.procs, r, Winner) + WonCount(sys.replies, r) == (if run.state.Cancelled? then 1 else 0)
  }

  ghost predicate Inv(sys: System) {
    && (forall i :: 0 <= i < |sys.procs| ==> ProcOk(sys.store, sys.procs[i]))
    && (forall i :: 0 <= i < |sys.events| ==> EventOk(sys.store, sys.events[i]))
    && (forall i :: 0 <= i < |sys.replies| ==> ReplyOk(sys.store, sys.replies[i]))
    && (forall r :: r in sys.store.runs ==> RunOk(sys, r))
  }

  lemma CountAppend(procs: seq<Proc>, p: Proc, r: string, kind: Kind)
    ensures Count(procs + [p], r, kind) == Count(procs, r, kind) + (if Matches(p, r, kind) then 1 else 0)
  {
    assert (procs + [p])[..|procs|] == procs;
  }

  lemma {:induction false} CountUpdate(procs: seq<Proc>, i: nat, p: Proc, r: string, kind: Kind)
    requires i < |procs|
    ensures Count(procs[i := p], r, kind)
         == Count(procs, r, kind)
          - (if Matches(procs[i], r, kind) then 1 else 0) + (if Matches(p, r, kind) then 1 else 0)
    ensures Matches(procs[i], r, kind) ==> Count(procs, r, kind) >= 1
  {
    var n := |procs| - 1;
    if i == n {
      assert procs[i := p][..n] == procs[..n];
    } else {
      CountUpdate(procs[..n], i, p, r, kind);
      assert procs[i := p][..n] == procs[..n][i := p];
    }
  }

  lemma CountsAppend(procs: seq<Proc>, p: Proc, r: string)
    ensures forall kind :: Count(procs + [p], r, kind) == Count(procs, r, kind) + (if Matches(p, r, kind) then 1 else 0)
  {
    forall kind
      ensures Count(procs + [p], r, kind) == Count(procs, r, kind) + (if Matches(p, r, kind) then 1 else 0)
    {
      CountAppend(procs, p, r, kind);
    }
  }

  lemma CountsUpdate(procs: seq<Proc>, i: nat, p: Proc, r: string)
    requires i < |procs|
    ensures forall kind ::
      && Count(procs[i := p], r, kind)
         == Count(procs, r, kind)
          - (if Matches(procs[i], r, kind) then 1 else 0) + (if Matches(p, r, kind) then 1 else 0)
      && (Matches(procs[i], r, kind) ==> Count(procs, r, kind) >= 1)
  {
    forall kind
      ensures Count(procs[i := p], r, kind)
        == Count(procs, r, kind)
         - (if Matches(procs[i], r, kind) then 1 else 0) + (if Matches(p, r, kind) then 1 else 0)
      ensures Matches(procs[i], r, kind) ==> Count(procs, r, kind) >= 1
    {
      CountUpdate(procs, i, p, r, kind);
    }
  }

  lemma WonAppend(replies: seq<Reply>, e: Reply, r: string)
    ensures WonCount(replies + [e], r) == WonCount(replies, r) + (if e.run == r && e.won then 1 else 0)
  {
    assert (replies + [e])[..|replies|] == replies;
  }

  lemma {:induction false} WonNone(replies: seq<Reply>, r: string)
    requires forall i :: 0 <= i < |replies| ==> replies[i].run != r || !replies[i].won
    ensures WonCount(replies, r) == 0
  {
    if replies != [] { WonNone(replies[..|replies| - 1], r); }
  }

  lemma {:induction false} WonSome(replies: seq<Reply>, i: nat, r: string)
    requires i < |replies| && replies[i] == Reply(r, true)
    ensures WonCount(replies, r) >= 1
  {
    if i < |replies| - 1 { WonSome(replies[..|replies| - 1], i, r); }
  }

  lemma {:induction false} CountTwo(procs: seq<Proc>, i: nat, j: nat, r: string, kind: Kind)
    requires i < j < |procs| && Matches(procs[i], r, kind) && Matches(procs[j], r, kind)
    ensures Count(procs, r, kind) >= 2
  {
    var n := |procs| - 1;
    if j == n {
      CountUpdate(procs[..n], i, Gone, r, kind);
    } else {
      CountTwo(procs[..n], i, j, r, kind);
    }
  }

  lemma {:induction false} CountNone(procs: seq<Proc>, r: string, kind: Kind)
    requires forall i :: 0 <= i < |procs| ==> !Matches(procs[i], r, kind)
    ensures Count(procs, r, kind) == 0
  {
    if procs != [] { CountNone(procs[..|procs| - 1], r, kind); }
  }

  lemma CompletedAppend(events: seq<Event>, e: Event, r: string)
    ensures CompletedCount(events + [e], r)
         == CompletedCount(events, r) + (if e.RunCompleted? && e.run == r then 1 else 0)
  {
    assert (events + [e])[..|events|] == events;
  }

  lemma {:induction false} CompletedNone(events: seq<Event>, r: string)
    requires forall i :: 0 <= i < |events| ==> events[i].run != r
    ensures CompletedCount(events, r) == 0
  {
    if events != [] { CompletedNone(events[..|events| - 1], r); }
  }

  // ---------------------------------------------------------- preservation

  /** A fresh run id occurs nowhere. */
  lemma FreshRunUnseen(sys: System, r: string)
    requires Inv(sys) && r !in sys.store.runs
    ensures forall kind :: Count(sys.procs, r, kind) == 0
    ensures CompletedCount(sys.events, r) == WonCount(sys.replies, r) == 0
  {
    forall i | 0 <= i < |sys.procs| ensures sys.procs[i].Gone? || sys.procs[i].run != r {
      assert ProcOk(sys.store, sys.procs[i]);
    }
    forall i | 0 <= i < |sys.events| ensures sys.events[i].run != r {
      assert EventOk(sys.store, sys.events[i]);
    }
    forall kind ensures Count(sys.procs, r, kind) == 0 { CountNone(sys.procs, r, kind); }
    CompletedNone(sys.events, r);
    forall i | 0 <= i < |sys.replies| ensures sys.replies[i].run != r {
      assert ReplyOk(sys.store, sys.replies[i]);
    }
    WonNone(sys.replies, r);
  }

  lemma StartKeepsInv(sys: System, run: AgentRun)
    requires Inv(sys) && Enabled(sys, StartStep(run))
    ensures Inv(Start(sys, run))
  {
    if !Refuses(sys.store, run.sandboxID) {
      var sys' := Start(sys, run);
      forall i | 0 <= i < |sys'.procs| ensures ProcOk(sys'.store, sys'.procs[i]) {
        if i < |sys.procs| { assert ProcOk(sys.store, sys.procs[i]); }
      }
      forall i | 0 <= i < |sys'.events| ensures EventOk(sys'.store, sys'.events[i]) {
        assert EventOk(sys.store, sys.events[i]);
      }
      forall r | r in sys'.store.runs ensures RunOk(sys', r) {
        StartKeepsRun(sys, run, r);
      }
    }
  }

  lemma StartKeepsRun(sys: System, run: AgentRun, r: string)
    requires Inv(sys) && Enabled(sys, StartStep(run)) && !Refuses(sys.store, run.sandboxID)
    requires r in Start(sys, run).store.runs
    ensures RunOk(Start(sys, run), r)
  {
    var p := StartCreated(run.runID);
    CountsAppend(sys.procs, p, r);
    if r == run.runID {
      FreshRunUnseen(sys, r);
    } else {
      assert RunOk(sys, r);
    }
  }

  /** A handler that is neither a driver nor an announcer changes no count. */
  lemma SpawnKeepsInv(sys: System, p: Proc)
    requires Inv(sys) && (p.CancelChecked? || p.CompleteLooked?) && p.run in sys.store.runs
    ensures Inv(Spawn(sys, p))
  {
    forall r | r in sys.store.runs ensures RunOk(Spawn(sys, p), r) {
      CountsAppend(sys.procs, p, r);
    }
  }

  /** Ending a handler, or letting a cancel handler answer: allowed when its run is over. */
  lemma EndKeepsInv(sys: System, i: nat)
    requires Inv(sys) && i < |sys.procs| && !sys.procs[i].Gone? && !sys.procs[i].Announce? && !sys.procs[i].Replying?
    requires sys.store.runs[sys.procs[i].run].state.IsTerminal()
    ensures Inv(sys.(procs := sys.procs[i := AfterLoss(sys.procs[i])]))
  {
    var p := AfterLoss(sys.procs[i]);
    forall r | r in sys.store.runs ensures RunOk(sys.(procs := sys.procs[i := p]), r) {
      CountsUpdate(sys.procs, i, p, r);
    }
  }

  lemma ReplyKeepsInv(sys: System, i: nat)
    requires Inv(sys) && i < |sys.procs| && sys.procs[i].Replying?
    ensures Inv(Advance(sys, i))
  {
    var p, sys' := sys.procs[i], Advance(sys, i);
    assert ProcOk(sys.store, p);
    forall r | r in sys.store.runs ensures RunOk(sys', r) {
      CountsUpdate(sys.procs, i, Gone, r);
      WonAppend(sys.replies, Reply(p.run, p.won), r);
    }
  }

  /** A driver's step along the run's life: the run moves with it. */
  lemma DriveKeepsInv(sys: System, i: nat, r: string, state: RunState, p: Proc)
    requires Inv(sys) && i < |sys.procs| && Matches(sys.procs[i], r, Driver) && CanUpdate(sys.store, r)
    requires !state.IsTerminal() && Matches(p, r, Driver)
    requires ProcOk(Updated(sys.store, r, state, 0, ""), p)
    ensures Inv(Try(sys, i, r, state, 0, "", p))
  {
    var sys' := Try(sys, i, r, state, 0, "", p);
    forall j | 0 <= j < |sys'.procs| ensures ProcOk(sys'.store, sys'.procs[j]) {
      assert ProcOk(sys.store, sys.procs[j]);
      if j != i && Matches(sys.procs[j], r, Driver) {
        CountTwo(sys.procs, if i < j then i else j, if i < j then j else i, r, Driver);
      }
    }
    forall k | k in sys'.store.runs ensures RunOk(sys', k) {
      CountsUpdate(sys.procs, i, p, k);
    }
  }

  /** The step that ends a run: its handler becomes the one announcer. */
  lemma TerminateKeepsInv(sys: System, i: nat, r: string, state: RunState, exitCode: int, err: string)
    requires Inv(sys) && i < |sys.procs| && CanUpdate(sys.store, r) && state.IsTerminal()
    requires sys.procs[i].SuperviseRunning? || sys.procs[i].CancelChecked? || sys.procs[i].CompleteLooked?
    requires sys.procs[i].run == r && (state.Cancelled? ==> sys.procs[i].CancelChecked?)
    ensures Inv(Try(sys, i, r, state, exitCode, err, Announce(r, state, exitCode)))
  {
    var p := Announce(r, state, exitCode);
    var sys' := Try(sys, i, r, state, exitCode, err, p);
    forall j | 0 <= j < |sys'.procs| ensures ProcOk(sys'.store, sys'.procs[j]) {
      assert ProcOk(sys.store, sys.procs[j]);
    }
    forall j | 0 <= j < |sys'.events| ensures EventOk(sys'.store, sys'.events[j]) {
      assert EventOk(sys.store, sys.events[j]);
    }
    forall k | k in sys'.store.runs ensures RunOk(sys', k) {
      TerminateKeepsRun(sys, i, r, state, exitCode, err, k);
    }
  }

  lemma TerminateKeepsRun(sys: System, i: nat, r: string, state: RunState, exitCode: int, err: string, k: string)
    requires Inv(sys) && i < |sys.procs| && CanUpdate(sys.store, r) && state.IsTerminal() && k in sys.store.runs
    requires sys.procs[i].SuperviseRunning? || sys.procs[i].CancelChecked? || sys.procs[i].CompleteLooked?
    requires sys.procs[i].run == r && (state.Cancelled? ==> sys.procs[i].CancelChecked?)
    ensures RunOk(Try(sys, i, r, state, exitCode, err, Announce(r, state, exitCode)), k)
  {
    assert RunOk(sys, k);
    CountsUpdate(sys.procs, i, Announce(r, state, exitCode), k);
  }

  /** Emitting: an event takes the announcer's place in the count. */
  lemma EmitKeepsInv(sys: System, i: nat)
    requires Inv(sys) && i < |sys.procs| && (sys.procs[i].Announce? || sys.procs[i].StartAnnounce?)
    ensures Inv(Advance(sys, i))
  {
    var sys' := Advance(sys, i);
    assert ProcOk(sys.store, sys.procs[i]);
    forall k | k in sys.store.runs ensures RunOk(sys', k) {
      assert RunOk(sys, k);
      EmitKeepsRun(sys, i, k);
    }
  }

  lemma EmitKeepsRun(sys: System, i: nat, k: string)
    requires i < |sys.procs| && (sys.procs[i].Announce? || sys.procs[i].StartAnnounce?)
    requires k in sys.store.runs && ProcOk(sys.store, sys.procs[i]) && RunOk(sys, k)
    ensures RunOk(Advance(sys, i), k)
  {
    var sys' := Advance(sys, i);
    assert sys'.store == sys.store && sys'.replies == sys.replies;
    EmitKeepsCounts(sys, i, k);
    AnnouncedOrEmitted(sys, i, k);
  }

  lemma EmitKeepsCounts(sys: System, i: nat, k: string)
    requires i < |sys.procs| && (sys.procs[i].Announce? || sys.procs[i].StartAnnounce?)
    ensures Count(Advance(sys, i).procs, k, Driver) == Count(sys.procs, k, Driver)
    ensures Count(Advance(sys, i).procs, k, Winner) == Count(sys.procs, k, Winner)
  {
    var p := Advance(sys, i).procs[i];
    CountUpdate(sys.procs, i, p, k, Driver);
    CountUpdate(sys.procs, i, p, k, Winner);
    assert Matches(p, k, Driver) == Matches(sys.procs[i], k, Driver);
    assert Matches(p, k, Winner) == Matches(sys.procs[i], k, Winner);
  }

  lemma AnnouncedOrEmitted(sys: System, i: nat, k: string)
    requires i < |sys.procs| && (sys.procs[i].Announce? || sys.procs[i].StartAnnounce?)
    ensures Count(Advance(sys, i).procs, k, Announcer) + CompletedCount(Advance(sys, i).events, k)
         == Count(sys.procs, k, Announcer) + CompletedCount(sys.events, k)
  {
    var p, e := Advance(sys, i).procs[i], Advance(sys, i).events[|sys.events|];
    CountUpdate(sys.procs, i, p, k, Announcer);
    CompletedAppend(sys.events, e, k);
    assert !Matches(p, k, Announcer);
    assert (e.RunCompleted? && e.run == k) == Matches(sys.procs[i], k, Announcer);
  }

  lemma AdvanceKeepsInv(sys: System, i: nat)
    requires Inv(sys) && i < |sys.procs|
    ensures Inv(Advance(sys, i))
  {
    var p := sys.procs[i];
    assert ProcOk(sys.store, p);
    if p.Gone? {
    } else if p.Announce? || p.StartAnnounce? {
      EmitKeepsInv(sys, i);
    } else if p.Replying? {
      ReplyKeepsInv(sys, i);
    } else if !CanUpdate(sys.store, p.run) {
      EndKeepsInv(sys, i);
    } else {
      match p
      case StartCreated(r) => DriveKeepsInv(sys, i, r, Starting, StartAnnounce(r));
      case SuperviseStarting(r) => DriveKeepsInv(sys, i, r, Running, SuperviseRunning(r));
      case SuperviseRunning(r) => TerminateKeepsInv(sys, i, r, Completed, 0, "");
      case CancelChecked(r) => TerminateKeepsInv(sys, i, r, Cancelled, 0, "cancelled by request");
      case CompleteLooked(r, e, m) => TerminateKeepsInv(sys, i, r, Outcome(e, m), e, m);
    }
  }

  lemma NextKeepsInv(sys: System, step: Step)
    requires Inv(sys) && Enabled(sys, step)
    ensures Inv(Next(sys, step))
  {
    match step
    case StartStep(run) => StartKeepsInv(sys, run);
    case CancelStep(r) => if CanUpdate(sys.store, r) { SpawnKeepsInv(sys, CancelChecked(r)); }
    case CompleteStep(r, e, m) => if r in sys.store.runs { SpawnKeepsInv(sys, CompleteLooked(r, e, m)); }
    case AdvanceStep(i) => AdvanceKeepsInv(sys, i);
  }

  lemma {:induction false} RunKeepsInv(trace: seq<System>, steps: seq<Step>, k: nat)
    requires IsRun(trace, steps) && k < |trace|
    ensures Inv(trace[k])
  {
    if k > 0 {
      RunKeepsInv(trace, steps, k - 1);
      assert StepsTo(trace[k - 1], steps[k - 1], trace[k]);
      NextKeepsInv(trace[k - 1], steps[k - 1]);
    }
  }

  // ---------------------------------------------------------- main results

  /** Progress of one run between two moments: it stays recorded, its rank never drops,
      and a terminal outcome is final. */
  ghost predicate Progressed(before: Store, after: Store) {
    forall r :: r in before.runs ==>
      && r in after.runs
      && before.runs[r].state.Rank() <= after.runs[r].state.Rank()
      && (before.runs[r].state.IsTerminal() ==> after.runs[r] == before.runs[r])
  }

  lemma TryProgresses(sys: System, i: nat, r: string, state: RunState, exitCode: int, err: string, then_: Proc)
    requires i < |sys.procs|
    requires CanUpdate(sys.store, r) ==> sys.store.runs[r].state.Rank() <= state.Rank()
    ensures Progressed(sys.store, Try(sys, i, r, state, exitCode, err, then_).store)
  {
  }

  lemma StepProgresses(sys: System, step: Step)
    requires Inv(sys) && Enabled(sys, step)
    ensures Progressed(sys.store, Next(sys, step).store)
    ensures sys.events <= Next(sys, step).events
  {
    if step.AdvanceStep? { AdvanceProgresses(sys, step.i); }
  }

  lemma AdvanceProgresses(sys: System, i: nat)
    requires Inv(sys) && i < |sys.procs|
    ensures Progressed(sys.store, Advance(sys, i).store) && sys.events <= Advance(sys, i).events
  {
    assert ProcOk(sys.store, sys.procs[i]);
    match sys.procs[i]
    case StartCreated(r) => TryProgresses(sys, i, r, Starting, 0, "", StartAnnounce(r));
    case SuperviseStarting(r) => TryProgresses(sys, i, r, Running, 0, "", SuperviseRunning(r));
    case SuperviseRunning(r) => TryProgresses(sys, i, r, Completed, 0, "", Announce(r, Completed, 0));
    case CancelChecked(r) =>
      TryProgresses(sys, i, r, Cancelled, 0, "cancelled by request", Announce(r, Cancelled, 0));
    case CompleteLooked(r, e, m) => TryProgresses(sys, i, r, Outcome(e, m), e, m, Announce(r, Outcome(e, m), e));
    case _ =>
  }

  /** What holds between a moment and a later one. */
  ghost predicate Later(a: System, b: System) {
    Progressed(a.store, b.store) && a.events <= b.events
  }

  lemma LaterChains(a: System, b: System, c: System)
    requires Later(a, b) && Later(b, c)
    ensures Later(a, c)
  {
  }

  /** Over any interleaving, between any two moments: no run goes back, none leaves a
      terminal state, and no event is withdrawn. */
  lemma {:induction false} StateNeverGoesBack(trace: seq<System>, steps: seq<Step>, i: nat, j: nat)
    requires IsRun(trace, steps) && i <= j < |trace|
    ensures Later(trace[i], trace[j])
  {
    if i < j {
      var k := j - 1;
      StateNeverGoesBack(trace, steps, i, k);
      RunKeepsInv(trace, steps, k);
      assert StepsTo(trace[k], steps[k], trace[k + 1]);
      StepProgresses(trace[k], steps[k]);
      LaterChains(trace[i], trace[k], trace[j]);
    }
  }

  ghost predicate Quiet(sys: System) { forall i :: 0 <= i < |sys.procs| ==> sys.procs[i].Gone? }

  lemma {:induction false} OneCompleted(events: seq<Event>, r: string) returns (k: nat)
    requires CompletedCount(events, r) == 1
    ensures k < |events| && events[k].RunCompleted? && events[k].run == r
  {
    k := |events| - 1;
    var e := events[k];
    if !(e.RunCompleted? && e.run == r) {
      k := OneCompleted(events[..k], r);
    }
  }

  /** Once every handler has finished, every run is over and `pi.run.completed` was
      emitted exactly once for it, carrying its final state and exit code. */
  lemma CompletedExactlyOnce(trace: seq<System>, steps: seq<Step>, r: string) returns (k: nat)
    requires IsRun(trace, steps)
    requires var sys := trace[|trace| - 1]; Quiet(sys) && r in sys.store.runs
    ensures var sys := trace[|trace| - 1];
      && sys.store.runs[r].state.IsTerminal()
      && CompletedCount(sys.events, r) == 1
      && k < |sys.events|
      && sys.events[k] == RunCompleted(r, sys.store.runs[r].state, sys.store.runs[r].exitCode)
  {
    var sys := trace[|trace| - 1];
    RunKeepsInv(trace, steps, |trace| - 1);
    assert RunOk(sys, r);
    CountNone(sys.procs, r, Driver);
    CountNone(sys.procs, r, Announcer);
    k := OneCompleted(sys.events, r);
    assert EventOk(sys.store, sys.events[k]);
  }

  /** At no moment of any interleaving has a run been reported twice, or reported while
      it could still change. */
  lemma NeverReportedTwice(trace: seq<System>, steps: seq<Step>, k: nat, r: string)
    requires IsRun(trace, steps) && k < |trace| && r in trace[k].store.runs
    ensures CompletedCount(trace[k].events, r) <= 1
    ensures CompletedCount(trace[k].events, r) == 1 ==> trace[k].store.runs[r].state.IsTerminal()
  {
    RunKeepsInv(trace, steps, k);
    assert RunOk(trace[k], r);
  }

  /** At every moment of an interleaving: a run to which CANCELLED was answered is over, and
      the answer is true if and only if the update of some cancel handler ended the run, at
      most one having done so; that handler has told it, or is about to. */
  lemma CancelAnswers(trace: seq<System>, steps: seq<Step>, k: nat, i: nat)
    requires IsRun(trace, steps) && k < |trace| && i < |trace[k].replies|
    ensures var sys, e := trace[k], trace[k].replies[i];
      && e.run in sys.store.runs && sys.store.runs[e.run].state.IsTerminal()
      && Count(sys.procs, e.run, Winner) + WonCount(sys.replies, e.run) <= 1
      && (sys.store.runs[e.run].state.Cancelled? <==>
            Count(sys.procs, e.run, Winner) + WonCount(sys.replies, e.run) == 1)
      && (e.won ==> sys.store.runs[e.run].state.Cancelled?)
  {
    RunKeepsInv(trace, steps, k);
    assert ReplyOk(trace[k].store, trace[k].replies[i]) && RunOk(trace[k], trace[k].replies[i].run);
  }

  /** Once all handlers are done: CANCELLED was a true answer if and only if the handler that
      gave it, or another that answered so, had ended the run itself. */
  lemma CancelAnswerTrueIff(trace: seq<System>, steps: seq<Step>, i: nat)
    requires IsRun(trace, steps)
    requires var sys := trace[|trace| - 1]; Quiet(sys) && i < |sys.replies|
    ensures var sys := trace[|trace| - 1];
      var r := sys.replies[i].run;
      && r in sys.store.runs
      && (sys.store.runs[r].state.Cancelled? <==> Reply(r, true) in sys.replies)
  {
    var sys := trace[|trace| - 1];
    var r := sys.replies[i].run;
    CancelAnswers(trace, steps, |trace| - 1, i);
    CountNone(sys.procs, r, Winner);
    if Reply(r, true) in sys.replies {
      var j :| 0 <= j < |sys.replies| && sys.replies[j] == Reply(r, true);
      WonSome(sys.replies, j, r);
    } else {
      WonNone(sys.replies, r);
    }
  }

  lemma Extend(trace: seq<System>, steps: seq<Step>, step: Step) returns (trace': seq<System>, steps': seq<Step>)
    requires IsRun(trace, steps) && Enabled(trace[|trace| - 1], step)
    ensures IsRun(trace', steps') && trace'[|trace'| - 1] == Next(trace[|trace| - 1], step)
  {
    trace', steps' := trace + [Next(trace[|trace| - 1], step)], steps + [step];
    forall i | 0 <= i < |steps'| ensures StepsTo(trace'[i], steps'[i], trace'[i + 1]) {
      if i < |steps| {
        assert StepsTo(trace[i], steps[i], trace[i + 1]);
        assert trace'[i] == trace[i] && trace'[i + 1] == trace[i + 1];
      }
    }
  }

  /** A run that was checked for cancelling, and then reported complete before the cancel
      handler went on. */
  lemma CheckedThenCompleted(run: AgentRun) returns (trace: seq<System>, steps: seq<Step>)
    requires run.state.Pending? && run.exitCode == 0 && run.error == ""
    ensures IsRun(trace, steps)
    ensures var end := trace[|trace| - 1];
      && |end.procs| == 3 && end.procs[1] == CancelChecked(run.runID) && end.replies == []
      && end.store.runs.Keys == {run.runID} && end.store.runs[run.runID].state.Completed?
  {
    var r := run.runID;
    trace, steps := [EmptySystem()], [];
    trace, steps := Extend(trace, steps, StartStep(run));
    var s1 := trace[|trace| - 1];
    assert s1.procs == [StartCreated(r)] && s1.store.runs == map[r := run];
    trace, steps := Extend(trace, steps, CancelStep(r));
    var s2 := trace[|trace| - 1];
    assert s2 == s1.(procs := [StartCreated(r), CancelChecked(r)]);
    trace, steps := Extend(trace, steps, CompleteStep(r, 0, ""));
    var s3 := trace[|trace| - 1];
    assert s3 == s2.(procs := [StartCreated(r), CancelChecked(r), CompleteLooked(r, 0, "")]);
    trace, steps := Extend(trace, steps, AdvanceStep(2));
  }

  /** A cancel that comes too late is answered CANCELLED of a run that has completed. */
  lemma CancelledThoughCompleted(run: AgentRun) returns (trace: seq<System>, steps: seq<Step>)
    requires run.state.Pending? && run.exitCode == 0 && run.error == ""
    ensures IsRun(trace, steps)
    ensures var end := trace[|trace| - 1];
      && end.replies == [Reply(run.runID, false)]
      && run.runID in end.store.runs && end.store.runs[run.runID].state.Completed?
  {
    trace, steps := CheckedThenCompleted(run);
    var s4 := trace[|trace| - 1];
    trace, steps := Extend(trace, steps, AdvanceStep(1));
    var s5 := trace[|trace| - 1];
    assert s5 == s4.(procs := s4.procs[1 := Replying(run.runID, false)]);
    trace, steps := Extend(trace, steps, AdvanceStep(1));
  }

  // ------------------------------------------------- one active run at most

  /** Every live run is the one its sandbox points at, so no sandbox has two. */
  ghost predicate Exclusive(s: Store) {
    forall r :: r in s.runs && !s.runs[r].state.IsTerminal() ==>
      s.runs[r].sandboxID in s.sandbox && s.sandbox[s.runs[r].sandboxID] == r
  }

  ghost predicate PointersOk(s: Store) {
    forall sb :: sb in s.sandbox ==> s.sandbox[sb] in s.runs && s.runs[s.sandbox[sb]].sandboxID == sb
  }

  predicate HasPending(s: Store, sandboxID: string) {
    sandboxID in s.sandbox && s.sandbox[sandboxID] in s.runs && s.runs[s.sandbox[sandboxID]].state.Pending?
  }

  /** A second start is refused unless the first is still PENDING; then both are live.
      The guard keeps the sandbox exclusive exactly when none is pending. */
  lemma StartKeepsExclusive(sys: System, run: AgentRun)
    requires Inv(sys) && Exclusive(sys.store) && PointersOk(sys.store) && Enabled(sys, StartStep(run))
    ensures Exclusive(Start(sys, run).store) <==> !HasPending(sys.store, run.sandboxID)
  {
    var s, s' := sys.store, Start(sys, run).store;
    if HasPending(s, run.sandboxID) {
      var old_ := s.sandbox[run.sandboxID];
      assert old_ != run.runID;
      assert s'.runs[old_].state.Pending? && s'.sandbox[run.sandboxID] == run.runID;
    }
  }

  ghost predicate NoStartWhilePending(trace: seq<System>, steps: seq<Step>)
    requires IsRun(trace, steps)
  {
    forall i :: 0 <= i < |steps| && steps[i].StartStep? ==> !HasPending(trace[i].store, steps[i].run.sandboxID)
  }

  lemma UpdateKeepsExclusive(s: Store, r: string, state: RunState, exitCode: int, err: string)
    requires PointersOk(s)
    ensures PointersOk(Updated(s, r, state, exitCode, err))
    ensures Exclusive(s) ==> Exclusive(Updated(s, r, state, exitCode, err))
  {
  }

  lemma StartKeepsPointers(sys: System, run: AgentRun)
    requires PointersOk(sys.store) && Enabled(sys, StartStep(run))
    ensures PointersOk(Start(sys, run).store)
  {
  }

  lemma OtherStepsKeepExclusive(sys: System, step: Step)
    requires PointersOk(sys.store) && Enabled(sys, step)
    ensures PointersOk(Next(sys, step).store)
    ensures Exclusive(sys.store) && !step.StartStep? ==> Exclusive(Next(sys, step).store)
  {
    match step
    case StartStep(run) => StartKeepsPointers(sys, run);
    case CancelStep(_) =>
    case CompleteStep(_, _, _) =>
    case AdvanceStep(i) =>
      match sys.procs[i]
      case StartCreated(r) => UpdateKeepsExclusive(sys.store, r, Starting, 0, "");
      case SuperviseStarting(r) => UpdateKeepsExclusive(sys.store, r, Running, 0, "");
      case SuperviseRunning(r) => UpdateKeepsExclusive(sys.store, r, Completed, 0, "");
      case CancelChecked(r) => UpdateKeepsExclusive(sys.store, r, Cancelled, 0, "cancelled by request");
      case CompleteLooked(r, e, m) => UpdateKeepsExclusive(sys.store, r, Outcome(e, m), e, m);
      case _ =>
  }

  /** No sandbox has two live runs. */
  ghost predicate OneLive(s: Store) {
    forall a, b | a in s.runs && b in s.runs && s.runs[a].sandboxID == s.runs[b].sandboxID ::
      s.runs[a].state.IsTerminal() || s.runs[b].state.IsTerminal() || a == b
  }

  /** If no start falls while the sandbox's last run is pending, then at every moment at
      most one run of a sandbox is live. */
  lemma {:induction false} OneActiveRunPerSandbox(trace: seq<System>, steps: seq<Step>, k: nat)
    requires IsRun(trace, steps) && k < |trace| && NoStartWhilePending(trace, steps)
    ensures Exclusive(trace[k].store) && PointersOk(trace[k].store)
    ensures OneLive(trace[k].store)
  {
    if k > 0 {
      OneActiveRunPerSandbox(trace, steps, k - 1);
      RunKeepsInv(trace, steps, k - 1);
      assert StepsTo(trace[k - 1], steps[k - 1], trace[k]);
      OtherStepsKeepExclusive(trace[k - 1], steps[k - 1]);
      if steps[k - 1].StartStep? { StartKeepsExclusive(trace[k - 1], steps[k - 1].run); }
    }
  }

  lemma {:induction false} PointersAlwaysOk(trace: seq<System>, steps: seq<Step>, k: nat)
    requires IsRun(trace, steps) && k < |trace|
    ensures PointersOk(trace[k].store)
  {
    if k > 0 {
      PointersAlwaysOk(trace, steps, k - 1);
      RunKeepsInv(trace, steps, k - 1);
      assert StepsTo(trace[k - 1], steps[k - 1], trace[k]);
      OtherStepsKeepExclusive(trace[k - 1], steps[k - 1]);
    }
  }

  lemma StartWhilePendingDoubles(sys: System, run: AgentRun)
    requires PointersOk(sys.store) && Enabled(sys, StartStep(run)) && HasPending(sys.store, run.sandboxID)
    ensures !OneLive(Start(sys, run).store)
  {
    var s, s' := sys.store, Start(sys, run).store;
    var pending := s.sandbox[run.sandboxID];
    assert pending != run.runID && s'.runs[pending] == s.runs[pending] && s'.runs[run.runID] == run;
  }

  /** At every moment of an interleaving each sandbox has at most one live run if and only
      if no start falls while the sandbox's last run is pending. */
  lemma OneActiveRunIff(trace: seq<System>, steps: seq<Step>)
    requires IsRun(trace, steps)
    ensures (forall k :: 0 <= k < |trace| ==> OneLive(trace[k].store)) <==> NoStartWhilePending(trace, steps)
  {
    if NoStartWhilePending(trace, steps) {
      forall k | 0 <= k < |trace| ensures OneLive(trace[k].store) { OneActiveRunPerSandbox(trace, steps, k); }
    }
    if forall k :: 0 <= k < |trace| ==> OneLive(trace[k].store) {
      forall i | 0 <= i < |steps| && steps[i].StartStep? ensures !HasPending(trace[i].store, steps[i].run.sandboxID) {
        assert StepsTo(trace[i], steps[i], trace[i + 1]) && OneLive(trace[i + 1].store);
        PointersAlwaysOk(trace, steps, i);
        if HasPending(trace[i].store, steps[i].run.sandboxID) { StartWhilePendingDoubles(trace[i], steps[i].run); }
      }
    }
  }

  /** Without that hypothesis two starts can both get through: a concrete interleaving. */
  lemma TwoActiveRuns(a: AgentRun, b: AgentRun) returns (trace: seq<System>, steps: seq<Step>)
    requires a.runID != b.runID && a.sandboxID == b.sandboxID
    requires a.state.Pending? && a.exitCode == 0 && a.error == ""
    requires b.state.Pending? && b.exitCode == 0 && b.error == ""
    ensures IsRun(trace, steps)
    ensures var runs := trace[|trace| - 1].store.runs;
      && a.runID in runs && b.runID in runs
      && runs[a.runID].state.Starting? && runs[b.runID].state.Starting?
  {
    var s0 := EmptySystem();
    var s1 := Start(s0, a);
    var s2 := Start(s1, b);
    var s3 := Advance(s2, 0);
    var s4 := Advance(s3, 1);
    trace := [s0, s1, s2, s3, s4];
    steps := [StartStep(a), StartStep(b), AdvanceStep(0), AdvanceStep(1)];
  }

  // -------------------------------------------- the same protocol, in place

  /** The daemon's side of the protocol on its mutable store and event stream. */
  class RunService {
    const store: AgentRunStore
    var procs: seq<Proc>
    var events: seq<Event>
    var replies: seq<Reply>

    ghost function View(): System
      reads this, store
    {
      System(store.View(), procs, events, replies)
    }

    constructor ()
      ensures View() == EmptySystem() && fresh(store)
    {
      store := new AgentRunStore();
      procs, events, replies := [], [], [];
    }

    /** StartAgentRun, to the return of `Create`. */
    method StartAgentRun(runID: string, sandboxID: string, agent: string, repoURL: string, prompt: string)
      returns (ok: bool)
      modifies this, store
      ensures View() == Start(old(View()), AgentRun(runID, sandboxID, agent, repoURL, prompt, Pending, 0, ""))
    {
      ok := store.Create(runID, sandboxID, agent, repoURL, prompt);
      if ok { procs := procs + [StartCreated(runID)]; }
    }

    /** CancelAgentRun, to its terminal check. */
    method CancelAgentRun(runID: string)
      modifies this
      ensures View() == Cancel(old(View()), runID)
    {
      var run := store.Get(runID);
      if run.None? || run.value.state.IsTerminal() { return; }
      procs := procs + [CancelChecked(runID)];
    }

    /** CompleteAgentRun, to the return of `Get`. */
    method CompleteAgentRun(runID: string, exitCode: int, errMsg: string)
      modifies this
      ensures View() == Complete(old(View()), runID, exitCode, errMsg)
    {
      var run := store.Get(runID);
      if run.None? { return; }
      procs := procs + [CompleteLooked(runID, exitCode, errMsg)];
    }

    /** Handler `i` up to its next interleaving point. */
    method Resume(i: nat)
      requires i < |procs|
      modifies this, store
      ensures View() == Advance(old(View()), i)
    {
      match procs[i]
      case StartCreated(r) =>
        var ok := store.UpdateState(r, Starting, 0, "");
        procs := procs[i := if ok then StartAnnounce(r) else Gone];
      case StartAnnounce(r) =>
        events := events + [RunStarted(r)];
        procs := procs[i := SuperviseStarting(r)];
      case SuperviseStarting(r) =>
        var ok := store.UpdateState(r, Running, 0, "");
        procs := procs[i := if ok then SuperviseRunning(r) else Gone];
      case SuperviseRunning(r) =>
        FinishRun(i, r, Completed, 0, "");
      case CancelChecked(r) =>
        FinishRun(i, r, Cancelled, 0, "cancelled by request");
      case CompleteLooked(r, exitCode, errMsg) =>
        FinishRun(i, r, Outcome(exitCode, errMsg), exitCode, errMsg);
      case Announce(r, state, exitCode) =>
        events := events + [RunCompleted(r, state, exitCode)];
        procs := procs[i := AfterReport(r, state)];
      case Replying(r, won) =>
        replies := replies + [Reply(r, won)];
        procs := procs[i := Gone];
      case Gone =>
    }

    /** finishRun, to the return of `UpdateState`. */
    method FinishRun(i: nat, runID: string, state: RunState, exitCode: int, errMsg: string)
      requires i < |procs|
      modifies this`procs, store
      ensures View() == Try(old(View()), i, runID, state, exitCode, errMsg, Announce(runID, state, exitCode))
    {
      var ok := store.UpdateState(runID, state, exitCode, errMsg);
      procs := procs[i := if ok then Announce(runID, state, exitCode) else AfterLoss(procs[i])];
    }
  }
}
