/** `Engine.RunStream`: two goroutines copy the command's pipes into one NDJSON
    stream under a shared output budget.  A goroutine reads into its own buffer,
    claims budget while it holds the mutex, and writes its event after releasing
    it, so the two pipes interleave between those three points.  The protocol is a
    transition relation; `StreamRun` is the same protocol on mutable buffers. */
module ExecStream {
  import opened Wrappers

  const BUFFER_SIZE := 4096

  datatype Stream = Stdout | Stderr

  datatype Event =
    | Data(stream: Stream, data: Bytes)
    | Done(exitCode: int, truncated: bool, timedOut: bool)

  /** Where a goroutine stands: about to read; holding `n` bytes it has not claimed
      budget for; holding a claimed event of `n` bytes; or gone.  `last` records
      that the read also returned an error (EOF included). */
  datatype Phase =
    | Reading
    | HasChunk(n: nat, last: bool)
    | Claimed(n: nat, last: bool)
    | Finished

  datatype Pipe = Pipe(src: Bytes, pos: nat, buf: Bytes, phase: Phase)

  datatype State = State(
    max: int, out: Pipe, err: Pipe,
    totalOut: int, truncated: bool, wire: seq<Event>, done: bool)
  {
    function PipeOf(s: Stream): Pipe { if s.Stdout? then out else err }
    function WithPipe(s: Stream, p: Pipe): State {
      if s.Stdout? then this.(out := p) else this.(err := p)
    }
  }

  function AfterChunk(last: bool): Phase { if last then Finished else Reading }

  // ---------------------------------------------------------------- steps

  ghost predicate Init(st: State) {
    && st.out.pos == st.err.pos == 0
    && st.out.phase.Reading? && st.err.phase.Reading?
    && |st.out.buf| == |st.err.buf| == BUFFER_SIZE
    && st.totalOut == 0 && !st.truncated && st.wire == [] && !st.done
  }

  predicate CanRead(p: Pipe, n: nat) {
    p.phase.Reading? && n <= BUFFER_SIZE && |p.buf| == BUFFER_SIZE && p.pos + n <= |p.src|
  }

  /** `r.Read(buf)` overwrites the front of the goroutine's buffer. */
  function ReadPipe(p: Pipe, n: nat, last: bool): Pipe
    requires CanRead(p, n)
  {
    p.(pos := p.pos + n,
       buf := p.src[p.pos..p.pos + n] + p.buf[n..],
       phase := if n > 0 then HasChunk(n, last) else AfterChunk(last))
  }

  function Read(st: State, s: Stream, n: nat, last: bool): State
    requires CanRead(st.PipeOf(s), n)
  {
    st.WithPipe(s, ReadPipe(st.PipeOf(s), n, last))
  }

  /** The critical section: claim what is left of the budget, or drop the chunk. */
  function Claim(st: State, s: Stream): State
    requires st.PipeOf(s).phase.HasChunk?
  {
    var p := st.PipeOf(s);
    var HasChunk(n, last) := p.phase;
    if st.totalOut < st.max then
      var remaining := st.max - st.totalOut;
      var m := if n > remaining then remaining else n;
      st.WithPipe(s, p.(phase := Claimed(m, last)))
        .(totalOut := st.totalOut + m, truncated := st.truncated || n > remaining)
    else
      st.WithPipe(s, p.(phase := AfterChunk(last))).(truncated := true)
  }

  predicate CanWrite(p: Pipe) { p.phase.Claimed? && p.phase.n <= |p.buf| }

  function Write(st: State, s: Stream): State
    requires CanWrite(st.PipeOf(s))
  {
    var p := st.PipeOf(s);
    st.WithPipe(s, p.(phase := AfterChunk(p.phase.last)))
      .(wire := st.wire + [Data(s, p.buf[..p.phase.n])])
  }

  predicate CanFinish(st: State) {
    st.out.phase.Finished? && st.err.phase.Finished? && !st.done
  }

  /** After `wg.Wait()`: the one "done" event. */
  function Finish(st: State, exitCode: int, timedOut: bool): State
    requires CanFinish(st)
  {
    st.(wire := st.wire + [Done(exitCode, st.truncated, timedOut)], done := true)
  }

  datatype Step =
    | ReadStep(s: Stream, n: nat, last: bool)
    | ClaimStep(s: Stream)
    | WriteStep(s: Stream)
    | FinishStep(exitCode: int, timedOut: bool)

  predicate Enabled(st: State, step: Step) {
    match step
    case ReadStep(s, n, _) => CanRead(st.PipeOf(s), n)
    case ClaimStep(s) => st.PipeOf(s).phase.HasChunk?
    case WriteStep(s) => CanWrite(st.PipeOf(s))
    case FinishStep(_, _) => CanFinish(st)
  }

  function Next(st: State, step: Step): State
    requires Enabled(st, step)
  {
    match step
    case ReadStep(s, n, last) => Read(st, s, n, last)
    case ClaimStep(s) => Claim(st, s)
    case WriteStep(s) => Write(st, s)
    case FinishStep(e, t) => Finish(st, e, t)
  }

  /** How much of an offer of `n` bytes fits the buffer and the pipe. */
  function Delivered(p: Pipe, n: nat): nat
    requires p.pos <= |p.src|
  {
    Min(n, Min(BUFFER_SIZE, |p.src| - p.pos))
  }

  /** The step goroutine `s` takes next, if it is still running. */
  ghost function NextOf(st: State, s: Stream, n: nat, last: bool): (r: Option<Step>)
    requires Inv(st)
    ensures r.Some? ==> Enabled(st, r.value) && !r.value.FinishStep?
    ensures r.None? <==> st.PipeOf(s).phase.Finished?
  {
    match st.PipeOf(s).phase
    case Reading => Some(ReadStep(s, Delivered(st.PipeOf(s), n), last))
    case HasChunk(_, _) => Some(ClaimStep(s))
    case Claimed(_, _) => Some(WriteStep(s))
    case Finished => None
  }

  ghost function Moved(st: State, s: Stream, n: nat, last: bool): State
    requires Inv(st)
  {
    match NextOf(st, s, n, last)
    case Some(step) => Next(st, step)
    case None => st
  }

  /** A run: any interleaving of enabled steps from an initial state. */
  ghost predicate IsRun(run: seq<State>, steps: seq<Step>) {
    && |run| == |steps| + 1
    && Init(run[0])
    && forall i :: 0 <= i < |steps| ==> Enabled(run[i], steps[i]) && run[i + 1] == Next(run[i], steps[i])
  }

  // ------------------------------------------------------------- observers

  /** The bytes of one stream's events, in wire order. */
  function DataOf(wire: seq<Event>, s: Stream): Bytes {
    if wire == [] then []
    else
      var e := wire[|wire| - 1];
      DataOf(wire[..|wire| - 1], s) + (if e.Data? && e.stream == s then e.data else [])
  }

  function DoneCount(wire: seq<Event>): nat {
    if wire == [] then 0
    else DoneCount(wire[..|wire| - 1]) + (if wire[|wire| - 1].Done? then 1 else 0)
  }

  /** Claimed but not yet on the wire. */
  function Pending(p: Pipe): Bytes {
    if p.phase.Claimed? && p.phase.n <= |p.buf| then p.buf[..p.phase.n] else []
  }

  /** Bytes that have been through the critical section. */
  function Seen(p: Pipe): int {
    p.pos - (if p.phase.HasChunk? then p.phase.n else 0)
  }

  function TotalSeen(st: State): int { Seen(st.out) + Seen(st.err) }

  /** A negative limit behaves like an empty budget. */
  function Budget(st: State): nat { Max(0, st.max) }

  /** A stream's share of the budget: on the wire, then claimed. */
  function Accounted(st: State, s: Stream): Bytes {
    DataOf(st.wire, s) + Pending(st.PipeOf(s))
  }

  function TotalAccounted(st: State): nat { |Accounted(st, Stdout)| + |Accounted(st, Stderr)| }

  // ------------------------------------------------------------- invariant

  /** `sent` is what the wire holds of this pipe; `full` that the budget is used up. */
  ghost predicate PipeInv(p: Pipe, sent: Bytes, full: bool) {
    var claimed := sent + Pending(p);
    && |p.buf| == BUFFER_SIZE
    && p.pos <= |p.src|
    && (p.phase.HasChunk? ==>
          0 < p.phase.n <= BUFFER_SIZE && p.phase.n <= p.pos
          && p.buf[..p.phase.n] == p.src[p.pos - p.phase.n..p.pos])
    && (p.phase.Claimed? ==> 0 < p.phase.n <= BUFFER_SIZE)
    && claimed <= p.src
    && |claimed| <= Seen(p)
    && (!full ==> |claimed| == Seen(p))
  }

  ghost predicate Full(st: State) { st.totalOut == Budget(st) }

  ghost predicate DoneInv(st: State) {
    if st.done then
      && st.out.phase.Finished? && st.err.phase.Finished?
      && |st.wire| > 0 && st.wire[|st.wire| - 1].Done?
      && st.wire[|st.wire| - 1].truncated == st.truncated
      && DoneCount(st.wire) == 1
    else DoneCount(st.wire) == 0
  }

  ghost predicate SideInv(st: State, s: Stream) { PipeInv(st.PipeOf(s), DataOf(st.wire, s), Full(st)) }

  /** Budget conservation and the meaning of the flag, in numbers alone. */
  predicate BudgetInv(totalOut: int, accounted: nat, seen: int, budget: nat, truncated: bool) {
    totalOut == accounted == Min(seen, budget) && (truncated <==> seen > budget)
  }

  ghost predicate Inv(st: State) {
    && SideInv(st, Stdout)
    && SideInv(st, Stderr)
    && BudgetInv(st.totalOut, TotalAccounted(st), TotalSeen(st), Budget(st), st.truncated)
    && DoneInv(st)
  }

  lemma InitInv(st: State)
    requires Init(st)
    ensures Inv(st)
  {
  }

  lemma AppendEvent(wire: seq<Event>, e: Event, s: Stream)
    ensures DataOf(wire + [e], s) == DataOf(wire, s) + (if e.Data? && e.stream == s then e.data else [])
    ensures DoneCount(wire + [e]) == DoneCount(wire) + (if e.Done? then 1 else 0)
  {
    assert (wire + [e])[..|wire + [e]| - 1] == wire;
  }

  lemma ReadPipeInv(p: Pipe, sent: Bytes, full: bool, n: nat, last: bool)
    requires PipeInv(p, sent, full) && CanRead(p, n)
    ensures PipeInv(ReadPipe(p, n, last), sent, full)
    ensures Pending(ReadPipe(p, n, last)) == Pending(p)
  {
    assert ReadPipe(p, n, last).buf[..n] == p.src[p.pos..p.pos + n];
  }

  /** Claiming the first `m` bytes of the chunk extends the claimed prefix by them. */
  lemma ClaimPipeInv(p: Pipe, sent: Bytes, m: nat)
    requires PipeInv(p, sent, false) && p.phase.HasChunk? && 0 < m <= p.phase.n
    ensures var p' := p.(phase := Claimed(m, p.phase.last));
      && PipeInv(p', sent, m < p.phase.n)
      && |sent + Pending(p')| == |sent + Pending(p)| + m
  {
    var p' := p.(phase := Claimed(m, p.phase.last));
    assert p.buf[..m] == p.buf[..p.phase.n][..m] == p.src[p.pos - p.phase.n..p.pos][..m];
    assert sent + Pending(p') == p.src[..|sent| + m];
  }

  function Other(s: Stream): Stream { if s.Stdout? then Stderr else Stdout }

  /** What a step does to one side, in numbers: `claimed` more bytes accounted for, `seen`
      more bytes seen. */
  ghost predicate SideStep(st: State, st': State, s: Stream, claimed: int, seen: int) {
    && SideInv(st', s)
    && |Accounted(st', s)| == |Accounted(st, s)| + claimed
    && Seen(st'.PipeOf(s)) == Seen(st.PipeOf(s)) + seen
  }

  /** Reassembling the invariant after a step of `s`, from what the step did to each side. */
  lemma StepKeepsInv(st: State, st': State, s: Stream, claimed: int, seen: int)
    requires Inv(st) && !st.PipeOf(s).phase.Finished?
    requires SideStep(st, st', s, claimed, seen) && SideStep(st, st', Other(s), 0, 0)
    requires st'.done == st.done && DoneCount(st'.wire) == DoneCount(st.wire)
    requires BudgetInv(st'.totalOut, TotalAccounted(st) + claimed, TotalSeen(st) + seen, Budget(st'), st'.truncated)
    ensures Inv(st')
  {
    assert !st.done;
    if s.Stdout? {
      assert SideStep(st, st', Stdout, claimed, seen) && SideStep(st, st', Stderr, 0, 0);
    } else {
      assert SideStep(st, st', Stderr, claimed, seen) && SideStep(st, st', Stdout, 0, 0);
    }
  }

  /** A step of `s` that leaves the wire alone leaves the other goroutine's side alone. */
  lemma OtherSideKept(st: State, st': State, s: Stream)
    requires SideInv(st, Other(s)) && st'.wire == st.wire && st'.PipeOf(Other(s)) == st.PipeOf(Other(s))
    requires Full(st) ==> Full(st')
    ensures SideStep(st, st', Other(s), 0, 0)
  {
  }

  lemma SideOf(st: State, s: Stream)
    requires Inv(st)
    ensures SideInv(st, s)
  {
  }

  lemma ReadSide(st: State, s: Stream, n: nat, last: bool)
    requires SideInv(st, s) && CanRead(st.PipeOf(s), n)
    ensures SideStep(st, Read(st, s, n, last), s, 0, 0)
  {
    ReadPipeInv(st.PipeOf(s), DataOf(st.wire, s), Full(st), n, last);
    assert Read(st, s, n, last).PipeOf(s) == ReadPipe(st.PipeOf(s), n, last);
  }

  lemma ReadKeepsInv(st: State, s: Stream, n: nat, last: bool)
    requires Inv(st) && CanRead(st.PipeOf(s), n)
    ensures Inv(Read(st, s, n, last))
  {
    SideOf(st, s);
    SideOf(st, Other(s));
    ReadSide(st, s, n, last);
    OtherSideKept(st, Read(st, s, n, last), s);
    StepKeepsInv(st, Read(st, s, n, last), s, 0, 0);
  }

  /** A dropped chunk: nothing is claimed, and it counts as seen. */
  lemma DropSide(st: State, s: Stream)
    requires SideInv(st, s) && st.PipeOf(s).phase.HasChunk? && st.totalOut >= st.max && Full(st)
    ensures SideStep(st, Claim(st, s), s, 0, st.PipeOf(s).phase.n)
  {
    var p := st.PipeOf(s);
    assert Claim(st, s).PipeOf(s) == p.(phase := AfterChunk(p.phase.last));
  }

  lemma DropKeepsInv(st: State, s: Stream)
    requires Inv(st) && st.PipeOf(s).phase.HasChunk? && st.totalOut >= st.max
    ensures Inv(Claim(st, s))
  {
    SideOf(st, s);
    SideOf(st, Other(s));
    assert Full(st) && st.PipeOf(s).phase.n > 0;
    DropSide(st, s);
    OtherSideKept(st, Claim(st, s), s);
    StepKeepsInv(st, Claim(st, s), s, 0, st.PipeOf(s).phase.n);
  }

  /** A claimed chunk: the part that fits extends the claimed prefix, all of it is seen. */
  lemma TakeSide(st: State, s: Stream)
    requires SideInv(st, s) && st.PipeOf(s).phase.HasChunk? && 0 <= st.totalOut < st.max
    ensures var n := st.PipeOf(s).phase.n; SideStep(st, Claim(st, s), s, Min(n, st.max - st.totalOut), n)
  {
    var p := st.PipeOf(s);
    var n := p.phase.n;
    var m := Min(n, st.max - st.totalOut);
    ClaimPipeInv(p, DataOf(st.wire, s), m);
    assert Claim(st, s).PipeOf(s) == p.(phase := Claimed(m, p.phase.last));
  }

  lemma TakeKeepsInv(st: State, s: Stream)
    requires Inv(st) && st.PipeOf(s).phase.HasChunk? && st.totalOut < st.max
    ensures Inv(Claim(st, s))
  {
    SideOf(st, s);
    SideOf(st, Other(s));
    var n := st.PipeOf(s).phase.n;
    TakeSide(st, s);
    OtherSideKept(st, Claim(st, s), s);
    StepKeepsInv(st, Claim(st, s), s, Min(n, st.max - st.totalOut), n);
  }

  lemma ClaimKeepsInv(st: State, s: Stream)
    requires Inv(st) && st.PipeOf(s).phase.HasChunk?
    ensures Inv(Claim(st, s))
  {
    if st.totalOut < st.max { TakeKeepsInv(st, s); } else { DropKeepsInv(st, s); }
  }

  /** Moving the claimed bytes to the wire leaves the pipe's claimed prefix as it was. */
  lemma WritePipeInv(p: Pipe, sent: Bytes, full: bool)
    requires PipeInv(p, sent, full) && CanWrite(p)
    ensures var p' := p.(phase := AfterChunk(p.phase.last));
      && PipeInv(p', sent + p.buf[..p.phase.n], full)
      && sent + p.buf[..p.phase.n] + Pending(p') == sent + Pending(p)
      && Seen(p') == Seen(p)
  {
  }

  lemma WriteKeepsInv(st: State, s: Stream)
    requires Inv(st) && CanWrite(st.PipeOf(s))
    ensures Inv(Write(st, s))
  {
    SideOf(st, s);
    SideOf(st, Other(s));
    WriteSide(st, s);
    WriteOtherSide(st, s);
    StepKeepsInv(st, Write(st, s), s, 0, 0);
  }

  lemma WriteSide(st: State, s: Stream)
    requires SideInv(st, s) && CanWrite(st.PipeOf(s))
    ensures SideStep(st, Write(st, s), s, 0, 0)
  {
    var p, st', sent := st.PipeOf(s), Write(st, s), DataOf(st.wire, s);
    assert st'.PipeOf(s) == p.(phase := AfterChunk(p.phase.last)) && Full(st') == Full(st);
    assert DataOf(st'.wire, s) == sent + p.buf[..p.phase.n] by { AppendEvent(st.wire, WrittenEvent(st, s), s); }
    WritePipeInv(p, sent, Full(st));
  }

  function WrittenEvent(st: State, s: Stream): Event
    requires CanWrite(st.PipeOf(s))
  {
    Data(s, st.PipeOf(s).buf[..st.PipeOf(s).phase.n])
  }

  lemma EventOfOther(wire: seq<Event>, e: Event, o: Stream)
    requires e.Data? && e.stream != o
    ensures DataOf(wire + [e], o) == DataOf(wire, o) && DoneCount(wire + [e]) == DoneCount(wire)
  {
    AppendEvent(wire, e, o);
    assert DataOf(wire, o) + [] == DataOf(wire, o);
  }

  /** The other side, and the count of done events, do not see the event. */
  lemma WriteOtherSide(st: State, s: Stream)
    requires SideInv(st, Other(s)) && CanWrite(st.PipeOf(s))
    ensures SideStep(st, Write(st, s), Other(s), 0, 0) && DoneCount(Write(st, s).wire) == DoneCount(st.wire)
  {
    var o, st' := Other(s), Write(st, s);
    EventOfOther(st.wire, WrittenEvent(st, s), o);
    assert st'.PipeOf(o) == st.PipeOf(o) && Full(st') == Full(st);
  }

  lemma FinishKeepsInv(st: State, exitCode: int, timedOut: bool)
    requires Inv(st) && CanFinish(st)
    ensures Inv(Finish(st, exitCode, timedOut))
  {
    var e := Done(exitCode, st.truncated, timedOut);
    AppendEvent(st.wire, e, Stdout);
    AppendEvent(st.wire, e, Stderr);
  }

  lemma NextKeepsInv(st: State, step: Step)
    requires Inv(st) && Enabled(st, step)
    ensures Inv(Next(st, step))
  {
    match step
    case ReadStep(s, n, last) => ReadKeepsInv(st, s, n, last);
    case ClaimStep(s) => ClaimKeepsInv(st, s);
    case WriteStep(s) => WriteKeepsInv(st, s);
    case FinishStep(e, t) => FinishKeepsInv(st, e, t);
  }

  lemma MovedKeepsInv(st: State, s: Stream, n: nat, last: bool)
    requires Inv(st)
    ensures Inv(Moved(st, s, n, last))
    ensures Moved(st, s, n, last).done == st.done
  {
    var step := NextOf(st, s, n, last);
    if step.Some? { NextKeepsInv(st, step.value); }
  }

  /** The goroutines interleaved as a schedule says. */
  ghost function Play(st: State, schedule: seq<Choice>): (r: State)
    requires Inv(st)
    ensures Inv(r) && r.done == st.done
  {
    if schedule == [] then st
    else
      var before := Play(st, schedule[..|schedule| - 1]);
      var c := schedule[|schedule| - 1];
      MovedKeepsInv(before, c.s, c.n, c.last);
      Moved(before, c.s, c.n, c.last)
  }

  lemma {:induction false} RunKeepsInv(run: seq<State>, steps: seq<Step>, k: nat)
    requires IsRun(run, steps) && k < |run|
    ensures Inv(run[k])
  {
    if k == 0 {
      InitInv(run[0]);
    } else {
      RunKeepsInv(run, steps, k - 1);
      NextKeepsInv(run[k - 1], steps[k - 1]);
    }
  }

  // ---------------------------------------------------------- main results

  /** At every point of every interleaving: budget conservation, the meaning of the
      truncation flag, and each stream a prefix of its own pipe. */
  lemma BudgetConserved(run: seq<State>, steps: seq<Step>, k: nat)
    requires IsRun(run, steps) && k < |run|
    ensures var st := run[k];
      && |Accounted(st, Stdout)| + |Accounted(st, Stderr)| == Min(TotalSeen(st), Max(0, st.max))
      && (st.truncated <==> TotalSeen(st) > Max(0, st.max))
      && Accounted(st, Stdout) <= st.out.src && |Accounted(st, Stdout)| <= st.out.pos
      && Accounted(st, Stderr) <= st.err.src && |Accounted(st, Stderr)| <= st.err.pos
  {
    RunKeepsInv(run, steps, k);
  }

  /** What a finished stream looks like on the wire. */
  ghost predicate StreamComplete(st: State) {
    var read := st.out.pos + st.err.pos;
    && |DataOf(st.wire, Stdout)| + |DataOf(st.wire, Stderr)| == Min(read, Max(0, st.max))
    && DataOf(st.wire, Stdout) <= st.out.src && |DataOf(st.wire, Stdout)| <= st.out.pos
    && DataOf(st.wire, Stderr) <= st.err.src && |DataOf(st.wire, Stderr)| <= st.err.pos
    && DoneCount(st.wire) == 1
    && |st.wire| > 0 && st.wire[|st.wire| - 1].Done?
    && (st.wire[|st.wire| - 1].truncated <==> read > Max(0, st.max))
  }

  lemma InvDoneComplete(st: State)
    requires Inv(st) && st.done
    ensures StreamComplete(st)
  {
  }

  /** At the end of every interleaving exactly min(read, MaxOutput) bytes were
      emitted, and the single "done" event comes last and tells truncation truly. */
  lemma FinishedRunComplete(run: seq<State>, steps: seq<Step>)
    requires IsRun(run, steps) && run[|run| - 1].done
    ensures StreamComplete(run[|run| - 1])
  {
    RunKeepsInv(run, steps, |run| - 1);
    InvDoneComplete(run[|run| - 1]);
  }

  /** No interleaving gets stuck before the "done" event. */
  lemma NeverStuck(run: seq<State>, steps: seq<Step>)
    requires IsRun(run, steps) && !run[|run| - 1].done
    ensures exists step: Step {:trigger Enabled(run[|run| - 1], step)} :: Enabled(run[|run| - 1], step)
  {
    var st := run[|run| - 1];
    RunKeepsInv(run, steps, |run| - 1);
    var step :=
      if st.out.phase.Reading? then ReadStep(Stdout, 0, true)
      else if st.err.phase.Reading? then ReadStep(Stderr, 0, true)
      else if st.out.phase.HasChunk? then ClaimStep(Stdout)
      else if st.err.phase.HasChunk? then ClaimStep(Stderr)
      else if st.out.phase.Claimed? then WriteStep(Stdout)
      else if st.err.phase.Claimed? then WriteStep(Stderr)
      else FinishStep(0, false);
    assert Enabled(st, step);
  }

  // --------------------------------------------- when a goroutine may stop

  predicate IsLastRead(step: Step, s: Stream) { step.ReadStep? && step.s == s && step.last }

  /** Goroutine `s` has had a read that also returned an error. */
  ghost predicate SawLast(steps: seq<Step>, s: Stream) { exists i :: 0 <= i < |steps| && IsLastRead(steps[i], s) }

  predicate PhaseTells(p: Phase, saw: bool) {
    match p
    case Reading => !saw
    case HasChunk(_, last) => last == saw
    case Claimed(_, last) => last == saw
    case Finished => saw
  }

  lemma StepTells(st: State, step: Step, s: Stream, saw: bool)
    requires Enabled(st, step) && PhaseTells(st.PipeOf(s).phase, saw)
    ensures PhaseTells(Next(st, step).PipeOf(s).phase, saw || IsLastRead(step, s))
  {
  }

  lemma SawMore(steps: seq<Step>, k: nat, s: Stream)
    requires k < |steps|
    ensures SawLast(steps[..k + 1], s) <==> SawLast(steps[..k], s) || IsLastRead(steps[k], s)
  {
    var more := steps[..k + 1];
    assert forall i :: 0 <= i < k ==> more[i] == steps[..k][i];
    if SawLast(steps[..k], s) {
      var i :| 0 <= i < k && IsLastRead(steps[..k][i], s);
      assert IsLastRead(more[i], s);
    }
    if IsLastRead(steps[k], s) { assert IsLastRead(more[k], s); }
  }

  lemma {:induction false} PhaseTold(run: seq<State>, steps: seq<Step>, k: nat, s: Stream)
    requires IsRun(run, steps) && k < |run|
    ensures PhaseTells(run[k].PipeOf(s).phase, SawLast(steps[..k], s))
  {
    if k > 0 {
      PhaseTold(run, steps, k - 1, s);
      StepTells(run[k - 1], steps[k - 1], s, SawLast(steps[..k - 1], s));
      SawMore(steps, k - 1, s);
    }
  }

  /** A goroutine is gone only after a read of its own returned an error, and after such a
      read it reads no more. */
  lemma StopsAtLastRead(run: seq<State>, steps: seq<Step>, k: nat, s: Stream)
    requires IsRun(run, steps) && k < |run|
    ensures run[k].PipeOf(s).phase.Finished? ==> exists i :: 0 <= i < k && IsLastRead(steps[i], s)
    ensures forall i :: 0 <= i < k < |steps| && IsLastRead(steps[i], s) ==> !(steps[k].ReadStep? && steps[k].s == s)
  {
    PhaseTold(run, steps, k, s);
    if run[k].PipeOf(s).phase.Finished? {
      var i :| 0 <= i < k && IsLastRead(steps[..k][i], s);
      assert IsLastRead(steps[i], s);
    }
    forall i | 0 <= i < k < |steps| && IsLastRead(steps[i], s) ensures !(steps[k].ReadStep? && steps[k].s == s) {
      assert IsLastRead(steps[..k][i], s);
      assert Enabled(run[k], steps[k]);
    }
  }

  /** A read that returns an error has reached the end of the pipe. */
  predicate HonestRead(p: Pipe, n: nat, last: bool) { last ==> p.pos + n == |p.src| }

  /** A goroutine that will read no more has read all there was. */
  predicate AtEnd(p: Pipe) {
    (p.phase.Finished? || (p.phase.HasChunk? && p.phase.last) || (p.phase.Claimed? && p.phase.last))
    ==> p.pos == |p.src|
  }

  predicate BothAtEnd(st: State) { AtEnd(st.out) && AtEnd(st.err) }

  predicate Honest(st: State, step: Step) { step.ReadStep? ==> HonestRead(st.PipeOf(step.s), step.n, step.last) }

  lemma StepKeepsEnd(st: State, step: Step)
    requires BothAtEnd(st) && Enabled(st, step) && Honest(st, step)
    ensures BothAtEnd(Next(st, step))
  {
  }

  /** When reads return errors only at the end of their pipe, a finished run has read both
      pipes whole. */
  lemma {:induction false} HonestRunDrains(run: seq<State>, steps: seq<Step>, k: nat)
    requires IsRun(run, steps) && k < |run| && forall i :: 0 <= i < |steps| ==> Honest(run[i], steps[i])
    ensures BothAtEnd(run[k])
    ensures run[k].done ==> Drained(run[k])
  {
    if k > 0 {
      HonestRunDrains(run, steps, k - 1);
      StepKeepsEnd(run[k - 1], steps[k - 1]);
    }
    RunKeepsInv(run, steps, k);
  }

  /** So all of the command's output is emitted, up to the limit, and the done event says
      whether that was all. */
  lemma HonestRunEmitsAll(run: seq<State>, steps: seq<Step>)
    requires IsRun(run, steps) && run[|run| - 1].done
    requires forall i :: 0 <= i < |steps| ==> Honest(run[i], steps[i])
    ensures var st := run[|run| - 1]; var all := |st.out.src| + |st.err.src|;
      && |DataOf(st.wire, Stdout)| + |DataOf(st.wire, Stderr)| == Min(all, Max(0, st.max))
      && |st.wire| > 0 && st.wire[|st.wire| - 1].Done? && (st.wire[|st.wire| - 1].truncated <==> all > Max(0, st.max))
  {
    HonestRunDrains(run, steps, |run| - 1);
    InvDoneComplete(run[|run| - 1]);
  }

  /** The same of a schedule: its reads carry an error only at the end of their pipe. */
  ghost predicate EndsAtEof(start: State, schedule: seq<Choice>)
    requires Inv(start)
  {
    schedule == []
    || (EndsAtEof(start, schedule[..|schedule| - 1])
        && HonestChoice(Play(start, schedule[..|schedule| - 1]), schedule[|schedule| - 1]))
  }

  ghost predicate HonestChoice(st: State, c: Choice)
    requires Inv(st)
  {
    var step := NextOf(st, c.s, c.n, c.last);
    step.Some? ==> Honest(st, step.value)
  }

  lemma MovedKeepsEnd(st: State, c: Choice)
    requires Inv(st) && BothAtEnd(st) && HonestChoice(st, c)
    ensures BothAtEnd(Moved(st, c.s, c.n, c.last))
  {
    var step := NextOf(st, c.s, c.n, c.last);
    if step.Some? { StepKeepsEnd(st, step.value); }
  }

  lemma {:induction false} PlayDrains(start: State, schedule: seq<Choice>)
    requires Inv(start) && BothAtEnd(start) && EndsAtEof(start, schedule)
    ensures BothAtEnd(Play(start, schedule))
  {
    if schedule != [] {
      var front, c := schedule[..|schedule| - 1], schedule[|schedule| - 1];
      PlayDrains(start, front);
      MovedKeepsEnd(Play(start, front), c);
      assert Play(start, schedule) == Moved(Play(start, front), c.s, c.n, c.last);
    }
  }

  /** What is left for a goroutine to do. */
  function Work(p: Pipe): nat
    requires p.pos <= |p.src|
  {
    match p.phase
    case Finished => 0
    case Reading => 3 * (|p.src| - p.pos) + 1
    case Claimed(_, _) => 3 * (|p.src| - p.pos) + 2
    case HasChunk(_, _) => 3 * (|p.src| - p.pos) + 3
  }

  /** A full read, with an error once nothing is left. */
  ghost function FullRead(st: State, s: Stream): Choice
    requires Inv(st)
  {
    var p := st.PipeOf(s);
    Choice(s, BUFFER_SIZE, p.pos + Delivered(p, BUFFER_SIZE) == |p.src|)
  }

  lemma StepWorks(st: State, step: Step)
    requires Enabled(st, step) && !step.FinishStep? && st.out.pos <= |st.out.src| && st.err.pos <= |st.err.src|
    requires step.ReadStep? ==> step.n > 0 || step.last
    ensures var st' := Next(st, step);
      && st'.PipeOf(step.s).pos <= |st'.PipeOf(step.s).src| && Work(st'.PipeOf(step.s)) < Work(st.PipeOf(step.s))
      && st'.PipeOf(Other(step.s)) == st.PipeOf(Other(step.s))
  {
  }

  lemma PosOk(st: State)
    requires Inv(st)
    ensures st.out.pos <= |st.out.src| && st.err.pos <= |st.err.src|
  {
    SideOf(st, Stdout);
    SideOf(st, Stderr);
  }

  function TotalWork(st: State): nat
    requires st.out.pos <= |st.out.src| && st.err.pos <= |st.err.src|
  {
    Work(st.out) + Work(st.err)
  }

  lemma LessWork(st: State, s: Stream)
    requires Inv(st) && !st.PipeOf(s).phase.Finished?
    ensures var c := FullRead(st, s); var st' := Moved(st, c.s, c.n, c.last);
      && HonestChoice(st, c) && Inv(st') && st'.done == st.done
      && st.out.pos <= |st.out.src| && st.err.pos <= |st.err.src|
      && st'.out.pos <= |st'.out.src| && st'.err.pos <= |st'.err.src|
      && TotalWork(st') < TotalWork(st)
  {
    PosOk(st);
    var c := FullRead(st, s);
    var step := NextOf(st, s, c.n, c.last).value;
    StepWorks(st, step);
    MovedKeepsInv(st, c.s, c.n, c.last);
    PosOk(Moved(st, c.s, c.n, c.last));
  }

  lemma PlayMore(start: State, schedule: seq<Choice>, c: Choice)
    requires Inv(start) && EndsAtEof(start, schedule) && HonestChoice(Play(start, schedule), c)
    ensures Play(start, schedule + [c]) == Moved(Play(start, schedule), c.s, c.n, c.last)
    ensures EndsAtEof(start, schedule + [c])
  {
    assert (schedule + [c])[..|schedule|] == schedule;
  }

  /** From anywhere both goroutines can be brought to their end by such reads. */
  lemma {:induction false} CanDrain(start: State, schedule: seq<Choice>, work: nat)
    returns (whole: seq<Choice>)
    requires Inv(start) && !start.done && EndsAtEof(start, schedule)
    requires var st := Play(start, schedule);
      st.out.pos <= |st.out.src| && st.err.pos <= |st.err.src| && work == TotalWork(st)
    ensures EndsAtEof(start, whole) && CanFinish(Play(start, whole))
    decreases work
  {
    var st := Play(start, schedule);
    if CanFinish(st) { return schedule; }
    var s := if st.out.phase.Finished? then Stderr else Stdout;
    var c := FullRead(st, s);
    LessWork(st, s);
    PlayMore(start, schedule, c);
    whole := CanDrain(start, schedule + [c], TotalWork(Play(start, schedule + [c])));
  }

  // ----------------------------------------------------- buffered execution

  /** The marker TruncateBytes appends: a newline and "... [truncated]". */
  const MARKER: Bytes := [10, 46, 46, 46, 32, 91, 116, 114, 117, 110, 99, 97, 116, 101, 100, 93]

  datatype Buffered = Buffered(stdout: Bytes, stderr: Bytes, truncated: bool) | SlicePanic

  /** None when the slice expression panics (a negative limit). */
  function TruncateBytes(data: Bytes, max: int): Option<Bytes> {
    if |data| <= max then Some(data)
    else if max < 0 then None
    else Some(data[..max] + MARKER)
  }

  /** The part of `Run` after the command has exited. */
  function RunBuffered(stdout: Bytes, stderr: Bytes, max: int): Buffered {
    match (TruncateBytes(stdout, max), TruncateBytes(stderr, max))
    case (Some(o), Some(e)) => Buffered(o, e, |stdout| > max)
    case _ => SlicePanic
  }

  /** Only a negative limit panics, and then always.  Otherwise each stream is whole, or its
      first `max` bytes with the marker. */
  lemma BufferedKeepsPrefixes(stdout: Bytes, stderr: Bytes, max: int)
    ensures var b := RunBuffered(stdout, stderr, max);
      && (b.SlicePanic? <==> max < 0)
      && (0 <= max ==> CutAt(b.stdout, stdout, max) && CutAt(b.stderr, stderr, max))
  {
  }

  predicate CutAt(given: Bytes, data: Bytes, max: nat) {
    if |data| <= max then given == data
    else |given| == max + |MARKER| && given[..max] <= data && given[max..] == MARKER
  }

  /** A finished stream whose pipes were both read to their end. */
  ghost predicate Drained(st: State) {
    Inv(st) && st.done && st.out.pos == |st.out.src| && st.err.pos == |st.err.src|
  }

  /** When everything fits, streaming and buffering agree byte for byte. */
  lemma StreamAgreesWhenFits(st: State)
    requires Drained(st) && |st.out.src| + |st.err.src| <= st.max
    ensures RunBuffered(st.out.src, st.err.src, st.max)
         == Buffered(DataOf(st.wire, Stdout), DataOf(st.wire, Stderr), false)
    ensures !st.wire[|st.wire| - 1].truncated
  {
  }

  /** With only stdout produced, streaming is the buffered result minus its marker. */
  lemma StreamIsBufferedWithoutMarker(st: State)
    requires Drained(st) && st.err.src == [] && st.max >= 0
    ensures var t := st.wire[|st.wire| - 1].truncated;
      RunBuffered(st.out.src, [], st.max)
      == Buffered(DataOf(st.wire, Stdout) + (if t then MARKER else []), [], t)
  {
    var d := DataOf(st.wire, Stdout);
    assert DataOf(st.wire, Stderr) == [];
    assert d == st.out.src[..|d|];
  }

  /** Buffered truncation implies streamed truncation. */
  lemma BufferedTruncationStreams(st: State)
    requires Drained(st)
    requires var b := RunBuffered(st.out.src, st.err.src, st.max); b.Buffered? && b.truncated
    ensures st.wire[|st.wire| - 1].truncated
  {
  }

  /** The flag the buffered form reports looks at stdout only: stderr can be cut with
      the flag down.  It tells the truth exactly when stderr fits or stdout does not. */
  lemma BufferedFlagTruthful(stdout: Bytes, stderr: Bytes, max: nat)
    ensures var b := RunBuffered(stdout, stderr, max);
      && b.Buffered?
      && ((b.truncated <==> |stdout| > max || |stderr| > max) <==> (|stderr| <= max || |stdout| > max))
      && (|stdout| <= max < |stderr| ==> !b.truncated && b.stderr == stderr[..max] + MARKER)
  {
  }

  // -------------------------------------------- the same protocol, in place

  /** One goroutine's side: its pipe, its reused 4096-byte buffer, its program point. */
  class PipeReader {
    const src: Bytes
    const buf: array<Byte>
    var pos: nat
    var phase: Phase

    constructor (src: Bytes)
      ensures this.src == src && pos == 0 && phase == Reading
      ensures fresh(buf) && buf.Length == BUFFER_SIZE
    {
      this.src := src;
      buf := new Byte[BUFFER_SIZE];
      pos, phase := 0, Reading;
    }

    ghost function View(): Pipe
      reads this, buf
    {
      Pipe(src, pos, buf[..], phase)
    }

    /** `n, rerr := r.Read(buf)` */
    method Read(n: nat, last: bool)
      requires CanRead(View(), n)
      modifies this, buf
      ensures View() == ReadPipe(old(View()), n, last)
    {
      forall i | 0 <= i < n {
        buf[i] := src[pos + i];
      }
      assert buf[..] == src[pos..pos + n] + old(buf[..])[n..];
      pos := pos + n;
      phase := if n > 0 then HasChunk(n, last) else AfterChunk(last);
    }
  }

  /** What `cmd.Wait` returned: nothing, an exit status, or another error. */
  datatype Ending = Succeeded | Status(code: int) | OtherError

  /** Zero after success, and after an error that is a timeout rather than a status. */
  function ExitCode(ending: Ending, timedOut: bool): int {
    match ending
    case Succeeded => 0
    case Status(code) => code
    case OtherError => if timedOut then 0 else 1
  }

  const DEFAULT_MAX_OUTPUT := 8 * 1024 * 1024

  /** One scheduling decision: which goroutine moves, and what a read would return. */
  datatype Choice = Choice(s: Stream, n: nat, last: bool)

  /** What `RunStream`'s closures share, with the two goroutines that share it. */
  class StreamRun {
    const max: int
    const out: PipeReader
    const err: PipeReader
    var totalOut: int
    var truncated: bool
    var wire: seq<Event>
    var done: bool

    ghost predicate Valid() { out != err && out.buf != err.buf }

    ghost function View(): State
      reads this, out, out.buf, err, err.buf
    {
      State(max, out.View(), err.View(), totalOut, truncated, wire, done)
    }

    constructor (max: int, stdout: Bytes, stderr: Bytes)
      ensures Valid() && fresh(out) && fresh(err) && fresh(out.buf) && fresh(err.buf)
      ensures Init(View())
      ensures this.max == max && out.src == stdout && err.src == stderr
    {
      this.max := max;
      out := new PipeReader(stdout);
      err := new PipeReader(stderr);
      totalOut, truncated, wire, done := 0, false, [], false;
    }

    /** `n, rerr := r.Read(buf)`, delivering as much of `n` as fits. */
    method ReadChunk(s: Stream, n: nat, last: bool) returns (k: nat)
      requires Valid() && Inv(View()) && View().PipeOf(s).phase.Reading?
      modifies out, out.buf, err, err.buf
      ensures k == Delivered(old(View()).PipeOf(s), n) && View() == Read(old(View()), s, k, last)
    {
      var p := if s.Stdout? then out else err;
      k := Min(n, Min(BUFFER_SIZE, |p.src| - p.pos));
      p.Read(k, last);
    }

    /** The critical section, between `mu.Lock()` and `mu.Unlock()`. */
    method ClaimChunk(s: Stream)
      requires Valid() && View().PipeOf(s).phase.HasChunk?
      modifies this, out`phase, err`phase
      ensures View() == Claim(old(View()), s)
    {
      var p := if s.Stdout? then out else err;
      var HasChunk(n, last) := p.phase;
      if totalOut < max {
        var remaining := max - totalOut;
        var m := n;
        if m > remaining {
          m := remaining;
          truncated := true;
        }
        totalOut := totalOut + m;
        p.phase := Claimed(m, last);
      } else {
        truncated := true;
        p.phase := AfterChunk(last);
      }
    }

    /** `writeEvent` on the claimed front of the goroutine's buffer. */
    method WriteChunk(s: Stream)
      requires Valid() && CanWrite(View().PipeOf(s))
      modifies this`wire, out`phase, err`phase
      ensures View() == Write(old(View()), s)
    {
      var p := if s.Stdout? then out else err;
      var Claimed(n, last) := p.phase;
      assert p.buf[..n] == p.buf[..][..n];
      wire := wire + [Data(s, p.buf[..n])];
      p.phase := AfterChunk(last);
    }

    /** Runs goroutine `s` up to its next interleaving point; `n` and `last` are what
        the pipe would deliver if that is a read. */
    method Advance(s: Stream, n: nat, last: bool)
      requires Valid() && Inv(View())
      modifies this, out, out.buf, err, err.buf
      ensures View() == Moved(old(View()), s, n, last)
    {
      var p := if s.Stdout? then out else err;
      match p.phase {
        case Reading =>
          var k := ReadChunk(s, n, last);
        case HasChunk(_, _) =>
          ClaimChunk(s);
        case Claimed(_, _) =>
          WriteChunk(s);
        case Finished =>
      }
    }

    /** Both `copyPipe` loops, interleaved as `schedule` says. */
    method CopyPipes(schedule: seq<Choice>)
      requires Valid() && Inv(View()) && !done
      modifies this, out, out.buf, err, err.buf
      ensures View() == Play(old(View()), schedule)
    {
      for i := 0 to |schedule|
        invariant View() == Play(old(View()), schedule[..i])
      {
        assert schedule[..i + 1][..i] == schedule[..i];
        Advance(schedule[i].s, schedule[i].n, schedule[i].last);
      }
      assert schedule[..|schedule|] == schedule;
    }

    /** After `wg.Wait()`: write the final event, if both goroutines are gone. */
    method Close(ending: Ending, timedOut: bool) returns (closed: bool)
      requires Valid() && Inv(View()) && !done
      modifies this
      ensures closed <==> CanFinish(old(View()))
      ensures View() == if closed then Finish(old(View()), ExitCode(ending, timedOut), timedOut) else old(View())
      ensures Inv(View())
    {
      closed := out.phase.Finished? && err.phase.Finished?;
      if closed {
        var exitCode := 0;
        match ending {
          case Succeeded =>
          case Status(code) => exitCode := code;
          case OtherError =>
            if !timedOut { exitCode := 1; }
        }
        FinishKeepsInv(View(), exitCode, timedOut);
        wire := wire + [Done(exitCode, truncated, timedOut)];
        done := true;
      }
    }
  }

  /** What a caller of `RunStream` finds on the wire, given how much of each pipe was read. */
  ghost predicate WireOk(wire: seq<Event>, stdout: Bytes, stderr: Bytes, readOut: nat, readErr: nat, max: int) {
    && DataOf(wire, Stdout) <= stdout && |DataOf(wire, Stdout)| <= readOut <= |stdout|
    && DataOf(wire, Stderr) <= stderr && |DataOf(wire, Stderr)| <= readErr <= |stderr|
    && |DataOf(wire, Stdout)| + |DataOf(wire, Stderr)| <= Max(0, max)
  }

  ghost predicate WireDone(wire: seq<Event>, readOut: nat, readErr: nat, max: int, exitCode: int, timedOut: bool) {
    && |DataOf(wire, Stdout)| + |DataOf(wire, Stderr)| == Min(readOut + readErr, Max(0, max))
    && DoneCount(wire) == 1
    && |wire| > 0
    && wire[|wire| - 1] == Done(exitCode, readOut + readErr > Max(0, max), timedOut)
  }

  /** What the wire holds at any moment of a run. */
  lemma InvOnWire(st: State)
    requires Inv(st)
    ensures WireOk(st.wire, st.out.src, st.err.src, st.out.pos, st.err.pos, st.max)
    ensures !st.done ==> DoneCount(st.wire) == 0
  {
  }

  lemma DoneOnWire(st: State, exitCode: int, timedOut: bool)
    requires Inv(st) && CanFinish(st)
    ensures var end := Finish(st, exitCode, timedOut);
      && WireOk(end.wire, st.out.src, st.err.src, st.out.pos, st.err.pos, st.max)
      && WireDone(end.wire, st.out.pos, st.err.pos, st.max, exitCode, timedOut)
  {
    var end := Finish(st, exitCode, timedOut);
    FinishKeepsInv(st, exitCode, timedOut);
    InvDoneComplete(end);
    InvOnWire(end);
  }

  lemma {:induction false} SourcesKept(start: State, schedule: seq<Choice>)
    requires Inv(start)
    ensures var end := Play(start, schedule); end.out.src == start.out.src && end.err.src == start.err.src
  {
    if schedule != [] {
      var c := schedule[|schedule| - 1];
      SourcesKept(start, schedule[..|schedule| - 1]);
      MovedKeepsSources(Play(start, schedule[..|schedule| - 1]), c);
    }
  }

  lemma MovedKeepsSources(st: State, c: Choice)
    requires Inv(st)
    ensures var st' := Moved(st, c.s, c.n, c.last); st'.out.src == st.out.src && st'.err.src == st.err.src
  {
  }

  /** The started command under an arbitrary schedule.  `finished` is false when the
      schedule stops before both pipes have been closed. */
  method CopyAndReport(max: int, stdout: Bytes, stderr: Bytes, schedule: seq<Choice>, ending: Ending, timedOut: bool)
    returns (finished: bool, wire: seq<Event>, readOut: nat, readErr: nat, ghost start: State)
    ensures Init(start) && start.max == max && start.out.src == stdout && start.err.src == stderr
    ensures Inv(start)
    ensures var end := Play(start, schedule);
      && finished == CanFinish(end)
      && wire == (if finished then Finish(end, ExitCode(ending, timedOut), timedOut) else end).wire
    ensures WireOk(wire, stdout, stderr, readOut, readErr, max)
    ensures if finished then WireDone(wire, readOut, readErr, max, ExitCode(ending, timedOut), timedOut)
            else DoneCount(wire) == 0
    ensures finished && EndsAtEof(start, schedule) ==> readOut == |stdout| && readErr == |stderr|
  {
    var run := new StreamRun(max, stdout, stderr);
    start := run.View();
    InitInv(start);
    run.CopyPipes(schedule);
    ghost var end := run.View();
    readOut, readErr := run.out.pos, run.err.pos;
    finished := run.Close(ending, timedOut);
    wire := run.wire;
    if finished { DoneOnWire(end, ExitCode(ending, timedOut), timedOut); } else { InvOnWire(end); }
    SourcesKept(start, schedule);
    if EndsAtEof(start, schedule) { PlayDrains(start, schedule); }
  }

  /** `RunStream`.  Nothing is written when there is no command, or its pipes or its process
      cannot be had.  The limit is the request's, the engine's or 8 MiB; the exit code is the
      command's own status, and for other errors 1 unless it was a timeout.  Once both pipes
      have been read to their end, everything the command printed is there, up to the limit. */
  method RunStream(requested: int, engine: int, command: string, starts: bool, stdout: Bytes, stderr: Bytes,
                   schedule: seq<Choice>, ending: Ending, timedOut: bool)
    returns (started: bool, finished: bool, wire: seq<Event>, readOut: nat, readErr: nat, max: int, exitCode: int,
             ghost start: Option<State>)
    ensures started <==> command != "" && starts
    ensures !started ==> !finished && wire == []
    ensures requested != 0 ==> max == requested
    ensures requested == 0 && engine != 0 ==> max == engine
    ensures requested == 0 && engine == 0 ==> max == 8388608
    ensures ending.Status? ==> exitCode == ending.code
    ensures ending.Succeeded? || (ending.OtherError? && timedOut) ==> exitCode == 0
    ensures ending.OtherError? && !timedOut ==> exitCode == 1
    ensures WireOk(wire, stdout, stderr, readOut, readErr, max)
    ensures if finished then WireDone(wire, readOut, readErr, max, exitCode, timedOut) else DoneCount(wire) == 0
    ensures started <==> start.Some?
    ensures started ==> Init(start.value) && Inv(start.value) && start.value.out.src == stdout
    ensures started ==> start.value.err.src == stderr && start.value.max == max
    ensures started ==> finished == CanFinish(Play(start.value, schedule))
    ensures finished && EndsAtEof(start.value, schedule) ==> readOut == |stdout| && readErr == |stderr|
  {
    started, finished, wire, readOut, readErr, start := false, false, [], 0, 0, None;
    max := requested;
    if max == 0 { max := if engine == 0 then DEFAULT_MAX_OUTPUT else engine; }
    exitCode := ExitCode(ending, timedOut);
    if command == "" || !starts { return; }
    started := true;
    ghost var first;
    finished, wire, readOut, readErr, first := CopyAndReport(max, stdout, stderr, schedule, ending, timedOut);
    start := Some(first);
  }
}
