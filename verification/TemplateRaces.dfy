/** Writers of one template with nothing to keep them apart: each writes template.yaml, reads
    the history, writes its revision file and writes the index, and another can come in
    between any two of these. */
module TemplateRaces {
  import opened Wrappers
  import opened Templates

  /** What a writer has done so far; `known` is the history it read. */
  datatype Writer =
    | Waiting(t: Template, time: string)
    | Current(t: Template, time: string)
    | Loaded(t: Template, time: string, known: seq<Revision>)
    | Filed(t: Template, time: string, known: seq<Revision>)
    | Done(t: Template, time: string)
  {
    /** Between its read of the history and its write of the index. */
    predicate Open() { Loaded? || Filed? }
  }

  datatype System = System(dir: TemplateDir, writers: seq<Writer>)

  /** Each writer's next action; all of them are one step. */
  type Step = nat

  function NumberAfter(known: seq<Revision>): int { if known == [] then 1 else known[0].n + 1 }

  function NewRevision(c: Codec, w: Writer): Revision
    requires w.Open()
  {
    Revision(NumberAfter(w.known), w.time, ContentDigest(c, w.t))
  }

  function Next(c: Codec, s: System, i: Step): System {
    if i >= |s.writers| then s
    else
      var w := s.writers[i];
      match w
      case Waiting(t, time) =>
        System(s.dir.(current := Some(c.yaml(t))), s.writers[i := Current(t, time)])
      case Current(t, time) =>
        s.(writers := s.writers[i := Loaded(t, time, KnownHistory(c, s.dir))])
      case Loaded(t, time, known) =>
        System(s.dir.(revs := s.dir.revs[NumberAfter(known) := c.yaml(t)]), s.writers[i := Filed(t, time, known)])
      case Filed(t, time, known) =>
        System(s.dir.(index := Some(c.index([NewRevision(c, w)] + known))), s.writers[i := Done(t, time)])
      case Done(_, _) => s
  }

  function Run(c: Codec, s: System, steps: seq<Step>): System {
    if steps == [] then s else Next(c, Run(c, s, steps[..|steps| - 1]), steps[|steps| - 1])
  }

  /** A writer that nothing comes between makes the store's write. */
  lemma AloneIsCreate(c: Codec, d: TemplateDir, t: Template, time: string)
    ensures var s := System(d, [Waiting(t, time)]);
      Next(c, Next(c, Next(c, Next(c, s, 0), 0), 0), 0) == System(Written(c, d, t, time, 3), [Done(t, time)])
  {
    var s1 := Next(c, System(d, [Waiting(t, time)]), 0);
    assert s1 == System(d.(current := Some(c.yaml(t))), [Current(t, time)]);
    assert KnownHistory(c, s1.dir) == KnownHistory(c, d);
    var s2 := Next(c, s1, 0);
    assert s2 == s1.(writers := [Loaded(t, time, KnownHistory(c, d))]);
    var s3 := Next(c, s2, 0);
    assert s3.writers == [Filed(t, time, KnownHistory(c, d))];
  }

  /** Writer `i` is about to read the history while another is between its read and its
      index. */
  predicate Crosses(s: System, i: Step) {
    i < |s.writers| && s.writers[i].Current? && exists j | 0 <= j < |s.writers| :: s.writers[j].Open()
  }

  predicate Disjoint(c: Codec, s: System, steps: seq<Step>) {
    steps == []
    || (Disjoint(c, s, steps[..|steps| - 1]) && !Crosses(Run(c, s, steps[..|steps| - 1]), steps[|steps| - 1]))
  }

  // ------------------------------------------------------ counting revisions

  function DoneCount(ws: seq<Writer>): nat {
    if ws == [] then 0 else DoneCount(ws[..|ws| - 1]) + (if ws[|ws| - 1].Done? then 1 else 0)
  }

  lemma {:induction false} DoneUpdate(ws: seq<Writer>, i: nat, w: Writer)
    requires i < |ws|
    ensures DoneCount(ws[i := w]) == DoneCount(ws) - (if ws[i].Done? then 1 else 0) + (if w.Done? then 1 else 0)
  {
    var n := |ws| - 1;
    if i == n {
      assert ws[i := w][..n] == ws[..n];
    } else {
      DoneUpdate(ws[..n], i, w);
      assert ws[i := w][..n] == ws[..n][i := w];
    }
  }

  lemma {:induction false} AllDone(ws: seq<Writer>)
    ensures (forall i :: 0 <= i < |ws| ==> ws[i].Done?) ==> DoneCount(ws) == |ws|
    ensures (forall i :: 0 <= i < |ws| ==> !ws[i].Done?) ==> DoneCount(ws) == 0
  {
    if ws != [] { AllDone(ws[..|ws| - 1]); }
  }

  lemma {:induction false} InsertLength(rs: seq<Revision>, r: Revision)
    ensures |InsertRevision(rs, r)| == |rs| + 1
  {
    if rs != [] && r.n <= rs[0].n { InsertLength(rs[1..], r); }
  }

  lemma {:induction false} SortLength(rs: seq<Revision>)
    ensures |SortNewestFirst(rs)| == |rs|
  {
    if rs != [] {
      SortLength(rs[1..]);
      InsertLength(SortNewestFirst(rs[1..]), rs[0]);
    }
  }

  lemma IndexCount(c: Codec, d: TemplateDir, rs: seq<Revision>)
    requires Faithful(c)
    ensures Count(c, d.(index := Some(c.index(rs)))) == |rs|
  {
    assert c.unindex(c.index(rs)) == Some(rs);
    SortLength(rs);
  }

  /** As many revisions as there should be by now. */
  function Expected(start: nat, s: System): nat { start + DoneCount(s.writers) }

  predicate Stale(start: nat, s: System, i: nat) {
    i < |s.writers| && s.writers[i].Open() && |s.writers[i].known| < Expected(start, s)
  }

  predicate Two(s: System, i: nat, j: nat) { i < j < |s.writers| && s.writers[i].Open() && s.writers[j].Open() }

  /** No more revisions than expected are indexed or known, and an open writer knows what is
      indexed or too little. */
  ghost predicate Bounded(c: Codec, start: nat, s: System) {
    && Count(c, s.dir) <= Expected(start, s)
    && forall i :: 0 <= i < |s.writers| && s.writers[i].Open() ==>
         |s.writers[i].known| <= Expected(start, s)
         && (|s.writers[i].known| == Count(c, s.dir) || Stale(start, s, i))
  }

  /** A revision is missing from the index, or is bound to be. */
  ghost predicate Losing(c: Codec, start: nat, s: System) {
    || Count(c, s.dir) < Expected(start, s)
    || (exists i: nat :: Stale(start, s, i))
    || (exists i: nat, j: nat :: Two(s, i, j))
  }

  lemma StepCounts(c: Codec, start: nat, s: System, i: Step)
    requires Faithful(c) && Bounded(c, start, s)
    ensures Bounded(c, start, Next(c, s, i))
    ensures Losing(c, start, s) || Crosses(s, i) ==> Losing(c, start, Next(c, s, i))
  {
    if i < |s.writers| {
      if s.writers[i].Filed? {
        IndexStepCounts(c, start, s, i);
      } else {
        OtherStepCounts(c, start, s, i);
      }
    }
  }

  lemma IndexStepCounts(c: Codec, start: nat, s: System, i: nat)
    requires Faithful(c) && Bounded(c, start, s) && i < |s.writers| && s.writers[i].Filed?
    ensures Bounded(c, start, Next(c, s, i))
    ensures Losing(c, start, s) ==> Losing(c, start, Next(c, s, i))
  {
    var w := s.writers[i];
    var s' := System(s.dir.(index := Some(c.index([NewRevision(c, w)] + w.known))), s.writers[i := Done(w.t, w.time)]);
    assert Next(c, s, i) == s';
    IndexCount(c, s.dir, [NewRevision(c, w)] + w.known);
    DoneUpdate(s.writers, i, Done(w.t, w.time));
    IndexMakesStale(start, s, s', i);
    if Losing(c, start, s) { IndexStillLosing(c, start, s, s', i); }
  }

  /** Writing an index leaves every open writer with too little. */
  lemma IndexMakesStale(start: nat, s: System, s': System, i: nat)
    requires i < |s.writers| && s.writers[i].Open()
    requires s'.writers == s.writers[i := Done(s.writers[i].t, s.writers[i].time)]
    requires Expected(start, s') == Expected(start, s) + 1
    requires forall j :: 0 <= j < |s.writers| && s.writers[j].Open() ==> |s.writers[j].known| <= Expected(start, s)
    ensures forall j: nat :: j < |s'.writers| && s'.writers[j].Open() ==> Stale(start, s', j)
  {
    forall j: nat | j < |s'.writers| && s'.writers[j].Open() ensures Stale(start, s', j) {
      assert s'.writers[j] == s.writers[j];
    }
  }

  lemma IndexStillLosing(c: Codec, start: nat, s: System, s': System, i: nat)
    requires Bounded(c, start, s) && Losing(c, start, s) && i < |s.writers| && s.writers[i].Open()
    requires s'.writers == s.writers[i := Done(s.writers[i].t, s.writers[i].time)]
    requires Expected(start, s') == Expected(start, s) + 1
    requires Count(c, s'.dir) == |s.writers[i].known| + 1
    requires forall j: nat :: j < |s'.writers| && s'.writers[j].Open() ==> Stale(start, s', j)
    ensures Losing(c, start, s')
  {
    if k: nat :| Stale(start, s, k) {
      if k != i { assert Stale(start, s', k); }
    } else if a: nat, b: nat :| Two(s, a, b) {
      assert Stale(start, s', if a == i then b else a);
    }
  }

  lemma OtherStepCounts(c: Codec, start: nat, s: System, i: nat)
    requires Faithful(c) && Bounded(c, start, s) && i < |s.writers| && !s.writers[i].Filed?
    ensures Bounded(c, start, Next(c, s, i))
    ensures Losing(c, start, s) || Crosses(s, i) ==> Losing(c, start, Next(c, s, i))
  {
    var s' := Next(c, s, i);
    DoneUpdate(s.writers, i, s'.writers[i]);
    assert s'.writers == s.writers[i := s'.writers[i]];
    assert Expected(start, s') == Expected(start, s) && s'.dir.index == s.dir.index;
    forall j | 0 <= j < |s'.writers| && s'.writers[j].Open()
      ensures |s'.writers[j].known| <= Expected(start, s')
        && (|s'.writers[j].known| == Count(c, s'.dir) || Stale(start, s', j))
    {
      if s.writers[j].Open() { assert s'.writers[j].known == s.writers[j].known; }
    }
    if k: nat :| Stale(start, s, k) { assert Stale(start, s', k); }
    if a: nat, b: nat :| Two(s, a, b) { assert Two(s', a, b); }
    if Crosses(s, i) { CrossingMakesTwo(c, s, i); }
  }

  lemma CrossingMakesTwo(c: Codec, s: System, i: nat)
    requires Crosses(s, i)
    ensures exists a: nat, b: nat :: Two(Next(c, s, i), a, b)
  {
    var j: nat :| j < |s.writers| && s.writers[j].Open();
    assert j != i && Two(Next(c, s, i), if i < j then i else j, if i < j then j else i);
  }

  /** At the start of a run. */
  ghost predicate Fresh(c: Codec, s: System) {
    HistoryOk(c, s.dir) && forall i :: 0 <= i < |s.writers| ==> s.writers[i].Waiting?
  }

  lemma {:induction false} RunCounts(c: Codec, s: System, steps: seq<Step>)
    requires Faithful(c) && Fresh(c, s)
    ensures var start, now := Count(c, s.dir), Run(c, s, steps);
      && Bounded(c, start, now) && |now.writers| == |s.writers|
      && (!Disjoint(c, s, steps) ==> Losing(c, start, now))
  {
    if steps == [] {
      AllDone(s.writers);
    } else {
      var front := steps[..|steps| - 1];
      RunCounts(c, s, front);
      StepCounts(c, Count(c, s.dir), Run(c, s, front), steps[|steps| - 1]);
    }
  }

  // ------------------------------------------------------------ kept apart

  /** `d` is well formed and goes on from `first`. */
  ghost predicate Kept(c: Codec, first: TemplateDir, d: TemplateDir) { HistoryOk(c, d) && Continues(c, first, d) }

  /** At most one writer is open; it knows the whole history, and its file, once written, is
      under the next number.  Writers that are done have a revision. */
  ghost predicate InTurn(c: Codec, first: TemplateDir, s: System) {
    && Kept(c, first, s.dir)
    && Count(c, s.dir) == Expected(Count(c, first), s)
    && (forall i: nat, j: nat :: !Two(s, i, j))
    && forall i :: 0 <= i < |s.writers| ==> Ready(c, s.dir, s.writers[i]) && Recorded(c, first, s.dir, s.writers[i])
  }

  ghost predicate Ready(c: Codec, d: TemplateDir, w: Writer) {
    && (w.Open() ==> w.known == KnownHistory(c, d))
    && (w.Filed? ==> NextNumber(c, d) in d.revs && d.revs[NextNumber(c, d)] == c.yaml(w.t))
  }

  /** The template is one of the revisions added since `first`. */
  ghost predicate Added(c: Codec, first: TemplateDir, d: TemplateDir, t: Template) {
    exists k :: Count(c, first) < k <= Count(c, d) && k in d.revs && d.revs[k] == c.yaml(t)
  }

  ghost predicate Recorded(c: Codec, first: TemplateDir, d: TemplateDir, w: Writer) {
    w.Done? ==> Added(c, first, d, w.t)
  }

  /** The history does not look at template.yaml. */
  lemma CurrentDoesNotMatter(c: Codec, first: TemplateDir, d: TemplateDir, x: Option<Bytes>)
    requires Kept(c, first, d)
    ensures var d' := d.(current := x);
      Kept(c, first, d') && KnownHistory(c, d') == KnownHistory(c, d)
  {
    var d' := d.(current := x);
    SameIndexSameHistory(c, d, d');
    var rs := KnownHistory(c, d);
    forall i | 0 <= i < |rs|
      ensures GetRevision(c, d', rs[i].n).Some?
        && ContentDigest(c, GetRevision(c, d', rs[i].n).value) == rs[i].digest
    {
      assert GetRevision(c, d', rs[i].n) == GetRevision(c, d, rs[i].n);
    }
  }

  lemma SameIndexSameHistory(c: Codec, d: TemplateDir, d': TemplateDir)
    requires d'.index == d.index
    ensures History(c, d') == History(c, d) && KnownHistory(c, d') == KnownHistory(c, d)
  {
  }

  /** What one step does to the directory. */
  ghost predicate Moved(c: Codec, d: TemplateDir, d': TemplateDir, w: Writer, w': Writer) {
    && Kept(c, d, d') && Ready(c, d', w') && Recorded(c, d, d', w')
    && Count(c, d') == Count(c, d) + (if w'.Done? then 1 else 0)
    && (w.Open() || (KnownHistory(c, d') == KnownHistory(c, d) && d'.revs == d.revs))
  }

  lemma CurrentMoves(c: Codec, d: TemplateDir, w: Writer)
    requires HistoryOk(c, d) && w.Waiting?
    ensures Moved(c, d, d.(current := Some(c.yaml(w.t))), w, Current(w.t, w.time))
  {
    SelfContinues(c, d);
    CurrentDoesNotMatter(c, d, d, Some(c.yaml(w.t)));
    SameCount(c, d, d.(current := Some(c.yaml(w.t))), w, Current(w.t, w.time));
  }

  lemma SelfContinues(c: Codec, d: TemplateDir)
    requires HistoryOk(c, d)
    ensures Kept(c, d, d)
  {
    IndexedFilesExist(c, d);
  }

  lemma SameCount(c: Codec, d: TemplateDir, d': TemplateDir, w: Writer, w': Writer)
    requires Kept(c, d, d') && KnownHistory(c, d') == KnownHistory(c, d)
    requires Ready(c, d', w') && !w'.Done? && (w.Open() || d'.revs == d.revs)
    ensures Moved(c, d, d', w, w')
  {
  }

  lemma FileMoves(c: Codec, d: TemplateDir, w: Writer)
    requires Faithful(c) && HistoryOk(c, d) && Ready(c, d, w) && w.Loaded?
    ensures var d' := d.(revs := d.revs[NextNumber(c, d) := c.yaml(w.t)]);
      Moved(c, d, d', w, Filed(w.t, w.time, w.known))
  {
    var d' := d.(revs := d.revs[NextNumber(c, d) := c.yaml(w.t)]);
    FileKeepsHistory(c, d, w.t, w.time);
    assert NextNumber(c, d') == NextNumber(c, d);
    SameCount(c, d, d', w, Filed(w.t, w.time, w.known));
  }

  lemma FileKeepsHistory(c: Codec, d: TemplateDir, t: Template, time: string)
    requires Faithful(c) && HistoryOk(c, d)
    ensures var d' := d.(revs := d.revs[NextNumber(c, d) := c.yaml(t)]);
      Kept(c, d, d') && KnownHistory(c, d') == KnownHistory(c, d)
  {
    var after := Written(c, d, t, time, 2);
    WriteKeepsHistory(c, d, t, time, 2);
    CurrentDoesNotMatter(c, d, after, d.current);
    assert after.(current := d.current) == d.(revs := d.revs[NextNumber(c, d) := c.yaml(t)]);
  }

  lemma IndexMoves(c: Codec, d: TemplateDir, w: Writer)
    requires Faithful(c) && HistoryOk(c, d) && Ready(c, d, w) && w.Filed?
    ensures var d' := d.(index := Some(c.index([NewRevision(c, w)] + w.known)));
      Moved(c, d, d', w, Done(w.t, w.time))
  {
    var d' := d.(index := Some(c.index([NewRevision(c, w)] + w.known)));
    IndexKeepsHistory(c, d, w);
    IndexedFilesExist(c, d);
    assert d'.revs[Count(c, d')] == c.yaml(w.t);
  }

  lemma IndexKeepsHistory(c: Codec, d: TemplateDir, w: Writer)
    requires Faithful(c) && HistoryOk(c, d) && Ready(c, d, w) && w.Filed?
    ensures var d' := d.(index := Some(c.index([NewRevision(c, w)] + w.known)));
      Kept(c, d, d') && Count(c, d') == Count(c, d) + 1
  {
    var after := Written(c, d, w.t, w.time, 3);
    WriteKeepsHistory(c, d, w.t, w.time, 3);
    CurrentDoesNotMatter(c, d, after, d.current);
    assert d.revs[NextNumber(c, d) := c.yaml(w.t)] == d.revs;
    assert after.(current := d.current) == d.(index := Some(c.index([NewRevision(c, w)] + w.known)));
  }

  lemma StepInTurn(c: Codec, first: TemplateDir, s: System, i: Step)
    requires Faithful(c) && InTurn(c, first, s) && !Crosses(s, i)
    ensures InTurn(c, first, Next(c, s, i))
  {
    if i < |s.writers| && !s.writers[i].Done? {
      var d, w := Next(c, s, i).dir, Next(c, s, i).writers[i];
      assert Moved(c, s.dir, d, s.writers[i], w) by { WriterMoves(c, s, i); }
      OneMoves(c, s, i);
      Replaced(c, first, s, i, d, w);
    } else {
      assert Next(c, s, i) == s;
    }
  }

  lemma OneMoves(c: Codec, s: System, i: nat)
    requires i < |s.writers| && !Crosses(s, i)
    ensures var w' := Next(c, s, i).writers[i];
      && Next(c, s, i) == System(Next(c, s, i).dir, s.writers[i := w'])
      && (w'.Open() && !s.writers[i].Open() ==> forall j :: 0 <= j < |s.writers| ==> !s.writers[j].Open())
  {
  }

  lemma WriterMoves(c: Codec, s: System, i: nat)
    requires Faithful(c) && HistoryOk(c, s.dir) && i < |s.writers| && Ready(c, s.dir, s.writers[i])
    requires !s.writers[i].Done?
    ensures Moved(c, s.dir, Next(c, s, i).dir, s.writers[i], Next(c, s, i).writers[i])
  {
    var w := s.writers[i];
    if w.Waiting? {
      CurrentMoves(c, s.dir, w);
    } else if w.Current? {
      SelfContinues(c, s.dir);
    } else if w.Loaded? {
      FileMoves(c, s.dir, w);
    } else {
      IndexMoves(c, s.dir, w);
    }
  }

  /** Writer `i` moves on and the directory changes with it. */
  lemma Replaced(c: Codec, first: TemplateDir, s: System, i: nat, d: TemplateDir, w: Writer)
    requires InTurn(c, first, s) && i < |s.writers| && !s.writers[i].Done?
    requires Moved(c, s.dir, d, s.writers[i], w)
    requires w.Open() && !s.writers[i].Open() ==> forall j :: 0 <= j < |s.writers| ==> !s.writers[j].Open()
    ensures InTurn(c, first, System(d, s.writers[i := w]))
  {
    var s' := System(d, s.writers[i := w]);
    DoneUpdate(s.writers, i, w);
    ContinuesChains(c, first, s.dir, d);
    NoTwo(s, s', i, w);
    forall j | 0 <= j < |s'.writers|
      ensures Ready(c, d, s'.writers[j]) && Recorded(c, first, d, s'.writers[j])
    {
      if j != i {
        assert !Two(s, if i < j then i else j, if i < j then j else i);
        StaysReady(c, s.dir, d, s.writers[i], s.writers[j]);
        StaysRecorded(c, first, s.dir, d, s.writers[j]);
      } else {
        RecordedSince(c, first, s.dir, d, w);
      }
    }
  }

  lemma NoTwo(s: System, s': System, i: nat, w: Writer)
    requires i < |s.writers| && s'.writers == s.writers[i := w] && forall a: nat, b: nat :: !Two(s, a, b)
    requires w.Open() && !s.writers[i].Open() ==> forall j :: 0 <= j < |s.writers| ==> !s.writers[j].Open()
    ensures forall a: nat, b: nat :: !Two(s', a, b)
  {
    forall a: nat, b: nat ensures !Two(s', a, b) { assert !Two(s, a, b); }
  }

  lemma StaysReady(c: Codec, d: TemplateDir, d': TemplateDir, w: Writer, other: Writer)
    requires w.Open() || (KnownHistory(c, d') == KnownHistory(c, d) && d'.revs == d.revs)
    requires Ready(c, d, other) && !(w.Open() && other.Open())
    ensures Ready(c, d', other)
  {
    if other.Open() { assert NextNumber(c, d') == NextNumber(c, d); }
  }

  lemma RecordedSince(c: Codec, first: TemplateDir, d: TemplateDir, d': TemplateDir, w: Writer)
    requires Recorded(c, d, d', w) && Count(c, first) <= Count(c, d)
    ensures Recorded(c, first, d', w)
  {
    if w.Done? {
      var k :| Count(c, d) < k <= Count(c, d') && k in d'.revs && d'.revs[k] == c.yaml(w.t);
    }
  }

  lemma StaysRecorded(c: Codec, first: TemplateDir, d: TemplateDir, d': TemplateDir, w: Writer)
    requires Recorded(c, first, d, w) && Continues(c, d, d')
    ensures Recorded(c, first, d', w)
  {
    if w.Done? {
      var k :| Count(c, first) < k <= Count(c, d) && k in d.revs && d.revs[k] == c.yaml(w.t);
      assert d'.revs[k] == c.yaml(w.t);
    }
  }

  lemma {:induction false} DisjointInTurn(c: Codec, s: System, steps: seq<Step>)
    requires Faithful(c) && Fresh(c, s) && Disjoint(c, s, steps)
    ensures InTurn(c, s.dir, Run(c, s, steps))
  {
    if steps == [] {
      AllDone(s.writers);
      IndexedFilesExist(c, s.dir);
    } else {
      var front := steps[..|steps| - 1];
      DisjointInTurn(c, s, front);
      StepInTurn(c, s.dir, Run(c, s, front), steps[|steps| - 1]);
    }
  }

  lemma {:induction false} SameTemplates(c: Codec, s: System, steps: seq<Step>)
    ensures var now := Run(c, s, steps);
      |now.writers| == |s.writers| && forall i :: 0 <= i < |s.writers| ==> now.writers[i].t == s.writers[i].t
  {
    if steps != [] { SameTemplates(c, s, steps[..|steps| - 1]); }
  }

  /** Once all writers are done, as many revisions were added as there were writers if and only
      if none read the history while another was between its read and its index; then each
      template is one of the revisions added and everything indexed before is as it was.
      Otherwise fewer revisions are left than were reported written. */
  lemma RevisionsSurviveIff(c: Codec, s: System, steps: seq<Step>)
    requires Faithful(c) && Fresh(c, s)
    requires forall i :: 0 <= i < |Run(c, s, steps).writers| ==> Run(c, s, steps).writers[i].Done?
    ensures var end := Run(c, s, steps);
      && (Count(c, end.dir) == Count(c, s.dir) + |s.writers| <==> Disjoint(c, s, steps))
      && Count(c, end.dir) <= Count(c, s.dir) + |s.writers|
      && (Disjoint(c, s, steps) ==>
            && Kept(c, s.dir, end.dir)
            && forall i :: 0 <= i < |s.writers| ==> Added(c, s.dir, end.dir, s.writers[i].t))
  {
    SameTemplates(c, s, steps);
    RunCounts(c, s, steps);
    AllDone(Run(c, s, steps).writers);
    if Disjoint(c, s, steps) {
      DisjointInTurn(c, s, steps);
      forall i | 0 <= i < |s.writers|
        ensures Added(c, s.dir, Run(c, s, steps).dir, s.writers[i].t)
      {
        assert Recorded(c, s.dir, Run(c, s, steps).dir, Run(c, s, steps).writers[i]);
      }
    }
  }

  // ------------------------------------------------------------------ witness

  lemma RunMore(c: Codec, s: System, steps: seq<Step>, k: nat)
    requires k < |steps|
    ensures Run(c, s, steps[..k + 1]) == Next(c, Run(c, s, steps[..k]), steps[k])
  {
    assert steps[..k + 1][..k] == steps[..k];
  }

  const NEW := TemplateDir(None, map[], None)

  ghost function Overlapping(): seq<Step> { [0, 0, 1, 1, 0, 1, 1, 0] }

  /** Two writers that both find no history and then file one after the other: both are told
      of revision 1, and the index is the first one's while the file is the second one's. */
  lemma TwoFirstRevisions(c: Codec, t: Template, u: Template, time: string)
    requires Faithful(c)
    ensures var end := Run(c, System(NEW, [Waiting(t, time), Waiting(u, time)]), Overlapping());
      && end.writers == [Done(t, time), Done(u, time)]
      && KnownHistory(c, end.dir) == [Revision(1, time, ContentDigest(c, t))]
      && GetRevision(c, end.dir, 1) == Some(u)
  {
    var s, steps := System(NEW, [Waiting(t, time), Waiting(u, time)]), Overlapping();
    BothLoad(c, s, steps, t, u, time);
    BothFile(c, s, steps, t, u, time);
    RunMore(c, s, steps, 6);
    RunMore(c, s, steps, 7);
    assert steps[..8] == steps;
    var s6 := Run(c, s, steps[..6]);
    var first, second := [Revision(1, time, ContentDigest(c, t))], [Revision(1, time, ContentDigest(c, u))];
    assert first == first + [] && second == second + [];
    var s7 := Next(c, s6, 1);
    assert s7 == System(s6.dir.(index := Some(c.index(second))), [Filed(t, time, []), Done(u, time)]);
    var s8 := Next(c, s7, 0);
    assert s8 == System(s6.dir.(index := Some(c.index(first))), [Done(t, time), Done(u, time)]);
    OneIndexed(c, s8.dir, first);
    assert c.unyaml(c.yaml(u)) == Some(u);
  }

  lemma OneIndexed(c: Codec, d: TemplateDir, rs: seq<Revision>)
    requires Faithful(c) && d.index == Some(c.index(rs)) && |rs| == 1
    ensures KnownHistory(c, d) == rs
  {
    assert c.unindex(c.index(rs)) == Some(rs);
    assert rs[1..] == [] && [rs[0]] == rs;
    assert SortNewestFirst([]) == [];
    assert SortNewestFirst(rs) == InsertRevision([], rs[0]) == [rs[0]];
  }

  lemma BothLoad(c: Codec, s: System, steps: seq<Step>, t: Template, u: Template, time: string)
    requires s == System(NEW, [Waiting(t, time), Waiting(u, time)]) && steps == Overlapping()
    ensures Run(c, s, steps[..4])
            == System(NEW.(current := Some(c.yaml(u))), [Loaded(t, time, []), Loaded(u, time, [])])
  {
    RunMore(c, s, steps, 0);
    RunMore(c, s, steps, 1);
    RunMore(c, s, steps, 2);
    RunMore(c, s, steps, 3);
    assert steps[..0] == [];
    var s2 := Next(c, Next(c, s, 0), 0);
    assert s2 == System(NEW.(current := Some(c.yaml(t))), [Loaded(t, time, []), Waiting(u, time)]);
  }

  lemma BothFile(c: Codec, s: System, steps: seq<Step>, t: Template, u: Template, time: string)
    requires steps == Overlapping()
    requires Run(c, s, steps[..4])
             == System(NEW.(current := Some(c.yaml(u))), [Loaded(t, time, []), Loaded(u, time, [])])
    ensures Run(c, s, steps[..6])
            == System(NEW.(current := Some(c.yaml(u)), revs := map[1 := c.yaml(u)]),
                      [Filed(t, time, []), Filed(u, time, [])])
  {
    RunMore(c, s, steps, 4);
    RunMore(c, s, steps, 5);
    var s5 := Next(c, Run(c, s, steps[..4]), 0);
    assert s5.dir.revs == map[1 := c.yaml(t)] && s5.writers == [Filed(t, time, []), Loaded(u, time, [])];
    assert map[1 := c.yaml(t)][1 := c.yaml(u)] == map[1 := c.yaml(u)];
  }
}
