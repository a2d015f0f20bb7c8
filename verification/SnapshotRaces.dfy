/** Creates and prunes of the snapshot store with nothing to keep them apart.  A create looks
    whether its content directory is there, then moves its tree in or, where a rename is
    refused, copies it write by write, and then writes its pointer.  A prune looks at one
    pointer after the other and then, with what it has marked, at one content directory
    after the other.  Any of them can stop for good between two steps. */
module SnapshotRaces {
  import opened Wrappers
  import opened Seqs
  import opened GoStrings
  import opened Trees
  import opened TreeWrites
  import opened Snapshots

  /** Where a create stands: it saw no blob; it is copying, with these writes to go; or its
      blob is in place, as far as it can tell. */
  datatype Stage = SawNone | Copying(todo: seq<Write>) | InPlace

  /** A create under way: where its pointer will be, what it will say, and its tree. */
  datatype Flight = Flight(sb: string, name: string, m: Meta, ws: Tree, stage: Stage)

  /** `marks[p]` is the `referenced` map of prune `p` so far. */
  datatype System = System(disk: Disk, flights: map<nat, Flight>, marks: map<nat, set<string>>)

  const NOTHING := System(EMPTY, map[], map[])

  datatype Step =
    | Begin(id: nat, sb: string, name: string, ws: Tree, how: string)
    | Place(id: nat, sameDevice: bool)
    | Copy(id: nat)
    | End(id: nat)
    | Look(p: nat, sb: string, name: string)
    | Sweep(p: nat, hash: string)
    | DeleteOne(sb: string, name: string)
    | RemoveSandbox(sb: string)

  predicate StepOk(step: Step) { step.Begin? ==> IsWorkspace(step.ws) }

  function Marked(s: System, p: nat): set<string> { if p in s.marks then s.marks[p] else {} }

  function WithBlob(d: Disk, hash: string, t: Tree): Disk
    requires |hash| >= 2
  {
    var dir := if hash[..2] in d.cas then d.cas[hash[..2]] else map[];
    d.(cas := d.cas[hash[..2] := dir[hash[2..] := t]])
  }

  function WithoutBlob(d: Disk, hash: string): Disk {
    if |hash| >= 2 && hash[..2] in d.cas then d.(cas := d.cas[hash[..2] := d.cas[hash[..2]] - {hash[2..]}]) else d
  }

  function Begun(sha: Hash, s: System, step: Step): Flight
    requires step.Begin?
  {
    var stage := if Blob(s.disk, DirHash(sha, step.ws)).Some? then InPlace else SawNone;
    Flight(step.sb, step.name, MetaFor(sha, step.sb, step.name, step.ws, step.how), step.ws, stage)
  }

  function Next(sha: Hash, s: System, step: Step): System {
    match step
    case Begin(id, _, _, _, _) =>
      if id in s.flights then s else s.(flights := s.flights[id := Begun(sha, s, step)])
    case Place(id, sameDevice) =>
      if id !in s.flights || !s.flights[id].stage.SawNone? || |s.flights[id].m.hash| < 2 then s
      else
        var f := s.flights[id];
        // os.Rename refuses a directory that is there by now
        if sameDevice && Blob(s.disk, f.m.hash).None?
        then s.(disk := WithBlob(s.disk, f.m.hash, f.ws), flights := s.flights[id := f.(stage := InPlace)])
        else s.(flights := s.flights[id := f.(stage := Copying(WritesOf(f.ws)))])
    case Copy(id) =>
      if !CanCopy(s, id) then s
      else
        var f := s.flights[id];
        var todo := f.stage.todo;
        (match Do(Blob(s.disk, f.m.hash), todo[0])
         case None => s.(flights := s.flights - {id})
         case Some(t) =>
           var stage := if |todo| == 1 then InPlace else Copying(todo[1..]);
           s.(disk := WithBlob(s.disk, f.m.hash, t), flights := s.flights[id := f.(stage := stage)]))
    case End(id) =>
      if id !in s.flights || !s.flights[id].stage.InPlace? then s
      else
        var f := s.flights[id];
        s.(disk := WriteMeta(s.disk, f.sb, f.name, Some(f.m)), flights := s.flights - {id})
    case Look(p, sb, name) =>
      var m := Pointer(s.disk, sb, name);
      s.(marks := s.marks[p := Marked(s, p) + (if NamesHash(m) then {m.value.hash} else {})])
    case Sweep(p, hash) =>
      if hash in Marked(s, p) then s else s.(disk := WithoutBlob(s.disk, hash))
    case DeleteOne(sb, name) => s.(disk := DeleteSnapshot(s.disk, sb, name))
    case RemoveSandbox(sb) => s.(disk := DropSandbox(s.disk, sb))
  }

  predicate CanCopy(s: System, id: nat) {
    id in s.flights && s.flights[id].stage.Copying? && s.flights[id].stage.todo != [] && |s.flights[id].m.hash| >= 2
  }

  function Run(sha: Hash, s: System, steps: seq<Step>): System {
    if steps == [] then s else Next(sha, Run(sha, s, steps[..|steps| - 1]), steps[|steps| - 1])
  }

  // --------------------------------------------------------------- invariant

  /** The hashes that a pointer names, or a create whose blob is in place is about to name. */
  function Needed(s: System): set<string> { Referenced(s.disk) + InFlight(s) }

  function InFlight(s: System): set<string> {
    set id | id in s.flights && s.flights[id].stage.InPlace? :: s.flights[id].m.hash
  }

  predicate Whole(sha: Hash, hash: string, blob: Option<Tree>) { blob.Some? && DirHash(sha, blob.value) == hash }

  /** Every needed blob is there, and its bytes hash to its name. */
  ghost predicate Safe(sha: Hash, s: System) { forall h :: h in Needed(s) ==> Whole(sha, h, Blob(s.disk, h)) }

  predicate FlightOk(sha: Hash, f: Flight) {
    && f.m.hash == DirHash(sha, f.ws) && |f.m.hash| >= 2 && IsWorkspace(f.ws)
    && (f.stage.Copying? ==> f.stage.todo != [])
  }

  ghost predicate FlightsOk(sha: Hash, s: System) { forall id :: id in s.flights ==> FlightOk(sha, s.flights[id]) }

  /** The three ways to lose a snapshot: to take a directory for the blob that does not hold
      what its name says; to write into one that others need, or to finish with it, when it
      then does not; and to sweep away one that is needed and was not marked. */
  predicate Harms(sha: Hash, s: System, step: Step) {
    match step
    case Begin(id, _, _, ws, _) =>
      var h := DirHash(sha, ws);
      id !in s.flights && Blob(s.disk, h).Some? && !Whole(sha, h, Blob(s.disk, h))
    case Copy(id) =>
      CanCopy(s, id)
      && var f := s.flights[id];
         var after := Do(Blob(s.disk, f.m.hash), f.stage.todo[0]);
         && after.Some? && !Whole(sha, f.m.hash, after)
         && (f.m.hash in Needed(s) || |f.stage.todo| == 1)
    case Sweep(p, hash) => hash !in Marked(s, p) && hash in Needed(s)
    case _ => false
  }

  lemma WithBlobFacts(d: Disk, hash: string, t: Tree)
    requires |hash| >= 2
    ensures var d' := WithBlob(d, hash, t);
      && d'.snaps == d.snaps && Referenced(d') == Referenced(d)
      && forall h :: Blob(d', h) == if h == hash then Some(t) else Blob(d, h)
  {
    var d' := WithBlob(d, hash, t);
    forall h ensures Blob(d', h) == if h == hash then Some(t) else Blob(d, h) {
      if |h| >= 2 && h != hash && h[..2] == hash[..2] {
        assert h == h[..2] + h[2..] && hash == hash[..2] + hash[2..];
      }
    }
  }

  lemma WithoutBlobFacts(d: Disk, hash: string)
    ensures var d' := WithoutBlob(d, hash);
      && d'.snaps == d.snaps && Referenced(d') == Referenced(d)
      && forall h :: Blob(d', h) == if h == hash then None else Blob(d, h)
  {
    var d' := WithoutBlob(d, hash);
    forall h ensures Blob(d', h) == if h == hash then None else Blob(d, h) {
      if |h| >= 2 && |hash| >= 2 && h != hash && h[..2] == hash[..2] {
        assert h == h[..2] + h[2..] && hash == hash[..2] + hash[2..];
      }
    }
  }

  lemma InFlightWith(s: System, id: nat, f: Flight)
    requires id !in s.flights || !s.flights[id].stage.InPlace?
    ensures InFlight(s.(flights := s.flights[id := f])) == InFlight(s) + (if f.stage.InPlace? then {f.m.hash} else {})
  {
    var s' := s.(flights := s.flights[id := f]);
    forall h | h in InFlight(s) ensures h in InFlight(s') {
      var k :| k in s.flights && s.flights[k].stage.InPlace? && s.flights[k].m.hash == h;
      assert s'.flights[k] == s.flights[k];
    }
    if f.stage.InPlace? { assert s'.flights[id] == f; }
  }

  lemma NextFlightsOk(sha: Hash, s: System, step: Step)
    requires HexDigest(sha) && FlightsOk(sha, s) && StepOk(step)
    ensures FlightsOk(sha, Next(sha, s, step))
  {
  }

  lemma BeginSafeIff(sha: Hash, s: System, step: Step)
    requires HexDigest(sha) && Safe(sha, s) && step.Begin? && StepOk(step)
    ensures Safe(sha, Next(sha, s, step)) <==> !Harms(sha, s, step)
  {
    if step.id !in s.flights {
      var f := Begun(sha, s, step);
      InFlightWith(s, step.id, f);
      assert Needed(Next(sha, s, step)) == Needed(s) + (if f.stage.InPlace? then {f.m.hash} else {});
    }
  }

  lemma PlaceSafe(sha: Hash, s: System, id: nat, sameDevice: bool)
    requires Safe(sha, s) && FlightsOk(sha, s)
    ensures Safe(sha, Next(sha, s, Place(id, sameDevice)))
  {
    var s' := Next(sha, s, Place(id, sameDevice));
    if s' != s {
      var f := s.flights[id];
      InFlightWith(s, id, s'.flights[id]);
      WithBlobFacts(s.disk, f.m.hash, f.ws);
      assert Needed(s') <= Needed(s) + {f.m.hash};
    }
  }

  lemma CopySafeIff(sha: Hash, s: System, id: nat)
    requires Safe(sha, s) && FlightsOk(sha, s)
    ensures Safe(sha, Next(sha, s, Copy(id))) <==> !Harms(sha, s, Copy(id))
  {
    if CanCopy(s, id) {
      var f, s' := s.flights[id], Next(sha, s, Copy(id));
      var after := Do(Blob(s.disk, f.m.hash), f.stage.todo[0]);
      if after.None? {
        assert InFlight(s') <= InFlight(s);
      } else {
        InFlightWith(s, id, s'.flights[id]);
        WithBlobFacts(s.disk, f.m.hash, after.value);
        assert Needed(s') == Needed(s) + (if |f.stage.todo| == 1 then {f.m.hash} else {});
      }
    }
  }

  lemma SweepSafeIff(sha: Hash, s: System, p: nat, hash: string)
    requires Safe(sha, s)
    ensures Safe(sha, Next(sha, s, Sweep(p, hash))) <==> !Harms(sha, s, Sweep(p, hash))
  {
    WithoutBlobFacts(s.disk, hash);
    var s' := Next(sha, s, Sweep(p, hash));
    assert Needed(s') == Needed(s);
  }

  lemma EndSafe(sha: Hash, s: System, id: nat)
    requires Safe(sha, s)
    ensures Safe(sha, Next(sha, s, End(id)))
  {
    var s' := Next(sha, s, End(id));
    if s' != s {
      var f := s.flights[id];
      assert f.m.hash in InFlight(s);
      WriteMetaRefs(s.disk, f.sb, f.name, Some(f.m));
      SafeWithFewer(sha, s, s');
    }
  }

  lemma SafeWithFewer(sha: Hash, s: System, s': System)
    requires Safe(sha, s) && s'.disk.cas == s.disk.cas && Needed(s') <= Needed(s)
    ensures Safe(sha, s')
  {
    forall h | h in Needed(s') ensures Whole(sha, h, Blob(s'.disk, h)) {
      assert h in Needed(s) && Blob(s'.disk, h) == Blob(s.disk, h);
    }
  }

  /** Exactly the harmful steps break what all the others keep. */
  lemma StepSafeIff(sha: Hash, s: System, step: Step)
    requires HexDigest(sha) && Safe(sha, s) && FlightsOk(sha, s) && StepOk(step)
    ensures Safe(sha, Next(sha, s, step)) <==> !Harms(sha, s, step)
  {
    match step
    case Begin(_, _, _, _, _) => BeginSafeIff(sha, s, step);
    case Place(id, sameDevice) => PlaceSafe(sha, s, id, sameDevice);
    case Copy(id) => CopySafeIff(sha, s, id);
    case End(id) => EndSafe(sha, s, id);
    case Look(_, _, _) =>
    case Sweep(p, hash) => SweepSafeIff(sha, s, p, hash);
    case DeleteOne(sb, name) =>
      FewerPointers(s.disk, DeleteSnapshot(s.disk, sb, name));
      SafeWithFewer(sha, s, Next(sha, s, step));
    case RemoveSandbox(sb) =>
      FewerPointers(s.disk, DropSandbox(s.disk, sb));
      SafeWithFewer(sha, s, Next(sha, s, step));
  }

  ghost predicate AlwaysSafe(sha: Hash, s: System, steps: seq<Step>) {
    forall k :: 0 <= k <= |steps| ==> Safe(sha, Run(sha, s, steps[..k]))
  }

  ghost predicate NeverHarms(sha: Hash, s: System, steps: seq<Step>) {
    forall k :: 0 <= k < |steps| ==> !Harms(sha, Run(sha, s, steps[..k]), steps[k])
  }

  lemma RunMore(sha: Hash, s: System, steps: seq<Step>, k: nat)
    requires k < |steps|
    ensures Run(sha, s, steps[..k + 1]) == Next(sha, Run(sha, s, steps[..k]), steps[k])
  {
    assert steps[..k + 1][..k] == steps[..k];
  }

  lemma {:induction false} RunFlightsOk(sha: Hash, s: System, steps: seq<Step>)
    requires HexDigest(sha) && FlightsOk(sha, s) && forall i :: 0 <= i < |steps| ==> StepOk(steps[i])
    ensures FlightsOk(sha, Run(sha, s, steps))
  {
    if steps != [] {
      RunFlightsOk(sha, s, steps[..|steps| - 1]);
      NextFlightsOk(sha, Run(sha, s, steps[..|steps| - 1]), steps[|steps| - 1]);
    }
  }

  lemma {:induction false} SafeSoFar(sha: Hash, s: System, steps: seq<Step>, k: nat)
    requires HexDigest(sha) && Safe(sha, s) && FlightsOk(sha, s) && k <= |steps| && NeverHarms(sha, s, steps)
    requires forall i :: 0 <= i < |steps| ==> StepOk(steps[i])
    ensures Safe(sha, Run(sha, s, steps[..k]))
  {
    if k > 0 {
      SafeSoFar(sha, s, steps, k - 1);
      RunMore(sha, s, steps, k - 1);
      RunFlightsOk(sha, s, steps[..k - 1]);
      StepSafeIff(sha, Run(sha, s, steps[..k - 1]), steps[k - 1]);
    }
  }

  /** However creates, deletes and prunes interleave and wherever they stop, every pointer,
      and every pointer about to be written, resolves at every moment to bytes of its hash if
      and only if no step is harmful. */
  lemma RacesSafeIff(sha: Hash, steps: seq<Step>)
    requires HexDigest(sha) && forall i :: 0 <= i < |steps| ==> StepOk(steps[i])
    ensures AlwaysSafe(sha, NOTHING, steps) <==> NeverHarms(sha, NOTHING, steps)
  {
    if NeverHarms(sha, NOTHING, steps) {
      forall k | 0 <= k <= |steps| ensures Safe(sha, Run(sha, NOTHING, steps[..k])) {
        SafeSoFar(sha, NOTHING, steps, k);
      }
    }
    if AlwaysSafe(sha, NOTHING, steps) {
      forall k | 0 <= k < |steps| ensures !Harms(sha, Run(sha, NOTHING, steps[..k]), steps[k]) {
        RunMore(sha, NOTHING, steps, k);
        assert Safe(sha, Run(sha, NOTHING, steps[..k])) && Safe(sha, Run(sha, NOTHING, steps[..k + 1]));
        RunFlightsOk(sha, NOTHING, steps[..k]);
        StepSafeIff(sha, Run(sha, NOTHING, steps[..k]), steps[k]);
      }
    }
  }

  // ------------------------------------------------- runs without harm: apart

  predicate Unplaced(s: System, id: nat) { id in s.flights && !s.flights[id].stage.InPlace? }

  /** No create of a hash starts while another of it is unplaced, and no sweep reaches an
      unmarked hash that is needed or being created. */
  ghost predicate Apart(sha: Hash, s: System, step: Step) {
    match step
    case Begin(_, _, _, ws, _) => forall id :: Unplaced(s, id) ==> s.flights[id].m.hash != DirHash(sha, ws)
    case Sweep(p, hash) =>
      hash in Marked(s, p) || (hash !in Needed(s) && forall id :: Unplaced(s, id) ==> s.flights[id].m.hash != hash)
    case _ => true
  }

  /** An unplaced create is alone with its hash: its blob is not there, or is what its own
      writes will make whole. */
  ghost predicate Alone(s: System, id: nat)
    requires Unplaced(s, id)
  {
    var f := s.flights[id];
    && f.m.hash !in Needed(s)
    && (forall k :: Unplaced(s, k) && k != id ==> s.flights[k].m.hash != f.m.hash)
    && (if f.stage.SawNone? then Blob(s.disk, f.m.hash).None?
        else DoAll(Blob(s.disk, f.m.hash), f.stage.todo) == Some(f.ws))
  }

  /** What is not whole still belongs to a create that is placing it. */
  ghost predicate Owned(sha: Hash, s: System) {
    forall h :: Blob(s.disk, h).Some? && !Whole(sha, h, Blob(s.disk, h)) ==> OwnedBy(s, h)
  }

  ghost predicate OwnedBy(s: System, h: string) { exists id :: Unplaced(s, id) && s.flights[id].m.hash == h }

  ghost predicate AllAlone(sha: Hash, s: System) {
    && FlightsOk(sha, s) && Safe(sha, s)
    && Owned(sha, s)
    && forall id :: Unplaced(s, id) ==> Alone(s, id)
  }

  /** The part of `AllAlone` that no step can spoil by accident: blobs that are no one's
      business are whole. */
  lemma ApartNoHarm(sha: Hash, s: System, step: Step)
    requires HexDigest(sha) && AllAlone(sha, s) && StepOk(step) && Apart(sha, s, step)
    ensures !Harms(sha, s, step)
  {
    if step.Copy? && CanCopy(s, step.id) {
      var f := s.flights[step.id];
      assert Alone(s, step.id);
      LastWriteIsWhole(Blob(s.disk, f.m.hash), f.stage.todo);
    }
  }

  lemma LastWriteIsWhole(dst: Option<Tree>, todo: seq<Write>)
    requires todo != []
    ensures |todo| == 1 ==> DoAll(dst, todo) == Do(dst, todo[0])
    ensures DoAll(dst, todo).Some? ==> Do(dst, todo[0]).Some?
  {
    if |todo| == 1 { assert todo[1..] == []; }
  }

  lemma ApartBegin(sha: Hash, s: System, step: Step)
    requires HexDigest(sha) && AllAlone(sha, s) && step.Begin? && StepOk(step) && Apart(sha, s, step)
    ensures AllAlone(sha, Next(sha, s, step))
  {
    var s', id, h := Next(sha, s, step), step.id, DirHash(sha, step.ws);
    NextFlightsOk(sha, s, step);
    ApartNoHarm(sha, s, step);
    BeginSafeIff(sha, s, step);
    if id !in s.flights {
      InFlightWith(s, id, Begun(sha, s, step));
      forall k | Unplaced(s', k) ensures Alone(s', k) {
        if k != id {
          assert Unplaced(s, k) && Alone(s, k) && s'.flights[k] == s.flights[k];
          assert s.flights[k].m.hash != h;
        } else {
          NewcomerAlone(sha, s, step);
        }
      }
      SameOwners(sha, s, s');
    }
  }

  lemma NewcomerAlone(sha: Hash, s: System, step: Step)
    requires HexDigest(sha) && Safe(sha, s) && step.Begin? && step.id !in s.flights && Apart(sha, s, step)
    requires Unplaced(Next(sha, s, step), step.id)
    ensures Alone(Next(sha, s, step), step.id)
  {
    var s', h := Next(sha, s, step), DirHash(sha, step.ws);
    InFlightWith(s, step.id, Begun(sha, s, step));
    assert Blob(s.disk, h).None? && h !in Needed(s);
    forall k | Unplaced(s', k) && k != step.id ensures s'.flights[k].m.hash != h { assert Unplaced(s, k); }
  }

  /** Creates that only come in leave the others where they were. */
  lemma SameOwners(sha: Hash, s: System, s': System)
    requires Owned(sha, s) && forall x :: Blob(s'.disk, x).Some? ==> Blob(s'.disk, x) == Blob(s.disk, x)
    requires forall k :: Unplaced(s, k) ==> Unplaced(s', k) && s'.flights[k] == s.flights[k]
    ensures Owned(sha, s')
  {
    forall x | OwnedBy(s, x) ensures OwnedBy(s', x) {
      var k :| Unplaced(s, k) && s.flights[k].m.hash == x;
      assert Unplaced(s', k);
    }
  }

  lemma ApartPlace(sha: Hash, s: System, id: nat, sameDevice: bool)
    requires HexDigest(sha) && AllAlone(sha, s)
    ensures AllAlone(sha, Next(sha, s, Place(id, sameDevice)))
  {
    var s' := Next(sha, s, Place(id, sameDevice));
    NextFlightsOk(sha, s, Place(id, sameDevice));
    PlaceSafe(sha, s, id, sameDevice);
    if s' != s {
      var f := s.flights[id];
      assert Alone(s, id);
      WithBlobFacts(s.disk, f.m.hash, f.ws);
      InFlightWith(s, id, s'.flights[id]);
      WritesAreOverlay(f.ws, None);
      CopyReproduces(f.ws);
      OthersStayAlone(sha, s, s', id);
    }
  }

  /** A step of one create, on its own hash, leaves the others alone. */
  lemma OthersStayAlone(sha: Hash, s: System, s': System, id: nat)
    requires AllAlone(sha, s) && Unplaced(s, id) && FlightsOk(sha, s') && Safe(sha, s')
    requires forall k :: k != id ==> (k in s'.flights <==> k in s.flights)
    requires forall k :: k != id && k in s.flights ==> s'.flights[k] == s.flights[k]
    requires id in s'.flights ==> s'.flights[id].m == s.flights[id].m && s'.flights[id].ws == s.flights[id].ws
    requires var h := s.flights[id].m.hash;
      && (forall x :: x != h ==> Blob(s'.disk, x) == Blob(s.disk, x))
      && Needed(s') <= Needed(s) + (if Unplaced(s', id) then {} else {h})
      && (Unplaced(s', id) || Whole(sha, h, Blob(s'.disk, h)))
      && (Unplaced(s', id) ==>
            if s'.flights[id].stage.SawNone? then Blob(s'.disk, h).None?
            else DoAll(Blob(s'.disk, h), s'.flights[id].stage.todo) == Some(s.flights[id].ws))
    ensures AllAlone(sha, s')
  {
    assert Alone(s, id);
    forall k | Unplaced(s', k) ensures Alone(s', k) {
      if k != id { assert Unplaced(s, k) && Alone(s, k); }
    }
    forall x | x != s.flights[id].m.hash && OwnedBy(s, x) ensures OwnedBy(s', x) {
      var k :| Unplaced(s, k) && s.flights[k].m.hash == x;
      assert Unplaced(s', k);
    }
    assert Unplaced(s', id) ==> OwnedBy(s', s.flights[id].m.hash);
    PartialsOwned(sha, s, s', s.flights[id].m.hash);
  }

  lemma PartialsOwned(sha: Hash, s: System, s': System, hash: string)
    requires Owned(sha, s)
    requires forall x :: x != hash && Blob(s'.disk, x).Some? ==> Blob(s'.disk, x) == Blob(s.disk, x)
    requires forall x :: x != hash && OwnedBy(s, x) ==> OwnedBy(s', x)
    requires Blob(s'.disk, hash).Some? && !Whole(sha, hash, Blob(s'.disk, hash)) ==> OwnedBy(s', hash)
    ensures Owned(sha, s')
  {
  }

  lemma ApartCopy(sha: Hash, s: System, id: nat)
    requires HexDigest(sha) && AllAlone(sha, s)
    ensures AllAlone(sha, Next(sha, s, Copy(id)))
  {
    if CanCopy(s, id) {
      var f, s' := s.flights[id], Next(sha, s, Copy(id));
      assert Alone(s, id);
      ApartNoHarm(sha, s, Copy(id));
      CopySafeIff(sha, s, id);
      NextFlightsOk(sha, s, Copy(id));
      LastWriteIsWhole(Blob(s.disk, f.m.hash), f.stage.todo);
      WithBlobFacts(s.disk, f.m.hash, Do(Blob(s.disk, f.m.hash), f.stage.todo[0]).value);
      InFlightWith(s, id, s'.flights[id]);
      OthersStayAlone(sha, s, s', id);
    }
  }

  lemma ApartOther(sha: Hash, s: System, step: Step)
    requires HexDigest(sha) && AllAlone(sha, s) && StepOk(step) && Apart(sha, s, step)
    requires step.End? || step.Look? || step.DeleteOne? || step.RemoveSandbox?
    ensures AllAlone(sha, Next(sha, s, step))
  {
    var s' := Next(sha, s, step);
    NextFlightsOk(sha, s, step);
    StepSafeIff(sha, s, step);
    NeededShrinks(sha, s, step);
    forall id ensures Unplaced(s', id) <==> Unplaced(s, id) { }
    forall id | Unplaced(s', id) ensures Alone(s', id) {
      StaysAlone(s, s', id);
    }
    SameOwners(sha, s, s');
  }

  lemma StaysAlone(s: System, s': System, id: nat)
    requires Unplaced(s, id) && Alone(s, id) && s'.disk.cas == s.disk.cas && Needed(s') <= Needed(s)
    requires forall k :: Unplaced(s', k) ==> Unplaced(s, k) && s'.flights[k] == s.flights[k]
    requires Unplaced(s', id)
    ensures Alone(s', id)
  {
    assert Blob(s'.disk, s.flights[id].m.hash) == Blob(s.disk, s.flights[id].m.hash);
  }

  lemma NeededShrinks(sha: Hash, s: System, step: Step)
    requires step.End? || step.Look? || step.DeleteOne? || step.RemoveSandbox?
    ensures Needed(Next(sha, s, step)) <= Needed(s) && Next(sha, s, step).disk.cas == s.disk.cas
  {
    match step
    case End(id) =>
      if id in s.flights && s.flights[id].stage.InPlace? {
        var f := s.flights[id];
        assert f.m.hash in InFlight(s);
        WriteMetaRefs(s.disk, f.sb, f.name, Some(f.m));
      }
    case Look(_, _, _) =>
    case DeleteOne(sb, name) => FewerPointers(s.disk, DeleteSnapshot(s.disk, sb, name));
    case RemoveSandbox(sb) => FewerPointers(s.disk, DropSandbox(s.disk, sb));
  }

  lemma ApartSweep(sha: Hash, s: System, p: nat, hash: string)
    requires HexDigest(sha) && AllAlone(sha, s) && Apart(sha, s, Sweep(p, hash))
    ensures AllAlone(sha, Next(sha, s, Sweep(p, hash)))
  {
    var s' := Next(sha, s, Sweep(p, hash));
    if s' != s {
      WithoutBlobFacts(s.disk, hash);
      SweepSafeIff(sha, s, p, hash);
      assert Needed(s') == Needed(s);
      forall id | Unplaced(s', id) ensures Alone(s', id) { assert Alone(s, id); }
      SameOwners(sha, s, s');
    }
  }

  lemma ApartStep(sha: Hash, s: System, step: Step)
    requires HexDigest(sha) && AllAlone(sha, s) && StepOk(step) && Apart(sha, s, step)
    ensures AllAlone(sha, Next(sha, s, step))
  {
    match step
    case Begin(_, _, _, _, _) => ApartBegin(sha, s, step);
    case Place(id, sameDevice) => ApartPlace(sha, s, id, sameDevice);
    case Copy(id) => ApartCopy(sha, s, id);
    case Sweep(p, hash) => ApartSweep(sha, s, p, hash);
    case _ => ApartOther(sha, s, step);
  }

  /** Creates of different hashes, deletions and prunes may interleave freely: as long as no
      create starts on a hash another is still placing, and no sweep reaches an unmarked hash
      that is needed or being created, nothing is harmed, on one device or several. */
  lemma {:induction false} ApartIsSafe(sha: Hash, steps: seq<Step>)
    requires HexDigest(sha) && forall i :: 0 <= i < |steps| ==> StepOk(steps[i])
    requires forall i :: 0 <= i < |steps| ==> Apart(sha, Run(sha, NOTHING, steps[..i]), steps[i])
    ensures AllAlone(sha, Run(sha, NOTHING, steps))
  {
    if steps != [] {
      var front := steps[..|steps| - 1];
      forall i | 0 <= i < |front| ensures Apart(sha, Run(sha, NOTHING, front[..i]), front[i]) {
        assert front[..i] == steps[..i];
      }
      ApartIsSafe(sha, front);
      ApartStep(sha, Run(sha, NOTHING, front), steps[|steps| - 1]);
    }
  }

  // ---------------------------------------- a prune that only deletions overlap

  /** Steps of prune `p` and deletions. */
  predicate PruneOrDelete(step: Step, p: nat) {
    match step
    case Look(q, _, _) => q == p
    case Sweep(q, _) => q == p
    case DeleteOne(_, _) => true
    case RemoveSandbox(_) => true
    case _ => false
  }

  /** Prune `p` has marked all there is, and no create is under way. */
  ghost predicate MarkedAll(s: System, p: nat) { s.flights == map[] && Referenced(s.disk) <= Marked(s, p) }

  lemma StaysMarked(sha: Hash, s: System, step: Step, p: nat)
    requires MarkedAll(s, p) && PruneOrDelete(step, p)
    ensures MarkedAll(Next(sha, s, step), p) && !Harms(sha, s, step)
  {
    match step
    case Look(_, _, _) =>
    case Sweep(_, hash) => WithoutBlobFacts(s.disk, hash);
    case DeleteOne(sb, name) => FewerPointers(s.disk, DeleteSnapshot(s.disk, sb, name));
    case RemoveSandbox(sb) => FewerPointers(s.disk, DropSandbox(s.disk, sb));
    case _ =>
  }

  /** Deletions may overlap a prune: once it has marked every pointer, with no create under
      way, it may sweep while snapshots and sandboxes are deleted, and nothing needed goes. */
  lemma {:induction false} DeletesMayOverlap(sha: Hash, s: System, steps: seq<Step>, p: nat)
    requires HexDigest(sha) && Safe(sha, s) && MarkedAll(s, p)
    requires forall i :: 0 <= i < |steps| ==> PruneOrDelete(steps[i], p)
    ensures Safe(sha, Run(sha, s, steps)) && MarkedAll(Run(sha, s, steps), p)
  {
    if steps != [] {
      var front, last := steps[..|steps| - 1], steps[|steps| - 1];
      DeletesMayOverlap(sha, s, front, p);
      StaysMarked(sha, Run(sha, s, front), last, p);
      StepSafeIff(sha, Run(sha, s, front), last);
    }
  }

  // ------------------------------------------- overlapping creates of one tree

  /** `tree` says which tree each hash is created from.  All creates follow it, renames work,
      and no sweep reaches an unmarked hash that is needed or being copied. */
  ghost predicate OneTreeStep(sha: Hash, s: System, step: Step, tree: string -> Tree) {
    match step
    case Begin(_, _, _, ws, _) => ws == tree(DirHash(sha, ws))
    case Place(_, sameDevice) => sameDevice
    case Sweep(p, hash) =>
      hash in Marked(s, p)
      || (hash !in Needed(s)
          && forall id :: id in s.flights && s.flights[id].stage.Copying? ==> s.flights[id].m.hash != hash)
    case _ => true
  }

  /** Each blob is the tree of its hash, and a create that is copying writes that tree over
      itself. */
  ghost predicate OneTree(sha: Hash, s: System, tree: string -> Tree) {
    && FlightsOk(sha, s) && Safe(sha, s)
    && (forall h :: Blob(s.disk, h).Some? ==> Blob(s.disk, h) == Some(tree(h)) && DirHash(sha, tree(h)) == h)
    && forall id :: id in s.flights ==> FlightFollows(s, s.flights[id], tree)
  }

  ghost predicate FlightFollows(s: System, f: Flight, tree: string -> Tree) {
    && f.ws == tree(f.m.hash)
    && (f.stage.Copying? ==>
          Blob(s.disk, f.m.hash).Some? && forall w :: w in f.stage.todo ==> w in WritesOf(f.ws))
  }

  lemma OneTreeCopyIdle(sha: Hash, s: System, id: nat, tree: string -> Tree)
    requires OneTree(sha, s, tree) && CanCopy(s, id)
    ensures Do(Blob(s.disk, s.flights[id].m.hash), s.flights[id].stage.todo[0]) == Some(s.flights[id].ws)
    ensures Whole(sha, s.flights[id].m.hash, Some(s.flights[id].ws))
  {
    var f := s.flights[id];
    assert FlightFollows(s, f, tree) && FlightOk(sha, f);
    assert f.stage.todo[0] in WritesOf(f.ws);
    var i :| 0 <= i < |WritesOf(f.ws)| && WritesOf(f.ws)[i] == f.stage.todo[0];
    RewriteIsIdle(f.ws, i);
  }

  lemma OneTreeNoHarm(sha: Hash, s: System, step: Step, tree: string -> Tree)
    requires OneTree(sha, s, tree) && OneTreeStep(sha, s, step, tree)
    ensures !Harms(sha, s, step)
  {
    if step.Copy? && CanCopy(s, step.id) { OneTreeCopyIdle(sha, s, step.id, tree); }
  }

  lemma OneTreeKept(sha: Hash, s: System, step: Step, tree: string -> Tree)
    requires HexDigest(sha) && OneTree(sha, s, tree) && StepOk(step) && OneTreeStep(sha, s, step, tree)
    ensures OneTree(sha, Next(sha, s, step), tree)
  {
    var s' := Next(sha, s, step);
    NextFlightsOk(sha, s, step);
    OneTreeNoHarm(sha, s, step, tree);
    StepSafeIff(sha, s, step);
    BlobsFollow(sha, s, step, tree);
    forall id | id in s'.flights ensures FlightFollows(s', s'.flights[id], tree) {
      FollowsNext(sha, s, step, tree, id);
    }
  }

  lemma FollowsNext(sha: Hash, s: System, step: Step, tree: string -> Tree, id: nat)
    requires HexDigest(sha) && OneTree(sha, s, tree) && StepOk(step) && OneTreeStep(sha, s, step, tree)
    requires id in Next(sha, s, step).flights
    ensures FlightFollows(Next(sha, s, step), Next(sha, s, step).flights[id], tree)
  {
    var s' := Next(sha, s, step);
    BlobsFollow(sha, s, step, tree);
    if id in s.flights {
      var f := s.flights[id];
      assert FlightFollows(s, f, tree) && FlightOk(sha, f);
      if s'.flights[id] == f {
        assert f.stage.Copying? ==> Blob(s'.disk, f.m.hash).Some?;
      } else if step.Place? {
        assert f.stage.SawNone? && s'.flights[id].stage.Copying? ==> Blob(s.disk, f.m.hash).Some?;
      } else {
        assert step.Copy? && CanCopy(s, id);
        OneTreeCopyIdle(sha, s, id, tree);
      }
    }
  }

  lemma BlobsFollow(sha: Hash, s: System, step: Step, tree: string -> Tree)
    requires HexDigest(sha) && OneTree(sha, s, tree) && StepOk(step) && OneTreeStep(sha, s, step, tree)
    ensures var s' := Next(sha, s, step);
      && (forall h :: Blob(s'.disk, h).Some? ==> Blob(s'.disk, h) == Some(tree(h)) && DirHash(sha, tree(h)) == h)
      && forall h :: Blob(s.disk, h).Some? && Blob(s'.disk, h).None? ==>
           step.Sweep? && forall id :: id in s.flights && s.flights[id].stage.Copying? ==> s.flights[id].m.hash != h
  {
    match step
    case Place(id, _) =>
      if id in s.flights {
        var f := s.flights[id];
        assert FlightFollows(s, f, tree) && FlightOk(sha, f);
        WithBlobFacts(s.disk, f.m.hash, f.ws);
      }
    case Copy(id) =>
      if CanCopy(s, id) {
        var f := s.flights[id];
        assert FlightFollows(s, f, tree);
        OneTreeCopyIdle(sha, s, id, tree);
        WithBlobFacts(s.disk, f.m.hash, f.ws);
      }
    case Sweep(_, hash) => WithoutBlobFacts(s.disk, hash);
    case Begin(_, _, _, _, _) =>
    case Look(_, _, _) =>
    case _ =>
      NeededShrinks(sha, s, step);
      forall h ensures Blob(Next(sha, s, step).disk, h) == Blob(s.disk, h) { }
  }

  /** Creates of the same tree may overlap as they like where renames work: the one that
      comes late writes the tree over itself. */
  lemma {:induction false} SameTreeMayOverlap(sha: Hash, steps: seq<Step>, tree: string -> Tree)
    requires HexDigest(sha) && forall i :: 0 <= i < |steps| ==> StepOk(steps[i])
    requires forall i :: 0 <= i < |steps| ==> OneTreeStep(sha, Run(sha, NOTHING, steps[..i]), steps[i], tree)
    ensures OneTree(sha, Run(sha, NOTHING, steps), tree)
  {
    if steps != [] {
      var front := steps[..|steps| - 1];
      forall i | 0 <= i < |front| ensures OneTreeStep(sha, Run(sha, NOTHING, front[..i]), front[i], tree) {
        assert front[..i] == steps[..i];
      }
      SameTreeMayOverlap(sha, front, tree);
      OneTreeKept(sha, Run(sha, NOTHING, front), steps[|steps| - 1], tree);
    }
  }

  // ---------------------------------------------------------------- witnesses

  function OneFileDir(name: string, data: Bytes): Tree { Dir([Entry(name, File(data))]) }

  lemma OneFileFacts(name: string, data: Bytes)
    ensures IsWorkspace(OneFileDir(name, data)) && WalkBytes(OneFileDir(name, data)) == data
    ensures WritesOf(OneFileDir(name, data)) == [MakeDir([]), WriteFile([name], data)]
  {
    OneFile(OneFileDir(name, data), name, data);
    var es := [Entry(name, File(data))];
    assert es[..0] == [] && WritesOf(File(data)) == [WriteFile([], data)];
    assert Under(name, [WriteFile([], data)]) == [WriteFile([name] + [], data)];
    assert [name] + [] == [name];
    assert EntryWrites(es) == [] + Under(name, WritesOf(File(data)));
  }

  /** One write after the other into the blob of another tree. */
  lemma WriteIntoOther(x: string, y: string, data: Bytes)
    requires Less(x, y)
    ensures var a, merged := OneFileDir(x, data), Dir([Entry(x, File(data)), Entry(y, File(data))]);
      && Do(Some(a), MakeDir([])) == Some(a) && Do(Some(a), WriteFile([y], data)) == Some(merged)
      && WalkBytes(merged) == data + data
      && merged != a && merged != OneFileDir(y, data)
  {
    var es, both := [Entry(x, File(data))], [Entry(x, File(data)), Entry(y, File(data))];
    SecondEntry(x, y, data);
    var w := WriteFile([y], data);
    assert w.(path := w.path[1..]) == WriteFile([], data);
    assert DoBelow(es, w) == Some(Dir(both));
    assert both[..1] == es;
    EntriesOfOne(x, data);
  }

  lemma SecondEntry(x: string, y: string, data: Bytes)
    requires Less(x, y)
    ensures var es := [Entry(x, File(data))];
      x != y && Find(es, y) == None && Put(es, y, File(data)) == [Entry(x, File(data)), Entry(y, File(data))]
  {
    LessIsTotal(x, y);
    var es := [Entry(x, File(data))];
    assert es[1..] == [];
    assert [es[0]] + [Entry(y, File(data))] == [Entry(x, File(data)), Entry(y, File(data))];
  }

  lemma EntriesOfOne(x: string, data: Bytes)
    ensures EntriesBytes([Entry(x, File(data))]) == data
  {
    assert [Entry(x, File(data))][..0] == [];
    assert [] + data == data;
  }

  ghost function Merging(x: string, y: string, data: Bytes): seq<Step> {
    [Begin(0, "s", "one", OneFileDir(x, data), "tar"), Begin(1, "s", "two", OneFileDir(y, data), "tar"),
     Place(0, true), Place(1, true), Copy(1), Copy(1)]
  }

  /** Two workspaces that hold the same bytes under different names, snapshotted at once:
      both creates look before either places its blob, so the second copies its tree into
      the first's.  The blob they both name is then neither tree, and without any sweep the
      last write is harmful unless SHA-256 collides. */
  lemma TreesMerge(sha: Hash, x: string, y: string, data: Bytes)
    requires HexDigest(sha) && Less(x, y) && data != []
    ensures var end, h := Run(sha, NOTHING, Merging(x, y, data)), sha(data);
      && InFlight(end) == {h}
      && Blob(end.disk, h) == Some(Dir([Entry(x, File(data)), Entry(y, File(data))]))
      && Dir([Entry(x, File(data)), Entry(y, File(data))]) !in {OneFileDir(x, data), OneFileDir(y, data)}
      && (Safe(sha, end) <==> sha(data + data) == sha(data))
  {
    WriteIntoOther(x, y, data);
    var s2 := MergingLooks(sha, x, y, data);
    MergingPlaces(sha, s2, x, y, data);
    MergingCopies(sha, Run(sha, NOTHING, Merging(x, y, data)[..4]), x, y, data);
    MergingEnds(sha, x, y, data);
  }

  lemma MergingEnds(sha: Hash, x: string, y: string, data: Bytes)
    ensures var steps := Merging(x, y, data);
      Run(sha, NOTHING, steps) == Next(sha, Next(sha, Run(sha, NOTHING, steps[..4]), Copy(1)), Copy(1))
  {
    var steps := Merging(x, y, data);
    RunMore(sha, NOTHING, steps, 4);
    RunMore(sha, NOTHING, steps, 5);
    assert steps[..6] == steps;
  }

  lemma MergingLooks(sha: Hash, x: string, y: string, data: Bytes) returns (s2: System)
    requires HexDigest(sha)
    ensures s2 == Run(sha, NOTHING, Merging(x, y, data)[..2])
    ensures LooksDone(sha, s2, x, y, data)
  {
    var steps := Merging(x, y, data);
    OneFileFacts(x, data);
    OneFileFacts(y, data);
    RunMore(sha, NOTHING, steps, 0);
    RunMore(sha, NOTHING, steps, 1);
    assert steps[..0] == [];
    s2 := Run(sha, NOTHING, steps[..2]);
  }

  ghost predicate LooksDone(sha: Hash, s: System, x: string, y: string, data: Bytes) {
    && s.disk == EMPTY && s.flights.Keys == {0, 1}
    && s.flights[0].ws == OneFileDir(x, data) && s.flights[1].ws == OneFileDir(y, data)
    && s.flights[0].stage.SawNone? && s.flights[1].stage.SawNone?
    && s.flights[0].m.hash == s.flights[1].m.hash == sha(data)
  }

  ghost predicate SecondCopies(sha: Hash, s: System, x: string, y: string, data: Bytes) {
    && s.flights.Keys == {0, 1} && s.flights[0].stage.InPlace?
    && s.flights[0].m.hash == s.flights[1].m.hash == sha(data)
    && s.flights[1].stage == Copying(WritesOf(OneFileDir(y, data)))
    && Blob(s.disk, sha(data)) == Some(OneFileDir(x, data)) && Referenced(s.disk) == {}
  }

  lemma MergingPlaces(sha: Hash, s2: System, x: string, y: string, data: Bytes)
    requires HexDigest(sha) && s2 == Run(sha, NOTHING, Merging(x, y, data)[..2]) && LooksDone(sha, s2, x, y, data)
    ensures SecondCopies(sha, Run(sha, NOTHING, Merging(x, y, data)[..4]), x, y, data)
  {
    var steps := Merging(x, y, data);
    var h, a := sha(data), OneFileDir(x, data);
    RunMore(sha, NOTHING, steps, 2);
    RunMore(sha, NOTHING, steps, 3);
    WithBlobFacts(EMPTY, h, a);
    var f, g := s2.flights[0], s2.flights[1];
    var s3 := Next(sha, s2, Place(0, true));
    assert s3 == s2.(disk := WithBlob(EMPTY, h, a), flights := s2.flights[0 := f.(stage := InPlace)]);
    assert s3.flights[1] == g && Blob(s3.disk, h) == Some(a);
    var s4 := Next(sha, s3, Place(1, true));
    assert s4 == s3.(flights := s3.flights[1 := g.(stage := Copying(WritesOf(g.ws)))]);
  }

  lemma MergingCopies(sha: Hash, s: System, x: string, y: string, data: Bytes)
    requires HexDigest(sha) && Less(x, y) && SecondCopies(sha, s, x, y, data)
    ensures var end, h := Next(sha, Next(sha, s, Copy(1)), Copy(1)), sha(data);
      var merged := Dir([Entry(x, File(data)), Entry(y, File(data))]);
      && InFlight(end) == {h} && Blob(end.disk, h) == Some(merged)
      && (Safe(sha, end) <==> sha(data + data) == sha(data))
  {
    var h, ws := sha(data), WritesOf(OneFileDir(y, data));
    OneFileFacts(y, data);
    WriteIntoOther(x, y, data);
    var s1 := Next(sha, s, Copy(1));
    WithBlobFacts(s.disk, h, OneFileDir(x, data));
    assert ws[1..] == [WriteFile([y], data)];
    assert s1.flights[1].stage == Copying([WriteFile([y], data)]) && s1.flights[0] == s.flights[0];
    WithBlobFacts(s1.disk, h, Dir([Entry(x, File(data)), Entry(y, File(data))]));
    var end := Next(sha, s1, Copy(1));
    assert end.flights[0] == s.flights[0] && end.flights[1].stage.InPlace? && end.flights[1].m.hash == h;
    assert InFlight(end) == {h};
  }

  ghost function HalfCopying(sb: string, one: string, two: string, ws: Tree): seq<Step> {
    [Begin(0, sb, one, ws, "tar"), Place(0, false), Copy(0), Begin(1, sb, two, ws, "tar"), End(1)]
  }

  /** A create that copies across devices and stops, or is just slow, has made the directory:
      the next create of the same tree takes it for the blob, and finishes with a snapshot
      that comes back empty. */
  lemma HalfCopyTaken(sha: Hash, sb: string, one: string, two: string, ws: Tree)
    requires HexDigest(sha) && IsWorkspace(ws)
    ensures RollbackSource(Run(sha, NOTHING, HalfCopying(sb, one, two, ws)).disk, sb, two) == Restored(Dir([]))
  {
    var s3 := HalfCopied(sha, sb, one, two, ws);
    var steps := HalfCopying(sb, one, two, ws);
    RunMore(sha, NOTHING, steps, 3);
    RunMore(sha, NOTHING, steps, 4);
    assert steps[..5] == steps;
    var s4 := Next(sha, s3, steps[3]);
    assert s4.disk == s3.disk && s4.flights[1] == Begun(sha, s3, steps[3]);
    PointerLeadsToBlob(s4.disk, sb, two, Some(s4.flights[1].m));
  }

  lemma HalfCopied(sha: Hash, sb: string, one: string, two: string, ws: Tree) returns (s3: System)
    requires HexDigest(sha) && IsWorkspace(ws)
    ensures s3 == Run(sha, NOTHING, HalfCopying(sb, one, two, ws)[..3])
    ensures Blob(s3.disk, DirHash(sha, ws)) == Some(Dir([])) && 1 !in s3.flights
  {
    var steps, h := HalfCopying(sb, one, two, ws), DirHash(sha, ws);
    RunMore(sha, NOTHING, steps, 0);
    RunMore(sha, NOTHING, steps, 1);
    RunMore(sha, NOTHING, steps, 2);
    assert steps[..0] == [];
    var s1 := Next(sha, NOTHING, steps[0]);
    var f := s1.flights[0];
    assert s1 == NOTHING.(flights := map[0 := f]) && f.stage.SawNone? && f.m.hash == h && f.ws == ws;
    var s2 := Next(sha, s1, steps[1]);
    assert s2 == s1.(flights := map[0 := f.(stage := Copying(WritesOf(ws)))]);
    WithBlobFacts(EMPTY, h, Dir([]));
    s3 := Next(sha, s2, steps[2]);
  }
}
