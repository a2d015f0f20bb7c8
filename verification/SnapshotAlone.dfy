/** A create or a prune that nothing comes between is the operation of the store. */
module SnapshotAlone {
  import opened Wrappers
  import opened Trees
  import opened TreeWrites
  import opened Snapshots
  import opened SnapshotRaces

  // ---------------------------------------------------------------- creates

  function Repeat(sha: Hash, s: System, step: Step, n: nat): System
    decreases n
  {
    if n == 0 then s else Repeat(sha, Next(sha, s, step), step, n - 1)
  }

  lemma WithBlobTwice(d: Disk, h: string, t: Tree, u: Tree)
    requires |h| >= 2
    ensures WithBlob(WithBlob(d, h, t), h, u) == WithBlob(d, h, u)
  {
    var dir := if h[..2] in d.cas then d.cas[h[..2]] else map[];
    assert dir[h[2..] := t][h[2..] := u] == dir[h[2..] := u];
    assert d.cas[h[..2] := dir[h[2..] := t]][h[..2] := dir[h[2..] := u]] == d.cas[h[..2] := dir[h[2..] := u]];
  }

  lemma WithBlobIsStore(d: Disk, h: string, t: Tree)
    requires |h| >= 2 && Blob(d, h).None?
    ensures WithBlob(d, h, t) == StoreBlob(d, h, t)
  {
  }

  /** The rest of a copy, write after write. */
  lemma {:induction false} CopyRest(sha: Hash, s: System, id: nat, w: Tree)
    requires id in s.flights && s.flights[id].stage.Copying? && s.flights[id].stage.todo != []
    requires |s.flights[id].m.hash| >= 2
    requires DoAll(Blob(s.disk, s.flights[id].m.hash), s.flights[id].stage.todo) == Some(w)
    ensures var f := s.flights[id];
      Repeat(sha, s, Copy(id), |f.stage.todo|)
      == s.(disk := WithBlob(s.disk, f.m.hash, w), flights := s.flights[id := f.(stage := InPlace)])
    decreases |s.flights[id].stage.todo|
  {
    var f, s' := s.flights[id], Next(sha, s, Copy(id));
    var t := Do(Blob(s.disk, f.m.hash), f.stage.todo[0]).value;
    WithBlobFacts(s.disk, f.m.hash, t);
    if |f.stage.todo| == 1 {
      assert f.stage.todo[1..] == [];
      assert Repeat(sha, s', Copy(id), 0) == s';
    } else {
      var g := f.(stage := Copying(f.stage.todo[1..]));
      assert s' == s.(disk := WithBlob(s.disk, f.m.hash, t), flights := s.flights[id := g]);
      CopyRest(sha, s', id, w);
      WithBlobTwice(s.disk, f.m.hash, t, w);
      assert s.flights[id := g][id := f.(stage := InPlace)] == s.flights[id := f.(stage := InPlace)];
    }
  }

  /** The steps of a create up to its pointer. */
  function Stored(sha: Hash, s: System, step: Step, sameDevice: bool): System
    requires step.Begin?
  {
    var s1 := Next(sha, s, step);
    if Begun(sha, s, step).stage.InPlace? then s1
    else
      var s2 := Next(sha, s1, Place(step.id, sameDevice));
      if sameDevice then s2 else Repeat(sha, s2, Copy(step.id), |WritesOf(step.ws)|)
  }

  lemma StoredAlone(sha: Hash, s: System, step: Step, sameDevice: bool)
    requires HexDigest(sha) && step.Begin? && StepOk(step) && step.id !in s.flights
    ensures var h := DirHash(sha, step.ws);
      Stored(sha, s, step, sameDevice)
      == s.(disk := StoreBlob(s.disk, h, step.ws),
            flights := s.flights[step.id := Begun(sha, s, step).(stage := InPlace)])
  {
    var id, h, f := step.id, DirHash(sha, step.ws), Begun(sha, s, step);
    if f.stage.SawNone? {
      var s1 := Next(sha, s, step);
      assert s1.flights[id] == f;
      WithBlobIsStore(s.disk, h, step.ws);
      assert s.flights[id := f][id := f.(stage := InPlace)] == s.flights[id := f.(stage := InPlace)];
      if !sameDevice {
        var s2 := Next(sha, s1, Place(id, false));
        var g := f.(stage := Copying(WritesOf(step.ws)));
        assert s2 == s.(flights := s.flights[id := f][id := g]);
        WritesAreOverlay(step.ws, None);
        CopyReproduces(step.ws);
        CopyRest(sha, s2, id, step.ws);
        assert s.flights[id := f][id := g][id := f.(stage := InPlace)] == s.flights[id := f.(stage := InPlace)];
      }
    }
  }

  /** Look, placement or copy, and pointer, with nothing between them, on one device or two,
      with or without the blob there: the create of the store. */
  lemma CreateAlone(sha: Hash, s: System, step: Step, sameDevice: bool)
    requires HexDigest(sha) && step.Begin? && StepOk(step) && step.id !in s.flights
    ensures Next(sha, Stored(sha, s, step, sameDevice), End(step.id))
         == s.(disk := CreateSnapshot(sha, s.disk, step.sb, step.name, step.ws, step.how))
  {
    StoredAlone(sha, s, step, sameDevice);
    assert s.flights[step.id := Begun(sha, s, step).(stage := InPlace)] - {step.id} == s.flights;
  }

  // ----------------------------------------------------------------- prunes

  function LookAll(sha: Hash, s: System, p: nat, names: seq<(string, string)>): System {
    if names == [] then s
    else
      var (sb, name) := names[|names| - 1];
      Next(sha, LookAll(sha, s, p, names[..|names| - 1]), Look(p, sb, name))
  }

  function SweepEach(sha: Hash, s: System, p: nat, hashes: seq<string>): System {
    if hashes == [] then s
    else Next(sha, SweepEach(sha, s, p, hashes[..|hashes| - 1]), Sweep(p, hashes[|hashes| - 1]))
  }

  /** The looks collect the hashes of the pointers looked at. */
  lemma {:induction false} Looked(sha: Hash, s: System, p: nat, names: seq<(string, string)>)
    ensures var s' := LookAll(sha, s, p, names);
      && s'.disk == s.disk && s'.flights == s.flights
      && forall h :: h in Marked(s', p) <==>
           (h in Marked(s, p) || exists i :: 0 <= i < |names| && Names(s.disk, names[i].0, names[i].1, h))
  {
    if names != [] {
      var front, last := names[..|names| - 1], names[|names| - 1];
      Looked(sha, s, p, front);
      var s' := LookAll(sha, s, p, names);
      assert forall i :: 0 <= i < |front| ==> names[i] == front[i];
      forall h
        ensures h in Marked(s', p) <==>
          (h in Marked(s, p) || exists i :: 0 <= i < |names| && Names(s.disk, names[i].0, names[i].1, h))
      {
        assert h in Marked(s', p) <==> h in Marked(LookAll(sha, s, p, front), p) || Names(s.disk, last.0, last.1, h);
      }
    }
  }

  predicate Names(d: Disk, sb: string, name: string, h: string) {
    NamesHash(Pointer(d, sb, name)) && Pointer(d, sb, name).value.hash == h
  }

  lemma {:induction false} Swept(sha: Hash, s: System, p: nat, hashes: seq<string>)
    ensures var s' := SweepEach(sha, s, p, hashes);
      && s'.disk.snaps == s.disk.snaps && s'.marks == s.marks && s'.flights == s.flights
      && forall h :: Blob(s'.disk, h) == if h in hashes && h !in Marked(s, p) then None else Blob(s.disk, h)
  {
    if hashes != [] {
      var front, last := hashes[..|hashes| - 1], hashes[|hashes| - 1];
      Swept(sha, s, p, front);
      WithoutBlobFacts(SweepEach(sha, s, p, front).disk, last);
      assert hashes == front + [last];
    }
  }

  /** Looks at all pointers and then sweeps of all content directories, with nothing between
      them: the prune of the store. */
  lemma PruneAlone(sha: Hash, s: System, p: nat, names: seq<(string, string)>, hashes: seq<string>)
    requires Marked(s, p) == {}
    requires forall sb, name :: Pointer(s.disk, sb, name).Some? ==> (sb, name) in names
    requires forall h :: Blob(s.disk, h).Some? ==> h in hashes
    ensures var end := SweepEach(sha, LookAll(sha, s, p, names), p, hashes).disk;
      end.snaps == s.disk.snaps && forall h :: Blob(end, h) == Blob(Prune(s.disk), h)
  {
    var s1 := LookAll(sha, s, p, names);
    Looked(sha, s, p, names);
    Swept(sha, s1, p, hashes);
    forall h ensures h in Marked(s1, p) <==> h in Referenced(s.disk) {
      if i :| 0 <= i < |names| && Names(s.disk, names[i].0, names[i].1, h) {
        PointerReferenced(s.disk, names[i].0, names[i].1);
      }
      if h in Referenced(s.disk) {
        var sb, name :| sb in s.disk.snaps && name in s.disk.snaps[sb] && NamesHash(s.disk.snaps[sb][name])
          && s.disk.snaps[sb][name].value.hash == h;
        assert Pointer(s.disk, sb, name).Some?;
        var i :| 0 <= i < |names| && names[i] == (sb, name);
        assert Names(s.disk, names[i].0, names[i].1, h);
      }
    }
    forall h ensures Blob(SweepEach(sha, s1, p, hashes).disk, h) == Blob(Prune(s.disk), h) {
      if |h| >= 2 { PruneFacts(s.disk, h); }
    }
  }
}
