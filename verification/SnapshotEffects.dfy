/** What each operation of the snapshot store does, seen through lookups of pointers and of
    blobs: the one it is about changes as it says, and every other stays. */
module SnapshotEffects {
  import opened Wrappers
  import opened Trees
  import opened Snapshots

  ghost predicate SamePointersBut(d: Disk, d': Disk, sb: string, name: string) {
    forall s, n :: (s, n) != (sb, name) ==> Pointer(d', s, n) == Pointer(d, s, n)
  }

  ghost predicate SameBlobs(d: Disk, d': Disk) { forall k :: Blob(d', k) == Blob(d, k) }

  /** A create writes the pointer, with the hash and the number of the bytes it read, and
      stores the tree under that hash unless something is there. */
  lemma CreateSeen(sha: Hash, d: Disk, sb: string, name: string, ws: Tree, how: string)
    requires HexDigest(sha)
    ensures var d', h := CreateSnapshot(sha, d, sb, name, ws, how), sha(WalkBytes(ws));
      && Pointer(d', sb, name) == Some(Meta(name, sb, |WalkBytes(ws)|, how, h))
      && SamePointersBut(d, d', sb, name)
      && forall k :: Blob(d', k) == if k == h && Blob(d, h).None? then Some(ws) else Blob(d, k)
  {
    var h := sha(WalkBytes(ws));
    SizeIsWalkLength(ws);
    StoreSeen(d, h, ws);
    var d1 := StoreBlob(d, h, ws);
    var d' := WriteMeta(d1, sb, name, Some(MetaFor(sha, sb, name, ws, how)));
    assert d'.cas == d1.cas && SameBlobs(d1, d');
  }

  lemma StoreSeen(d: Disk, h: string, t: Tree)
    requires |h| >= 2
    ensures StoreBlob(d, h, t).snaps == d.snaps
    ensures forall k :: Blob(StoreBlob(d, h, t), k) == if k == h && Blob(d, h).None? then Some(t) else Blob(d, k)
  {
    forall k ensures Blob(StoreBlob(d, h, t), k) == if k == h && Blob(d, h).None? then Some(t) else Blob(d, k) {
      if |k| >= 2 && k != h && k[..2] == h[..2] {
        assert k == k[..2] + k[2..] && h == h[..2] + h[2..];
      }
    }
  }

  /** A delete takes the pointer away, and nothing else. */
  lemma DeleteSeen(d: Disk, sb: string, name: string)
    ensures var d' := DeleteSnapshot(d, sb, name);
      && Pointer(d', sb, name).None? && (sb in d'.snaps ==> name !in d'.snaps[sb])
      && SamePointersBut(d, d', sb, name) && SameBlobs(d, d')
  {
  }

  /** Removing a sandbox takes all of its pointers away, and nothing else. */
  lemma RemoveSeen(d: Disk, sb: string)
    ensures var d' := DropSandbox(d, sb);
      && (forall s, n :: Pointer(d', s, n) == if s == sb then None else Pointer(d, s, n))
      && SameBlobs(d, d')
  {
  }

  /** What a prune keeps: the hashes that some readable pointer names. */
  lemma ReferencedIff(d: Disk, h: string)
    ensures h in Referenced(d) <==>
      h != "" && exists sb, name :: Pointer(d, sb, name).Some? && Pointer(d, sb, name).value.hash == h
  {
    if h in Referenced(d) {
      var sb, name :| sb in d.snaps && name in d.snaps[sb] && NamesHash(d.snaps[sb][name])
        && d.snaps[sb][name].value.hash == h;
      assert Pointer(d, sb, name) == d.snaps[sb][name];
    }
    if h != "" {
      if sb, name :| Pointer(d, sb, name).Some? && Pointer(d, sb, name).value.hash == h {
        PointerReferenced(d, sb, name);
      }
    }
  }

  /** The content directories, each by the two parts of its path. */
  function Stored(d: Disk): set<(string, string)> {
    set prefix, rest | prefix in d.cas && rest in d.cas[prefix] :: (prefix, rest)
  }

  /** A sweep reports as many removals as there are content directories fewer. */
  lemma SweepCounts(d: Disk, refs: set<string>)
    ensures var d' := SweepWith(d, refs);
      && d'.snaps == d.snaps && Stored(d') <= Stored(d)
      && (forall p, r :: (p, r) in Stored(d') <==> (p, r) in Stored(d) && p + r in refs)
      && |Orphans(d, refs)| == |Stored(d)| - |Stored(d')|
  {
    var d' := SweepWith(d, refs);
    assert Orphans(d, refs) == Stored(d) - Stored(d');
  }
}
