/** The content-addressed snapshot store: blobs under `hash[:2]/hash[2:]`, per-sandbox
    pointers to them, and the mark-and-sweep prune.  `sha` is SHA-256 printed in hex; all
    that is assumed of it is that its digests are 64 characters long. */
module Snapshots {
  import opened Wrappers
  import opened Trees

  type Hash = Bytes -> string

  ghost predicate HexDigest(sha: Hash) { forall b :: |sha(b)| == 64 }

  /** `dirHash`: names and directory shape do not enter it. */
  function DirHash(sha: Hash, t: Tree): string { sha(WalkBytes(t)) }

  datatype Meta = Meta(name: string, sandboxID: string, sizeBytes: nat, how: string, hash: string)

  /** `snaps[sandbox][name]` is None when the directory is there and its meta.json is not
      readable. */
  datatype Disk = Disk(
    cas: map<string, map<string, Tree>>,
    snaps: map<string, map<string, Option<Meta>>>)

  const EMPTY := Disk(map[], map[])

  // ---------------------------------------------------------- small lookups

  /** `casContentDir(hash)` and what is there. */
  function Blob(d: Disk, hash: string): Option<Tree> {
    if |hash| >= 2 && hash[..2] in d.cas && hash[2..] in d.cas[hash[..2]]
    then Some(d.cas[hash[..2]][hash[2..]])
    else None
  }

  function Pointer(d: Disk, sb: string, name: string): Option<Meta> {
    if sb in d.snaps && name in d.snaps[sb] then d.snaps[sb][name] else None
  }

  /** Every hash some readable pointer names. */
  function Referenced(d: Disk): set<string> {
    set sb, name | sb in d.snaps && name in d.snaps[sb] && NamesHash(d.snaps[sb][name])
      :: d.snaps[sb][name].value.hash
  }

  predicate NamesHash(m: Option<Meta>) { m.Some? && m.value.hash != "" }

  // ------------------------------------------------------------ operations

  /** First step of `Create`: keep an existing blob, otherwise move the staging tree in. */
  function StoreBlob(d: Disk, hash: string, t: Tree): Disk
    requires |hash| >= 2
  {
    if Blob(d, hash).Some? then d
    else
      var dir := if hash[..2] in d.cas then d.cas[hash[..2]] else map[];
      d.(cas := d.cas[hash[..2] := dir[hash[2..] := t]])
  }

  /** Second step: the pointer. */
  function WriteMeta(d: Disk, sb: string, name: string, m: Option<Meta>): Disk {
    var dir := if sb in d.snaps then d.snaps[sb] else map[];
    d.(snaps := d.snaps[sb := dir[name := m]])
  }

  function MetaFor(sha: Hash, sb: string, name: string, ws: Tree, how: string): Meta {
    Meta(name, sb, Size(ws), how, DirHash(sha, ws))
  }

  function CreateSnapshot(sha: Hash, d: Disk, sb: string, name: string, ws: Tree, how: string): Disk
    requires |DirHash(sha, ws)| >= 2
  {
    WriteMeta(StoreBlob(d, DirHash(sha, ws), ws), sb, name, Some(MetaFor(sha, sb, name, ws, how)))
  }

  function DeleteSnapshot(d: Disk, sb: string, name: string): Disk {
    if sb in d.snaps then d.(snaps := d.snaps[sb := d.snaps[sb] - {name}]) else d
  }

  function DropSandbox(d: Disk, sb: string): Disk { d.(snaps := d.snaps - {sb}) }

  function KeepReferenced(prefix: string, dir: map<string, Tree>, refs: set<string>): map<string, Tree> {
    map rest | rest in dir && prefix + rest in refs :: dir[rest]
  }

  /** A sweep with the hashes marked earlier: it removes blobs and leaves the prefix
      directories. */
  function SweepWith(d: Disk, refs: set<string>): Disk {
    d.(cas := map prefix | prefix in d.cas :: KeepReferenced(prefix, d.cas[prefix], refs))
  }

  /** A prune nothing overlaps: the marks are up to date when it sweeps. */
  function Prune(d: Disk): Disk { SweepWith(d, Referenced(d)) }

  /** The content directories a sweep removes. */
  ghost function Orphans(d: Disk, refs: set<string>): set<(string, string)> {
    set prefix, rest | prefix in d.cas && rest in d.cas[prefix] && prefix + rest !in refs :: (prefix, rest)
  }

  datatype Restore = Restored(tree: Tree) | NotFound | LegacyContent | ContentMissing

  /** Where `Rollback` reads from.  A pointer without a hash predates this store; its
      content lies beside it. */
  function RollbackSource(d: Disk, sb: string, name: string): Restore {
    match Pointer(d, sb, name)
    case None => NotFound
    case Some(m) =>
      if m.hash == "" then LegacyContent
      else match Blob(d, m.hash)
        case None => ContentMissing
        case Some(t) => Restored(t)
  }

  // ------------------------------------------------------------- invariant

  predicate IsWorkspace(t: Tree) { t.Dir? && WellFormed(t) }

  /** Each blob lies under the hash of its own bytes, cut after two characters. */
  ghost predicate Keyed(sha: Hash, d: Disk) {
    forall prefix, rest :: prefix in d.cas && rest in d.cas[prefix] ==>
      |prefix| == 2 && prefix + rest == DirHash(sha, d.cas[prefix][rest]) && IsWorkspace(d.cas[prefix][rest])
  }

  /** Every pointer with a hash resolves. */
  ghost predicate Resolves(d: Disk) {
    forall h :: h in Referenced(d) ==> Blob(d, h).Some?
  }

  ghost predicate Inv(sha: Hash, d: Disk) { Keyed(sha, d) && Resolves(d) }

  lemma BlobHash(sha: Hash, d: Disk, h: string)
    requires Keyed(sha, d) && Blob(d, h).Some?
    ensures DirHash(sha, Blob(d, h).value) == h && IsWorkspace(Blob(d, h).value)
  {
    assert h[..2] + h[2..] == h;
  }

  lemma PointerReferenced(d: Disk, sb: string, name: string)
    requires Pointer(d, sb, name).Some? && Pointer(d, sb, name).value.hash != ""
    ensures Pointer(d, sb, name).value.hash in Referenced(d)
  {
  }

  lemma StoreBlobFacts(sha: Hash, d: Disk, t: Tree)
    requires HexDigest(sha) && Keyed(sha, d) && IsWorkspace(t)
    ensures var h := DirHash(sha, t); var d' := StoreBlob(d, h, t);
      && Keyed(sha, d') && d'.snaps == d.snaps
      && Blob(d', h) == (if Blob(d, h).Some? then Blob(d, h) else Some(t))
      && forall k :: Blob(d, k).Some? ==> Blob(d', k) == Blob(d, k)
  {
    var h := DirHash(sha, t);
    assert h[..2] + h[2..] == h;
  }

  lemma WriteMetaRefs(d: Disk, sb: string, name: string, m: Option<Meta>)
    ensures var d' := WriteMeta(d, sb, name, m);
      && d'.cas == d.cas && Pointer(d', sb, name) == m
      && Referenced(d') <= Referenced(d) + (if m.Some? then {m.value.hash} else {})
  {
    var d' := WriteMeta(d, sb, name, m);
    forall h | h in Referenced(d') ensures h in Referenced(d) || (m.Some? && h == m.value.hash) {
      var s, n :| s in d'.snaps && n in d'.snaps[s] && NamesHash(d'.snaps[s][n])
        && d'.snaps[s][n].value.hash == h;
      if (s, n) != (sb, name) {
        assert Pointer(d, s, n) == d'.snaps[s][n];
        PointerReferenced(d, s, n);
      }
    }
  }

  lemma FewerPointers(d: Disk, d': Disk)
    requires d'.cas == d.cas
    requires forall sb, n :: sb in d'.snaps && n in d'.snaps[sb] ==>
      sb in d.snaps && n in d.snaps[sb] && d'.snaps[sb][n] == d.snaps[sb][n]
    ensures Referenced(d') <= Referenced(d)
    ensures Resolves(d) ==> Resolves(d')
  {
  }

  lemma SweepFacts(d: Disk, refs: set<string>, h: string)
    requires |h| >= 2
    ensures SweepWith(d, refs).snaps == d.snaps && Referenced(SweepWith(d, refs)) == Referenced(d)
    ensures Blob(SweepWith(d, refs), h) == if h in refs then Blob(d, h) else None
  {
    assert h[..2] + h[2..] == h;
  }

  lemma PruneFacts(d: Disk, h: string)
    requires |h| >= 2
    ensures Referenced(Prune(d)) == Referenced(d)
    ensures Blob(Prune(d), h) == if h in Referenced(d) then Blob(d, h) else None
  {
    SweepFacts(d, Referenced(d), h);
  }

  // -------------------------------------------------------- runs of the store

  /** What can happen to the store.  A prune is one step: it does not overlap a create.
      The two crashes are the points inside `Create` where a process can stop. */
  datatype Op =
    | Create(sb: string, name: string, ws: Tree, how: string)
    | CrashAfterBlob(ws: Tree)
    | CrashBeforeMeta(sb: string, name: string, ws: Tree)
    | Delete(sb: string, name: string)
    | RemoveSandbox(sb: string)
    | PruneAll

  predicate OpOk(op: Op) {
    match op
    case Create(_, _, ws, _) => IsWorkspace(ws)
    case CrashAfterBlob(ws) => IsWorkspace(ws)
    case CrashBeforeMeta(_, _, ws) => IsWorkspace(ws)
    case _ => true
  }

  ghost function Apply(sha: Hash, d: Disk, op: Op): Disk
    requires HexDigest(sha)
  {
    match op
    case Create(sb, name, ws, how) => CreateSnapshot(sha, d, sb, name, ws, how)
    case CrashAfterBlob(ws) => StoreBlob(d, DirHash(sha, ws), ws)
    case CrashBeforeMeta(sb, name, ws) =>
      // the directory exists; an older meta.json in it is still the old one
      var d' := StoreBlob(d, DirHash(sha, ws), ws);
      WriteMeta(d', sb, name, Pointer(d', sb, name))
    case Delete(sb, name) => DeleteSnapshot(d, sb, name)
    case RemoveSandbox(sb) => DropSandbox(d, sb)
    case PruneAll => Prune(d)
  }

  ghost function Run(sha: Hash, d: Disk, ops: seq<Op>): Disk
    requires HexDigest(sha)
  {
    if ops == [] then d else Apply(sha, Run(sha, d, ops[..|ops| - 1]), ops[|ops| - 1])
  }

  lemma StoreAndPoint(sha: Hash, d: Disk, sb: string, name: string, ws: Tree, m: Option<Meta>)
    requires HexDigest(sha) && Inv(sha, d) && IsWorkspace(ws)
    requires m.Some? ==> m == Pointer(d, sb, name) || m.value.hash == DirHash(sha, ws)
    ensures Inv(sha, WriteMeta(StoreBlob(d, DirHash(sha, ws), ws), sb, name, m))
  {
    var d1 := StoreBlob(d, DirHash(sha, ws), ws);
    var d2 := WriteMeta(d1, sb, name, m);
    StoreBlobFacts(sha, d, ws);
    WriteMetaRefs(d1, sb, name, m);
    assert Referenced(d1) == Referenced(d);
    forall h | h in Referenced(d2) ensures Blob(d2, h).Some? {
      assert Blob(d2, h) == Blob(d1, h);
      if h !in Referenced(d) && m == Pointer(d, sb, name) {
        assert m.value.hash == "" || m.value.hash in Referenced(d) by {
          if m.value.hash != "" { PointerReferenced(d, sb, name); }
        }
        HashesNonEmpty(d2, h);
      }
    }
  }

  lemma HashesNonEmpty(d: Disk, h: string)
    requires h in Referenced(d)
    ensures h != ""
  {
  }

  lemma ApplyKeepsInv(sha: Hash, d: Disk, op: Op)
    requires HexDigest(sha) && Inv(sha, d) && OpOk(op)
    ensures Inv(sha, Apply(sha, d, op))
  {
    match op
    case Create(sb, name, ws, how) =>
      StoreAndPoint(sha, d, sb, name, ws, Some(MetaFor(sha, sb, name, ws, how)));
    case CrashAfterBlob(ws) => StoreBlobFacts(sha, d, ws);
    case CrashBeforeMeta(sb, name, ws) =>
      StoreBlobFacts(sha, d, ws);
      StoreAndPoint(sha, d, sb, name, ws, Pointer(d, sb, name));
    case Delete(sb, name) => FewerPointers(d, DeleteSnapshot(d, sb, name));
    case RemoveSandbox(sb) => FewerPointers(d, DropSandbox(d, sb));
    case PruneAll =>
      assert Keyed(sha, Prune(d));
      forall h | h in Referenced(Prune(d)) ensures Blob(Prune(d), h).Some? {
        PruneFacts(d, "  ");
        assert Blob(d, h).Some?;
        PruneFacts(d, h);
      }
  }

  /** Over any run, every pointer with a hash resolves to a blob whose bytes hash to it. */
  lemma {:induction false} PointersAlwaysResolve(sha: Hash, ops: seq<Op>)
    requires HexDigest(sha) && forall i :: 0 <= i < |ops| ==> OpOk(ops[i])
    ensures var d := Run(sha, EMPTY, ops);
      && Inv(sha, d)
      && forall sb, name :: Pointer(d, sb, name).Some? && Pointer(d, sb, name).value.hash != "" ==>
           RollbackSource(d, sb, name).Restored?
           && DirHash(sha, RollbackSource(d, sb, name).tree) == Pointer(d, sb, name).value.hash
  {
    var d := Run(sha, EMPTY, ops);
    if ops != [] {
      PointersAlwaysResolve(sha, ops[..|ops| - 1]);
      ApplyKeepsInv(sha, Run(sha, EMPTY, ops[..|ops| - 1]), ops[|ops| - 1]);
    }
    forall sb, name | Pointer(d, sb, name).Some? && Pointer(d, sb, name).value.hash != ""
      ensures RollbackSource(d, sb, name).Restored?
        && DirHash(sha, RollbackSource(d, sb, name).tree) == Pointer(d, sb, name).value.hash
    {
      PointerReferenced(d, sb, name);
      BlobHash(sha, d, Pointer(d, sb, name).value.hash);
    }
  }

  /** All the hashes stored, read back from the two directory levels. */
  ghost function StoredHashes(d: Disk): set<string> {
    set prefix, rest | prefix in d.cas && rest in d.cas[prefix] :: prefix + rest
  }

  /** A prune leaves exactly the referenced blobs, each as it was. */
  lemma PruneLeavesReferenced(sha: Hash, d: Disk)
    requires HexDigest(sha) && Inv(sha, d)
    ensures StoredHashes(Prune(d)) == Referenced(d)
    ensures forall h :: h in Referenced(d) ==> Blob(Prune(d), h) == Blob(d, h)
    ensures forall h :: h in StoredHashes(d) && h !in Referenced(d) ==> Blob(Prune(d), h).None?
  {
    forall h | h in Referenced(d)
      ensures h in StoredHashes(Prune(d)) && Blob(Prune(d), h) == Blob(d, h)
    {
      assert Blob(d, h).Some?;
      PruneFacts(d, h);
      assert h == h[..2] + h[2..];
    }
    forall h | h in StoredHashes(d) && h !in Referenced(d) ensures Blob(Prune(d), h).None? {
      PruneFacts(d, h);
    }
  }

  // ------------------------------------------------------------- round trip

  predicate LeavesAlone(op: Op, sb: string, name: string) {
    match op
    case Create(s, n, _, _) => (s, n) != (sb, name)
    case Delete(s, n) => (s, n) != (sb, name)
    case RemoveSandbox(s) => s != sb
    case _ => true
  }

  /** A pointer nobody touches, and its blob, survive everything else. */
  lemma ApplyKeepsSnapshot(sha: Hash, d: Disk, op: Op, sb: string, name: string)
    requires HexDigest(sha) && Inv(sha, d) && OpOk(op) && LeavesAlone(op, sb, name)
    requires Pointer(d, sb, name).Some? && Pointer(d, sb, name).value.hash != ""
    ensures var d' := Apply(sha, d, op);
      && Pointer(d', sb, name) == Pointer(d, sb, name)
      && Blob(d', Pointer(d, sb, name).value.hash) == Blob(d, Pointer(d, sb, name).value.hash)
  {
    var h := Pointer(d, sb, name).value.hash;
    PointerReferenced(d, sb, name);
    assert Blob(d, h).Some?;
    match op
    case Create(_, _, ws, _) => StoreBlobFacts(sha, d, ws);
    case CrashAfterBlob(ws) => StoreBlobFacts(sha, d, ws);
    case CrashBeforeMeta(_, _, ws) => StoreBlobFacts(sha, d, ws);
    case Delete(_, _) =>
    case RemoveSandbox(_) =>
    case PruneAll => PruneFacts(d, h);
  }

  /** The tree a snapshot of `ws` taken in state `d` stands for: the blob already under
      its hash, if there is one. */
  function Kept(sha: Hash, d: Disk, ws: Tree): Tree {
    if Blob(d, DirHash(sha, ws)).Some? then Blob(d, DirHash(sha, ws)).value else ws
  }

  lemma {:induction false} RollbackGivesKept(sha: Hash, d: Disk, sb: string, name: string, ws: Tree, how: string,
                                             ops: seq<Op>)
    requires HexDigest(sha) && Inv(sha, d) && IsWorkspace(ws)
    requires forall i :: 0 <= i < |ops| ==> OpOk(ops[i]) && LeavesAlone(ops[i], sb, name)
    ensures var later := Run(sha, CreateSnapshot(sha, d, sb, name, ws, how), ops);
      && Inv(sha, later)
      && Pointer(later, sb, name) == Some(MetaFor(sha, sb, name, ws, how))
      && Blob(later, DirHash(sha, ws)) == Some(Kept(sha, d, ws))
  {
    var d0 := CreateSnapshot(sha, d, sb, name, ws, how);
    if ops == [] {
      ApplyKeepsInv(sha, d, Create(sb, name, ws, how));
      StoreBlobFacts(sha, d, ws);
      WriteMetaRefs(StoreBlob(d, DirHash(sha, ws), ws), sb, name, Some(MetaFor(sha, sb, name, ws, how)));
    } else {
      var front, op := ops[..|ops| - 1], ops[|ops| - 1];
      RollbackGivesKept(sha, d, sb, name, ws, how, front);
      ApplyKeepsInv(sha, Run(sha, d0, front), op);
      ApplyKeepsSnapshot(sha, Run(sha, d0, front), op, sb, name);
    }
  }

  /** Snapshot, then anything that leaves the snapshot alone, then roll back: the tree that
      comes back has the same hash, so the same walk-order bytes unless SHA-256 collided.
      It is the identical tree exactly when the hash was new or its blob already was that
      tree. */
  lemma SnapshotRoundTrip(sha: Hash, d: Disk, sb: string, name: string, ws: Tree, how: string, ops: seq<Op>)
    requires HexDigest(sha) && Inv(sha, d) && IsWorkspace(ws)
    requires forall i :: 0 <= i < |ops| ==> OpOk(ops[i]) && LeavesAlone(ops[i], sb, name)
    ensures var later := Run(sha, CreateSnapshot(sha, d, sb, name, ws, how), ops);
      var back := RollbackSource(later, sb, name);
      && back.Restored?
      && sha(WalkBytes(back.tree)) == sha(WalkBytes(ws))
      && Overlay(back.tree, Some(Dir([]))) == Some(back.tree)
      && (back.tree == ws <==>
            var before := Blob(d, DirHash(sha, ws)); before.None? || before == Some(ws))
  {
    var later := Run(sha, CreateSnapshot(sha, d, sb, name, ws, how), ops);
    RollbackGivesKept(sha, d, sb, name, ws, how, ops);
    BlobHash(sha, later, DirHash(sha, ws));
    CopyReproduces(RollbackSource(later, sb, name).tree);
  }

  /** The hash ignores names, so this happens without any collision: a workspace that holds
      the same bytes under another file name comes back under the first name. */
  lemma RenamedFileComesBackUnderOldName(sha: Hash, data: Bytes)
    requires HexDigest(sha)
    ensures var a, b := Dir([Entry("a", File(data))]), Dir([Entry("b", File(data))]);
      RollbackSource(Run(sha, EMPTY, [Create("s", "one", a, "tar"), Create("s", "two", b, "tar")]), "s", "two")
      == Restored(a)
  {
    var a, b := Dir([Entry("a", File(data))]), Dir([Entry("b", File(data))]);
    OneFile(a, "a", data);
    OneFile(b, "b", data);
    var one, two := Create("s", "one", a, "tar"), Create("s", "two", b, "tar");
    var d1 := CreateSnapshot(sha, EMPTY, "s", "one", a, "tar");
    assert [one, two][..1] == [one] && [one][..0] == [];
    assert Run(sha, EMPTY, [one]) == d1;
    RollbackGivesKept(sha, EMPTY, "s", "one", a, "tar", []);
    RollbackGivesKept(sha, d1, "s", "two", b, "tar", []);
  }

  lemma OneFile(t: Tree, name: string, data: Bytes)
    requires t == Dir([Entry(name, File(data))])
    ensures WalkBytes(t) == data && IsWorkspace(t)
  {
    var es := t.entries;
    assert es[..0] == [] && EntriesBytes(es[..0]) == [];
    assert EntriesBytes(es) == [] + WalkBytes(es[0].node);
  }

  // ------------------------------------------- a prune around a create

  /** One sweep, with whatever was marked however long before, around the two steps of a
      create.  Before the blob is stored it does no harm; between blob and pointer, and
      after the pointer, the snapshot resolves exactly when its hash had been marked. */
  lemma SweepAroundCreate(sha: Hash, d: Disk, refs: set<string>, sb: string, name: string, ws: Tree, how: string)
    requires HexDigest(sha)
    ensures var h, m := DirHash(sha, ws), Some(MetaFor(sha, sb, name, ws, how));
      && RollbackSource(CreateSnapshot(sha, SweepWith(d, refs), sb, name, ws, how), sb, name).Restored?
      && (RollbackSource(WriteMeta(SweepWith(StoreBlob(d, h, ws), refs), sb, name, m), sb, name).Restored?
          <==> h in refs)
      && (RollbackSource(SweepWith(CreateSnapshot(sha, d, sb, name, ws, how), refs), sb, name).Restored?
          <==> h in refs)
  {
    var h, m := DirHash(sha, ws), Some(MetaFor(sha, sb, name, ws, how));
    BlobStored(SweepWith(d, refs), h, ws);
    PointerLeadsToBlob(StoreBlob(SweepWith(d, refs), h, ws), sb, name, m);
    BlobStored(d, h, ws);
    SweepFacts(StoreBlob(d, h, ws), refs, h);
    PointerLeadsToBlob(SweepWith(StoreBlob(d, h, ws), refs), sb, name, m);
    var done := CreateSnapshot(sha, d, sb, name, ws, how);
    SweepFacts(done, refs, h);
    PointerLeadsToBlob(StoreBlob(d, h, ws), sb, name, m);
    assert Blob(done, h) == Blob(StoreBlob(d, h, ws), h);
  }

  lemma BlobStored(d: Disk, h: string, t: Tree)
    requires |h| >= 2
    ensures Blob(StoreBlob(d, h, t), h).Some?
  {
  }

  lemma PointerLeadsToBlob(d: Disk, sb: string, name: string, m: Option<Meta>)
    requires m.Some? && m.value.hash != ""
    ensures var d' := WriteMeta(d, sb, name, m);
      && Pointer(d', sb, name) == m
      && RollbackSource(d', sb, name) ==
           if Blob(d, m.value.hash).Some? then Restored(Blob(d, m.value.hash).value) else ContentMissing
  {
    WriteMetaRefs(d, sb, name, m);
    assert Blob(WriteMeta(d, sb, name, m), m.value.hash) == Blob(d, m.value.hash);
  }

  /** What the marks hold of the hash: before the pointer is written, what they held before
      the create; afterwards, the hash. */
  lemma MarkAroundCreate(sha: Hash, d: Disk, sb: string, name: string, ws: Tree, how: string)
    requires HexDigest(sha)
    ensures var h := DirHash(sha, ws);
      && Referenced(StoreBlob(d, h, ws)) == Referenced(d)
      && h in Referenced(CreateSnapshot(sha, d, sb, name, ws, how))
  {
    var h, m := DirHash(sha, ws), Some(MetaFor(sha, sb, name, ws, how));
    WriteMetaRefs(StoreBlob(d, h, ws), sb, name, m);
    PointerReferenced(CreateSnapshot(sha, d, sb, name, ws, how), sb, name);
  }

  /** A prune whose mark and sweep both fall between the two steps. */
  lemma PruneInsideCreate(sha: Hash, d: Disk, sb: string, name: string, ws: Tree, how: string)
    requires HexDigest(sha)
    ensures var h := DirHash(sha, ws);
      var after := WriteMeta(Prune(StoreBlob(d, h, ws)), sb, name, Some(MetaFor(sha, sb, name, ws, how)));
      RollbackSource(after, sb, name).Restored? <==> h in Referenced(d)
  {
    MarkAroundCreate(sha, d, sb, name, ws, how);
    SweepAroundCreate(sha, d, Referenced(d), sb, name, ws, how);
  }

  // ------------------------------------------------ the store, in place

  class SnapshotStore {
    const sha: Hash
    var cas: map<string, map<string, Tree>>
    var snaps: map<string, map<string, Option<Meta>>>

    ghost function View(): Disk reads this { Disk(cas, snaps) }

    constructor (sha: Hash)
      ensures View() == EMPTY && this.sha == sha
    {
      this.sha := sha;
      cas, snaps := map[], map[];
    }

    /** `Manager.Create`.  `sameDevice` is whether the rename out of /tmp works; if not the
        staging tree is copied. */
    method Create(sb: string, name: string, ws: Option<Tree>, supported: bool, clone: Clonable, sameDevice: bool)
      returns (size: Option<nat>, how: string)
      requires HexDigest(sha) && (ws.Some? ==> WellFormed(ws.value))
      modifies this
      ensures size == if ws.Some? && ws.value.Dir? then Some(Size(ws.value)) else None
      ensures size.Some? ==>
        how == if supported && AllClonable([], ws.value.entries, clone) then "reflink" else "tar"
      ensures View() == if size.Some? then CreateSnapshot(sha, old(View()), sb, name, ws.value, how) else old(View())
    {
      var staging, total;
      staging, total, how := StageWorkspace(supported, ws, clone);
      if staging.None? { return None, how; }
      var hash := DirHash(sha, staging.value);
      var prefix, rest := hash[..2], hash[2..];
      var dir := if prefix in cas then cas[prefix] else map[];
      if rest !in dir {
        var content := staging;
        if !sameDevice {
          CopyReproduces(staging.value);
          var copied;
          content, copied := CopyDir(staging.value, None);
        }
        cas := cas[prefix := dir[rest := content.value]];
      }
      CreateMeta(sb, name, total, how, hash);
      size := Some(total);
    }

    method CreateMeta(sb: string, name: string, size: nat, how: string, hash: string)
      modifies this`snaps
      ensures View() == WriteMeta(old(View()), sb, name, Some(Meta(name, sb, size, how, hash)))
    {
      var dir := if sb in snaps then snaps[sb] else map[];
      snaps := snaps[sb := dir[name := Some(Meta(name, sb, size, how, hash))]];
    }

    /** `Manager.Delete` */
    method Delete(sb: string, name: string) returns (ok: bool)
      modifies this`snaps
      ensures ok <==> sb in old(snaps) && name in old(snaps)[sb]
      ensures View() == DeleteSnapshot(old(View()), sb, name)
    {
      if sb !in snaps || name !in snaps[sb] {
        assert sb in snaps ==> snaps[sb] - {name} == snaps[sb];
        assert sb in snaps ==> snaps[sb := snaps[sb]] == snaps;
        return false;
      }
      snaps := snaps[sb := snaps[sb] - {name}];
      ok := true;
    }

    /** `Manager.Rollback`: clears the workspace and copies the content back into it.
        `beside` is the pointer's own directory, whole, if there is one. */
    method Rollback(sb: string, name: string, beside: Tree, ws: Option<Tree>) returns (r: Restore, ws': Option<Tree>)
      requires Keyed(sha, View()) && IsWorkspace(beside)
      ensures r == RollbackSource(View(), sb, name)
      ensures var m := Pointer(View(), sb, name);
        && (r.NotFound? <==> m.None?)
        && (r.LegacyContent? <==> m.Some? && m.value.hash == "")
        && (r.ContentMissing? <==> m.Some? && m.value.hash != "" && Blob(View(), m.value.hash).None?)
      ensures ws' == match r { case Restored(t) => Some(t) case LegacyContent => Some(beside) case _ => ws }
    {
      if sb !in snaps || name !in snaps[sb] || snaps[sb][name].None? { return NotFound, ws; }
      var hash := snaps[sb][name].value.hash;
      var content := beside;
      if hash != "" {
        if |hash| < 2 || hash[..2] !in cas || hash[2..] !in cas[hash[..2]] { return ContentMissing, ws; }
        content := cas[hash[..2]][hash[2..]];
        BlobHash(sha, View(), hash);
      }
      CopyReproduces(content);
      var cleared: Option<Tree> := Some(Dir([]));
      var total;
      ws', total := CopyDir(content, cleared);
      r := if hash == "" then LegacyContent else Restored(content);
    }

    /** `PruneOrphans`: mark every referenced hash, then sweep both directory levels. */
    method PruneOrphans() returns (removed: nat)
      modifies this`cas
      ensures View() == Prune(old(View()))
      ensures removed == |Orphans(old(View()), Referenced(old(View())))|
    {
      var referenced := Mark(snaps);
      removed := SweepAll(referenced);
    }

    /** The sweeping loop over prefix directories, with whatever was marked. */
    method SweepAll(referenced: set<string>) returns (removed: nat)
      modifies this`cas
      ensures View() == SweepWith(old(View()), referenced)
      ensures removed == |Orphans(old(View()), referenced)|
    {
      ghost var before := View();
      removed := SweepPrefixes(referenced);
      SweptAll(before, referenced);
    }

    method SweepPrefixes(referenced: set<string>) returns (removed: nat)
      modifies this`cas
      ensures cas == SweptTo(old(cas), referenced, old(cas).Keys)
      ensures removed == |GoneFrom(old(cas), referenced, old(cas).Keys)|
    {
      ghost var start := cas;
      ghost var done: set<string> := {};
      var prefixes := cas.Keys;
      removed := 0;
      SweptNone(start, referenced);
      while prefixes != {}
        invariant prefixes <= start.Keys && done == start.Keys - prefixes
        invariant cas == SweptTo(start, referenced, done)
        invariant removed == |GoneFrom(start, referenced, done)|
        decreases |prefixes|
      {
        var p :| p in prefixes;
        SweepMore(start, referenced, done, p);
        var n := Sweep(p, referenced);
        removed := removed + n;
        done := done + {p};
        prefixes := prefixes - {p};
      }
      assert done == start.Keys;
    }

    /** One prefix directory. */
    method Sweep(p: string, referenced: set<string>) returns (n: nat)
      requires p in cas
      modifies this`cas
      ensures cas == old(cas)[p := KeepReferenced(p, old(cas)[p], referenced)]
      ensures n == |GoneIn(p, old(cas)[p].Keys, referenced)|
    {
      n := 0;
      var rest := cas[p].Keys;
      ghost var dir := cas[p];
      assert GoneIn(p, dir.Keys - rest, referenced) == {};
      assert cas[p] == SweptDir(p, dir, rest, referenced);
      while rest != {}
        invariant rest <= dir.Keys
        invariant cas == old(cas)[p := SweptDir(p, dir, rest, referenced)]
        invariant n == |GoneIn(p, dir.Keys - rest, referenced)|
        decreases |rest|
      {
        var r :| r in rest;
        SweepOne(p, dir, rest, r, referenced);
        rest := rest - {r};
        if p + r !in referenced {
          cas := cas[p := cas[p] - {r}];
          n := n + 1;
        }
      }
      assert dir.Keys - {} == dir.Keys;
      assert SweptDir(p, dir, {}, referenced) == KeepReferenced(p, dir, referenced);
    }
  }

  /** The marking loops: every hash named by a readable pointer. */
  method Mark(snaps: map<string, map<string, Option<Meta>>>) returns (referenced: set<string>)
    ensures referenced == Referenced(Disk(map[], snaps))
  {
    referenced := {};
    ghost var done: set<string> := {};
    var sandboxes := snaps.Keys;
    while sandboxes != {}
      invariant sandboxes <= snaps.Keys && done == snaps.Keys - sandboxes
      invariant referenced == RefsIn(snaps, done)
      decreases |sandboxes|
    {
      var sb :| sb in sandboxes;
      var refs := MarkSandbox(snaps[sb]);
      RefsInMore(snaps, done, sb);
      referenced := referenced + refs;
      done := done + {sb};
      sandboxes := sandboxes - {sb};
    }
    assert done == snaps.Keys;
    RefsInAll(snaps);
  }

  method MarkSandbox(dir: map<string, Option<Meta>>) returns (referenced: set<string>)
    ensures referenced == RefsOf(dir, dir.Keys)
  {
    referenced := {};
    ghost var done: set<string> := {};
    var names := dir.Keys;
    while names != {}
      invariant names <= dir.Keys && done == dir.Keys - names
      invariant referenced == RefsOf(dir, done)
      decreases |names|
    {
      var name :| name in names;
      RefsOfMore(dir, done, name);
      var meta := dir[name];
      if meta.Some? && meta.value.hash != "" {
        referenced := referenced + {meta.value.hash};
      }
      done := done + {name};
      names := names - {name};
    }
    assert done == dir.Keys;
  }

  ghost function RefsOf(dir: map<string, Option<Meta>>, names: set<string>): set<string> {
    set n | n in names && n in dir && NamesHash(dir[n]) :: dir[n].value.hash
  }

  ghost function RefsIn(snaps: map<string, map<string, Option<Meta>>>, sandboxes: set<string>): set<string> {
    set sb, n | sb in sandboxes && sb in snaps && n in snaps[sb] && NamesHash(snaps[sb][n]) :: snaps[sb][n].value.hash
  }

  lemma RefsOfMore(dir: map<string, Option<Meta>>, names: set<string>, name: string)
    requires name in dir
    ensures RefsOf(dir, names + {name})
         == RefsOf(dir, names) + (if NamesHash(dir[name]) then {dir[name].value.hash} else {})
  {
    var a := RefsOf(dir, names + {name});
    var b := RefsOf(dir, names) + (if NamesHash(dir[name]) then {dir[name].value.hash} else {});
    forall h | h in b ensures h in a {
      if NamesHash(dir[name]) && h == dir[name].value.hash { assert name in names + {name}; }
    }
  }

  lemma RefsInMore(snaps: map<string, map<string, Option<Meta>>>, sandboxes: set<string>, sb: string)
    requires sb in snaps
    ensures RefsIn(snaps, sandboxes + {sb}) == RefsIn(snaps, sandboxes) + RefsOf(snaps[sb], snaps[sb].Keys)
  {
    var a, b := RefsIn(snaps, sandboxes + {sb}), RefsOf(snaps[sb], snaps[sb].Keys);
    forall h | h in b ensures h in a {
      var n :| n in snaps[sb] && NamesHash(snaps[sb][n]) && snaps[sb][n].value.hash == h;
      assert sb in sandboxes + {sb};
    }
  }

  lemma RefsInAll(snaps: map<string, map<string, Option<Meta>>>)
    ensures RefsIn(snaps, snaps.Keys) == Referenced(Disk(map[], snaps))
  {
  }

  type Cas = map<string, map<string, Tree>>

  ghost function SweptTo(cas: Cas, refs: set<string>, done: set<string>): Cas {
    map p | p in cas :: if p in done then KeepReferenced(p, cas[p], refs) else cas[p]
  }

  ghost function GoneIn(p: string, rests: set<string>, refs: set<string>): set<(string, string)> {
    set r | r in rests && p + r !in refs :: (p, r)
  }

  ghost function GoneFrom(cas: Cas, refs: set<string>, done: set<string>): set<(string, string)> {
    set p, r | p in done && p in cas && r in cas[p] && p + r !in refs :: (p, r)
  }

  ghost function SweptDir(p: string, dir: map<string, Tree>, left: set<string>, refs: set<string>): map<string, Tree> {
    map r | r in dir && (r in left || p + r in refs) :: dir[r]
  }

  lemma SweepOne(p: string, dir: map<string, Tree>, left: set<string>, r: string, refs: set<string>)
    requires r in left && left <= dir.Keys
    ensures var gone, gone' := GoneIn(p, dir.Keys - left, refs), GoneIn(p, dir.Keys - (left - {r}), refs);
      && |gone'| == |gone| + (if p + r in refs then 0 else 1)
      && SweptDir(p, dir, left - {r}, refs)
         == (if p + r in refs then SweptDir(p, dir, left, refs) else SweptDir(p, dir, left, refs) - {r})
  {
    var gone, gone' := GoneIn(p, dir.Keys - left, refs), GoneIn(p, dir.Keys - (left - {r}), refs);
    if p + r in refs {
      assert gone' == gone;
    } else {
      assert gone' == gone + {(p, r)} && (p, r) !in gone;
    }
  }

  lemma SweepMore(cas: Cas, refs: set<string>, done: set<string>, p: string)
    requires p in cas && p !in done
    ensures SweptTo(cas, refs, done)[p] == cas[p]
    ensures SweptTo(cas, refs, done + {p}) == SweptTo(cas, refs, done)[p := KeepReferenced(p, cas[p], refs)]
    ensures |GoneFrom(cas, refs, done + {p})| == |GoneFrom(cas, refs, done)| + |GoneIn(p, cas[p].Keys, refs)|
  {
    var a, b := GoneFrom(cas, refs, done), GoneIn(p, cas[p].Keys, refs);
    assert GoneFrom(cas, refs, done + {p}) == a + b && a !! b;
  }

  lemma SweptNone(cas: Cas, refs: set<string>)
    ensures SweptTo(cas, refs, {}) == cas && GoneFrom(cas, refs, {}) == {}
  {
  }

  lemma SweptAll(d: Disk, refs: set<string>)
    ensures d.(cas := SweptTo(d.cas, refs, d.cas.Keys)) == SweepWith(d, refs)
    ensures GoneFrom(d.cas, refs, d.cas.Keys) == Orphans(d, refs)
  {
  }
}
