/** The start-up pass that brings sandbox records and OCI containers into agreement:
    orphan clean-up of the records, then reconciliation of compat-mode containers. */
module Reconcile {
  import opened Wrappers

  datatype SandboxState = Creating | Warm | Executing | Destroying | Destroyed | OtherState(text: string)

  datatype Meta = Meta(mode: string, state: SandboxState)

  /** A directory under the sandbox root: without meta.json, with one that does not parse,
      or with metadata. */
  datatype SandboxDir = NoMeta | BadMeta | Has(meta: Meta)

  type Sandboxes = map<string, SandboxDir>

  const COMPAT := "compat"
  const PREFIX := "pi-sandbox-"

  /** compat.ContainerName; secure-mode containers are named by it too. */
  function ContainerName(id: string): string { PREFIX + id[..Min(8, |id|)] }

  predicate IsHex(c: char) { '0' <= c <= '9' || 'a' <= c <= 'f' }

  const DASHES := {8, 13, 18, 23}

  /** The sandboxIDRegex. */
  predicate IsUuid(id: string) {
    |id| == 36 && forall i | 0 <= i < 36 :: if i in DASHES then id[i] == '-' else IsHex(id[i])
  }

  predicate InState(d: SandboxDir, states: set<SandboxState>) { d.Has? && d.meta.state in states }

  function Mark(d: SandboxDir, state: SandboxState): SandboxDir {
    if d.Has? then Has(d.meta.(state := state)) else d
  }

  // ----------------------------------------------------------- orphan clean-up

  const UNFINISHED := {Creating, Executing}

  predicate IsOrphan(id: string, d: SandboxDir) { IsUuid(id) && InState(d, UNFINISHED) }

  /** The records after `OrphanCleanup`; `locked` are the ones whose update fails. */
  function Cleaned(dirs: Sandboxes, locked: set<string>): Sandboxes {
    map id | id in dirs :: if IsOrphan(id, dirs[id]) && id !in locked then Mark(dirs[id], Destroyed) else dirs[id]
  }

  // ------------------------------------------------------------ reconciliation

  predicate IsActive(d: SandboxDir) { InState(d, {Warm, Executing}) && d.meta.mode == COMPAT }

  /** The active compat sandboxes, in the order they are listed. */
  function ActiveIds(dirs: Sandboxes, listing: seq<string>): (ids: seq<string>)
    ensures forall id :: id in ids <==> id in listing && id in dirs && IsActive(dirs[id])
  {
    if listing == [] then []
    else
      var front, id := ActiveIds(dirs, listing[..|listing| - 1]), listing[|listing| - 1];
      if id in dirs && IsActive(dirs[id]) then front + [id] else front
  }

  /** `activeNames`: of several ids with one container name the last one stays. */
  function ActiveNames(ids: seq<string>): (m: map<string, string>)
    ensures forall n :: n in m <==> exists i :: 0 <= i < |ids| && ContainerName(ids[i]) == n
    ensures forall n :: n in m ==> m[n] in ids && ContainerName(m[n]) == n
  {
    if ids == [] then map[]
    else
      var front, id := ids[..|ids| - 1], ids[|ids| - 1];
      assert ids == front + [id];
      ActiveNames(front)[ContainerName(id) := id]
  }

  function Orphans(containers: set<string>, names: map<string, string>): set<string> {
    set c | c in containers && PREFIX <= c && c !in names
  }

  function MissingIds(containers: set<string>, names: map<string, string>): set<string> {
    set n | n in names && n !in containers :: names[n]
  }

  datatype World = World(dirs: Sandboxes, containers: set<string>)

  /** What can be reached and what fails: no engine or no listing, containers whose removal
      fails, records whose update fails. */
  datatype Faults = Faults(usable: bool, stuck: set<string>, locked: set<string>)

  const NO_FAULTS := Faults(true, {}, {})

  function MarkAll(dirs: Sandboxes, ids: set<string>): Sandboxes {
    map id | id in dirs :: if id in ids then Mark(dirs[id], Destroyed) else dirs[id]
  }

  function Reconciled(w: World, listing: seq<string>, f: Faults): World {
    var names := ActiveNames(ActiveIds(w.dirs, listing));
    if names == map[] || !f.usable then w
    else World(MarkAll(w.dirs, MissingIds(w.containers, names) - f.locked),
               w.containers - (Orphans(w.containers, names) - f.stuck))
  }

  function Startup(w: World, listing: seq<string>, f: Faults): World {
    Reconciled(World(Cleaned(w.dirs, f.locked), w.containers), listing, f)
  }

  // ------------------------------------------------------------ as it is run

  class SandboxStore {
    var dirs: Sandboxes
    const listing: seq<string>
    const locked: set<string>

    ghost predicate Valid() reads this { forall id :: id in dirs <==> id in listing }

    constructor (dirs: Sandboxes, listing: seq<string>, locked: set<string>)
      requires forall id :: id in dirs <==> id in listing
      ensures Valid() && this.dirs == dirs && this.listing == listing && this.locked == locked
    {
      this.dirs, this.listing, this.locked := dirs, listing, locked;
    }

    method UpdateState(id: string, state: SandboxState)
      modifies this
      ensures dirs == if id in old(dirs) && id !in locked
        then old(dirs)[id := Mark(old(dirs)[id], state)]
        else old(dirs)
    {
      if id !in dirs || !dirs[id].Has? || id in locked { return; }
      dirs := dirs[id := Has(dirs[id].meta.(state := state))];
    }

    method OrphanCleanup()
      requires Valid()
      modifies this
      ensures Valid() && dirs == Cleaned(old(dirs), locked)
    {
      ghost var start := dirs;
      for i := 0 to |listing|
        invariant dirs.Keys == start.Keys
        invariant forall id :: id in dirs ==>
          dirs[id] == if id in listing[..i] then Cleaned(start, locked)[id] else start[id]
      {
        var id := listing[i];
        assert listing[..i + 1] == listing[..i] + [id];
        if !IsUuid(id) { continue; }
        if !dirs[id].Has? { continue; }
        if dirs[id].meta.state != Creating && dirs[id].meta.state != Executing { continue; }
        UpdateState(id, Destroyed);
      }
      assert listing[..|listing|] == listing;
    }
  }

  class Engine {
    var containers: set<string>
    const usable: bool
    const stuck: set<string>

    constructor (containers: set<string>, usable: bool, stuck: set<string>)
      ensures this.containers == containers && this.usable == usable && this.stuck == stuck
    {
      this.containers, this.usable, this.stuck := containers, usable, stuck;
    }

    method List() returns (names: seq<string>)
      ensures forall n :: n in names <==> n in containers
    {
      names := [];
      var left := containers;
      while left != {}
        invariant left <= containers && forall n :: n in names <==> n in containers - left
        decreases |left|
      {
        var n :| n in left;
        names, left := names + [n], left - {n};
      }
    }

    method Remove(name: string) returns (ok: bool)
      modifies this
      ensures ok == (name !in stuck)
      ensures containers == if ok then old(containers) - {name} else old(containers)
    {
      ok := name !in stuck;
      if ok { containers := containers - {name}; }
    }
  }

  /** `compat.Reconcile`: removes containers without an active sandbox and reports the
      sandboxes whose container is gone. */
  method ReconcileContainers(eng: Engine, ids: seq<string>) returns (missing: seq<string>, removed: seq<string>)
    modifies eng
    ensures var names := ActiveNames(ids); var was := old(eng.containers);
      && (!eng.usable ==> missing == [] && removed == [] && eng.containers == was)
      && (eng.usable ==>
            && (forall id :: id in missing <==> id in MissingIds(was, names))
            && (forall c :: c in removed <==> c in Orphans(was, names) - eng.stuck)
            && eng.containers == was - (Orphans(was, names) - eng.stuck))
  {
    missing, removed := [], [];
    if !eng.usable { return; }
    ghost var was := eng.containers;
    var containers := eng.List();
    var activeNames: map<string, string> := map[];
    for i := 0 to |ids|
      invariant activeNames == ActiveNames(ids[..i])
    {
      assert ids[..i + 1][..i] == ids[..i];
      activeNames := activeNames[ContainerName(ids[i]) := ids[i]];
    }
    assert ids[..|ids|] == ids;
    var seen: set<string> := {};
    for i := 0 to |containers|
      invariant seen == set c | c in containers[..i] && PREFIX <= c
      invariant forall c :: c in removed <==> c in containers[..i] && c in Orphans(was, activeNames) - eng.stuck
      invariant eng.containers == was - set c | c in removed
    {
      var c := containers[i];
      assert containers[..i + 1] == containers[..i] + [c];
      if !(PREFIX <= c) { continue; }
      seen := seen + {c};
      if c in activeNames { continue; }
      var ok := eng.Remove(c);
      if ok { removed := removed + [c]; }
    }
    assert containers[..|containers|] == containers;
    missing := Unseen(activeNames, seen, was);
  }

  method Unseen(names: map<string, string>, seen: set<string>, ghost containers: set<string>)
    returns (missing: seq<string>)
    requires forall n :: n in names ==> (n in seen <==> n in containers)
    ensures forall id :: id in missing <==> id in MissingIds(containers, names)
  {
    missing := [];
    var left := names.Keys;
    while left != {}
      invariant left <= names.Keys
      invariant forall id :: id in missing <==>
        exists n :: n in names && n !in left && n !in containers && names[n] == id
      decreases |left|
    {
      var n :| n in left;
      if n !in seen { missing := missing + [names[n]]; }
      left := left - {n};
    }
  }

  /** `reconcileCompatContainers`. */
  method ReconcileCompatContainers(store: SandboxStore, eng: Engine)
    requires store.Valid()
    modifies store, eng
    ensures var w := Reconciled(World(old(store.dirs), old(eng.containers)), store.listing,
                                Faults(eng.usable, eng.stuck, store.locked));
      store.dirs == w.dirs && eng.containers == w.containers
  {
    var activeIDs := CollectActive(store);
    if |activeIDs| == 0 { return; }
    assert ContainerName(activeIDs[0]) in ActiveNames(activeIDs);
    var missing, removed := ReconcileContainers(eng, activeIDs);
    if !eng.usable {
      assert missing == [];
      return;
    }
    MarkMissing(store, missing);
    assert (set id | id in missing) == MissingIds(old(eng.containers), ActiveNames(activeIDs));
  }

  method CollectActive(store: SandboxStore) returns (activeIDs: seq<string>)
    requires store.Valid()
    ensures activeIDs == ActiveIds(store.dirs, store.listing)
  {
    activeIDs := [];
    for i := 0 to |store.listing|
      invariant activeIDs == ActiveIds(store.dirs, store.listing[..i])
    {
      var id := store.listing[i];
      assert store.listing[..i + 1][..i] == store.listing[..i];
      var d := store.dirs[id];
      if !d.Has? { continue; }
      if d.meta.mode != COMPAT { continue; }
      if d.meta.state != Warm && d.meta.state != Executing { continue; }
      activeIDs := activeIDs + [id];
    }
    assert store.listing[..|store.listing|] == store.listing;
  }

  method MarkMissing(store: SandboxStore, missing: seq<string>)
    modifies store
    ensures store.dirs == MarkAll(old(store.dirs), (set id | id in missing) - store.locked)
  {
    ghost var start := store.dirs;
    for i := 0 to |missing|
      invariant store.dirs == MarkAll(start, (set id | id in missing[..i]) - store.locked)
    {
      assert missing[..i + 1] == missing[..i] + [missing[i]];
      store.UpdateState(missing[i], Destroyed);
    }
    assert missing[..|missing|] == missing;
  }

  /** The two passes in the order the daemon starts them. */
  method StartupPass(store: SandboxStore, eng: Engine)
    requires store.Valid()
    modifies store, eng
    ensures var w := Startup(World(old(store.dirs), old(eng.containers)), store.listing,
                             Faults(eng.usable, eng.stuck, store.locked));
      store.dirs == w.dirs && eng.containers == w.containers
  {
    store.OrphanCleanup();
    ReconcileCompatContainers(store, eng);
  }

  // ------------------------------------------------------------ main results

  /** Records are kept under UUIDs and all of them are listed. */
  ghost predicate Proper(w: World, listing: seq<string>) {
    (forall id :: id in w.dirs <==> id in listing) && (forall id :: id in w.dirs && w.dirs[id].Has? ==> IsUuid(id))
  }

  function WarmCompat(dirs: Sandboxes): set<string> {
    set id | id in dirs && InState(dirs[id], {Warm}) && dirs[id].meta.mode == COMPAT
  }

  /** No sandbox is left in CREATING or EXECUTING. */
  predicate NothingUnfinished(dirs: Sandboxes) { forall id :: id in dirs ==> !InState(dirs[id], UNFINISHED) }

  /** The containers are exactly those of the WARM compat sandboxes. */
  ghost predicate Agree(w: World) {
    forall c :: (c in w.containers && PREFIX <= c) <==> exists id :: id in WarmCompat(w.dirs) && ContainerName(id) == c
  }

  lemma CleanedFacts(dirs: Sandboxes)
    requires forall id :: id in dirs && dirs[id].Has? ==> IsUuid(id)
    ensures NothingUnfinished(Cleaned(dirs, {})) && WarmCompat(Cleaned(dirs, {})) == WarmCompat(dirs)
    ensures forall id :: id in dirs ==> (IsActive(Cleaned(dirs, {})[id]) <==> id in WarmCompat(dirs))
  {
  }

  /** `activeNames` as it stands after the orphan clean-up. */
  function NamesOf(w: World, listing: seq<string>): map<string, string> {
    ActiveNames(ActiveIds(Cleaned(w.dirs, {}), listing))
  }

  /** The names of the WARM compat sandboxes are what containers are checked against. */
  lemma NamesAreWarm(w: World, listing: seq<string>)
    requires Proper(w, listing)
    ensures var names := NamesOf(w, listing);
      && (names == map[] <==> WarmCompat(w.dirs) == {})
      && (forall id :: id in WarmCompat(w.dirs) ==> ContainerName(id) in names)
      && (forall n :: n in names ==> names[n] in WarmCompat(w.dirs) && ContainerName(names[n]) == n)
  {
    CleanedFacts(w.dirs);
    var ids := ActiveIds(Cleaned(w.dirs, {}), listing);
    var names := ActiveNames(ids);
    forall id | id in WarmCompat(w.dirs) ensures ContainerName(id) in names {
      assert id in ids;
    }
    if id :| id in WarmCompat(w.dirs) { assert ContainerName(id) in names; }
    if names != map[] { var n :| n in names; assert names[n] in WarmCompat(w.dirs); }
  }

  /** Two WARM compat sandboxes share a container name and the container is gone: only one
      of them is found missing. */
  ghost predicate MissingTwice(w: World) {
    exists a, b :: a in WarmCompat(w.dirs) && b in WarmCompat(w.dirs) && a != b
      && ContainerName(a) == ContainerName(b) && ContainerName(a) !in w.containers
  }

  /** When nothing fails, the pass leaves no sandbox unfinished; and it leaves containers
      and WARM compat sandboxes in agreement exactly when no two of those shared a missing
      container, and, should there be no such sandbox at all, when there was no container
      to remove, because then none is looked at. */
  lemma StartupAgreesIff(w: World, listing: seq<string>)
    requires Proper(w, listing)
    ensures var end := Startup(w, listing, NO_FAULTS);
      && NothingUnfinished(end.dirs)
      && (Agree(end) <==>
            if WarmCompat(w.dirs) == {} then forall c :: c in w.containers ==> !(PREFIX <= c)
            else !MissingTwice(w))
  {
    CleanedFacts(w.dirs);
    NamesAreWarm(w, listing);
    var end := Startup(w, listing, NO_FAULTS);
    if WarmCompat(w.dirs) != {} {
      WarmAfter(w, listing);
      if MissingTwice(w) {
        AgreeFails(w, listing);
      } else {
        AgreeHolds(w, listing);
      }
    }
  }

  lemma MarkedFacts(dirs: Sandboxes, ids: set<string>)
    ensures NothingUnfinished(dirs) ==> NothingUnfinished(MarkAll(dirs, ids))
    ensures WarmCompat(MarkAll(dirs, ids)) == WarmCompat(dirs) - ids
  {
  }

  /** Who is WARM compat afterwards: those whose container is there, and those that another
      sandbox of the same name was marked in place of. */
  lemma WarmAfter(w: World, listing: seq<string>)
    requires Proper(w, listing) && WarmCompat(w.dirs) != {}
    ensures var end := Startup(w, listing, NO_FAULTS); var names := NamesOf(w, listing);
      && NothingUnfinished(end.dirs)
      && end.containers == w.containers - Orphans(w.containers, names)
      && end.dirs == MarkAll(Cleaned(w.dirs, {}), MissingIds(w.containers, names))
      && WarmCompat(end.dirs) == WarmCompat(w.dirs) - MissingIds(w.containers, names)
  {
    var mid := Cleaned(w.dirs, {});
    CleanedFacts(w.dirs);
    NamesAreWarm(w, listing);
    var gone := MissingIds(w.containers, NamesOf(w, listing));
    var lost := Orphans(w.containers, NamesOf(w, listing));
    assert gone - {} == gone && lost - {} == lost;
    assert Startup(w, listing, NO_FAULTS) == World(MarkAll(mid, gone), w.containers - lost);
    MarkedFacts(mid, gone);
  }

  lemma IsMissingIff(w: World, listing: seq<string>, id: string)
    requires Proper(w, listing) && id in WarmCompat(w.dirs)
    ensures ContainerName(id) in NamesOf(w, listing)
    ensures id in MissingIds(w.containers, NamesOf(w, listing)) <==>
      ContainerName(id) !in w.containers && NamesOf(w, listing)[ContainerName(id)] == id
  {
    NamesAreWarm(w, listing);
  }

  lemma AgreeFails(w: World, listing: seq<string>)
    requires Proper(w, listing) && WarmCompat(w.dirs) != {} && MissingTwice(w)
    ensures !Agree(Startup(w, listing, NO_FAULTS))
  {
    WarmAfter(w, listing);
    var end, names := Startup(w, listing, NO_FAULTS), NamesOf(w, listing);
    var a, b :| a in WarmCompat(w.dirs) && b in WarmCompat(w.dirs) && a != b
      && ContainerName(a) == ContainerName(b) && ContainerName(a) !in w.containers;
    IsMissingIff(w, listing, a);
    var left := if names[ContainerName(a)] == a then b else a;
    IsMissingIff(w, listing, left);
    assert left in WarmCompat(end.dirs) && ContainerName(left) !in end.containers;
  }

  lemma AgreeHolds(w: World, listing: seq<string>)
    requires Proper(w, listing) && WarmCompat(w.dirs) != {} && !MissingTwice(w)
    ensures Agree(Startup(w, listing, NO_FAULTS))
  {
    WarmAfter(w, listing);
    NamesAreWarm(w, listing);
    var end, names := Startup(w, listing, NO_FAULTS), NamesOf(w, listing);
    forall c | c in end.containers && PREFIX <= c
      ensures exists id :: id in WarmCompat(end.dirs) && ContainerName(id) == c
    {
      IsMissingIff(w, listing, names[c]);
      assert names[c] in WarmCompat(end.dirs);
    }
    forall id | id in WarmCompat(end.dirs)
      ensures ContainerName(id) in end.containers && PREFIX <= ContainerName(id)
    {
      IsMissingIff(w, listing, id);
      assert names[ContainerName(id)] in WarmCompat(w.dirs);
    }
  }

  /** Ids that differ in their first eight characters never share a container. */
  lemma DistinctPrefixesAgree(w: World, listing: seq<string>)
    requires Proper(w, listing) && WarmCompat(w.dirs) != {}
    requires forall a, b ::
      a in w.dirs && b in w.dirs && w.dirs[a].Has? && w.dirs[b].Has? && a != b ==> a[..8] != b[..8]
    ensures NothingUnfinished(Startup(w, listing, NO_FAULTS).dirs) && Agree(Startup(w, listing, NO_FAULTS))
  {
    forall a, b | a in WarmCompat(w.dirs) && b in WarmCompat(w.dirs) && ContainerName(a) == ContainerName(b)
      ensures a == b
    {
      assert a[..8] == ContainerName(a)[|PREFIX|..] == ContainerName(b)[|PREFIX|..] == b[..8];
    }
    StartupAgreesIff(w, listing);
  }

  /** Only compat sandboxes are asked for, but containers of other modes bear the same kind
      of name: a WARM sandbox of another mode stays WARM, and keeps its container exactly
      when no compat sandbox is WARM or one shares its name. */
  lemma OtherModesLoseContainers(w: World, listing: seq<string>, id: string)
    requires Proper(w, listing) && id in w.dirs && InState(w.dirs[id], {Warm}) && w.dirs[id].meta.mode != COMPAT
    requires ContainerName(id) in w.containers
    ensures var end := Startup(w, listing, NO_FAULTS);
      && end.dirs[id] == w.dirs[id]
      && (ContainerName(id) in end.containers <==>
            WarmCompat(w.dirs) == {}
            || exists other :: other in WarmCompat(w.dirs) && ContainerName(other) == ContainerName(id))
  {
    CleanedFacts(w.dirs);
    NamesAreWarm(w, listing);
    if WarmCompat(w.dirs) != {} {
      WarmAfter(w, listing);
      var names := NamesOf(w, listing);
      assert PREFIX <= ContainerName(id);
      assert forall n :: n in names ==> names[n] in WarmCompat(w.dirs);
      assert id !in MissingIds(w.containers, names);
    }
  }
}
