/** What the start-up pass does to each record and each container, whatever fails on the way. */
module StartupFates {
  import opened Wrappers
  import opened Reconcile

  predicate AllHex(s: string) { forall i :: 0 <= i < |s| ==> IsHex(s[i]) }

  function Dashed(a: string, b: string, c: string, d: string, e: string): string {
    a + "-" + b + "-" + c + "-" + d + "-" + e
  }

  predicate Groups(a: string, b: string, c: string, d: string, e: string) {
    && |a| == 8 && |b| == |c| == |d| == 4 && |e| == 12
    && AllHex(a) && AllHex(b) && AllHex(c) && AllHex(d) && AllHex(e)
  }

  /** The names sandboxes have: five groups of hexadecimal digits with dashes between them. */
  lemma UuidIff(id: string)
    ensures IsUuid(id) <==> exists a, b, c, d, e :: Groups(a, b, c, d, e) && id == Dashed(a, b, c, d, e)
  {
    if IsUuid(id) {
      var a, b, c, d, e := id[..8], id[9..13], id[14..18], id[19..23], id[24..];
      assert Groups(a, b, c, d, e);
      assert id[8] == id[13] == id[18] == id[23] == '-';
      DashedParts(a, b, c, d, e);
      assert id == Dashed(a, b, c, d, e);
    }
    if a, b, c, d, e :| Groups(a, b, c, d, e) && id == Dashed(a, b, c, d, e) {
      DashedParts(a, b, c, d, e);
    }
  }

  lemma DashedParts(a: string, b: string, c: string, d: string, e: string)
    requires |a| == 8 && |b| == |c| == |d| == 4 && |e| == 12
    ensures var s := Dashed(a, b, c, d, e);
      && |s| == 36
      && s[..8] == a && s[8] == '-' && s[9..13] == b && s[13] == '-' && s[14..18] == c && s[18] == '-'
      && s[19..23] == d && s[23] == '-' && s[24..] == e
  {
  }

  predicate Unfinished(d: SandboxDir) { d.Has? && (d.meta.state == Creating || d.meta.state == Executing) }

  /** The records the clean-up gets to. */
  predicate CleanedUp(id: string, d: SandboxDir, f: Faults) { IsUuid(id) && Unfinished(d) && id !in f.locked }

  /** The compat sandboxes that still count as running after the clean-up. */
  function StillActive(w: World, f: Faults): set<string> {
    set id | id in w.dirs && w.dirs[id].Has? && w.dirs[id].meta.mode == "compat"
      && (w.dirs[id].meta.state == Warm || (w.dirs[id].meta.state == Executing && !CleanedUp(id, w.dirs[id], f)))
  }

  /** Its container is looked for, is not there, and the record can be changed. */
  predicate Missed(w: World, f: Faults, id: string) {
    f.usable && id in StillActive(w, f) && ContainerName(id) !in w.containers && id !in f.locked
  }

  ghost predicate AloneWithName(w: World, f: Faults, id: string) {
    forall other :: other in StillActive(w, f) && ContainerName(other) == ContainerName(id) ==> other == id
  }

  lemma ActiveAfterCleanup(w: World, listing: seq<string>, f: Faults)
    requires forall id :: id in w.dirs <==> id in listing
    ensures var names := ActiveNames(ActiveIds(Cleaned(w.dirs, f.locked), listing));
      && (names == map[] <==> StillActive(w, f) == {})
      && (forall n :: n in names <==> exists id :: id in StillActive(w, f) && ContainerName(id) == n)
      && (forall n :: n in names ==> names[n] in StillActive(w, f) && ContainerName(names[n]) == n)
  {
    var mid := Cleaned(w.dirs, f.locked);
    var ids := ActiveIds(mid, listing);
    forall id ensures id in ids <==> id in StillActive(w, f) { }
    var names := ActiveNames(ids);
    forall id | id in StillActive(w, f) ensures ContainerName(id) in names { assert id in ids; }
    if n :| n in names { assert names[n] in ids; }
  }

  /** A container is removed exactly when there is an engine, something still counts as
      running, and the container is named like a sandbox's but like none of those, unless
      its removal fails. */
  lemma ContainerFates(w: World, listing: seq<string>, f: Faults, c: string)
    requires forall id :: id in w.dirs <==> id in listing
    ensures c in Startup(w, listing, f).containers <==>
      && c in w.containers
      && (|| !f.usable || StillActive(w, f) == {} || !(PREFIX <= c) || c in f.stuck
          || exists id :: id in StillActive(w, f) && ContainerName(id) == c)
  {
    ActiveAfterCleanup(w, listing, f);
  }

  /** A record ends DESTROYED when it was unfinished and could be changed, or when its
      container was missed and no other running sandbox has that name; it stays as it is when
      neither holds even for a shared name; and its mode never changes. */
  lemma RecordFates(w: World, listing: seq<string>, f: Faults, id: string)
    requires (forall k :: k in w.dirs <==> k in listing) && id in w.dirs
    ensures var d, d' := w.dirs[id], Startup(w, listing, f).dirs;
      && d'.Keys == w.dirs.Keys
      && (!d.Has? ==> d'[id] == d)
      && (d.Has? ==> d'[id] in {d, Has(d.meta.(state := Destroyed))})
      && (d.Has? && (CleanedUp(id, d, f) || (Missed(w, f, id) && AloneWithName(w, f, id))) ==>
            d'[id] == Has(d.meta.(state := Destroyed)))
      && (!CleanedUp(id, d, f) && !Missed(w, f, id) ==> d'[id] == d)
  {
    AfterBoth(w, listing, f, id);
    MissingFacts(w, listing, f, id);
  }

  function NamesThen(w: World, listing: seq<string>, f: Faults): map<string, string> {
    ActiveNames(ActiveIds(Cleaned(w.dirs, f.locked), listing))
  }

  lemma AfterBoth(w: World, listing: seq<string>, f: Faults, id: string)
    requires id in w.dirs
    ensures var d, d' := w.dirs[id], Startup(w, listing, f).dirs;
      && d'.Keys == w.dirs.Keys
      && d'[id] == if CleanedUp(id, d, f)
                      || (f.usable && d.Has? && id !in f.locked
                          && id in MissingIds(w.containers, NamesThen(w, listing, f)))
                   then Has(d.meta.(state := Destroyed)) else d
  {
    var d, mid := w.dirs[id], Cleaned(w.dirs, f.locked);
    assert mid[id] == if CleanedUp(id, d, f) then Has(d.meta.(state := Destroyed)) else d;
  }

  lemma MissingFacts(w: World, listing: seq<string>, f: Faults, id: string)
    requires forall k :: k in w.dirs <==> k in listing
    ensures var gone := MissingIds(w.containers, NamesThen(w, listing, f));
      && (id in gone ==> id in StillActive(w, f) && ContainerName(id) !in w.containers)
      && (id in StillActive(w, f) && ContainerName(id) !in w.containers && AloneWithName(w, f, id) ==> id in gone)
  {
    var names := NamesThen(w, listing, f);
    ActiveAfterCleanup(w, listing, f);
    if id in StillActive(w, f) && ContainerName(id) !in w.containers && AloneWithName(w, f, id) {
      assert names[ContainerName(id)] == id;
    }
  }
}
