/** `template.Store` on its files, write by write. */
module TemplateStore {
  import opened Wrappers
  import opened Templates

  class TemplateStore {
    const codec: Codec
    var dirs: Store

    constructor (codec: Codec)
      ensures dirs == map[] && this.codec == codec
    {
      this.codec := codec;
      dirs := map[];
    }

    /** `Store.Create`.  `writes` is how many of its three file writes happen before the
        process stops; three or more is an undisturbed run. */
    method Create(name: string, t: Template, time: string, writes: nat)
      modifies this
      ensures dirs == old(dirs)[name := Written(codec, DirOf(old(dirs), name), t, time, writes)]
    {
      var d := if name in dirs then dirs[name] else NO_FILES;
      var data := codec.yaml(t);
      dirs := dirs[name := d];
      if writes < 1 { return; }
      dirs := dirs[name := dirs[name].(current := Some(data))];
      AppendRevision(name, t, data, time, writes - 1);
    }

    method AppendRevision(name: string, t: Template, data: Bytes, time: string, writes: nat)
      requires name in dirs
      modifies this
      ensures var d := old(dirs)[name]; var n := NextNumber(codec, d);
        dirs == old(dirs)[name := TemplateDir(
          d.current,
          if writes >= 1 then d.revs[n := data] else d.revs,
          if writes >= 2 then Some(codec.index([Revision(n, time, ContentDigest(codec, t))] + KnownHistory(codec, d)))
          else d.index)]
    {
      var d := dirs[name];
      var history := ReadHistory(name);
      var known := if history.Ok? then history.value else [];
      var n := 1;
      if |known| > 0 { n := known[0].n + 1; }
      if writes < 1 { return; }
      dirs := dirs[name := dirs[name].(revs := dirs[name].revs[n := data])];
      var rev := Revision(n, time, ContentDigest(codec, t));
      known := [rev] + known;
      if writes < 2 { return; }
      dirs := dirs[name := dirs[name].(index := Some(codec.index(known)))];
    }

    method ReadHistory(name: string) returns (r: Result<seq<Revision>>)
      ensures r == History(codec, DirOf(dirs, name))
    {
      if name !in dirs || dirs[name].index.None? { return Ok([]); }
      var revs := codec.unindex(dirs[name].index.value);
      if revs.None? { return Err("parse history"); }
      r := Ok(SortNewestFirst(revs.value));
    }

    method ReadRevision(name: string, n: int) returns (r: Option<Template>)
      ensures r == GetRevision(codec, DirOf(dirs, name), n)
    {
      if name !in dirs || n !in dirs[name].revs { return None; }
      r := codec.unyaml(dirs[name].revs[n]);
    }

    method Read(name: string) returns (r: Option<Template>)
      ensures r == Get(codec, dirs, name)
    {
      if name !in dirs || dirs[name].current.None? { return None; }
      r := codec.unyaml(dirs[name].current.value);
      if r.Some? && r.value.name == "" {
        r := Some(r.value.(name := name));
      }
    }

    method RollBack(name: string, n: int, now: string) returns (r: Option<Template>)
      modifies this
      ensures var spec := Rollback(codec, old(dirs), name, n, now);
        && (r.Some? <==> spec.Ok?)
        && dirs == (if spec.Ok? then spec.value else old(dirs))
        && (r.Some? ==> Get(codec, old(dirs), name).Some?)
        && (r.Some? ==> r.value == Restored(codec, GetRevision(codec, DirOf(old(dirs), name), n).value,
                                            Get(codec, old(dirs), name).value, now))
    {
      var prior := ReadRevision(name, n);
      if prior.None? { return None; }
      var cur := Read(name);
      if cur.None? { return None; }
      var restored := prior.value.(updatedAt := now);
      var gen := 0;
      if cur.value.lineage.Some? { gen := cur.value.lineage.value.generation; }
      var lineage := Lineage(gen + 1, ContentDigest(codec, cur.value), "");
      lineage := lineage.(contentDigest := ContentDigest(codec, restored));
      restored := restored.(lineage := Some(lineage));
      Create(name, restored, now, 3);
      r := Some(restored);
    }

    method ForkTemplate(source: string, newName: string, now: string) returns (ok: bool)
      modifies this
      ensures var spec := Fork(codec, old(dirs), source, newName, now);
        ok == spec.Ok? && dirs == (if ok then spec.value else old(dirs))
    {
      if newName == "" { return false; }
      var existing := Read(newName);
      if existing.Some? { return false; }
      var src := Read(source);
      if src.None? { return false; }
      var forked := src.value.(name := newName);
      forked := forked.(source := Some(Source("local", source, source, "")));
      forked := forked.(createdAt := now, updatedAt := now);
      var lineage := Lineage(Generation(src.value) + 1, ContentDigest(codec, src.value), ContentDigest(codec, forked));
      forked := forked.(lineage := Some(lineage));
      Create(newName, forked, now, 3);
      ok := true;
    }

    /** `Import`, after the bundle has been read. */
    method ImportTemplate(def: Template, provenance: Option<Source>, newName: string, now: string) returns (ok: bool)
      modifies this
      ensures var spec := Import(codec, old(dirs), def, provenance, newName, now);
        ok == spec.Ok? && dirs == (if ok then spec.value else old(dirs))
    {
      var name := newName;
      if name == "" { name := def.name; }
      var existing := Read(name);
      if existing.Some? { return false; }
      var src := Source("imported", "", "", "");
      if provenance.Some? {
        src := src.(parent := provenance.value.parent, forkedFrom := provenance.value.forkedFrom);
      }
      var t := def.(name := name, source := Some(src), createdAt := now, updatedAt := now);
      t := t.(lineage := Some(Lineage(1, "", ContentDigest(codec, t))));
      Create(name, t, now, 3);
      ok := true;
    }

    method InstallDefaults(defaults: map<string, Template>, now: string) returns (ghost order: seq<string>)
      modifies this
      ensures Lists(order, defaults.Keys)
      ensures dirs == InstallAll(codec, old(dirs), defaults, order, now)
    {
      order := [];
      ghost var start := dirs;
      var left := defaults.Keys;
      while left != {}
        invariant left <= defaults.Keys && Lists(order, defaults.Keys - left)
        invariant dirs == InstallAll(codec, start, defaults, order, now)
        decreases |left|
      {
        var name :| name in left;
        InstallAllMore(codec, start, defaults, order, name, now);
        InstallOne(name, defaults[name], now);
        ListsMore(order, defaults.Keys, left, name);
        left, order := left - {name}, order + [name];
      }
      assert defaults.Keys - {} == defaults.Keys;
    }

    method InstallOne(name: string, t: Template, now: string)
      modifies this
      ensures dirs == Install(codec, old(dirs), name, t, now)
    {
      if name in dirs && dirs[name].current.Some? { return; }
      Create(name, t, now, 3);
    }

    method Delete(name: string)
      modifies this
      ensures dirs == old(dirs) - {name}
    {
      dirs := dirs - {name};
    }
  }
}
