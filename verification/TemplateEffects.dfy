/** What each operation of the template store does, field by field: what it writes under the
    name it is about, and that every other template stays. */
module TemplateEffects {
  import opened Wrappers
  import opened Templates

  ghost predicate OthersStay(s: Store, s': Store, name: string) {
    forall other :: other != name ==> DirOf(s', other) == DirOf(s, other)
  }

  lemma PutSeen(c: Codec, s: Store, name: string, t: Template, time: string)
    requires Faithful(c)
    ensures var s' := Put(c, s, name, t, time);
      && Get(c, s', name) == Some(if t.name == "" then t.(name := name) else t)
      && OthersStay(s, s', name)
  {
    assert c.unyaml(c.yaml(t)) == Some(t);
  }

  /** A template without a name is given its directory's, and one with a name keeps it. */
  lemma LoadNames(c: Codec, d: TemplateDir, name: string)
    requires Load(c, d, name).Some?
    ensures var t, stored := Load(c, d, name).value, c.unyaml(d.current.value).value;
      t == stored.(name := t.name) && t.name == (if stored.name == "" then name else stored.name)
  {
  }

  /** What a fork is: its source under another name, of its own origin and date, one
      generation on. */
  lemma ForkSeen(c: Codec, s: Store, source: string, newName: string, now: string)
    requires Faithful(c)
    ensures var r := Fork(c, s, source, newName, now);
      && (r.Ok? <==> newName != "" && Get(c, s, newName).None? && Get(c, s, source).Some?)
      && (r.Ok? ==>
            && OthersStay(s, r.value, newName) && Get(c, r.value, newName).Some?
            && var src, f := Get(c, s, source).value, Get(c, r.value, newName).value;
               && SameDefinition(f, src.(name := newName))
               && f.source == Some(Source("local", source, source, ""))
               && f.createdAt == f.updatedAt == now
               && Follows(c, src, f))
  {
    if Fork(c, s, source, newName, now).Ok? {
      var src := Get(c, s, source).value;
      ForkDigest(c, src, source, newName, now);
      PutSeen(c, s, newName, Forked(c, src, source, newName, now), now);
    }
  }

  /** `next` names `prev` by its digest and counts one generation more, from one when `prev`
      has none. */
  predicate Follows(c: Codec, prev: Template, next: Template) {
    && next.lineage.Some?
    && next.lineage.value.generation == (if prev.lineage.Some? then prev.lineage.value.generation + 1 else 1)
    && next.lineage.value.parentDigest == ContentDigest(c, prev)
    && next.lineage.value.contentDigest == ContentDigest(c, next)
  }

  /** What a rollback writes: the chosen revision with a later date, following what was
      current. */
  lemma RollbackSeen(c: Codec, s: Store, name: string, n: int, now: string)
    requires Faithful(c)
    ensures var r, prior := Rollback(c, s, name, n, now), GetRevision(c, DirOf(s, name), n);
      && (r.Ok? <==> prior.Some? && Get(c, s, name).Some?)
      && (r.Ok? ==>
            && OthersStay(s, r.value, name) && Get(c, r.value, name).Some?
            && var t := Get(c, r.value, name).value;
               && t == prior.value.(name := t.name, lineage := t.lineage, updatedAt := now)
               && t.name == (if prior.value.name == "" then name else prior.value.name)
               && (prior.value.name != "" ==> Follows(c, Get(c, s, name).value, t)))
  {
    if Rollback(c, s, name, n, now).Ok? {
      var prior, cur := GetRevision(c, DirOf(s, name), n).value, Get(c, s, name).value;
      RestoredFacts(c, prior, cur, now);
      PutSeen(c, s, name, Restored(c, prior, cur, now), now);
    }
  }

  /** What an import is: the bundle's definition under the chosen name, with the bundle's
      origin and a lineage of its own. */
  lemma ImportSeen(c: Codec, s: Store, def: Template, provenance: Option<Source>, newName: string, now: string)
    requires Faithful(c) && def.name != ""
    ensures var r, name := Import(c, s, def, provenance, newName, now), if newName == "" then def.name else newName;
      && (r.Ok? <==> Get(c, s, name).None?)
      && (r.Ok? ==>
            && OthersStay(s, r.value, name) && Get(c, r.value, name).Some?
            && var t := Get(c, r.value, name).value;
               && SameDefinition(t, def.(name := name))
               && t.createdAt == t.updatedAt == now
               && t.lineage == Some(Lineage(1, "", ContentDigest(c, t)))
               && t.source.Some? && t.source.value.kind == "imported" && t.source.value.snapshotOf == ""
               && t.source.value.parent == (if provenance.Some? then provenance.value.parent else "")
               && t.source.value.forkedFrom == (if provenance.Some? then provenance.value.forkedFrom else ""))
  {
    var name := if newName == "" then def.name else newName;
    ImportDigest(c, def, provenance, name, now);
    PutSeen(c, s, name, Imported(c, def, provenance, name, now), now);
  }

  /** A deleted template and its revisions are gone, and the next one of that name starts at
      revision 1. */
  lemma DeleteSeen(c: Codec, s: Store, name: string)
    ensures var s' := Apply(c, s, DeleteOp(name));
      && Get(c, s', name).None? && (forall n :: GetRevision(c, DirOf(s', name), n).None?)
      && NextNumber(c, DirOf(s', name)) == 1 && OthersStay(s, s', name)
  {
  }

  /** In a lineage chain the generations count up by one from the first revision's. */
  lemma {:induction false} GenerationsCount(c: Codec, d: TemplateDir, k: int)
    requires Chained(c, d) && 2 <= k <= Count(c, d)
    ensures var first, t := Rev(c, d, 1), Rev(c, d, k);
      && Follows(c, Rev(c, d, k - 1), t)
      && t.lineage.value.generation ==
           (if first.lineage.Some? then first.lineage.value.generation else 0) + k - 1
  {
    assert Descends(c, Rev(c, d, k - 1), Rev(c, d, k));
    if k > 2 { GenerationsCount(c, d, k - 1); }
  }

  // ------------------------------------------------------ reading the index

  predicate NewestFirst(rs: seq<Revision>) { forall i, j :: 0 <= i < j < |rs| ==> rs[i].n >= rs[j].n }

  lemma NewestInFront(r: Revision, rs: seq<Revision>)
    requires NewestFirst(rs) && forall j :: 0 <= j < |rs| ==> rs[j].n <= r.n
    ensures NewestFirst([r] + rs)
  {
  }

  lemma {:induction false} InsertMembers(rs: seq<Revision>, r: Revision)
    ensures multiset(InsertRevision(rs, r)) == multiset{r} + multiset(rs)
  {
    if rs != [] {
      InsertMembers(rs[1..], r);
      assert rs == [rs[0]] + rs[1..];
    }
  }

  lemma {:induction false} InsertBelow(rs: seq<Revision>, r: Revision, n: int)
    requires r.n <= n && forall j :: 0 <= j < |rs| ==> rs[j].n <= n
    ensures forall j :: 0 <= j < |InsertRevision(rs, r)| ==> InsertRevision(rs, r)[j].n <= n
  {
    if rs != [] { InsertBelow(rs[1..], r, n); }
  }

  lemma {:induction false} InsertKeeps(rs: seq<Revision>, r: Revision)
    requires NewestFirst(rs)
    ensures NewestFirst(InsertRevision(rs, r))
  {
    if rs == [] || r.n > rs[0].n {
      NewestInFront(r, rs);
    } else {
      InsertKeeps(rs[1..], r);
      InsertBelow(rs[1..], r, rs[0].n);
      NewestInFront(rs[0], InsertRevision(rs[1..], r));
    }
  }

  /** Whatever order the index is in, the history is its entries, newest first. */
  lemma {:induction false} HistorySorted(rs: seq<Revision>)
    ensures NewestFirst(SortNewestFirst(rs)) && multiset(SortNewestFirst(rs)) == multiset(rs)
  {
    if rs != [] {
      HistorySorted(rs[1..]);
      InsertKeeps(SortNewestFirst(rs[1..]), rs[0]);
      InsertMembers(SortNewestFirst(rs[1..]), rs[0]);
      assert rs == [rs[0]] + rs[1..];
    }
  }

  /** The next number is past every number in the index, by one. */
  lemma NextNumberIsFresh(c: Codec, d: TemplateDir, rs: seq<Revision>)
    requires Faithful(c) && d.index == Some(c.index(rs))
    ensures forall r :: r in rs ==> r.n < NextNumber(c, d)
    ensures if rs == [] then NextNumber(c, d) == 1 else exists r :: r in rs && r.n + 1 == NextNumber(c, d)
  {
    var known := KnownHistory(c, d);
    assert c.unindex(c.index(rs)) == Some(rs);
    HistorySorted(rs);
    forall r | r in rs ensures r in known && r.n < NextNumber(c, d) {
      assert r in multiset(rs);
      var i :| 0 <= i < |known| && known[i] == r;
      assert known[0].n >= known[i].n;
    }
    if rs != [] {
      assert |known| == |multiset(known)| == |rs|;
      assert known[0] in multiset(known);
    }
  }
}
