/** Templates, their digests, and the per-template revision history: `N.yaml` files with a
    separate `index.json`, written in steps between which the process can stop.  YAML,
    JSON and SHA-256 are functions of a `Codec`; what is assumed of them is stated where
    it is used. */
module Templates {
  import opened Wrappers

  datatype Source = Source(kind: string, parent: string, forkedFrom: string, snapshotOf: string)
  datatype Compatibility = Compatibility(piBox: string, runtimes: map<string, string>)
  datatype Resources = Resources(cpu: string, memory: string, disk: string)
  datatype Lineage = Lineage(generation: int, parentDigest: string, contentDigest: string)

  datatype Template = Template(
    name: string, runtime: string, base: string, image: string, tools: seq<string>,
    mounts: map<string, string>, caches: map<string, string>, network: string,
    version: string, summary: string, description: string, tags: seq<string>,
    source: Option<Source>, compatibility: Option<Compatibility>, networkDomains: seq<string>,
    resources: Option<Resources>, lineage: Option<Lineage>, createdAt: string, updatedAt: string)

  datatype Revision = Revision(n: int, time: string, digest: string)

  datatype Codec = Codec(
    yaml: Template -> Bytes, unyaml: Bytes -> Option<Template>,
    index: seq<Revision> -> Bytes, unindex: Bytes -> Option<seq<Revision>>,
    sha: Bytes -> string)

  /** What is written can be read back. */
  ghost predicate Faithful(c: Codec) {
    && (forall t :: c.unyaml(c.yaml(t)) == Some(t))
    && (forall rs :: c.unindex(c.index(rs)) == Some(rs))
  }

  // ----------------------------------------------------------------- digest

  /** The definition alone: provenance and timestamps cleared. */
  function Definition(t: Template): Template {
    t.(source := None, lineage := None, createdAt := "", updatedAt := "")
  }

  function ContentDigest(c: Codec, t: Template): string { "sha256:" + c.sha(c.yaml(Definition(t))) }

  /** Two different byte strings with one hash. */
  predicate Collision(sha: Bytes -> string, a: Bytes, b: Bytes) { a != b && sha(a) == sha(b) }

  /** They agree in everything but where they come from and when. */
  predicate SameDefinition(a: Template, b: Template) {
    a == b.(source := a.source, lineage := a.lineage, createdAt := a.createdAt, updatedAt := a.updatedAt)
  }

  /** Digests are equal exactly for templates that agree in every other field, short of a
      SHA-256 collision. */
  lemma DigestIdentifiesDefinition(c: Codec, a: Template, b: Template)
    requires Faithful(c)
    ensures SameDefinition(a, b) ==> ContentDigest(c, a) == ContentDigest(c, b)
    ensures ContentDigest(c, a) == ContentDigest(c, b) ==>
      SameDefinition(a, b) || Collision(c.sha, c.yaml(Definition(a)), c.yaml(Definition(b)))
  {
    var x, y := c.sha(c.yaml(Definition(a))), c.sha(c.yaml(Definition(b)));
    if ContentDigest(c, a) == ContentDigest(c, b) {
      assert x == ("sha256:" + x)[7..] == ("sha256:" + y)[7..] == y;
      assert c.unyaml(c.yaml(Definition(a))) == Some(Definition(a));
      assert c.unyaml(c.yaml(Definition(b))) == Some(Definition(b));
    }
  }

  // ---------------------------------------------------------- one directory

  /** The files of one template.  Revision files are keyed by the number in their name. */
  datatype TemplateDir = TemplateDir(current: Option<Bytes>, revs: map<int, Bytes>, index: Option<Bytes>)

  const NO_FILES := TemplateDir(None, map[], None)

  /** `sort.Slice(revs, ... N descending)`. */
  function SortNewestFirst(rs: seq<Revision>): seq<Revision> {
    if rs == [] then [] else InsertRevision(SortNewestFirst(rs[1..]), rs[0])
  }

  function InsertRevision(rs: seq<Revision>, r: Revision): seq<Revision> {
    if rs == [] || r.n > rs[0].n then [r] + rs else [rs[0]] + InsertRevision(rs[1..], r)
  }

  /** Err when index.json is there and does not parse. */
  function History(c: Codec, d: TemplateDir): Result<seq<Revision>> {
    if d.index.None? then Ok([])
    else match c.unindex(d.index.value)
      case None => Err("parse history")
      case Some(rs) => Ok(SortNewestFirst(rs))
  }

  /** `history, _ := s.History(name)`: an unreadable index counts as no history. */
  function KnownHistory(c: Codec, d: TemplateDir): seq<Revision> {
    if History(c, d).Ok? then History(c, d).value else []
  }

  function NextNumber(c: Codec, d: TemplateDir): int {
    if KnownHistory(c, d) == [] then 1 else KnownHistory(c, d)[0].n + 1
  }

  /** `Store.Create` up to its `writes`-th file write: template.yaml, then N.yaml, then
      index.json. */
  function Written(c: Codec, d: TemplateDir, t: Template, time: string, writes: nat): TemplateDir {
    var data, n := c.yaml(t), NextNumber(c, d);
    var rev := Revision(n, time, ContentDigest(c, t));
    TemplateDir(
      if writes >= 1 then Some(data) else d.current,
      if writes >= 2 then d.revs[n := data] else d.revs,
      if writes >= 3 then Some(c.index([rev] + KnownHistory(c, d))) else d.index)
  }

  function GetRevision(c: Codec, d: TemplateDir, n: int): Option<Template> {
    if n in d.revs then c.unyaml(d.revs[n]) else None
  }

  /** `Store.Get`: a template without a name takes its directory's. */
  function Load(c: Codec, d: TemplateDir, name: string): Option<Template> {
    if d.current.None? then None
    else match c.unyaml(d.current.value)
      case None => None
      case Some(t) => Some(if t.name == "" then t.(name := name) else t)
  }

  // ------------------------------------------------- history under crashes

  /** Numbered n, n-1, ..., 1. */
  predicate Gapless(rs: seq<Revision>) {
    forall i :: 0 <= i < |rs| ==> rs[i].n == |rs| - i
  }

  /** The index is gapless, and every file it names decodes to a template with the
      recorded digest. */
  ghost predicate HistoryOk(c: Codec, d: TemplateDir) {
    && History(c, d).Ok?
    && var rs := KnownHistory(c, d);
       && Gapless(rs)
       && (d.index.Some? ==> c.unindex(d.index.value) == Some(rs))
       && forall i :: 0 <= i < |rs| ==>
            GetRevision(c, d, rs[i].n).Some?
            && ContentDigest(c, GetRevision(c, d, rs[i].n).value) == rs[i].digest
  }

  /** `later` goes on from `d`: same entries at the end of the index, same bytes in every
      file `d` had indexed. */
  ghost predicate Continues(c: Codec, d: TemplateDir, later: TemplateDir) {
    var old_, new_ := KnownHistory(c, d), KnownHistory(c, later);
    && |old_| <= |new_| && new_[|new_| - |old_|..] == old_
    && forall k :: 1 <= k <= |old_| ==> k in d.revs && k in later.revs && later.revs[k] == d.revs[k]
  }

  lemma {:induction false} SortedAlready(rs: seq<Revision>)
    requires Gapless(rs)
    ensures SortNewestFirst(rs) == rs
  {
    if rs != [] {
      forall i | 0 <= i < |rs[1..]| ensures rs[1..][i].n == |rs[1..]| - i { assert rs[1..][i] == rs[i + 1]; }
      SortedAlready(rs[1..]);
      assert [rs[0]] + rs[1..] == rs;
    }
  }

  lemma WriteKeepsHistory(c: Codec, d: TemplateDir, t: Template, time: string, writes: nat)
    requires Faithful(c) && HistoryOk(c, d)
    ensures var d' := Written(c, d, t, time, writes);
      && HistoryOk(c, d') && Continues(c, d, d')
      && (writes >= 3 ==>
            KnownHistory(c, d') == [Revision(NextNumber(c, d), time, ContentDigest(c, t))] + KnownHistory(c, d))
      && (writes < 3 ==> KnownHistory(c, d') == KnownHistory(c, d))
  {
    var d' := Written(c, d, t, time, writes);
    var rs := KnownHistory(c, d);
    IndexedFilesExist(c, d);
    if writes >= 3 {
      NewIndexOk(c, d, t, time);
      assert ([Revision(NextNumber(c, d), time, ContentDigest(c, t))] + rs)[1..] == rs;
    }
  }

  lemma IndexedFilesExist(c: Codec, d: TemplateDir)
    requires HistoryOk(c, d)
    ensures NextNumber(c, d) == |KnownHistory(c, d)| + 1
    ensures forall k :: 1 <= k <= |KnownHistory(c, d)| ==> k in d.revs
  {
    var rs := KnownHistory(c, d);
    forall k | 1 <= k <= |rs| ensures k in d.revs { assert rs[|rs| - k].n == k; }
  }

  lemma NewIndexOk(c: Codec, d: TemplateDir, t: Template, time: string)
    requires Faithful(c) && HistoryOk(c, d)
    ensures var d' := Written(c, d, t, time, 3);
      && HistoryOk(c, d')
      && KnownHistory(c, d') == [Revision(NextNumber(c, d), time, ContentDigest(c, t))] + KnownHistory(c, d)
  {
    var d', rs := Written(c, d, t, time, 3), KnownHistory(c, d);
    var all := [Revision(NextNumber(c, d), time, ContentDigest(c, t))] + rs;
    IndexedFilesExist(c, d);
    assert c.unindex(c.index(all)) == Some(all);
    SortedAlready(all);
    assert c.unyaml(c.yaml(t)) == Some(t);
    forall i | 0 <= i < |all|
      ensures GetRevision(c, d', all[i].n).Some?
        && ContentDigest(c, GetRevision(c, d', all[i].n).value) == all[i].digest
    {
      if i > 0 { assert all[i] == rs[i - 1]; }
    }
  }

  lemma ContinuesChains(c: Codec, a: TemplateDir, b: TemplateDir, d: TemplateDir)
    requires Continues(c, a, b) && Continues(c, b, d)
    ensures Continues(c, a, d)
  {
    var x, y, z := KnownHistory(c, a), KnownHistory(c, b), KnownHistory(c, d);
    assert z[|z| - |x|..] == z[|z| - |y|..][|y| - |x|..];
  }

  datatype WriteOp = WriteOp(t: Template, time: string, writes: nat)

  /** Any number of writes, each one cut off anywhere. */
  function WriteAll(c: Codec, d: TemplateDir, ops: seq<WriteOp>): TemplateDir {
    if ops == [] then d
    else
      var op := ops[|ops| - 1];
      Written(c, WriteAll(c, d, ops[..|ops| - 1]), op.t, op.time, op.writes)
  }

  /** Between two deletes, whatever crashes: the index is always n, ..., 1, and every
      indexed revision keeps the bytes it had when it was indexed. */
  lemma {:induction false} HistorySurvivesCrashes(c: Codec, d: TemplateDir, ops: seq<WriteOp>)
    requires Faithful(c) && HistoryOk(c, d)
    ensures HistoryOk(c, WriteAll(c, d, ops))
    ensures Continues(c, d, WriteAll(c, d, ops))
  {
    if ops == [] {
      IndexedFilesExist(c, d);
    } else {
      var front, op := WriteAll(c, d, ops[..|ops| - 1]), ops[|ops| - 1];
      HistorySurvivesCrashes(c, d, ops[..|ops| - 1]);
      WriteKeepsHistory(c, front, op.t, op.time, op.writes);
      ContinuesChains(c, d, front, WriteAll(c, d, ops));
    }
  }

  lemma EmptyHistoryOk(c: Codec)
    ensures HistoryOk(c, NO_FILES)
  {
  }

  /** An index.json that no longer parses is taken for an empty history: the next write
      numbers itself 1 again and replaces the file that was there.  Old revision files are
      all kept exactly when the number it takes was free, or its bytes were the same. */
  lemma UnreadableIndexRestarts(c: Codec, d: TemplateDir, t: Template, time: string)
    requires Faithful(c)
    ensures var d' := Written(c, d, t, time, 3);
      && (History(c, d).Err? ==> KnownHistory(c, d') == [Revision(1, time, ContentDigest(c, t))])
      && (History(c, d).Err? ==> d'.revs == d.revs[1 := c.yaml(t)])
      && ((forall k :: k in d.revs ==> d'.revs[k] == d.revs[k])
          <==> NextNumber(c, d) !in d.revs || d.revs[NextNumber(c, d)] == c.yaml(t))
  {
    if History(c, d).Err? {
      var all := [Revision(1, time, ContentDigest(c, t))];
      assert all + [] == all;
      assert c.unindex(c.index(all)) == Some(all);
      SortedAlready(all);
    }
  }

  // ------------------------------------------------- lineage, without crashes

  function Generation(t: Template): int { if t.lineage.Some? then t.lineage.value.generation else 0 }

  /** Revision `k` as a template. */
  function Rev(c: Codec, d: TemplateDir, k: int): Template
    requires GetRevision(c, d, k).Some?
  {
    GetRevision(c, d, k).value
  }

  function Count(c: Codec, d: TemplateDir): nat { |KnownHistory(c, d)| }

  ghost predicate AllRevisionsThere(c: Codec, d: TemplateDir) {
    forall k :: 1 <= k <= Count(c, d) ==> GetRevision(c, d, k).Some?
  }

  /** `next` was made from `prev`: it names prev's digest and is one generation on. */
  predicate Descends(c: Codec, prev: Template, next: Template) {
    next.lineage == Some(Lineage(Generation(prev) + 1, ContentDigest(c, prev), ContentDigest(c, next)))
  }

  /** template.yaml is the newest revision, no revision is nameless, and each revision
      after the first descends from the one before it. */
  ghost predicate Chained(c: Codec, d: TemplateDir) {
    && HistoryOk(c, d) && Count(c, d) >= 1 && AllRevisionsThere(c, d)
    && d.current == Some(c.yaml(Rev(c, d, Count(c, d))))
    && (forall k :: 1 <= k <= Count(c, d) ==> Rev(c, d, k).name != "")
    && (forall k :: 2 <= k <= Count(c, d) ==> Descends(c, Rev(c, d, k - 1), Rev(c, d, k)))
  }

  /** Every template directory, by name. */
  type Store = map<string, TemplateDir>

  function DirOf(s: Store, name: string): TemplateDir { if name in s then s[name] else NO_FILES }

  function Put(c: Codec, s: Store, name: string, t: Template, time: string): Store {
    s[name := Written(c, DirOf(s, name), t, time, 3)]
  }

  function Get(c: Codec, s: Store, name: string): Option<Template> { Load(c, DirOf(s, name), name) }

  /** The template `Fork` writes. */
  function Forked(c: Codec, src: Template, source: string, newName: string, now: string): Template {
    var t := src.(name := newName, source := Some(Source("local", source, source, "")),
                  createdAt := now, updatedAt := now);
    t.(lineage := Some(Lineage(Generation(src) + 1, ContentDigest(c, src), ContentDigest(c, t))))
  }

  function Fork(c: Codec, s: Store, source: string, newName: string, now: string): Result<Store> {
    if newName == "" then Err("new template name is required")
    else if Get(c, s, newName).Some? then Err("template already exists")
    else match Get(c, s, source)
      case None => Err("load source template")
      case Some(src) => Ok(Put(c, s, newName, Forked(c, src, source, newName, now), now))
  }

  /** The template `Rollback` writes. */
  function Restored(c: Codec, prior: Template, cur: Template, now: string): Template {
    var t := prior.(updatedAt := now);
    t.(lineage := Some(Lineage(Generation(cur) + 1, ContentDigest(c, cur), ContentDigest(c, t))))
  }

  function Rollback(c: Codec, s: Store, name: string, n: int, now: string): Result<Store> {
    match GetRevision(c, DirOf(s, name), n)
    case None => Err("revision not found")
    case Some(prior) =>
      match Get(c, s, name)
      case None => Err("read template file")
      case Some(cur) => Ok(Put(c, s, name, Restored(c, prior, cur, now), now))
  }

  /** The template `Import` writes, from a bundle's definition and provenance source. */
  function Imported(c: Codec, def: Template, provenance: Option<Source>, name: string, now: string): Template {
    var src := match provenance
      case None => Source("imported", "", "", "")
      case Some(p) => Source("imported", p.parent, p.forkedFrom, "");
    var t := def.(name := name, source := Some(src), createdAt := now, updatedAt := now);
    t.(lineage := Some(Lineage(1, "", ContentDigest(c, t))))
  }

  function Import(c: Codec, s: Store, def: Template, provenance: Option<Source>, newName: string, now: string)
    : Result<Store>
  {
    var name := if newName == "" then def.name else newName;
    if Get(c, s, name).Some? then Err("template already exists")
    else Ok(Put(c, s, name, Imported(c, def, provenance, name, now), now))
  }

  /** One round of the loop in `InstallDefaults`. */
  function Install(c: Codec, s: Store, name: string, t: Template, now: string): Store {
    if DirOf(s, name).current.Some? then s else Put(c, s, name, t, now)
  }

  /** `InstallDefaults`, the defaults taken in the order the runtime walks the map. */
  function InstallAll(c: Codec, s: Store, defaults: map<string, Template>, order: seq<string>, now: string): Store
    requires forall i :: 0 <= i < |order| ==> order[i] in defaults
  {
    if order == [] then s
    else
      var name := order[|order| - 1];
      Install(c, InstallAll(c, s, defaults, order[..|order| - 1], now), name, defaults[name], now)
  }

  predicate Distinct(order: seq<string>) { forall i, j :: 0 <= i < j < |order| ==> order[i] != order[j] }

  /** Some order of walking `keys`. */
  ghost predicate Lists(order: seq<string>, keys: set<string>) {
    && Distinct(order)
    && (forall i :: 0 <= i < |order| ==> order[i] in keys)
    && (forall k :: k in keys ==> k in order)
  }

  /** Taking one more key out of what is left to walk. */
  lemma ListsMore(order: seq<string>, keys: set<string>, left: set<string>, name: string)
    requires Lists(order, keys - left) && name in left && left <= keys
    ensures Lists(order + [name], keys - (left - {name}))
  {
    forall k | k in keys - left ensures k in order + [name] { assert k in order; }
    assert (order + [name])[|order|] == name;
  }

  lemma InstallAllMore(c: Codec, s: Store, defaults: map<string, Template>, order: seq<string>, name: string,
                       now: string)
    requires name in defaults && forall i :: 0 <= i < |order| ==> order[i] in defaults
    ensures InstallAll(c, s, defaults, order + [name], now)
         == Install(c, InstallAll(c, s, defaults, order, now), name, defaults[name], now)
  {
    assert (order + [name])[..|order|] == order;
  }

  /** Whatever the order, each missing default is written once and nothing else changes. */
  lemma {:induction false} EachDefaultOnce(c: Codec, s: Store, defaults: map<string, Template>, order: seq<string>,
                                           now: string, name: string)
    requires Distinct(order) && forall i :: 0 <= i < |order| ==> order[i] in defaults
    ensures DirOf(InstallAll(c, s, defaults, order, now), name) ==
      if name in order && DirOf(s, name).current.None?
      then Written(c, DirOf(s, name), defaults[name], now, 3)
      else DirOf(s, name)
  {
    if order != [] {
      var front, last := order[..|order| - 1], order[|order| - 1];
      EachDefaultOnce(c, s, defaults, front, now, name);
      EachDefaultOnce(c, s, defaults, front, now, last);
      assert last !in front;
      assert order == front + [last];
    }
  }

  datatype Op =
    | InstallOp(name: string, t: Template, now: string)
    | ForkOp(source: string, newName: string, now: string)
    | ImportOp(def: Template, provenance: Option<Source>, newName: string, now: string)
    | RollbackOp(name: string, n: int, now: string)
    | DeleteOp(name: string)

  /** Built-in and validated bundle definitions have names. */
  predicate OpOk(op: Op) {
    match op
    case InstallOp(_, t, _) => t.name != ""
    case ImportOp(def, _, _, _) => def.name != ""
    case _ => true
  }

  /** A refused operation changes nothing. */
  function Apply(c: Codec, s: Store, op: Op): Store {
    match op
    case InstallOp(name, t, now) => Install(c, s, name, t, now)
    case ForkOp(source, newName, now) => var r := Fork(c, s, source, newName, now); if r.Ok? then r.value else s
    case ImportOp(def, p, newName, now) => var r := Import(c, s, def, p, newName, now); if r.Ok? then r.value else s
    case RollbackOp(name, n, now) => var r := Rollback(c, s, name, n, now); if r.Ok? then r.value else s
    case DeleteOp(name) => s - {name}
  }

  function RunOps(c: Codec, s: Store, ops: seq<Op>): Store {
    if ops == [] then s else Apply(c, RunOps(c, s, ops[..|ops| - 1]), ops[|ops| - 1])
  }

  /** What a finished write did to the revisions. */
  lemma WriteAppends(c: Codec, d: TemplateDir, t: Template, time: string)
    requires Faithful(c) && HistoryOk(c, d)
    ensures var d' := Written(c, d, t, time, 3); var n := Count(c, d);
      && HistoryOk(c, d') && Count(c, d') == n + 1
      && GetRevision(c, d', n + 1) == Some(t) && d'.current == Some(c.yaml(t))
      && forall k :: 1 <= k <= n ==> k in d.revs && k in d'.revs && d'.revs[k] == d.revs[k]
  {
    WriteKeepsHistory(c, d, t, time, 3);
    assert c.unyaml(c.yaml(t)) == Some(t);
  }

  /** A template that does not exist yet starts a chain of one. */
  lemma FirstWriteChained(c: Codec, t: Template, time: string)
    requires Faithful(c) && t.name != ""
    ensures Chained(c, Written(c, NO_FILES, t, time, 3))
  {
    EmptyHistoryOk(c);
    WriteAppends(c, NO_FILES, t, time);
  }

  lemma ChainedLoads(c: Codec, d: TemplateDir, name: string)
    requires Faithful(c) && Chained(c, d)
    ensures Load(c, d, name) == Some(Rev(c, d, Count(c, d)))
  {
    var t := Rev(c, d, Count(c, d));
    assert c.unyaml(c.yaml(t)) == Some(t);
  }

  /** Lineage and timestamps do not enter the digest. */
  lemma RestoredFacts(c: Codec, prior: Template, cur: Template, now: string)
    ensures var t := Restored(c, prior, cur, now);
      && ContentDigest(c, t) == ContentDigest(c, prior) && t.name == prior.name && Descends(c, cur, t)
  {
    assert Definition(Restored(c, prior, cur, now)) == Definition(prior);
    assert Definition(prior.(updatedAt := now)) == Definition(prior);
  }

  lemma RollbackChained(c: Codec, d: TemplateDir, name: string, n: int, now: string)
    requires Faithful(c) && Chained(c, d) && 1 <= n <= Count(c, d)
    ensures Chained(c, Written(c, d, Restored(c, Rev(c, d, n), Rev(c, d, Count(c, d)), now), now, 3))
  {
    var m := Count(c, d);
    var t := Restored(c, Rev(c, d, n), Rev(c, d, m), now);
    var d' := Written(c, d, t, now, 3);
    RestoredFacts(c, Rev(c, d, n), Rev(c, d, m), now);
    WriteAppends(c, d, t, now);
    ExtendChain(c, d, d', t);
  }

  /** One more revision that descends from the newest keeps the chain. */
  lemma ExtendChain(c: Codec, d: TemplateDir, d': TemplateDir, t: Template)
    requires Chained(c, d) && HistoryOk(c, d') && t.name != ""
    requires var n := Count(c, d);
      && Count(c, d') == n + 1 && GetRevision(c, d', n + 1) == Some(t) && d'.current == Some(c.yaml(t))
      && (forall k :: 1 <= k <= n ==> k in d.revs && k in d'.revs && d'.revs[k] == d.revs[k])
      && Descends(c, Rev(c, d, n), t)
    ensures Chained(c, d')
  {
    var n := Count(c, d);
    forall k | 1 <= k <= n + 1
      ensures GetRevision(c, d', k) == if k <= n then GetRevision(c, d, k) else Some(t)
      ensures GetRevision(c, d', k).Some? && Rev(c, d', k).name != ""
    {
      if k <= n { assert Rev(c, d, k).name != ""; }
    }
    forall k | 2 <= k <= n + 1 ensures Descends(c, Rev(c, d', k - 1), Rev(c, d', k)) {
      if k <= n { assert Descends(c, Rev(c, d, k - 1), Rev(c, d, k)); }
    }
  }

  /** No crashes: no revision file is ever ahead of the index. */
  ghost predicate NoStrays(c: Codec, d: TemplateDir) { forall k :: k in d.revs ==> 1 <= k <= Count(c, d) }

  lemma WriteNoStrays(c: Codec, d: TemplateDir, t: Template, time: string)
    requires Faithful(c) && HistoryOk(c, d) && NoStrays(c, d)
    ensures NoStrays(c, Written(c, d, t, time, 3))
  {
    WriteAppends(c, d, t, time);
  }

  ghost predicate StoreOk(c: Codec, s: Store) {
    forall name :: name in s ==> Chained(c, s[name]) && NoStrays(c, s[name])
  }

  lemma PutFresh(c: Codec, s: Store, name: string, t: Template, time: string)
    requires Faithful(c) && StoreOk(c, s) && DirOf(s, name).current.None? && t.name != ""
    ensures StoreOk(c, Put(c, s, name, t, time))
  {
    assert name !in s;
    FirstWriteChained(c, t, time);
    EmptyHistoryOk(c);
    WriteNoStrays(c, NO_FILES, t, time);
  }

  lemma PutRestored(c: Codec, s: Store, name: string, n: int, now: string)
    requires Faithful(c) && StoreOk(c, s) && Rollback(c, s, name, n, now).Ok?
    ensures name in s && 1 <= n <= Count(c, s[name])
    ensures Get(c, s, name) == Some(Rev(c, s[name], Count(c, s[name])))
    ensures StoreOk(c, Rollback(c, s, name, n, now).value)
  {
    assert name in s;
    var d := s[name];
    ChainedLoads(c, d, name);
    RollbackChained(c, d, name, n, now);
    WriteNoStrays(c, d, Restored(c, Rev(c, d, n), Rev(c, d, Count(c, d)), now), now);
  }

  lemma AbsentDir(c: Codec, s: Store, name: string)
    requires Faithful(c) && StoreOk(c, s) && Get(c, s, name).None?
    ensures DirOf(s, name).current.None?
  {
    if name in s { ChainedLoads(c, s[name], name); }
  }

  lemma ApplyKeepsStore(c: Codec, s: Store, op: Op)
    requires Faithful(c) && StoreOk(c, s) && OpOk(op)
    ensures StoreOk(c, Apply(c, s, op))
  {
    match op
    case InstallOp(name, t, now) =>
      if DirOf(s, name).current.None? { PutFresh(c, s, name, t, now); }
    case ForkOp(source, newName, now) =>
      if Fork(c, s, source, newName, now).Ok? {
        AbsentDir(c, s, newName);
        PutFresh(c, s, newName, Forked(c, Get(c, s, source).value, source, newName, now), now);
      }
    case ImportOp(def, p, newName, now) =>
      if Import(c, s, def, p, newName, now).Ok? {
        var name := if newName == "" then def.name else newName;
        AbsentDir(c, s, name);
        PutFresh(c, s, name, Imported(c, def, p, name, now), now);
      }
    case RollbackOp(name, n, now) =>
      if Rollback(c, s, name, n, now).Ok? { PutRestored(c, s, name, n, now); }
    case DeleteOp(_) =>
  }

  /** In every crash-free run of install, fork, import, rollback and delete, each revision
      after a template's first names the digest of the one before it and is one generation
      on, and template.yaml is the newest revision. */
  lemma {:induction false} LineageAlwaysChains(c: Codec, ops: seq<Op>)
    requires Faithful(c) && forall i :: 0 <= i < |ops| ==> OpOk(ops[i])
    ensures StoreOk(c, RunOps(c, map[], ops))
  {
    if ops != [] {
      LineageAlwaysChains(c, ops[..|ops| - 1]);
      ApplyKeepsStore(c, RunOps(c, map[], ops[..|ops| - 1]), ops[|ops| - 1]);
    }
  }

  /** Rolling back restores the content digest of the chosen revision, keeps every earlier
      revision, and is itself a revision that can be rolled back: going back to the number
      that was newest restores the digest that was current. */
  lemma RollbackRestores(c: Codec, s: Store, name: string, n: int, now: string, later: string)
    requires Faithful(c) && StoreOk(c, s) && name in s && 1 <= n <= Count(c, s[name])
    ensures var m := Count(c, s[name]);
      var r := Rollback(c, s, name, n, now);
      && r.Ok?
      && Get(c, r.value, name).Some?
      && ContentDigest(c, Get(c, r.value, name).value) == ContentDigest(c, Rev(c, s[name], n))
      && Count(c, r.value[name]) == m + 1
      && Continues(c, s[name], r.value[name])
      && var u := Rollback(c, r.value, name, m, later);
         && u.Ok? && Get(c, u.value, name).Some? && Get(c, s, name).Some?
         && ContentDigest(c, Get(c, u.value, name).value) == ContentDigest(c, Get(c, s, name).value)
  {
    var d, m := s[name], Count(c, s[name]);
    ChainedLoads(c, d, name);
    var t := Restored(c, Rev(c, d, n), Rev(c, d, m), now);
    var s' := Rollback(c, s, name, n, now).value;
    PutRestored(c, s, name, n, now);
    RestoredFacts(c, Rev(c, d, n), Rev(c, d, m), now);
    WriteAppends(c, d, t, now);
    WriteKeepsHistory(c, d, t, now, 3);
    ChainedLoads(c, s'[name], name);
    RollbackTo(c, s', name, m, later);
    assert s'[name].revs[m] == d.revs[m];
  }

  lemma RollbackTo(c: Codec, s: Store, name: string, n: int, now: string)
    requires Faithful(c) && StoreOk(c, s) && name in s && 1 <= n <= Count(c, s[name])
    ensures var r := Rollback(c, s, name, n, now);
      r.Ok? && Get(c, r.value, name).Some?
      && ContentDigest(c, Get(c, r.value, name).value) == ContentDigest(c, Rev(c, s[name], n))
  {
    var d, m := s[name], Count(c, s[name]);
    ChainedLoads(c, d, name);
    var t := Restored(c, Rev(c, d, n), Rev(c, d, m), now);
    PutRestored(c, s, name, n, now);
    RestoredFacts(c, Rev(c, d, n), Rev(c, d, m), now);
    WriteAppends(c, d, t, now);
    ChainedLoads(c, Rollback(c, s, name, n, now).value[name], name);
  }

  /** The name is part of the definition, so a fork keeps its source's digest exactly when
      it keeps the name (the comment on ContentDigest promises it of every fork). */
  lemma ForkDigest(c: Codec, src: Template, source: string, newName: string, now: string)
    requires Faithful(c)
    ensures var f := Forked(c, src, source, newName, now);
      && (newName == src.name ==> ContentDigest(c, f) == ContentDigest(c, src))
      && (ContentDigest(c, f) == ContentDigest(c, src) ==>
            newName == src.name || Collision(c.sha, c.yaml(Definition(f)), c.yaml(Definition(src))))
      && Descends(c, src, f)
  {
    var f := Forked(c, src, source, newName, now);
    DigestIdentifiesDefinition(c, f, src);
    assert Definition(f) == Definition(src).(name := newName);
    assert Definition(f) == Definition(f.(lineage := src.lineage));
  }

  lemma ImportDigest(c: Codec, def: Template, p: Option<Source>, name: string, now: string)
    requires Faithful(c)
    ensures var t := Imported(c, def, p, name, now);
      && (name == def.name ==> ContentDigest(c, t) == ContentDigest(c, def))
      && (ContentDigest(c, t) == ContentDigest(c, def) ==>
            name == def.name || Collision(c.sha, c.yaml(Definition(t)), c.yaml(Definition(def))))
      && t.lineage == Some(Lineage(1, "", ContentDigest(c, t)))
  {
    var t := Imported(c, def, p, name, now);
    DigestIdentifiesDefinition(c, t, def);
    assert Definition(t) == Definition(def).(name := name);
    assert Definition(t) == Definition(t.(lineage := def.lineage));
  }
}
