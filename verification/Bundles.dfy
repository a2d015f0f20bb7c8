/** Template bundles: an OCI image layout in a tar, every blob named by its SHA-256.
    Tar and JSON are functions of a `BundleCodec`, with what is assumed of them stated. */
module Bundles {
  import opened Wrappers
  import opened GoStrings
  import opened Templates
  import opened TemplateRules
  import opened TemplateStore

  const MEDIA_MANIFEST := "application/vnd.oci.image.manifest.v1+json"
  const MEDIA_INDEX := "application/vnd.oci.image.index.v1+json"
  const ARTIFACT_TYPE := "application/vnd.pi-sandbox.template.manifest.v1"
  const MEDIA_CONFIG := "application/vnd.pi-sandbox.template.config.v1+json"
  const MEDIA_DEFINITION := "application/vnd.pi-sandbox.template.definition.v1+yaml"
  const EXPORTER := "pi-box/dev"
  const TITLE := "org.opencontainers.image.title"
  const BLOBS := "blobs/sha256/"

  datatype Provenance = Provenance(
    contentDigest: string, source: Option<Source>, lineage: Option<Lineage>, exporter: string, exportedAt: string)
  datatype Descriptor = Descriptor(mediaType: string, digest: string, size: nat, annotations: map<string, string>)
  datatype Manifest = Manifest(
    schemaVersion: int, mediaType: string, artifactType: string, config: Descriptor, layers: seq<Descriptor>,
    annotations: map<string, string>)
  datatype Index = Index(schemaVersion: int, mediaType: string, manifests: seq<Descriptor>)

  datatype Entry = Entry(name: string, data: Bytes)

  /** What a tar reader delivers: the entries before the end, or before its first error. */
  datatype Archive = Archive(entries: seq<Entry>, sound: bool)

  /** `unprov` is what json.Unmarshal leaves in the struct; its error is ignored.
      `layoutFile` is the fixed content of oci-layout, which no reader looks at. */
  datatype BundleCodec = BundleCodec(
    files: Codec, layoutFile: Bytes,
    tar: seq<Entry> -> Bytes, untar: Bytes -> Archive,
    prov: Provenance -> Bytes, unprov: Bytes -> Provenance,
    manifest: Manifest -> Bytes, unmanifest: Bytes -> Option<Manifest>,
    index: Index -> Bytes, unindex: Bytes -> Option<Index>)

  /** What is written can be read back, and digests are hexadecimal. */
  ghost predicate Sound(b: BundleCodec) {
    && Faithful(b.files)
    && (forall es :: b.untar(b.tar(es)) == Archive(es, true))
    && (forall p :: b.unprov(b.prov(p)) == p)
    && (forall m :: b.unmanifest(b.manifest(m)) == Some(m))
    && (forall x :: b.unindex(b.index(x)) == Some(x))
    && (forall d :: b.files.sha(d) != "" && '/' !in b.files.sha(d))
  }

  const NO_PROVENANCE := Provenance("", None, None, "", "")

  function BlobDigest(b: BundleCodec, data: Bytes): string { "sha256:" + b.files.sha(data) }

  // ----------------------------------------------------------------- writing

  function DescriptorOf(b: BundleCodec, mediaType: string, data: Bytes, annotations: map<string, string>): Descriptor {
    Descriptor(mediaType, BlobDigest(b, data), |data|, annotations)
  }

  function ProvenanceOf(b: BundleCodec, t: Template, now: string): Provenance {
    Provenance(ContentDigest(b.files, t), t.source, t.lineage, EXPORTER, now)
  }

  function ManifestFor(b: BundleCodec, t: Template, p: Provenance): Manifest {
    Manifest(2, MEDIA_MANIFEST, ARTIFACT_TYPE,
             DescriptorOf(b, MEDIA_CONFIG, b.prov(p), map[]),
             [DescriptorOf(b, MEDIA_DEFINITION, b.files.yaml(t), map[])],
             map[TITLE := t.name,
                 "dev.pi-sandbox.template.digest" := ContentDigest(b.files, t),
                 "dev.pi-sandbox.template.exporter" := EXPORTER])
  }

  function IndexFor(b: BundleCodec, t: Template, man: Bytes): Index {
    Index(2, MEDIA_INDEX, [DescriptorOf(b, MEDIA_MANIFEST, man, map[TITLE := t.name])])
  }

  /** One tar entry per blob, named by its hash. */
  function BlobEntries(b: BundleCodec, blobs: seq<Bytes>): seq<Entry> {
    if blobs == [] then []
    else
      var last := blobs[|blobs| - 1];
      BlobEntries(b, blobs[..|blobs| - 1]) + [Entry(BLOBS + b.files.sha(last), last)]
  }

  function Blobs(b: BundleCodec, t: Template, p: Provenance): seq<Bytes> {
    [b.manifest(ManifestFor(b, t, p)), b.prov(p), b.files.yaml(t)]
  }

  function LayoutEntries(b: BundleCodec, idx: Bytes): seq<Entry> {
    [Entry("oci-layout", b.layoutFile), Entry("index.json", idx)]
  }

  /** The layout of a template and some provenance; `ExportBundle` packs the template's own. */
  function Packed(b: BundleCodec, t: Template, p: Provenance): seq<Entry> {
    LayoutEntries(b, b.index(IndexFor(b, t, b.manifest(ManifestFor(b, t, p))))) + BlobEntries(b, Blobs(b, t, p))
  }

  ghost function Export(b: BundleCodec, t: Template, now: string): Result<Bytes> {
    if !Valid(t) then Err("template does not validate")
    else Ok(b.tar(Packed(b, t, ProvenanceOf(b, t, now))))
  }

  method ExportBundle(b: BundleCodec, t: Template, now: string) returns (r: Result<Bytes>)
    ensures r == Export(b, t, now)
  {
    var problems := Validate(t);
    if problems != [] { return Err("template does not validate"); }
    var def := b.files.yaml(t);
    var defDesc := Descriptor(MEDIA_DEFINITION, BlobDigest(b, def), |def|, map[]);
    var prov := Provenance(ContentDigest(b.files, t), t.source, t.lineage, EXPORTER, now);
    var cfg := b.prov(prov);
    var cfgDesc := Descriptor(MEDIA_CONFIG, BlobDigest(b, cfg), |cfg|, map[]);
    var manifest := Manifest(2, MEDIA_MANIFEST, ARTIFACT_TYPE, cfgDesc, [defDesc],
                             map[TITLE := t.name,
                                 "dev.pi-sandbox.template.digest" := ContentDigest(b.files, t),
                                 "dev.pi-sandbox.template.exporter" := EXPORTER]);
    var man := b.manifest(manifest);
    var manDesc := Descriptor(MEDIA_MANIFEST, BlobDigest(b, man), |man|, map[TITLE := t.name]);
    var idx := b.index(Index(2, MEDIA_INDEX, [manDesc]));
    var entries := PackLayout(b, idx, [man, cfg, def]);
    r := Ok(b.tar(entries));
  }

  method PackLayout(b: BundleCodec, idx: Bytes, blobs: seq<Bytes>) returns (entries: seq<Entry>)
    ensures entries == LayoutEntries(b, idx) + BlobEntries(b, blobs)
  {
    entries := [Entry("oci-layout", b.layoutFile)];
    entries := entries + [Entry("index.json", idx)];
    ghost var head := entries;
    for i := 0 to |blobs|
      invariant entries == head + BlobEntries(b, blobs[..i])
    {
      PrefixRemoved("sha256:", b.files.sha(blobs[i]));
      MoreEntries(b, blobs, i);
      entries := entries + [Entry(BLOBS + BlobDigest(b, blobs[i])[|"sha256:"|..], blobs[i])];
    }
    assert blobs[..|blobs|] == blobs;
  }

  lemma MoreEntries(b: BundleCodec, blobs: seq<Bytes>, i: nat)
    requires i < |blobs|
    ensures BlobEntries(b, blobs[..i + 1])
         == BlobEntries(b, blobs[..i]) + [Entry(BLOBS + b.files.sha(blobs[i]), blobs[i])]
  {
    assert blobs[..i + 1][..i] == blobs[..i];
  }

  lemma PrefixRemoved(prefix: string, x: string)
    ensures (prefix + x)[|prefix|..] == x
  {
  }

  // ----------------------------------------------------------------- reading

  /** What has been gathered from the entries so far. */
  datatype Layout = Layout(index: Option<Bytes>, blobs: map<string, Bytes>)

  const EMPTY_LAYOUT := Layout(None, map[])

  predicate IsBlob(e: Entry) { e.name != "index.json" && BLOBS <= e.name }

  /** The digest a blob entry's file name claims. */
  function Claimed(e: Entry): string { "sha256:" + Base(e.name) }

  predicate Honest(b: BundleCodec, e: Entry) { IsBlob(e) ==> BlobDigest(b, e.data) == Claimed(e) }

  function AddEntry(l: Layout, e: Entry): Layout {
    if e.name == "index.json" then l.(index := Some(e.data))
    else if IsBlob(e) then l.(blobs := l.blobs[Claimed(e) := e.data])
    else l
  }

  function Gather(b: BundleCodec, l: Layout, es: seq<Entry>): Result<Layout>
    decreases |es|
  {
    if es == [] then Ok(l)
    else if !Honest(b, es[0]) then Err("blob fails digest check")
    else Gather(b, AddEntry(l, es[0]), es[1..])
  }

  datatype ImportedTemplate = ImportedTemplate(template: Template, provenance: Provenance)

  ghost function Open(b: BundleCodec, l: Layout): Result<ImportedTemplate> {
    if l.index.None? then Err("bundle has no index.json")
    else
      var index := b.unindex(l.index.value);
      if index.None? || index.value.manifests == [] then Err("bad index.json")
      else if index.value.manifests[0].digest !in l.blobs then Err("manifest blob missing")
      else OpenManifest(b, l, b.unmanifest(l.blobs[index.value.manifests[0].digest]))
  }

  ghost function OpenManifest(b: BundleCodec, l: Layout, manifest: Option<Manifest>): Result<ImportedTemplate> {
    if manifest.None? then Err("bad manifest")
    else if manifest.value.artifactType != ARTIFACT_TYPE then Err("not a pi-sandbox template bundle")
    else if |manifest.value.layers| != 1 then Err("expected exactly one definition layer")
    else if manifest.value.layers[0].digest !in l.blobs then Err("definition blob missing")
    else
      match b.files.unyaml(l.blobs[manifest.value.layers[0].digest])
      case None => Err("parse definition")
      case Some(t) =>
        if !Valid(t) then Err("bundle template does not validate")
        else Ok(ImportedTemplate(t, ConfigOf(b, l, manifest.value)))
  }

  function ConfigOf(b: BundleCodec, l: Layout, m: Manifest): Provenance {
    if m.config.digest in l.blobs then b.unprov(l.blobs[m.config.digest]) else NO_PROVENANCE
  }

  ghost function Read(b: BundleCodec, bundle: Bytes): Result<ImportedTemplate> {
    var a := b.untar(bundle);
    match Gather(b, EMPTY_LAYOUT, a.entries)
    case Err(e) => Err(e)
    case Ok(l) => if !a.sound then Err("read bundle") else Open(b, l)
  }

  method ReadBundle(b: BundleCodec, bundle: Bytes) returns (r: Result<ImportedTemplate>)
    ensures r == Read(b, bundle)
  {
    var blobs: map<string, Bytes> := map[];
    var idx: Option<Bytes> := None;
    var a := b.untar(bundle);
    for i := 0 to |a.entries|
      invariant Gather(b, EMPTY_LAYOUT, a.entries) == Gather(b, Layout(idx, blobs), a.entries[i..])
    {
      var e := a.entries[i];
      assert a.entries[i..][1..] == a.entries[i + 1..];
      if e.name == "index.json" {
        idx := Some(e.data);
      } else if BLOBS <= e.name {
        var name := Base(e.name);
        if BlobDigest(b, e.data) != "sha256:" + name { return Err("blob fails digest check"); }
        blobs := blobs["sha256:" + name := e.data];
      }
    }
    if !a.sound { return Err("read bundle"); }
    if idx.None? { return Err("bundle has no index.json"); }
    var index := b.unindex(idx.value);
    if index.None? || |index.value.manifests| == 0 { return Err("bad index.json"); }
    if index.value.manifests[0].digest !in blobs { return Err("manifest blob missing"); }
    var manifest := b.unmanifest(blobs[index.value.manifests[0].digest]);
    r := ReadManifest(b, Layout(idx, blobs), manifest);
  }

  method ReadManifest(b: BundleCodec, l: Layout, manifest: Option<Manifest>) returns (r: Result<ImportedTemplate>)
    ensures r == OpenManifest(b, l, manifest)
  {
    if manifest.None? { return Err("bad manifest"); }
    var m := manifest.value;
    if m.artifactType != ARTIFACT_TYPE { return Err("not a pi-sandbox template bundle"); }
    if |m.layers| != 1 { return Err("expected exactly one definition layer"); }
    if m.layers[0].digest !in l.blobs { return Err("definition blob missing"); }
    var t := b.files.unyaml(l.blobs[m.layers[0].digest]);
    if t.None? { return Err("parse definition"); }
    var problems := Validate(t.value);
    if problems != [] { return Err("bundle template does not validate"); }
    var prov := NO_PROVENANCE;
    if m.config.digest in l.blobs { prov := b.unprov(l.blobs[m.config.digest]); }
    r := Ok(ImportedTemplate(t.value, prov));
  }

  // ------------------------------------------------------ what is accepted

  /** Every stored blob hashes to the digest it is stored under. */
  predicate Addressed(b: BundleCodec, l: Layout) {
    forall k :: k in l.blobs ==> BlobDigest(b, l.blobs[k]) == k
  }

  /** One entry that does not hash to its name spoils the bundle; otherwise all of them are
      taken in, each under its own hash, and the last index.json wins. */
  lemma {:induction false} GatherIff(b: BundleCodec, l: Layout, es: seq<Entry>)
    requires Addressed(b, l)
    ensures Gather(b, l, es).Ok? <==> forall i :: 0 <= i < |es| ==> Honest(b, es[i])
    ensures Gather(b, l, es).Ok? ==> Addressed(b, Gather(b, l, es).value)
    ensures Gather(b, l, es).Ok? ==> forall k :: k in Gather(b, l, es).value.blobs <==>
      k in l.blobs || exists i :: 0 <= i < |es| && IsBlob(es[i]) && Claimed(es[i]) == k
    decreases |es|
  {
    if es != [] && Honest(b, es[0]) {
      GatherIff(b, AddEntry(l, es[0]), es[1..]);
      ConsAll(b, es);
      forall k | Gather(b, l, es).Ok?
        ensures k in Gather(b, l, es).value.blobs <==>
          k in l.blobs || exists i :: 0 <= i < |es| && IsBlob(es[i]) && Claimed(es[i]) == k
      {
        ClaimedSplit(es, k);
      }
    }
  }

  lemma ConsAll(b: BundleCodec, es: seq<Entry>)
    requires es != []
    ensures (forall i :: 0 <= i < |es| ==> Honest(b, es[i])) <==>
      Honest(b, es[0]) && forall i :: 0 <= i < |es[1..]| ==> Honest(b, es[1..][i])
  {
    assert forall i :: 0 < i < |es| ==> es[i] == es[1..][i - 1];
  }

  lemma ClaimedSplit(es: seq<Entry>, k: string)
    requires es != []
    ensures (exists i :: 0 <= i < |es| && IsBlob(es[i]) && Claimed(es[i]) == k) <==>
      (IsBlob(es[0]) && Claimed(es[0]) == k)
      || exists i :: 0 <= i < |es[1..]| && IsBlob(es[1..][i]) && Claimed(es[1..][i]) == k
  {
    assert forall i :: 0 < i < |es| ==> es[i] == es[1..][i - 1];
  }

  /** A bundle with a blob that was altered, or filed under another name, is refused. */
  lemma AlteredBlobRefused(b: BundleCodec, bundle: Bytes, i: nat)
    requires i < |b.untar(bundle).entries| && IsBlob(b.untar(bundle).entries[i])
    requires BlobDigest(b, b.untar(bundle).entries[i].data) != Claimed(b.untar(bundle).entries[i])
    ensures Read(b, bundle) == Err("blob fails digest check")
  {
    var es := b.untar(bundle).entries;
    GatherIff(b, EMPTY_LAYOUT, es);
    assert !Honest(b, es[i]);
    GatherError(b, EMPTY_LAYOUT, es);
  }

  lemma {:induction false} GatherError(b: BundleCodec, l: Layout, es: seq<Entry>)
    ensures Gather(b, l, es).Err? ==> Gather(b, l, es) == Err("blob fails digest check")
    decreases |es|
  {
    if es != [] && Honest(b, es[0]) { GatherError(b, AddEntry(l, es[0]), es[1..]); }
  }

  // ------------------------------------------------------------ round trip

  /** Two of the blobs differ and have one hash. */
  ghost predicate SomeCollide(b: BundleCodec, blobs: seq<Bytes>) {
    exists x, y :: x in blobs && y in blobs && Collision(b.files.sha, x, y)
  }

  ghost predicate BlobsCollide(b: BundleCodec, t: Template, p: Provenance) { SomeCollide(b, Blobs(b, t, p)) }

  function AddBlobs(b: BundleCodec, m: map<string, Bytes>, blobs: seq<Bytes>): map<string, Bytes> {
    if blobs == [] then m
    else AddBlobs(b, m, blobs[..|blobs| - 1])[BlobDigest(b, blobs[|blobs| - 1]) := blobs[|blobs| - 1]]
  }

  lemma BlobEntryHonest(b: BundleCodec, data: Bytes)
    requires Sound(b)
    ensures var e := Entry(BLOBS + b.files.sha(data), data);
      IsBlob(e) && Claimed(e) == BlobDigest(b, data)
  {
    BaseOfChild("blobs/sha256", b.files.sha(data));
    assert "blobs/sha256" + "/" + b.files.sha(data) == BLOBS + b.files.sha(data);
    assert (BLOBS + b.files.sha(data))[0] == 'b' && "index.json"[0] == 'i';
  }

  lemma SameDigest(b: BundleCodec, x: Bytes, y: Bytes)
    ensures BlobDigest(b, x) == BlobDigest(b, y) ==> x == y || Collision(b.files.sha, x, y)
  {
    PrefixRemoved("sha256:", b.files.sha(x));
    PrefixRemoved("sha256:", b.files.sha(y));
  }

  lemma {:induction false} GatherLast(b: BundleCodec, l: Layout, es: seq<Entry>, e: Entry)
    requires Gather(b, l, es).Ok? && Honest(b, e)
    ensures Gather(b, l, es + [e]) == Ok(AddEntry(Gather(b, l, es).value, e))
    decreases |es|
  {
    if es == [] {
      assert [] + [e] == [e] && [e][1..] == [];
    } else {
      assert (es + [e])[1..] == es[1..] + [e];
      GatherLast(b, AddEntry(l, es[0]), es[1..], e);
    }
  }

  lemma LayoutGathers(b: BundleCodec, idx: Bytes)
    ensures Gather(b, EMPTY_LAYOUT, LayoutEntries(b, idx)) == Ok(Layout(Some(idx), map[]))
  {
    var es := LayoutEntries(b, idx);
    assert es[0].name[0] == 'o' && es[1].name[0] == 'i' && BLOBS[0] == 'b';
    assert !IsBlob(es[0]) && es[0].name != es[1].name;
    assert Gather(b, EMPTY_LAYOUT, es) == Gather(b, EMPTY_LAYOUT, [es[1]]) by { assert es[1..] == [es[1]]; }
    assert Gather(b, EMPTY_LAYOUT, [es[1]]) == Gather(b, Layout(Some(idx), map[]), []) by {
      assert [es[1]][1..] == [];
    }
  }

  lemma {:induction false} PackedGathers(b: BundleCodec, idx: Bytes, blobs: seq<Bytes>)
    requires Sound(b)
    ensures Gather(b, EMPTY_LAYOUT, LayoutEntries(b, idx) + BlobEntries(b, blobs))
         == Ok(Layout(Some(idx), AddBlobs(b, map[], blobs)))
  {
    LayoutGathers(b, idx);
    var head := LayoutEntries(b, idx);
    if blobs == [] {
      assert head + [] == head;
    } else {
      var front, last := blobs[..|blobs| - 1], blobs[|blobs| - 1];
      PackedGathers(b, idx, front);
      BlobEntryHonest(b, last);
      var e := Entry(BLOBS + b.files.sha(last), last);
      GatherLast(b, EMPTY_LAYOUT, head + BlobEntries(b, front), e);
      assert head + (BlobEntries(b, front) + [e]) == (head + BlobEntries(b, front)) + [e];
    }
  }

  /** Each blob is found under its digest. */
  lemma {:induction false} BlobFound(b: BundleCodec, blobs: seq<Bytes>, x: Bytes)
    requires x in blobs && !SomeCollide(b, blobs)
    ensures var m := AddBlobs(b, map[], blobs); BlobDigest(b, x) in m && m[BlobDigest(b, x)] == x
  {
    var front, last := blobs[..|blobs| - 1], blobs[|blobs| - 1];
    assert blobs == front + [last];
    SameDigest(b, x, last);
    if x != last {
      BlobFound(b, front, x);
    }
  }

  lemma OpensPacked(b: BundleCodec, l: Layout, x: Index, man: Bytes, m: Manifest, cfg: Bytes, def: Bytes)
    requires Some(x) == (if l.index.Some? then b.unindex(l.index.value) else None)
    requires x.manifests != [] && x.manifests[0].digest in l.blobs && l.blobs[x.manifests[0].digest] == man
    requires b.unmanifest(man) == Some(m) && m.artifactType == ARTIFACT_TYPE
    requires |m.layers| == 1 && m.layers[0].digest in l.blobs && l.blobs[m.layers[0].digest] == def
    requires m.config.digest in l.blobs && l.blobs[m.config.digest] == cfg
    requires b.files.unyaml(def).Some? && Valid(b.files.unyaml(def).value)
    ensures Open(b, l) == Ok(ImportedTemplate(b.files.unyaml(def).value, b.unprov(cfg)))
  {
  }

  /** Any valid template packed with any provenance comes back with both: nothing ties the
      provenance to the definition. */
  lemma PackThenRead(b: BundleCodec, t: Template, p: Provenance)
    requires Sound(b) && Valid(t) && !BlobsCollide(b, t, p)
    ensures Read(b, b.tar(Packed(b, t, p))) == Ok(ImportedTemplate(t, p))
  {
    var m := ManifestFor(b, t, p);
    var man, cfg, def := b.manifest(m), b.prov(p), b.files.yaml(t);
    var x := IndexFor(b, t, man);
    var l := Layout(Some(b.index(x)), AddBlobs(b, map[], Blobs(b, t, p)));
    PackedGathers(b, b.index(x), Blobs(b, t, p));
    BlobFound(b, Blobs(b, t, p), man);
    BlobFound(b, Blobs(b, t, p), cfg);
    BlobFound(b, Blobs(b, t, p), def);
    assert b.unindex(b.index(x)) == Some(x) && b.unmanifest(man) == Some(m) && b.files.unyaml(def) == Some(t);
    OpensPacked(b, l, x, man, m, cfg, def);
    assert b.untar(b.tar(Packed(b, t, p))) == Archive(Packed(b, t, p), true);
  }

  /** What is exported reads back as the template it was, with its source, its lineage and
      its content digest; a template that does not validate is not exported. */
  lemma ExportThenRead(b: BundleCodec, t: Template, now: string)
    requires Sound(b)
    ensures Export(b, t, now).Ok? <==> Valid(t)
    ensures Valid(t) ==>
      var r := Read(b, Export(b, t, now).value);
      || BlobsCollide(b, t, ProvenanceOf(b, t, now))
      || (r.Ok? && r.value.template == t && r.value.provenance.contentDigest == ContentDigest(b.files, t)
          && r.value.provenance.source == t.source && r.value.provenance.lineage == t.lineage)
  {
    if Valid(t) && !BlobsCollide(b, t, ProvenanceOf(b, t, now)) { PackThenRead(b, t, ProvenanceOf(b, t, now)); }
  }

  // ------------------------------------------------- one digest, one template

  /** The manifest digest an archive's index names, when it has one. */
  function Pinned(b: BundleCodec, l: Layout): Option<string> {
    if l.index.None? then None
    else match b.unindex(l.index.value)
      case None => None
      case Some(x) => if x.manifests == [] then None else Some(x.manifests[0].digest)
  }

  function Gathered(b: BundleCodec, bundle: Bytes): Layout {
    var r := Gather(b, EMPTY_LAYOUT, b.untar(bundle).entries);
    if r.Ok? then r.value else EMPTY_LAYOUT
  }

  /** Two different blobs of the two bundles have one hash. */
  ghost predicate Clash(b: BundleCodec, x: Bytes, y: Bytes) {
    exists p, q ::
      p in Gathered(b, x).blobs.Values && q in Gathered(b, y).blobs.Values && Collision(b.files.sha, p, q)
  }

  lemma SameKeySameBlob(b: BundleCodec, x: Bytes, y: Bytes, k: string)
    requires var l, m := Gathered(b, x), Gathered(b, y);
      Addressed(b, l) && Addressed(b, m) && k in l.blobs && k in m.blobs
    ensures Gathered(b, x).blobs[k] == Gathered(b, y).blobs[k] || Clash(b, x, y)
  {
    var p, q := Gathered(b, x).blobs[k], Gathered(b, y).blobs[k];
    assert p in Gathered(b, x).blobs.Values && q in Gathered(b, y).blobs.Values;
    SameDigest(b, p, q);
  }

  /** The manifest of an accepted bundle. */
  lemma AcceptedManifest(b: BundleCodec, bundle: Bytes) returns (k: string, m: Manifest)
    requires Read(b, bundle).Ok?
    ensures var l := Gathered(b, bundle);
      && Addressed(b, l)
      && Pinned(b, l) == Some(k) && k in l.blobs && b.unmanifest(l.blobs[k]) == Some(m)
      && m.artifactType == "application/vnd.pi-sandbox.template.manifest.v1" && Valid(Read(b, bundle).value.template)
      && b.untar(bundle).sound && (forall e :: e in b.untar(bundle).entries ==> Honest(b, e))
      && |m.layers| == 1 && m.layers[0].digest in l.blobs
      && b.files.unyaml(l.blobs[m.layers[0].digest]) == Some(Read(b, bundle).value.template)
      && Read(b, bundle).value.provenance == ConfigOf(b, l, m)
      && (CarriesConfig(b, l) <==> m.config.digest in l.blobs)
  {
    var l := Gathered(b, bundle);
    GatherIff(b, EMPTY_LAYOUT, b.untar(bundle).entries);
    k := Pinned(b, l).value;
    m := b.unmanifest(l.blobs[k]).value;
  }

  /** What a bundle needs to be accepted, and all it needs: a tar that reads to its end, blobs
      that hash to their names, an index that names a manifest, of the right type, with one
      layer, all of them there and readable, and a definition that validates. */
  lemma AcceptedIff(b: BundleCodec, bundle: Bytes)
    ensures Read(b, bundle).Ok? <==>
      var a, l := b.untar(bundle), Gathered(b, bundle);
      && a.sound && (forall i :: 0 <= i < |a.entries| ==> Honest(b, a.entries[i]))
      && Pinned(b, l).Some? && Pinned(b, l).value in l.blobs
      && var m := b.unmanifest(l.blobs[Pinned(b, l).value]);
         && m.Some? && m.value.artifactType == "application/vnd.pi-sandbox.template.manifest.v1"
         && |m.value.layers| == 1 && m.value.layers[0].digest in l.blobs
         && var t := b.files.unyaml(l.blobs[m.value.layers[0].digest]); t.Some? && Valid(t.value)
  {
    GatherIff(b, EMPTY_LAYOUT, b.untar(bundle).entries);
  }

  /** Of several index files in a tar the last one counts. */
  lemma {:induction false} LastIndexCounts(b: BundleCodec, l: Layout, es: seq<Entry>)
    requires Gather(b, l, es).Ok?
    ensures var index := Gather(b, l, es).value.index;
      if NoIndex(es) then index == l.index
      else exists i :: 0 <= i < |es| && es[i].name == "index.json" && index == Some(es[i].data) && NoIndex(es[i + 1..])
    decreases |es|
  {
    if es != [] {
      var rest := es[1..];
      LastIndexCounts(b, AddEntry(l, es[0]), rest);
      assert NoIndex(es) <==> es[0].name != "index.json" && NoIndex(rest) by {
        assert forall i :: 0 < i < |es| ==> es[i] == rest[i - 1];
      }
      if !NoIndex(rest) {
        var i :| 0 <= i < |rest| && rest[i].name == "index.json"
          && Gather(b, l, es).value.index == Some(rest[i].data) && NoIndex(rest[i + 1..]);
        assert es[i + 1] == rest[i] && es[i + 2..] == rest[i + 1..];
      }
    }
  }

  predicate NoIndex(es: seq<Entry>) { forall i :: 0 <= i < |es| ==> es[i].name != "index.json" }

  /** A descriptor that tells its blob's hash and length. */
  predicate Describes(b: BundleCodec, d: Descriptor, mediaType: string, data: Bytes) {
    d.mediaType == mediaType && d.digest == "sha256:" + b.files.sha(data) && d.size == |data|
  }

  function BlobEntry(b: BundleCodec, data: Bytes): Entry { Entry("blobs/sha256/" + b.files.sha(data), data) }

  lemma ThreeBlobs(b: BundleCodec, x: Bytes, y: Bytes, z: Bytes)
    ensures BlobEntries(b, [x, y, z]) == [BlobEntry(b, x), BlobEntry(b, y), BlobEntry(b, z)]
  {
    assert [x, y, z][..2] == [x, y] && [x, y][..1] == [x] && [x][..0] == [];
    assert BlobEntries(b, [x]) == [BlobEntry(b, x)];
    assert BlobEntries(b, [x, y]) == [BlobEntry(b, x), BlobEntry(b, y)];
  }

  /** What an exported bundle says of itself: its index and its manifest name each blob by its
      hash and length, and the manifest gives the template's name and content digest. */
  lemma ExportDescribesItself(b: BundleCodec, t: Template, now: string) returns (x: Index, m: Manifest)
    requires Sound(b) && Valid(t)
    ensures var p := Provenance(ContentDigest(b.files, t), t.source, t.lineage, "pi-box/dev", now);
      && Export(b, t, now).Ok?
      && Gathered(b, Export(b, t, now).value).index == Some(b.index(x))
      && b.untar(Export(b, t, now).value).entries ==
           [Entry("oci-layout", b.layoutFile), Entry("index.json", b.index(x)),
            BlobEntry(b, b.manifest(m)), BlobEntry(b, b.prov(p)), BlobEntry(b, b.files.yaml(t))]
      && |x.manifests| == 1 && Describes(b, x.manifests[0], MEDIA_MANIFEST, b.manifest(m))
      && Describes(b, m.config, MEDIA_CONFIG, b.prov(p))
      && |m.layers| == 1 && Describes(b, m.layers[0], MEDIA_DEFINITION, b.files.yaml(t))
      && m.artifactType == ARTIFACT_TYPE && x.manifests[0].annotations == map[TITLE := t.name]
      && TITLE in m.annotations && m.annotations[TITLE] == t.name
      && "dev.pi-sandbox.template.digest" in m.annotations
      && m.annotations["dev.pi-sandbox.template.digest"] == ContentDigest(b.files, t)
      && (BlobsCollide(b, t, p) || Read(b, Export(b, t, now).value) == Ok(ImportedTemplate(t, p)))
  {
    var p := ProvenanceOf(b, t, now);
    m := ManifestFor(b, t, p);
    x := IndexFor(b, t, b.manifest(m));
    PackedGathers(b, b.index(x), Blobs(b, t, p));
    assert b.untar(b.tar(Packed(b, t, p))) == Archive(Packed(b, t, p), true);
    ThreeBlobs(b, b.manifest(m), b.prov(p), b.files.yaml(t));
    AnnotationKeys();
    if !BlobsCollide(b, t, p) { PackThenRead(b, t, p); }
  }

  lemma AnnotationKeys()
    ensures TITLE != "dev.pi-sandbox.template.digest" && TITLE != "dev.pi-sandbox.template.exporter"
    ensures "dev.pi-sandbox.template.digest" != "dev.pi-sandbox.template.exporter"
  {
    assert TITLE[0] == 'o' && "dev.pi-sandbox.template.digest"[0] == 'd';
    assert |"dev.pi-sandbox.template.digest"| != |"dev.pi-sandbox.template.exporter"|;
  }

  /** The config blob the manifest points at is in the archive: it may be left out. */
  predicate CarriesConfig(b: BundleCodec, l: Layout) {
    Pinned(b, l).Some? && Pinned(b, l).value in l.blobs
    && var m := b.unmanifest(l.blobs[Pinned(b, l).value]);
       m.Some? && m.value.config.digest in l.blobs
  }

  /** The digest pins the template: two accepted bundles whose indexes name one manifest
      digest hold the same template, short of a SHA-256 collision between their blobs.  The
      provenance is not pinned: they read alike exactly when both carry the config blob or
      neither does, or the one that is carried says nothing. */
  lemma OneDigestOneTemplate(b: BundleCodec, x: Bytes, y: Bytes)
    requires Read(b, x).Ok? && Read(b, y).Ok?
    requires Pinned(b, Gathered(b, x)) == Pinned(b, Gathered(b, y))
    ensures Read(b, x).value.template == Read(b, y).value.template || Clash(b, x, y)
    ensures var carriedX, carriedY := CarriesConfig(b, Gathered(b, x)), CarriesConfig(b, Gathered(b, y));
      || Clash(b, x, y)
      || (&& (!carriedX ==> Read(b, x).value.provenance == NO_PROVENANCE)
          && (!carriedY ==> Read(b, y).value.provenance == NO_PROVENANCE)
          && (Read(b, x) == Read(b, y) <==>
                (carriedX <==> carriedY)
                || (if carriedX then Read(b, x) else Read(b, y)).value.provenance == NO_PROVENANCE))
  {
    var k, m := AcceptedManifest(b, x);
    var j, n := AcceptedManifest(b, y);
    SameKeySameBlob(b, x, y, k);
    if !Clash(b, x, y) {
      SameKeySameBlob(b, x, y, m.layers[0].digest);
      if m.config.digest in Gathered(b, x).blobs && m.config.digest in Gathered(b, y).blobs {
        SameKeySameBlob(b, x, y, m.config.digest);
      }
    }
  }

  /** A layout with its config entry left out. */
  function Stripped(b: BundleCodec, t: Template, p: Provenance): seq<Entry> {
    var man := b.manifest(ManifestFor(b, t, p));
    LayoutEntries(b, b.index(IndexFor(b, t, man))) + BlobEntries(b, [man, b.files.yaml(t)])
  }

  lemma OpensWithoutConfig(b: BundleCodec, l: Layout, x: Index, man: Bytes, m: Manifest, def: Bytes)
    requires Some(x) == (if l.index.Some? then b.unindex(l.index.value) else None)
    requires x.manifests != [] && x.manifests[0].digest in l.blobs && l.blobs[x.manifests[0].digest] == man
    requires b.unmanifest(man) == Some(m) && m.artifactType == ARTIFACT_TYPE
    requires |m.layers| == 1 && m.layers[0].digest in l.blobs && l.blobs[m.layers[0].digest] == def
    requires m.config.digest !in l.blobs
    requires b.files.unyaml(def).Some? && Valid(b.files.unyaml(def).value)
    ensures Open(b, l) == Ok(ImportedTemplate(b.files.unyaml(def).value, NO_PROVENANCE))
  {
  }

  /** The manifest digest stays, the bundle is still accepted, and its provenance is gone. */
  lemma StrippedReads(b: BundleCodec, t: Template, p: Provenance)
    requires Sound(b) && Valid(t) && !BlobsCollide(b, t, p)
    requires b.prov(p) != b.manifest(ManifestFor(b, t, p)) && b.prov(p) != b.files.yaml(t)
    ensures Read(b, b.tar(Stripped(b, t, p))) == Ok(ImportedTemplate(t, NO_PROVENANCE))
    ensures Pinned(b, Gathered(b, b.tar(Stripped(b, t, p))))
         == Some(BlobDigest(b, b.manifest(ManifestFor(b, t, p))))
  {
    var m := ManifestFor(b, t, p);
    var man, cfg, def := b.manifest(m), b.prov(p), b.files.yaml(t);
    var x := IndexFor(b, t, man);
    var l := Layout(Some(b.index(x)), AddBlobs(b, map[], [man, def]));
    PackedGathers(b, b.index(x), [man, def]);
    assert man in Blobs(b, t, p) && cfg in Blobs(b, t, p) && def in Blobs(b, t, p);
    SameDigest(b, cfg, man);
    SameDigest(b, cfg, def);
    BlobFound(b, [man, def], man);
    BlobFound(b, [man, def], def);
    OnlyBlobs(b, [man, def], BlobDigest(b, cfg));
    assert b.unindex(b.index(x)) == Some(x) && b.unmanifest(man) == Some(m) && b.files.unyaml(def) == Some(t);
    OpensWithoutConfig(b, l, x, man, m, def);
    assert b.untar(b.tar(Stripped(b, t, p))) == Archive(Stripped(b, t, p), true);
  }

  lemma {:induction false} OnlyBlobs(b: BundleCodec, blobs: seq<Bytes>, k: string)
    requires forall x :: x in blobs ==> BlobDigest(b, x) != k
    ensures k !in AddBlobs(b, map[], blobs)
  {
    if blobs != [] { OnlyBlobs(b, blobs[..|blobs| - 1], k); }
  }

  lemma PackedPins(b: BundleCodec, t: Template, p: Provenance)
    requires Sound(b)
    ensures Pinned(b, Gathered(b, b.tar(Packed(b, t, p)))) == Some(BlobDigest(b, b.manifest(ManifestFor(b, t, p))))
  {
    var x := IndexFor(b, t, b.manifest(ManifestFor(b, t, p)));
    PackedGathers(b, b.index(x), Blobs(b, t, p));
    assert b.untar(b.tar(Packed(b, t, p))) == Archive(Packed(b, t, p), true);
    assert b.unindex(b.index(x)) == Some(x);
  }

  /** So one manifest digest can stand for two provenances: whatever a valid template was
      packed with, and none. */
  lemma ProvenanceCanBeStripped(b: BundleCodec, t: Template, p: Provenance)
    requires Sound(b) && Valid(t) && !BlobsCollide(b, t, p) && p != NO_PROVENANCE
    requires b.prov(p) != b.manifest(ManifestFor(b, t, p)) && b.prov(p) != b.files.yaml(t)
    ensures var x, y := b.tar(Packed(b, t, p)), b.tar(Stripped(b, t, p));
      && Pinned(b, Gathered(b, x)) == Pinned(b, Gathered(b, y))
      && Read(b, x) == Ok(ImportedTemplate(t, p)) && Read(b, y) == Ok(ImportedTemplate(t, NO_PROVENANCE))
      && Read(b, x) != Read(b, y)
  {
    PackThenRead(b, t, p);
    PackedPins(b, t, p);
    StrippedReads(b, t, p);
  }

  // ----------------------------------------------------- from store to store

  /** `Store.Import` on bundle bytes. */
  ghost function ImportBundle(b: BundleCodec, s: Store, bundle: Bytes, newName: string, now: string): Result<Store> {
    match Read(b, bundle)
    case Err(e) => Err(e)
    case Ok(i) => Import(b.files, s, i.template, i.provenance.source, newName, now)
  }

  method ImportInto(b: BundleCodec, store: TemplateStore, bundle: Bytes, newName: string, now: string)
    returns (ok: bool)
    requires store.codec == b.files
    modifies store
    ensures var spec := ImportBundle(b, old(store.dirs), bundle, newName, now);
      ok == spec.Ok? && store.dirs == (if ok then spec.value else old(store.dirs))
  {
    var r := ReadBundle(b, bundle);
    if r.Err? { return false; }
    ok := store.ImportTemplate(r.value.template, r.value.provenance.source, newName, now);
  }

  lemma ValidHasName(t: Template)
    requires Valid(t)
    ensures t.name != ""
  {
    assert !Has(t, NameRequired);
  }

  /** `u` is `t` under `name`, imported: the digest is kept exactly when the name is (short
      of an exhibited collision), the lineage starts afresh, and the origin is remembered. */
  predicate Arrived(c: Codec, t: Template, u: Template, name: string) {
    && u.name == name
    && (name == t.name ==> ContentDigest(c, u) == ContentDigest(c, t))
    && (ContentDigest(c, u) == ContentDigest(c, t) ==>
          name == t.name || Collision(c.sha, c.yaml(Definition(u)), c.yaml(Definition(t))))
    && u.lineage == Some(Lineage(1, "", ContentDigest(c, u)))
    && u.source.Some? && u.source.value.kind == "imported"
    && (t.source.Some? ==>
          u.source.value.parent == t.source.value.parent && u.source.value.forkedFrom == t.source.value.forkedFrom)
  }

  lemma PutThenGet(c: Codec, s: Store, name: string, t: Template, now: string)
    requires Faithful(c) && t.name != ""
    ensures Get(c, Put(c, s, name, t, now), name) == Some(t)
  {
    assert c.unyaml(c.yaml(t)) == Some(t);
  }

  lemma ImportedArrives(c: Codec, t: Template, name: string, now: string)
    requires Faithful(c)
    ensures Arrived(c, t, Imported(c, t, t.source, name, now), name)
  {
    ImportDigest(c, t, t.source, name, now);
  }

  /** From the exporting store to the importing one. */
  lemma TravelsWithDigest(b: BundleCodec, t: Template, exported: string, s: Store, newName: string, now: string,
                          name: string)
    requires Sound(b) && Valid(t)
    requires !BlobsCollide(b, t, ProvenanceOf(b, t, exported))
    requires name == (if newName == "" then t.name else newName) && Get(b.files, s, name).None?
    ensures var r := ImportBundle(b, s, b.tar(Packed(b, t, ProvenanceOf(b, t, exported))), newName, now);
      r.Ok? && Get(b.files, r.value, name).Some? && Arrived(b.files, t, Get(b.files, r.value, name).value, name)
  {
    PackThenRead(b, t, ProvenanceOf(b, t, exported));
    ValidHasName(t);
    ImportedArrives(b.files, t, name, now);
    PutThenGet(b.files, s, name, Imported(b.files, t, t.source, name, now), now);
  }
}
