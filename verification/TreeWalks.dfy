/** What the tree routines mean path by path: the order in which a walk meets the files, what
    a copy leaves at each path, and which files a reflink needs. */
module TreeWalks {
  import opened Wrappers
  import opened Seqs
  import opened GoStrings
  import opened Trees
  import opened TreeWrites

  type Path = seq<string>

  /** What is at a path below `t`. */
  function At(t: Tree, p: Path): Option<Tree>
    decreases |p|
  {
    if p == [] then Some(t)
    else if t.File? then None
    else match Find(t.entries, p[0])
      case None => None
      case Some(u) => At(u, p[1..])
  }

  /** Component by component, a directory before what is in it. */
  predicate PathLess(a: Path, b: Path) {
    b != [] && (a == [] || Less(a[0], b[0]) || (a[0] == b[0] && PathLess(a[1..], b[1..])))
  }

  datatype Item = Item(path: Path, data: Bytes)

  predicate InOrder(fs: seq<Item>) { forall i, j :: 0 <= i < j < |fs| ==> PathLess(fs[i].path, fs[j].path) }

  /** The files of `t`, each with its path and its data, and nothing else. */
  ghost predicate FilesOf(t: Tree, fs: seq<Item>) {
    forall p, d :: Item(p, d) in fs <==> At(t, p) == Some(File(d))
  }

  function Concat(fs: seq<Item>): Bytes {
    if fs == [] then [] else Concat(fs[..|fs| - 1]) + fs[|fs| - 1].data
  }

  lemma {:induction false} ConcatSplit(a: seq<Item>, b: seq<Item>)
    ensures Concat(a + b) == Concat(a) + Concat(b)
  {
    if b == [] {
      assert a + b == a && Concat(a) + [] == Concat(a);
    } else {
      var front, last := b[..|b| - 1], b[|b| - 1];
      ConcatSplit(a, front);
      assert (a + b)[..|a + b| - 1] == a + front;
      Regroup(Concat(a), Concat(front), last.data);
    }
  }

  // ------------------------------------------------------------------ walks

  function Below(name: string, fs: seq<Item>): (r: seq<Item>)
    ensures |r| == |fs| && forall i :: 0 <= i < |fs| ==> r[i] == Item([name] + fs[i].path, fs[i].data)
  {
    seq(|fs|, i requires 0 <= i < |fs| => Item([name] + fs[i].path, fs[i].data))
  }

  lemma {:induction false} ConcatBelow(name: string, fs: seq<Item>)
    ensures Concat(Below(name, fs)) == Concat(fs)
  {
    if fs != [] {
      ConcatBelow(name, fs[..|fs| - 1]);
      assert Below(name, fs)[..|fs| - 1] == Below(name, fs[..|fs| - 1]);
    }
  }

  lemma BelowMembers(name: string, fs: seq<Item>, p: Path, d: Bytes)
    ensures Item(p, d) in Below(name, fs) <==> p != [] && p[0] == name && Item(p[1..], d) in fs
  {
    var r := Below(name, fs);
    if Item(p, d) in r {
      var i :| 0 <= i < |r| && r[i] == Item(p, d);
      assert p[1..] == fs[i].path;
    }
    if p != [] && p[0] == name && Item(p[1..], d) in fs {
      var i :| 0 <= i < |fs| && fs[i] == Item(p[1..], d);
      assert [name] + p[1..] == p && r[i] == Item(p, d);
    }
  }

  lemma BelowInOrder(name: string, fs: seq<Item>)
    requires InOrder(fs)
    ensures InOrder(Below(name, fs))
  {
    var r := Below(name, fs);
    forall i, j | 0 <= i < j < |r| ensures PathLess(r[i].path, r[j].path) {
      assert r[i].path[1..] == fs[i].path && r[j].path[1..] == fs[j].path;
    }
  }

  /** In a listed directory the last entry is found under its name only. */
  lemma {:induction false} FindLast(es: seq<Entry>, name: string)
    requires es != [] && Sorted(es)
    ensures Find(es, name) == if name == es[|es| - 1].name then Some(es[|es| - 1].node) else Find(es[..|es| - 1], name)
  {
    var last := |es| - 1;
    if |es| > 1 {
      LessIsTotal(es[0].name, es[last].name);
      FindLast(es[1..], name);
      assert es[1..][..last - 1] == es[..last][1..];
    } else {
      assert es[1..] == [] && es[..0] == [];
    }
  }

  /** The files below a listing. */
  ghost predicate FilesIn(es: seq<Entry>, fs: seq<Item>) {
    forall p, d :: Item(p, d) in fs <==>
      p != [] && Find(es, p[0]).Some? && At(Find(es, p[0]).value, p[1..]) == Some(File(d))
  }

  /** Walking a directory meets its files in the order of their paths, and what is hashed is
      their contents one after the other. */
  lemma {:induction false} WalkIsPathOrder(t: Tree) returns (fs: seq<Item>)
    requires WellFormed(t)
    ensures FilesOf(t, fs) && InOrder(fs) && WalkBytes(t) == Concat(fs)
    decreases t, 0
  {
    match t
    case File(data) =>
      fs := [Item([], data)];
      assert fs[..0] == [] && Concat(fs[..0]) == [];
      assert Concat(fs) == [] + data == data;
    case Dir(es) =>
      fs := EntriesInOrder(es, |es|);
      TakeAll(es, |es|);
      forall p, d ensures Item(p, d) in fs <==> At(t, p) == Some(File(d)) { }
  }

  lemma {:induction false} EntriesInOrder(es: seq<Entry>, n: nat) returns (fs: seq<Item>)
    requires WellFormed(Dir(es)) && n <= |es|
    ensures FilesIn(es[..n], fs) && InOrder(fs) && EntriesBytes(es[..n]) == Concat(fs)
    decreases es, n
  {
    if n == 0 {
      fs := [];
    } else {
      var e := es[n - 1];
      var front := EntriesInOrder(es, n - 1);
      var sub := WalkIsPathOrder(e.node);
      TakeMore(es, n - 1);
      fs := front + Below(e.name, sub);
      JoinedFiles(es, n, front, sub);
      JoinedInOrder(es, n, front, sub);
      ConcatSplit(front, Below(e.name, sub));
      ConcatBelow(e.name, sub);
    }
  }

  lemma JoinedFiles(es: seq<Entry>, n: nat, front: seq<Item>, sub: seq<Item>)
    requires Sorted(es) && 0 < n <= |es| && FilesIn(es[..n - 1], front) && FilesOf(es[n - 1].node, sub)
    ensures FilesIn(es[..n], front + Below(es[n - 1].name, sub))
  {
    var e, fs := es[n - 1], front + Below(es[n - 1].name, sub);
    assert es[..n][..n - 1] == es[..n - 1];
    forall p, d
      ensures Item(p, d) in fs <==>
        p != [] && Find(es[..n], p[0]).Some? && At(Find(es[..n], p[0]).value, p[1..]) == Some(File(d))
    {
      BelowMembers(e.name, sub, p, d);
      if p != [] {
        FindLast(es[..n], p[0]);
        if p[0] == e.name { NotInFront(es, n, front, p, d); }
      }
    }
  }

  lemma NotInFront(es: seq<Entry>, n: nat, front: seq<Item>, p: Path, d: Bytes)
    requires Sorted(es) && 0 < n <= |es| && FilesIn(es[..n - 1], front) && p != [] && p[0] == es[n - 1].name
    ensures Item(p, d) !in front
  {
    var shorter := es[..n - 1];
    forall i | 0 <= i < |shorter| ensures shorter[i].name != p[0] { LessIsTotal(p[0], p[0]); }
    FindAbsent(shorter, p[0]);
  }

  lemma {:induction false} FindNamed(es: seq<Entry>, name: string)
    requires Find(es, name).Some?
    ensures exists i :: 0 <= i < |es| && es[i].name == name
  {
    if es[0].name != name {
      FindNamed(es[1..], name);
      var i :| 0 <= i < |es[1..]| && es[1..][i].name == name;
      assert es[i + 1].name == name;
    }
  }

  lemma JoinedInOrder(es: seq<Entry>, n: nat, front: seq<Item>, sub: seq<Item>)
    requires Sorted(es) && 0 < n <= |es| && FilesIn(es[..n - 1], front) && InOrder(front) && InOrder(sub)
    ensures InOrder(front + Below(es[n - 1].name, sub))
  {
    var e, b := es[n - 1], Below(es[n - 1].name, sub);
    BelowInOrder(e.name, sub);
    forall i, j | 0 <= i < |front| && 0 <= j < |b| ensures PathLess(front[i].path, b[j].path) {
      assert Item(front[i].path, front[i].data) in front;
      FindNamed(es[..n - 1], front[i].path[0]);
    }
  }

  // ----------------------------------------------------------------- copies

  /** A file where the other tree has a directory. */
  predicate Clash(src: Tree, dst: Option<Tree>, p: Path) {
    && At(src, p).Some? && dst.Some? && At(dst.value, p).Some?
    && At(src, p).value.File? != At(dst.value, p).value.File?
  }

  /** What a copied entry leaves. */
  function Placed(node: Tree, there: Option<Tree>): Option<Tree> {
    match node
    case Dir(_) => Overlay(node, there)
    case File(_) => if there.Some? && there.value.Dir? then None else Some(node)
  }

  lemma OverlayOneMore(es: seq<Entry>, base: seq<Entry>)
    requires es != []
    ensures var out, e := OverlayEntries(es[..|es| - 1], Dir(base)), es[|es| - 1];
      OverlayEntries(es, Dir(base)) ==
        if out.None? || Placed(e.node, Find(out.value, e.name)).None? then None
        else Some(Put(out.value, e.name, Placed(e.node, Find(out.value, e.name)).value))
  {
  }

  /** Each name of the source is placed on what the destination had of that name, and the
      other names stay. */
  lemma {:induction false} OverlayFind(es: seq<Entry>, base: seq<Entry>, name: string)
    requires Sorted(es) && OverlayEntries(es, Dir(base)).Some?
    ensures Find(OverlayEntries(es, Dir(base)).value, name) ==
      match Find(es, name)
      case None => Find(base, name)
      case Some(u) => Placed(u, Find(base, name))
  {
    if es != [] {
      var front, e := es[..|es| - 1], es[|es| - 1];
      OverlayOneMore(es, base);
      var out := OverlayEntries(front, Dir(base)).value;
      OverlayFind(front, base, name);
      OverlayFind(front, base, e.name);
      FindLast(es, name);
      FrontHasNot(es);
      FindPut(out, e.name, Placed(e.node, Find(out, e.name)).value, name);
    }
  }

  predicate AllPlaced(es: seq<Entry>, base: seq<Entry>) {
    forall i :: 0 <= i < |es| ==> Placed(es[i].node, Find(base, es[i].name)).Some?
  }

  /** One entry that cannot be placed fails the copy. */
  lemma {:induction false} OverlaysIff(es: seq<Entry>, base: seq<Entry>)
    requires Sorted(es)
    ensures OverlayEntries(es, Dir(base)).Some? <==> AllPlaced(es, base)
  {
    if es != [] {
      var front, e := es[..|es| - 1], es[|es| - 1];
      OverlayOneMore(es, base);
      OverlaysIff(front, base);
      assert AllPlaced(es, base) <==> AllPlaced(front, base) && Placed(e.node, Find(base, e.name)).Some? by {
        assert forall i :: 0 <= i < |front| ==> es[i] == front[i];
      }
      if OverlayEntries(front, Dir(base)).Some? {
        OverlayFind(front, base, e.name);
        FrontHasNot(es);
      }
    }
  }

  lemma FrontHasNot(es: seq<Entry>)
    requires es != [] && Sorted(es)
    ensures Find(es[..|es| - 1], es[|es| - 1].name).None?
  {
    var front, name := es[..|es| - 1], es[|es| - 1].name;
    forall i | 0 <= i < |front| ensures front[i].name != name { LessIsTotal(name, name); }
    FindAbsent(front, name);
  }

  function EntriesOf(dst: Option<Tree>): seq<Entry> {
    if dst.Some? && dst.value.Dir? then dst.value.entries else []
  }

  /** One level of a copy that succeeds. */
  lemma OverlayBelow(src: Tree, dst: Option<Tree>, name: string)
    requires WellFormed(src) && src.Dir? && Overlay(src, dst).Some?
    ensures var out, there := Overlay(src, dst).value, Find(EntriesOf(dst), name);
      && out.Dir?
      && (Find(src.entries, name).None? ==> Find(out.entries, name) == there)
      && (Find(src.entries, name).Some? ==>
            var u := Find(src.entries, name).value;
            WellFormed(u) && Placed(u, there).Some? && Find(out.entries, name) == Placed(u, there))
  {
    OverlayFind(src.entries, EntriesOf(dst), name);
    OverlaysIff(src.entries, EntriesOf(dst));
    if Find(src.entries, name).Some? { EntryWellFormed(src, name); }
  }

  /** A copy that succeeds leaves at every path the source's file or directory, and where the
      source has nothing, what was there. */
  lemma {:induction false} OverlayAt(src: Tree, dst: Option<Tree>, p: Path)
    requires WellFormed(src) && src.Dir? && Overlay(src, dst).Some?
    ensures var out := At(Overlay(src, dst).value, p);
      match At(src, p)
      case None => out == (if dst.Some? then At(dst.value, p) else None)
      case Some(u) => out.Some? && (if u.File? then out == Some(u) else out.value.Dir?)
    decreases |p|
  {
    if p != [] {
      OverlayBelow(src, dst, p[0]);
      var u := Find(src.entries, p[0]);
      if u.Some? && u.value.Dir? {
        OverlayAt(u.value, Find(EntriesOf(dst), p[0]), p[1..]);
      }
    }
  }

  lemma EntryWellFormed(t: Tree, name: string)
    requires WellFormed(t) && t.Dir? && Find(t.entries, name).Some?
    ensures WellFormed(Find(t.entries, name).value)
    ensures exists i :: 0 <= i < |t.entries| && t.entries[i] == Entry(name, Find(t.entries, name).value)
  {
    FindNamed(t.entries, name);
    var i :| 0 <= i < |t.entries| && t.entries[i].name == name;
    PutBack(t.entries, i);
    assert t.entries[i] == Entry(name, Find(t.entries, name).value);
  }

  /** And it succeeds exactly when nowhere a file meets a directory. */
  lemma {:induction false} OverlayIff(src: Tree, dst: Option<Tree>)
    requires WellFormed(src) && src.Dir?
    ensures Overlay(src, dst).Some? <==> forall p :: !Clash(src, dst, p)
    decreases src
  {
    if dst.Some? && dst.value.File? {
      assert Clash(src, dst, []);
    } else {
      var es, base := src.entries, if dst.None? then [] else dst.value.entries;
      OverlaysIff(es, base);
      if i :| 0 <= i < |es| && Placed(es[i].node, Find(base, es[i].name)).None? {
        var p := ClashBelow(src, dst, i);
      } else {
        forall p ensures !Clash(src, dst, p) {
          if p != [] && Find(es, p[0]).Some? && dst.Some? && Find(base, p[0]).Some? {
            EntryWellFormed(src, p[0]);
            var i :| 0 <= i < |es| && es[i] == Entry(p[0], Find(es, p[0]).value);
            if es[i].node.Dir? { OverlayIff(es[i].node, Find(base, p[0])); }
            PlacedNoClash(es[i].node, Find(base, p[0]), p[1..]);
          }
        }
      }
    }
  }

  lemma PlacedNoClash(node: Tree, there: Option<Tree>, p: Path)
    requires Placed(node, there).Some?
    requires node.Dir? ==> forall q :: !Clash(node, there, q)
    ensures !Clash(node, there, p)
  {
  }

  lemma {:induction false} ClashBelow(src: Tree, dst: Option<Tree>, i: nat) returns (p: Path)
    requires WellFormed(src) && src.Dir? && i < |src.entries| && (dst.Some? ==> dst.value.Dir?)
    requires var base := if dst.None? then [] else dst.value.entries;
      Placed(src.entries[i].node, Find(base, src.entries[i].name)).None?
    ensures Clash(src, dst, p)
    decreases src, 0
  {
    var e := src.entries[i];
    var there := if dst.None? then None else Find(dst.value.entries, e.name);
    PutBack(src.entries, i);
    var q: Path := [];
    if e.node.Dir? {
      q := FindClash(e.node, there);
    }
    p := [e.name] + q;
    assert p[1..] == q;
  }

  lemma {:induction false} FindClash(src: Tree, dst: Option<Tree>) returns (p: Path)
    requires WellFormed(src) && src.Dir? && Overlay(src, dst).None?
    ensures Clash(src, dst, p)
    decreases src, 1
  {
    if dst.Some? && dst.value.File? {
      p := [];
    } else {
      var base := if dst.None? then [] else dst.value.entries;
      OverlaysIff(src.entries, base);
      var i :| 0 <= i < |src.entries| && Placed(src.entries[i].node, Find(base, src.entries[i].name)).None?;
      p := ClashBelow(src, dst, i);
    }
  }

  // ---------------------------------------------------------------- reflink

  predicate FileAt(t: Tree, p: Path) { At(t, p).Some? && At(t, p).value.File? }

  /** A tree can be cloned exactly when every file in it can. */
  lemma {:induction false} ClonableIff(path: Path, t: Tree, clone: Clonable)
    requires WellFormed(t)
    ensures NodeClonable(path, t, clone) <==> forall p :: FileAt(t, p) ==> clone(path + p)
    decreases t
  {
    match t
    case File(_) => assert path + [] == path && FileAt(t, []);
    case Dir(es) =>
      forall i | 0 <= i < |es|
        ensures NodeClonable(path + [es[i].name], es[i].node, clone) <==>
          forall p :: FileAt(es[i].node, p) ==> clone(path + [es[i].name] + p)
      {
        ClonableIff(path + [es[i].name], es[i].node, clone);
      }
      forall i, p | 0 <= i < |es| && FileAt(es[i].node, p)
        ensures FileAt(t, [es[i].name] + p) && path + ([es[i].name] + p) == path + [es[i].name] + p
      {
        FileBelow(es, i, p);
        Regroup(path, [es[i].name], p);
      }
      forall p | FileAt(t, p)
        ensures exists i :: 0 <= i < |es| && FileAt(es[i].node, p[1..]) && path + p == path + [es[i].name] + p[1..]
      {
        var i := FileFrom(es, p);
        HeadTail(p);
        Regroup(path, [es[i].name], p[1..]);
      }
  }

  lemma FileBelow(es: seq<Entry>, i: nat, p: Path)
    requires Sorted(es) && i < |es| && FileAt(es[i].node, p)
    ensures FileAt(Dir(es), [es[i].name] + p)
  {
    PutBack(es, i);
    assert ([es[i].name] + p)[1..] == p;
  }

  lemma FileFrom(es: seq<Entry>, p: Path) returns (i: nat)
    requires Sorted(es) && FileAt(Dir(es), p)
    ensures p != [] && i < |es| && es[i].name == p[0] && FileAt(es[i].node, p[1..])
  {
    FindNamed(es, p[0]);
    i :| 0 <= i < |es| && es[i].name == p[0];
    PutBack(es, i);
  }
}
