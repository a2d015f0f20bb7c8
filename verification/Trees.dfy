/** Workspace trees: directories and regular files, read in name order the way
    `os.ReadDir` and `filepath.Walk` do, with the copy routines of the snapshot package. */
module Trees {
  import opened Wrappers
  import opened Seqs
  import opened GoStrings

  datatype Tree = File(data: Bytes) | Dir(entries: seq<Entry>)
  datatype Entry = Entry(name: string, node: Tree)

  predicate Sorted(es: seq<Entry>) {
    forall i, j :: 0 <= i < j < |es| ==> Less(es[i].name, es[j].name)
  }

  /** A tree as a file system shows it: every directory listed in name order. */
  predicate WellFormed(t: Tree) {
    match t
    case File(_) => true
    case Dir(es) => Sorted(es) && forall i :: 0 <= i < |es| ==> WellFormed(es[i].node)
  }

  // ------------------------------------------------------- walks over trees

  /** The bytes of all files in walk order: what `dirHash` feeds to the hash. */
  function WalkBytes(t: Tree): Bytes {
    match t
    case File(d) => d
    case Dir(es) => EntriesBytes(es)
  }

  function EntriesBytes(es: seq<Entry>): Bytes {
    if es == [] then [] else EntriesBytes(es[..|es| - 1]) + WalkBytes(es[|es| - 1].node)
  }

  function Size(t: Tree): nat {
    match t
    case File(d) => |d|
    case Dir(es) => EntriesSize(es)
  }

  function EntriesSize(es: seq<Entry>): nat {
    if es == [] then 0 else EntriesSize(es[..|es| - 1]) + Size(es[|es| - 1].node)
  }

  // -------------------------------------------------- directories, in place

  function Find(es: seq<Entry>, name: string): Option<Tree> {
    if es == [] then None
    else if es[0].name == name then Some(es[0].node)
    else Find(es[1..], name)
  }

  /** Creates or replaces one entry, keeping the listing in order. */
  function Put(es: seq<Entry>, name: string, node: Tree): seq<Entry> {
    if es == [] then [Entry(name, node)]
    else if es[0].name == name then [Entry(name, node)] + es[1..]
    else if Less(name, es[0].name) then [Entry(name, node)] + es
    else [es[0]] + Put(es[1..], name, node)
  }

  /** `copyDir(src, dst)`: directories merge, files overwrite files, and a file where a
      directory is wanted (or the reverse) is an error. */
  function Overlay(src: Tree, dst: Option<Tree>): Option<Tree> {
    match src
    case File(_) => None
    case Dir(es) =>
      match OverlayEntries(es, if dst.None? then Dir([]) else dst.value)
      case None => None
      case Some(out) => Some(Dir(out))
  }

  function OverlayEntries(es: seq<Entry>, base: Tree): Option<seq<Entry>> {
    match base
    case File(_) => None
    case Dir(old_) =>
      if es == [] then Some(old_)
      else
        match OverlayEntries(es[..|es| - 1], base)
        case None => None
        case Some(out) =>
          var e := es[|es| - 1];
          match e.node
          case Dir(_) =>
            (match Overlay(e.node, Find(out, e.name))
             case None => None
             case Some(t) => Some(Put(out, e.name, t)))
          case File(_) =>
            var there := Find(out, e.name);
            if there.Some? && there.value.Dir? then None else Some(Put(out, e.name, e.node))
  }

  /** `copyDir`: recreates `src` entry by entry inside `dst`, adding up file sizes. */
  method CopyDir(src: Tree, dst: Option<Tree>) returns (out: Option<Tree>, total: nat)
    ensures out == Overlay(src, dst)
    ensures out.Some? ==> total == Size(src)
    decreases src
  {
    out, total := None, 0;
    if src.File? { return; }
    var base := if dst.None? then Dir([]) else dst.value;
    if base.File? { return; }
    var es, made := src.entries, base.entries;
    for i := 0 to |es|
      invariant OverlayEntries(es[..i], base) == Some(made)
      invariant total == EntriesSize(es[..i])
    {
      TakeMore(es, i);
      var e := es[i];
      match e.node {
        case Dir(_) =>
          var sub, size := CopyDir(e.node, Find(made, e.name));
          if sub.None? {
            OverlayFails(es, i + 1, base);
            return;
          }
          made := Put(made, e.name, sub.value);
          total := total + size;
        case File(data) =>
          var there := Find(made, e.name);
          if there.Some? && there.value.Dir? {
            OverlayFails(es, i + 1, base);
            return;
          }
          made := Put(made, e.name, File(data));
          total := total + |data|;
      }
    }
    assert es[..|es|] == es;
    out := Some(Dir(made));
  }

  /** An entry that cannot be copied stops the whole copy. */
  lemma {:induction false} OverlayFails(es: seq<Entry>, n: nat, base: Tree)
    requires n <= |es| && OverlayEntries(es[..n], base).None?
    ensures OverlayEntries(es, base).None?
  {
    if n == |es| {
      assert es[..n] == es;
    } else {
      assert es[..|es| - 1][..n] == es[..n];
      OverlayFails(es[..|es| - 1], n, base);
    }
  }

  // ------------------------------------------------- copying reproduces trees

  lemma {:induction false} FindAbsent(es: seq<Entry>, name: string)
    requires forall i :: 0 <= i < |es| ==> es[i].name != name
    ensures Find(es, name).None?
  {
    if es != [] { FindAbsent(es[1..], name); }
  }

  lemma {:induction false} PutLast(es: seq<Entry>, name: string, node: Tree)
    requires forall i :: 0 <= i < |es| ==> Less(es[i].name, name)
    ensures Put(es, name, node) == es + [Entry(name, node)]
  {
    if es != [] {
      LessIsTotal(es[0].name, name);
      LessIsTotal(name, name);
      PutLast(es[1..], name, node);
      assert [es[0]] + (es[1..] + [Entry(name, node)]) == es + [Entry(name, node)];
    }
  }

  lemma {:induction false} EntriesReproduced(es: seq<Entry>, n: nat)
    requires WellFormed(Dir(es)) && n <= |es|
    ensures OverlayEntries(es[..n], Dir([])) == Some(es[..n])
    decreases es, n
  {
    if n > 0 {
      var e, front := es[n - 1], es[..n - 1];
      EntriesReproduced(es, n - 1);
      TakeMore(es, n - 1);
      forall i | 0 <= i < |front| ensures Less(front[i].name, e.name) && front[i].name != e.name {
        LessIsTotal(e.name, e.name);
      }
      FindAbsent(front, e.name);
      PutLast(front, e.name, e.node);
      if e.node.Dir? {
        EntriesReproduced(e.node.entries, |e.node.entries|);
        assert e.node.entries[..|e.node.entries|] == e.node.entries;
      }
      assert front + [e] == es[..n];
    }
  }

  /** `copyDir` into an absent or empty directory reproduces the tree exactly. */
  lemma CopyReproduces(src: Tree)
    requires WellFormed(src) && src.Dir?
    ensures Overlay(src, None) == Some(src)
    ensures Overlay(src, Some(Dir([]))) == Some(src)
  {
    EntriesReproduced(src.entries, |src.entries|);
    assert src.entries[..|src.entries|] == src.entries;
  }

  /** A snapshot's size is the number of bytes its hash is taken over. */
  lemma {:induction false} SizeIsWalkLength(t: Tree)
    ensures Size(t) == |WalkBytes(t)|
  {
    if t.Dir? { EntriesSizeIsWalkLength(t.entries); }
  }

  lemma {:induction false} EntriesSizeIsWalkLength(es: seq<Entry>)
    ensures EntriesSize(es) == |EntriesBytes(es)|
  {
    if es != [] {
      EntriesSizeIsWalkLength(es[..|es| - 1]);
      SizeIsWalkLength(es[|es| - 1].node);
    }
  }

  // ---------------------------------------------------------------- reflink

  /** Which files the file system agrees to clone, by path. */
  type Clonable = seq<string> -> bool

  predicate AllClonable(path: seq<string>, es: seq<Entry>, clone: Clonable) {
    forall i :: 0 <= i < |es| ==> NodeClonable(path + [es[i].name], es[i].node, clone)
  }

  predicate NodeClonable(path: seq<string>, t: Tree, clone: Clonable)
    decreases t, 0
  {
    match t
    case File(_) => clone(path)
    case Dir(es) => forall i :: 0 <= i < |es| ==> NodeClonable(path + [es[i].name], es[i].node, clone)
  }

  /** The walk inside `tryReflink`: clones file after file and stops at the first one
      that fails.  It then leaves whole clones of the entries before entry `at`, and of
      that one what was made so far (on Linux the failing file is created but empty). */
  method CloneWalk(path: seq<string>, es: seq<Entry>, clone: Clonable)
    returns (ok: bool, made: seq<Entry>, total: nat, at: nat)
    ensures ok <==> AllClonable(path, es, clone)
    ensures ok ==> made == es && total == EntriesSize(es)
    ensures !ok ==>
      && at < |es| && AllClonable(path, es[..at], clone) && !NodeClonable(path + [es[at].name], es[at].node, clone)
      && |made| == at + 1 && made[..at] == es[..at] && made[at].name == es[at].name
    decreases es
  {
    ok, made, total, at := true, [], 0, 0;
    while at < |es|
      invariant ok && at <= |es|
      invariant made == es[..at] && total == EntriesSize(es[..at])
      invariant forall j :: 0 <= j < at ==> NodeClonable(path + [es[j].name], es[j].node, clone)
    {
      TakeMore(es, at);
      var e := es[at];
      var here := path + [e.name];
      match e.node {
        case Dir(sub) =>
          var subOk, subMade, size, _ := CloneWalk(here, sub, clone);
          made := made + [Entry(e.name, Dir(subMade))];
          if !subOk {
            ok := false;
            return;
          }
          total := total + size;
        case File(data) =>
          if !clone(here) {
            made := made + [Entry(e.name, File([]))];
            ok := false;
            return;
          }
          made := made + [e];
          total := total + |data|;
      }
      at := at + 1;
    }
    assert es[..|es|] == es;
  }

  /** `tryReflink`, on the staging directory `MkdirTemp` made.  A failed walk removes it. */
  method TryReflink(supported: bool, src: Option<Tree>, clone: Clonable)
    returns (size: Option<nat>, staging: Option<Tree>)
    ensures size.Some? <==> supported && src.Some? && src.value.Dir? && AllClonable([], src.value.entries, clone)
    ensures size.Some? ==> staging == src && size.value == Size(src.value)
    ensures size.None? ==> staging.None? || staging == Some(Dir([]))
  {
    if !supported || src.None? || src.value.File? {
      return None, Some(Dir([]));
    }
    var ok, made, total, _ := CloneWalk([], src.value.entries, clone);
    if !ok {
      return None, None;
    }
    size, staging := Some(total), Some(Dir(made));
  }

  /** The first half of `Create`: reflink, and on failure a plain copy.  However far the
      reflink got, the staged tree and the reported size are those of a copy that never
      tried it. */
  method StageWorkspace(supported: bool, src: Option<Tree>, clone: Clonable)
    returns (staging: Option<Tree>, size: nat, how: string)
    requires src.Some? ==> WellFormed(src.value)
    ensures staging.Some? <==> src.Some? && src.value.Dir?
    ensures staging.Some? ==> staging == src && size == Size(src.value)
    ensures staging.Some? ==>
      how == if supported && AllClonable([], src.value.entries, clone) then "reflink" else "tar"
  {
    var total;
    how, size := "", 0;
    total, staging := TryReflink(supported, src, clone);
    if total.Some? {
      size, how := total.value, "reflink";
    } else if src.None? {
      staging := None;
    } else {
      if src.value.Dir? { CopyReproduces(src.value); }
      staging, size := CopyDir(src.value, staging);
      how := "tar";
    }
  }
}
