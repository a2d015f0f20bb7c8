/** `copyDir` as the writes it makes, one directory or file at a time, and what they do to a
    destination that others may be writing too. */
module TreeWrites {
  import opened Wrappers
  import opened Seqs
  import opened GoStrings
  import opened Trees

  /** os.MkdirAll and os.WriteFile at a path below the destination. */
  datatype Write = MakeDir(path: seq<string>) | WriteFile(path: seq<string>, data: Bytes)

  /** One write on what is at the destination; None when it fails.  MkdirAll makes missing
      parents, WriteFile does not. */
  function Do(dst: Option<Tree>, w: Write): Option<Tree>
    decreases |w.path|
  {
    if w.path == [] then
      match w
      case MakeDir(_) => if dst.None? then Some(Dir([])) else if dst.value.Dir? then dst else None
      case WriteFile(_, data) => if dst.Some? && dst.value.Dir? then None else Some(File(data))
    else if dst.None? then (if w.MakeDir? then DoBelow([], w) else None)
    else if dst.value.File? then None
    else DoBelow(dst.value.entries, w)
  }

  function DoBelow(es: seq<Entry>, w: Write): Option<Tree>
    requires w.path != []
    decreases |w.path|, 0
  {
    match Do(Find(es, w.path[0]), w.(path := w.path[1..]))
    case None => None
    case Some(t) => Some(Dir(Put(es, w.path[0], t)))
  }

  /** The first write that fails ends it. */
  function DoAll(dst: Option<Tree>, ws: seq<Write>): Option<Tree>
    decreases |ws|
  {
    if ws == [] then dst
    else
      match Do(dst, ws[0])
      case None => None
      case Some(t) => DoAll(Some(t), ws[1..])
  }

  function Under(name: string, ws: seq<Write>): (r: seq<Write>)
    ensures |r| == |ws| && forall i :: 0 <= i < |ws| ==> r[i] == ws[i].(path := [name] + ws[i].path)
  {
    seq(|ws|, i requires 0 <= i < |ws| => ws[i].(path := [name] + ws[i].path))
  }

  /** What `copyDir` writes, in order. */
  function WritesOf(t: Tree): (r: seq<Write>)
    ensures r != []
  {
    match t
    case File(data) => [WriteFile([], data)]
    case Dir(es) => [MakeDir([])] + EntryWrites(es)
  }

  function EntryWrites(es: seq<Entry>): seq<Write> {
    if es == [] then []
    else EntryWrites(es[..|es| - 1]) + Under(es[|es| - 1].name, WritesOf(es[|es| - 1].node))
  }

  // ------------------------------------------------------------ directories

  lemma {:induction false} FindPut(es: seq<Entry>, name: string, t: Tree, other: string)
    ensures Find(Put(es, name, t), other) == if other == name then Some(t) else Find(es, other)
  {
    if es == [] {
      assert [Entry(name, t)][1..] == [];
    } else if es[0].name == name {
      assert ([Entry(name, t)] + es[1..])[1..] == es[1..];
    } else if Less(name, es[0].name) {
      assert ([Entry(name, t)] + es)[1..] == es;
    } else {
      FindPut(es[1..], name, t, other);
      assert ([es[0]] + Put(es[1..], name, t))[1..] == Put(es[1..], name, t);
    }
  }

  lemma {:induction false} PutTwice(es: seq<Entry>, name: string, t: Tree, u: Tree)
    ensures Put(Put(es, name, t), name, u) == Put(es, name, u)
  {
    if es == [] {
      assert [Entry(name, t)][1..] == [];
    } else if es[0].name == name {
      assert ([Entry(name, t)] + es[1..])[1..] == es[1..];
    } else if Less(name, es[0].name) {
      assert ([Entry(name, t)] + es)[1..] == es;
    } else {
      PutTwice(es[1..], name, t, u);
      assert ([es[0]] + Put(es[1..], name, t))[1..] == Put(es[1..], name, t);
    }
  }

  /** In a listed directory an entry is found by its name, and putting it back changes
      nothing. */
  lemma {:induction false} PutBack(es: seq<Entry>, i: nat)
    requires Sorted(es) && i < |es|
    ensures Find(es, es[i].name) == Some(es[i].node) && Put(es, es[i].name, es[i].node) == es
  {
    LessIsTotal(es[0].name, es[i].name);
    HeadTail(es);
    if i > 0 {
      PutBack(es[1..], i - 1);
    }
  }

  // ----------------------------------------------------- writes and overlays

  lemma {:induction false} DoAllConcat(dst: Option<Tree>, a: seq<Write>, b: seq<Write>)
    requires a != []
    ensures DoAll(dst, a + b) == if DoAll(dst, a).None? then None else DoAll(DoAll(dst, a), b)
    decreases |a|
  {
    ConsTail(a, b);
    if |a| == 1 {
      assert a[1..] == [] && a[1..] + b == b;
    } else if Do(dst, a[0]).Some? {
      DoAllConcat(Do(dst, a[0]), a[1..], b);
    }
  }

  /** Writes below one entry act on that entry. */
  lemma {:induction false} Focus(es: seq<Entry>, name: string, ws: seq<Write>)
    requires ws != []
    ensures DoAll(Some(Dir(es)), Under(name, ws)) ==
      match DoAll(Find(es, name), ws)
      case None => None
      case Some(t) => Some(Dir(Put(es, name, t)))
    decreases |ws|
  {
    var us := Under(name, ws);
    UnderFirst(es, name, ws);
    match Do(Find(es, name), ws[0])
    case None =>
    case Some(t) =>
      assert us[1..] == Under(name, ws[1..]);
      if |ws| == 1 {
        assert ws[1..] == [] && us[1..] == [];
      } else {
        Focus(Put(es, name, t), name, ws[1..]);
        FindPut(es, name, t, name);
        PutAgain(es, name, t, DoAll(Some(t), ws[1..]));
      }
  }

  lemma UnderFirst(es: seq<Entry>, name: string, ws: seq<Write>)
    requires ws != []
    ensures Do(Some(Dir(es)), Under(name, ws)[0]) ==
      match Do(Find(es, name), ws[0])
      case None => None
      case Some(t) => Some(Dir(Put(es, name, t)))
  {
    var u := Under(name, ws)[0];
    assert u.path[0] == name && u.path[1..] == ws[0].path;
    assert u.(path := u.path[1..]) == ws[0];
  }

  lemma PutAgain(es: seq<Entry>, name: string, t: Tree, u: Option<Tree>)
    ensures u.Some? ==> Put(Put(es, name, t), name, u.value) == Put(es, name, u.value)
  {
    if u.Some? { PutTwice(es, name, t, u.value); }
  }

  function AsDir(out: Option<seq<Entry>>): Option<Tree> { if out.None? then None else Some(Dir(out.value)) }

  lemma {:induction false} EntriesWritten(es: seq<Entry>, base: seq<Entry>)
    ensures DoAll(Some(Dir(base)), EntryWrites(es)) == AsDir(OverlayEntries(es, Dir(base)))
  {
    if es != [] {
      var front, e := es[..|es| - 1], es[|es| - 1];
      var ws := WritesOf(e.node);
      EntriesWritten(front, base);
      if front == [] {
        assert [] + Under(e.name, ws) == Under(e.name, ws);
      } else {
        EntryWritesNonEmpty(front);
        DoAllConcat(Some(Dir(base)), EntryWrites(front), Under(e.name, ws));
      }
      match OverlayEntries(front, Dir(base))
      case None =>
      case Some(out) =>
        Focus(out, e.name, ws);
        EntryWritten(e.node, Find(out, e.name));
    }
  }

  lemma EntryWritesNonEmpty(es: seq<Entry>)
    requires es != []
    ensures EntryWrites(es) != []
  {
    var ws := Under(es[|es| - 1].name, WritesOf(es[|es| - 1].node));
    assert |EntryWrites(es)| >= |ws|;
  }

  lemma {:induction false} EntryWritten(t: Tree, dst: Option<Tree>)
    ensures DoAll(dst, WritesOf(t)) ==
      match t
      case Dir(_) => Overlay(t, dst)
      case File(_) => if dst.Some? && dst.value.Dir? then None else Some(t)
  {
    match t
    case File(data) =>
      assert WritesOf(t)[1..] == [];
    case Dir(es) =>
      assert WritesOf(t)[1..] == EntryWrites(es);
      if dst.None? {
        EntriesWritten(es, []);
      } else if dst.value.Dir? {
        EntriesWritten(es, dst.value.entries);
      }
  }

  /** Left alone, the writes are `copyDir`. */
  lemma WritesAreOverlay(src: Tree, dst: Option<Tree>)
    requires src.Dir?
    ensures DoAll(dst, WritesOf(src)) == Overlay(src, dst)
  {
    EntryWritten(src, dst);
  }

  // ------------------------------------------------------- writing it again

  /** Any one of a tree's writes on a copy of that tree leaves it as it is. */
  lemma {:induction false} RewriteIsIdle(t: Tree, i: nat)
    requires WellFormed(t) && i < |WritesOf(t)|
    ensures Do(Some(t), WritesOf(t)[i]) == Some(t)
  {
    match t
    case File(_) =>
    case Dir(es) =>
      TakeAll(es, |es|);
      if i > 0 { RewriteEntryIsIdle(es, |es|, i - 1); }
  }

  lemma {:induction false} RewriteEntryIsIdle(es: seq<Entry>, n: nat, i: nat)
    requires WellFormed(Dir(es)) && n <= |es| && i < |EntryWrites(es[..n])|
    ensures Do(Some(Dir(es)), EntryWrites(es[..n])[i]) == Some(Dir(es))
    decreases es, n
  {
    TakeMore(es, n - 1);
    var front, e := es[..n - 1], es[n - 1];
    var before := |EntryWrites(front)|;
    if i < before {
      RewriteEntryIsIdle(es, n - 1, i);
    } else {
      RewriteIsIdle(e.node, i - before);
      PutBack(es, n - 1);
      RewriteBelow(es, e, WritesOf(e.node)[i - before]);
      assert EntryWrites(es[..n])[i] == Under(e.name, WritesOf(e.node))[i - before];
    }
  }

  lemma RewriteBelow(es: seq<Entry>, e: Entry, w: Write)
    requires Find(es, e.name) == Some(e.node) && Put(es, e.name, e.node) == es && Do(Some(e.node), w) == Some(e.node)
    ensures Do(Some(Dir(es)), w.(path := [e.name] + w.path)) == Some(Dir(es))
  {
    assert ([e.name] + w.path)[1..] == w.path;
  }
}
