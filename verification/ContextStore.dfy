/** The context store as an object over its file, and the handlers that use it. */
module ContextStore {
  import opened Wrappers
  import opened Seqs
  import opened GoStrings
  import opened Contexts

  function Insert(x: Context, xs: seq<Context>): seq<Context> {
    if xs == [] || !Less(xs[0].name, x.name) then [x] + xs else [xs[0]] + Insert(x, xs[1..])
  }

  /** sort.SliceStable by name. */
  function SortByName(xs: seq<Context>): seq<Context> {
    if xs == [] then [] else Insert(xs[0], SortByName(xs[1..]))
  }

  predicate Ordered(xs: seq<Context>) { forall i, j :: 0 <= i < j < |xs| ==> !Less(xs[j].name, xs[i].name) }

  lemma {:induction false} InsertOrders(x: Context, xs: seq<Context>)
    requires Ordered(xs)
    ensures Ordered(Insert(x, xs)) && multiset(Insert(x, xs)) == multiset{x} + multiset(xs)
  {
    if xs == [] || !Less(xs[0].name, x.name) {
      InFront(x, xs);
    } else {
      InsertOrders(x, xs[1..]);
      LessIsTotal(xs[0].name, x.name);
      assert xs == [xs[0]] + xs[1..];
      var ys := Insert(x, xs[1..]);
      forall j | 0 <= j < |ys| ensures !Less(ys[j].name, xs[0].name) {
        assert ys[j] in multiset(ys);
        if ys[j] != x { assert ys[j] in xs[1..]; }
      }
      AfterLeast(xs[0], ys);
    }
  }

  lemma InFront(x: Context, xs: seq<Context>)
    requires Ordered(xs) && (xs == [] || !Less(xs[0].name, x.name))
    ensures Ordered([x] + xs)
  {
    forall j | 0 <= j < |xs| ensures !Less(xs[j].name, x.name) {
      if j > 0 { LessChains(x.name, xs[0].name, xs[j].name); }
    }
    AfterLeast(x, xs);
  }

  lemma AfterLeast(x: Context, xs: seq<Context>)
    requires Ordered(xs) && forall j :: 0 <= j < |xs| ==> !Less(xs[j].name, x.name)
    ensures Ordered([x] + xs)
  {
  }

  lemma {:induction false} SortOrders(xs: seq<Context>)
    ensures Ordered(SortByName(xs)) && multiset(SortByName(xs)) == multiset(xs)
  {
    if xs != [] {
      SortOrders(xs[1..]);
      InsertOrders(xs[0], SortByName(xs[1..]));
      assert xs == [xs[0]] + xs[1..];
    }
  }

  /** The entries of one name, in order. */
  function Named(xs: seq<Context>, name: string): seq<Context> {
    if xs == [] then []
    else (if xs[0].name == name then [xs[0]] else []) + Named(xs[1..], name)
  }

  lemma {:induction false} InsertStable(x: Context, xs: seq<Context>, name: string)
    ensures Named(Insert(x, xs), name) == (if x.name == name then [x] else []) + Named(xs, name)
  {
    if xs == [] || !Less(xs[0].name, x.name) {
      assert ([x] + xs)[1..] == xs;
    } else {
      LessIsTotal(x.name, x.name);
      InsertStable(x, xs[1..], name);
      assert ([xs[0]] + Insert(x, xs[1..]))[1..] == Insert(x, xs[1..]);
      if xs[0].name != name { NoneBefore(Named(Insert(x, xs[1..]), name)); }
      if x.name != name { NoneBefore(Named(xs, name)); }
    }
  }

  /** Entries of one name keep their order. */
  lemma {:induction false} SortStable(xs: seq<Context>, name: string)
    ensures Named(SortByName(xs), name) == Named(xs, name)
  {
    if xs != [] {
      SortStable(xs[1..], name);
      InsertStable(xs[0], SortByName(xs[1..]), name);
    }
  }

  /** The file every store shares. */
  class StoredFile {
    var data: Option<Bytes>

    constructor ()
      ensures data == None
    {
      data := None;
    }
  }

  class ContextStore {
    const codec: Codec
    const file: StoredFile
    var st: State

    constructor (codec: Codec, file: StoredFile)
      ensures this.codec == codec && this.file == file
    {
      this.codec := codec;
      this.file := file;
      st := State("", []);
    }

    method Load() returns (ok: bool)
      modifies this
      ensures ok <==> LoadState(codec, file.data).Ok?
      ensures ok ==> st == LoadState(codec, file.data).value
    {
      if file.data.None? || |file.data.value| == 0 {
        st := State(LOCAL, []);
        return true;
      }
      var read := codec.unyaml(file.data.value);
      if read.None? { return false; }
      st := read.value;
      if st.active == "" { st := st.(active := LOCAL); }
      ok := true;
    }

    method Save()
      modifies file
      ensures file.data == Some(codec.yaml(st))
    {
      file.data := Some(codec.yaml(st));
    }

    /** The place of the first context of that name, or -1. */
    method Find(name: string) returns (i: int)
      ensures i == (if IndexOf(st.contexts, name).Some? then IndexOf(st.contexts, name).value else -1)
    {
      i := 0;
      while i < |st.contexts|
        invariant 0 <= i <= |st.contexts|
        invariant forall k :: 0 <= k < i ==> st.contexts[k].name != name
      {
        if st.contexts[i].name == name { return; }
        i := i + 1;
      }
      i := -1;
    }

    method Create(x: Context) returns (ok: bool)
      modifies this, file
      ensures var r := Contexts.Create(old(st), x);
        && ok == r.Ok?
        && st == (if ok then r.value else old(st))
        && file.data == (if ok then Some(codec.yaml(st)) else old(file.data))
    {
      if x.name == LOCAL { return false; }
      if Validate(x).Some? { return false; }
      var i := Find(x.name);
      if i >= 0 { return false; }
      st := st.(contexts := st.contexts + [x]);
      Save();
      ok := true;
    }

    method Update(name: string, given: Context) returns (ok: bool)
      modifies this, file
      ensures var r := Contexts.Update(old(st), name, given);
        && ok == r.Ok?
        && st == (if ok then r.value else old(st))
        && file.data == (if ok then Some(codec.yaml(st)) else old(file.data))
    {
      var x := given;
      if name == LOCAL || x.name == LOCAL { return false; }
      if name == "" { return false; }
      if x.name == "" { x := x.(name := name); }
      if x.name != name { return false; }
      if Validate(x).Some? { return false; }
      var i := Find(name);
      if i == -1 { return false; }
      st := st.(contexts := st.contexts[i := x]);
      Save();
      ok := true;
    }

    method Use(name: string) returns (ok: bool)
      modifies this, file
      ensures var r := Contexts.Use(old(st), name);
        && ok == r.Ok?
        && st == (if ok then r.value else old(st))
        && file.data == (if ok then Some(codec.yaml(st)) else old(file.data))
    {
      if name != LOCAL {
        var i := Find(name);
        if i == -1 { return false; }
      }
      st := st.(active := name);
      Save();
      ok := true;
    }

    method Delete(name: string) returns (ok: bool)
      modifies this, file
      ensures var r := Contexts.Delete(old(st), name);
        && ok == r.Ok?
        && st == (if ok then r.value else old(st))
        && file.data == (if ok then Some(codec.yaml(st)) else old(file.data))
    {
      if name == LOCAL { return false; }
      var idx := Find(name);
      if idx == -1 { return false; }
      st := st.(contexts := st.contexts[..idx] + st.contexts[idx + 1..]);
      if st.active == name { st := st.(active := LOCAL); }
      Save();
      ok := true;
    }

    method Get(name: string) returns (r: Result<Context>)
      ensures r == Contexts.Get(st, name)
    {
      if name == LOCAL { return Ok(LOCAL_CONTEXT); }
      var i := Find(name);
      if i == -1 { return Err("context not found"); }
      r := Ok(st.contexts[i]);
    }

    method Active() returns (r: Result<Context>)
      ensures r == Contexts.Active(st)
      ensures Good(st) ==> r.Ok?
    {
      var name := st.active;
      if name == "" { name := LOCAL; }
      r := Get(name);
      if Good(st) { ActiveNeverFails(st); }
    }

    /** Every context and the local one, in order of name, each as often as it is stored and
        those of one name as they were. */
    method List() returns (xs: seq<Context>)
      ensures Ordered(xs) && multiset(xs) == multiset([LOCAL_CONTEXT] + st.contexts)
      ensures forall name :: Named(xs, name) == Named([LOCAL_CONTEXT] + st.contexts, name)
    {
      var all := [LOCAL_CONTEXT] + st.contexts;
      SortOrders(all);
      forall name ensures Named(SortByName(all), name) == Named(all, name) { SortStable(all, name); }
      xs := SortByName(all);
    }
  }

  /** A handler run without interruption: the two steps `Read` and `Write`, one after the
      other. */
  method Handle(codec: Codec, file: StoredFile, call: Call) returns (ok: bool)
    modifies file
    ensures var s := Next(codec, Next(codec, System(old(file.data), [Waiting(call)]), Read(0)), Write(0));
      file.data == s.file && s.handlers == [Answered(call, ok)]
  {
    if !Admitted(call) { return false; }
    var store := new ContextStore(codec, file);
    var loaded := store.Load();
    if !loaded { return false; }
    ghost var s1 := Next(codec, System(file.data, [Waiting(call)]), Read(0));
    assert s1 == System(file.data, [Loaded(call, store.st)]);
    match call
    case CreateCall(r) => ok := store.Create(FromRequest(r));
    case UpdateCall(path, r) =>
      var req := if r.name == "" then r.(name := path) else r;
      ok := store.Update(path, FromRequest(req));
    case DeleteCall(path) => ok := store.Delete(path);
    case UseCall(name) => ok := store.Use(name);
  }
}
