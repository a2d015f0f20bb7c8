/** `resolveWorkspacePath`: lexical resolution of user paths below /workspace.  `Clean` is
    path.Clean on rooted paths, as a stack of components. */
module WorkspacePath {
  import opened Wrappers
  import opened Seqs
  import opened GoStrings
  import opened LineSplit

  const WORKSPACE := "workspace"
  const ROOT := "/workspace"

  // ------------------------------------------------------------- components

  function Parts(p: string): seq<string> { Split(p, '/') }

  /** One component seen from directory `at`. */
  function Enter(at: seq<string>, part: string): seq<string> {
    if part == "" || part == "." then at
    else if part == ".." then (if at == [] then [] else at[..|at| - 1])
    else at + [part]
  }

  function Walk(at: seq<string>, parts: seq<string>): seq<string>
    decreases |parts|
  {
    if parts == [] then at else Walk(Enter(at, parts[0]), parts[1..])
  }

  function Joined(at: seq<string>): string {
    if at == [] then "" else Joined(at[..|at| - 1]) + "/" + at[|at| - 1]
  }

  function Render(at: seq<string>): string { if at == [] then "/" else Joined(at) }

  /** path.Clean of a path that starts with a slash. */
  function Clean(p: string): string { Render(Walk([], Parts(p))) }

  function Resolve(p: string): Result<string> {
    var q := TrimSpace(p);
    if q == "" then Ok(ROOT)
    else
      var rooted := if "/" <= q then q else ROOT + "/" + q;
      var cleaned := Clean(rooted);
      if cleaned != ROOT && !(ROOT + "/" <= cleaned) then Err("path is outside /workspace")
      else Ok(cleaned)
  }

  /** A name a directory entry can have. */
  predicate Proper(part: string) { part != "" && part != "." && part != ".." && '/' !in part }

  predicate AllProper(at: seq<string>) { forall i :: 0 <= i < |at| ==> Proper(at[i]) }

  predicate Below(at: seq<string>) { at != [] && at[0] == WORKSPACE }

  // ------------------------------------------------------- the stack machine

  lemma {:induction false} WalkProper(at: seq<string>, parts: seq<string>)
    requires AllProper(at) && forall i :: 0 <= i < |parts| ==> '/' !in parts[i]
    ensures AllProper(Walk(at, parts))
    decreases |parts|
  {
    if parts != [] { WalkProper(Enter(at, parts[0]), parts[1..]); }
  }

  lemma CleanStack(p: string)
    ensures AllProper(Walk([], Parts(p)))
  {
    PartsWithout(p, '/');
    WalkProper([], Parts(p));
  }

  lemma {:induction false} WalkSplit(at: seq<string>, xs: seq<string>, ys: seq<string>)
    ensures Walk(at, xs + ys) == Walk(Walk(at, xs), ys)
    decreases |xs|
  {
    if xs == [] {
      assert xs + ys == ys;
    } else {
      assert (xs + ys)[1..] == xs[1..] + ys;
      WalkSplit(Enter(at, xs[0]), xs[1..], ys);
    }
  }

  /** Walking proper names goes down one level each. */
  lemma {:induction false} WalkDown(at: seq<string>, names: seq<string>)
    requires AllProper(names)
    ensures Walk(at, names) == at + names
    decreases |names|
  {
    if names == [] {
      assert at + [] == at;
    } else {
      WalkDown(at + [names[0]], names[1..]);
      assert at + [names[0]] + names[1..] == at + names;
    }
  }

  lemma WalkOne(at: seq<string>, part: string)
    ensures Walk(at, [part]) == Enter(at, part)
  {
    assert [part][1..] == [];
  }

  /** Anywhere in a path: going down to a name and up again leads back, an empty component or
      a dot leads nowhere, and up from the root is the root. */
  lemma StepsCancel(at: seq<string>, xs: seq<string>, name: string, ys: seq<string>)
    ensures Proper(name) ==> Walk(at, xs + [name, ".."] + ys) == Walk(at, xs + ys)
    ensures name in {"", "."} ==> Walk(at, xs + [name] + ys) == Walk(at, xs + ys)
    ensures Walk([], [".."] + ys) == Walk([], ys)
  {
    var here := Walk(at, xs);
    WalkSplit(at, xs, ys);
    WalkSplit(at, xs + [name, ".."], ys);
    WalkSplit(at, xs, [name, ".."]);
    WalkSplit(at, xs + [name], ys);
    WalkSplit(at, xs, [name]);
    WalkSplit([], [".."], ys);
    WalkOne([], "..");
    WalkOne(here, name);
    assert [name, ".."][1..] == [".."];
    if Proper(name) {
      WalkOne(here + [name], "..");
      assert (here + [name])[..|here|] == here;
    }
  }

  // ------------------------------------------------- paths and their parts

  lemma {:induction false} PartsAtSlash(a: string, b: string)
    ensures Parts(a + "/" + b) == Parts(a) + Parts(b)
  {
    if a == "" {
      SlashFirst(b);
    } else {
      PartsAtSlash(a[1..], b);
      assert (a + "/" + b)[1..] == a[1..] + "/" + b;
      HeadRegroup(a[0], Parts(a[1..]), Parts(b));
    }
  }

  lemma SlashFirst(b: string)
    ensures Parts("" + "/" + b) == [""] + Parts(b)
  {
    assert "" + "/" + b == ['/'] + b && (['/'] + b)[1..] == b;
  }

  lemma HeadRegroup(c: char, x: seq<string>, y: seq<string>)
    requires x != []
    ensures [[c] + (x + y)[0]] + (x + y)[1..] == [[c] + x[0]] + x[1..] + y
    ensures [""] + (x + y) == [""] + x + y
  {
    assert (x + y)[1..] == x[1..] + y;
  }

  /** The parts of a rendered stack are an empty one, for the leading slash, and the stack. */
  lemma {:induction false} PartsOfJoined(at: seq<string>)
    requires AllProper(at)
    ensures Parts(Joined(at)) == [""] + at
  {
    if at != [] {
      var front, last := at[..|at| - 1], at[|at| - 1];
      PartsOfJoined(front);
      PartsAtSlash(Joined(front), last);
      SplitWithout(last, '/');
      assert [""] + at == [""] + front + [last];
    }
  }

  lemma StackOfRendered(at: seq<string>)
    requires AllProper(at)
    ensures Walk([], Parts(Render(at))) == at
  {
    if at != [] {
      PartsOfJoined(at);
      WalkDown([], at);
      assert ([""] + at)[1..] == at && [] + at == at;
      assert Walk([], [""] + at) == Walk([], at);
    } else {
      PartsAtSlash("", "");
      assert "" + "/" + "" == "/";
      assert ["", ""][1..] == [""] && [""][1..] == [];
    }
  }

  // --------------------------------------------------------- the prefix test

  lemma {:induction false} JoinedStarts(at: seq<string>)
    requires at != []
    ensures "/" + at[0] <= Joined(at)
    ensures |at| >= 2 ==> "/" + at[0] + "/" <= Joined(at)
    ensures |at| == 1 ==> Joined(at) == "/" + at[0]
  {
    if |at| >= 2 { JoinedStarts(at[..|at| - 1]); }
  }

  /** A string-prefix test on the rendered path is a test of the first component. */
  lemma PrefixTest(at: seq<string>)
    requires AllProper(at)
    ensures (Render(at) == ROOT || ROOT + "/" <= Render(at)) <==> Below(at)
  {
    if at == [] {
      assert |Render(at)| == 1;
    } else {
      JoinedStarts(at);
      if Render(at) == ROOT || ROOT + "/" <= Render(at) {
        assert ROOT == "/" + WORKSPACE;
        FirstComponent(at, WORKSPACE);
      }
    }
  }

  lemma FirstComponent(at: seq<string>, w: string)
    requires AllProper(at) && at != [] && '/' !in w
    requires Joined(at) == "/" + w || "/" + w + "/" <= Joined(at)
    ensures at[0] == w
  {
    PartsOfJoined(at);
    assert ([""] + at)[1] == at[0];
    if Joined(at) == "/" + w {
      PartsOfRooted(w);
    } else {
      var rest := Joined(at)[|"/" + w + "/"|..];
      assert Joined(at) == "/" + w + "/" + rest;
      PartsBelowRooted(w, rest);
    }
  }

  lemma PartsOfRooted(w: string)
    requires '/' !in w
    ensures Parts("/" + w) == ["", w]
  {
    PartsAtSlash("", w);
    SplitWithout(w, '/');
    assert "" + "/" + w == "/" + w;
  }

  lemma PartsBelowRooted(w: string, q: string)
    requires '/' !in w
    ensures Parts("/" + w + "/" + q) == ["", w] + Parts(q)
  {
    PartsOfRooted(w);
    PartsAtSlash("/" + w, q);
  }

  // ------------------------------------------------------------ main results

  /** Where a trimmed path leads. */
  function Destination(q: string): seq<string> {
    if "/" <= q then Walk([], Parts(q)) else Walk([WORKSPACE], Parts(q))
  }

  /** Two paths that start alike and whose parts lead alike from anywhere. */
  lemma SameDestination(p: string, q: string)
    requires "/" <= p <==> "/" <= q
    requires Walk([], Parts(p)) == Walk([], Parts(q)) && Walk([WORKSPACE], Parts(p)) == Walk([WORKSPACE], Parts(q))
    ensures Destination(p) == Destination(q)
  {
  }

  lemma SameStart(a: string, x: string, y: string)
    ensures "/" <= a + "/" + x <==> "/" <= a + "/" + y
  {
    assert (a + "/" + x)[0] == (a + "/" + y)[0];
  }

  /** `a/./b`, `a//b` and `a/b` lead to one place. */
  lemma DotsDoNotMatter(a: string, part: string, b: string)
    requires part in {"", "."}
    ensures Destination(a + "/" + (part + "/" + b)) == Destination(a + "/" + b)
  {
    PartsAtSlash(a, part + "/" + b);
    PartsAtSlash(part, b);
    PartsAtSlash(a, b);
    SplitWithout(part, '/');
    Regroup(Parts(a), [part], Parts(b));
    StepsCancel([], Parts(a), part, Parts(b));
    StepsCancel([WORKSPACE], Parts(a), part, Parts(b));
    SameStart(a, part + "/" + b, b);
    SameDestination(a + "/" + (part + "/" + b), a + "/" + b);
  }

  /** So do `a/name/../b` and `a/b`. */
  lemma DetoursDoNotMatter(a: string, name: string, b: string)
    requires Proper(name)
    ensures Destination(a + "/" + (name + "/" + (".." + "/" + b))) == Destination(a + "/" + b)
  {
    var tail := ".." + "/" + b;
    PartsAtSlash(a, name + "/" + tail);
    PartsAtSlash(name, tail);
    PartsAtSlash("..", b);
    PartsAtSlash(a, b);
    SplitWithout(name, '/');
    SplitWithout("..", '/');
    DetourParts(Parts(a), name, Parts(b));
    StepsCancel([], Parts(a), name, Parts(b));
    StepsCancel([WORKSPACE], Parts(a), name, Parts(b));
    SameStart(a, name + "/" + tail, b);
    SameDestination(a + "/" + (name + "/" + tail), a + "/" + b);
  }

  lemma DetourParts(xs: seq<string>, name: string, ys: seq<string>)
    ensures xs + ([name] + ([".."] + ys)) == xs + [name, ".."] + ys
  {
  }

  lemma WalkBelowRooted(w: string, q: string)
    requires Proper(w)
    ensures Walk([], Parts("/" + w + "/" + q)) == Walk([w], Parts(q))
  {
    PartsBelowRooted(w, q);
    WalkSplit([], ["", w], Parts(q));
    assert ["", w][1..] == [w];
    assert Walk([], ["", w]) == Walk([], [w]);
    WalkDown([], [w]);
    assert [] + [w] == [w];
  }

  lemma RelativeWalk(q: string)
    ensures Walk([], Parts(ROOT + "/" + q)) == Walk([WORKSPACE], Parts(q))
  {
    WalkBelowRooted(WORKSPACE, q);
    assert ROOT + "/" + q == "/" + WORKSPACE + "/" + q;
  }

  lemma StaysAt(at: seq<string>, q: string)
    requires q == ""
    ensures Walk(at, Parts(q)) == at
  {
    assert [""][1..] == [];
  }

  lemma OneLevel(w: string)
    requires Proper(w)
    ensures AllProper([w]) && Render([w]) == "/" + w && Parts("/" + w) == [""] + [w]
  {
    PartsOfRooted(w);
    JoinedStarts([w]);
  }

  /** A path is accepted exactly when walking its components ends at or below /workspace,
      and the result is that place: no component of it is empty, `.` or `..`. */
  lemma ResolveIff(p: string)
    ensures var at := Destination(TrimSpace(p));
      && AllProper(at)
      && (Resolve(p).Ok? <==> Below(at))
      && (Resolve(p).Ok? ==> Resolve(p).value == Render(at) && Parts(Resolve(p).value) == [""] + at)
  {
    var q := TrimSpace(p);
    if q == "" {
      StaysAt([WORKSPACE], q);
      OneLevel(WORKSPACE);
      assert ROOT == "/" + WORKSPACE;
    } else {
      var rooted := if "/" <= q then q else ROOT + "/" + q;
      RelativeWalk(q);
      CleanStack(rooted);
      PrefixTest(Destination(q));
      PartsOfJoined(Destination(q));
    }
  }

  // ------------------------------------------------- blanks and repetition

  /** `src/x` and `/workspace/src/x` name one file, and surrounding blanks never matter. */
  lemma RelativeAndAbsoluteAgree(p: string)
    ensures Resolve(p) == Resolve(TrimSpace(p))
    ensures var q := TrimSpace(p); q != "" && !("/" <= q) ==> Resolve(ROOT + "/" + q) == Resolve(p)
  {
    var q := TrimSpace(p);
    TrimSpaceResult(p);
    TrimSpaceResult(q);
    if q != "" {
      var a := ROOT + "/" + q;
      assert a[0] == '/' && a[|a| - 1] == q[|q| - 1];
      TrimSpaceResult(a);
    }
  }

  function Size(parts: seq<string>): nat {
    if parts == [] then 0 else Size(parts[..|parts| - 1]) + |parts[|parts| - 1]| + 1
  }

  lemma {:induction false} SizeSplit(xs: seq<string>, ys: seq<string>)
    ensures Size(xs + ys) == Size(xs) + Size(ys)
  {
    if ys == [] {
      assert xs + ys == xs;
    } else {
      assert (xs + ys)[..|xs + ys| - 1] == xs + ys[..|ys| - 1];
      SizeSplit(xs, ys[..|ys| - 1]);
    }
  }

  lemma {:induction false} WalkNoLonger(at: seq<string>, parts: seq<string>)
    ensures Size(Walk(at, parts)) <= Size(at) + Size(parts)
    decreases |parts|
  {
    if parts != [] {
      var x, rest := parts[0], parts[1..];
      WalkNoLonger(Enter(at, x), rest);
      SizeSplit([x], rest);
      assert [x] + rest == parts;
      SizeOne(x);
      SizeSplit(at, [x]);
    }
  }

  lemma SizeOne(x: string)
    ensures Size([x]) == |x| + 1
  {
    assert [x][..0] == [];
    assert Size([]) == 0;
  }

  lemma {:induction false} SizeOfParts(p: string)
    ensures Size(Parts(p)) == |p| + 1
  {
    if p == "" {
      SizeOne("");
    } else {
      var r := Parts(p[1..]);
      SizeOfParts(p[1..]);
      SizeOne(r[0]);
      SizeOne("");
      SizeOne([p[0]] + r[0]);
      SizeSplit([r[0]], r[1..]);
      assert [r[0]] + r[1..] == r;
      SizeSplit([""], r);
      SizeSplit([[p[0]] + r[0]], r[1..]);
    }
  }

  lemma {:induction false} JoinedLength(at: seq<string>)
    ensures |Joined(at)| == Size(at)
  {
    if at != [] { JoinedLength(at[..|at| - 1]); }
  }

  lemma CleanNoLonger(q: string)
    requires "/" <= q
    ensures |Clean(q)| <= |q|
  {
    var parts := Parts(q);
    assert parts[0] == "" && Walk([], parts) == Walk([], parts[1..]);
    WalkNoLonger([], parts[1..]);
    SizeOfParts(q);
    SizeOne("");
    SizeSplit([""], parts[1..]);
    assert [""] + parts[1..] == parts;
    JoinedLength(Walk([], parts));
  }

  /** Resolving a result again gives the same result exactly when it does not end in a
      blank: cleaning can uncover a blank that trimming would have taken off. */
  lemma ResolveAgainIff(p: string)
    requires Resolve(p).Ok?
    ensures var r := Resolve(p).value;
      r != "" && (Resolve(r) == Ok(r) <==> !IsSpace(r[|r| - 1]))
  {
    var r, at := Resolve(p).value, Destination(TrimSpace(p));
    ResolveIff(p);
    RenderedStartsWithSlash(at);
    if !IsSpace(r[|r| - 1]) {
      StackOfRendered(at);
      TrimSpaceResult(r);
      ResolveIff(r);
    } else {
      BlankEndShrinks(r);
    }
  }

  lemma RenderedStartsWithSlash(at: seq<string>)
    ensures Render(at) != "" && Render(at)[0] == '/'
  {
    if at != [] { JoinedStarts(at); }
  }

  lemma BlankEndShrinks(r: string)
    requires "/" <= r && IsSpace(r[|r| - 1])
    ensures Resolve(r) != Ok(r)
  {
    assert TrimLeft(r) == r;
    TrimRightResult(r);
    var q := TrimRight(r);
    assert |q| < |r|;
    RightTrimmed(r);
    CleanNoLonger(q);
  }

  /** `.. /.` is accepted, and what it resolves to is then refused. */
  lemma BlankUncovered()
    ensures Resolve(".. /.") == Ok("/workspace/.. ")
    ensures Resolve("/workspace/.. ").Err?
  {
    var name := ".. ";
    assert ".. /." == name + "/" + "." && "/workspace/.. " == ROOT + "/" + name;
    NameThenDot(name);
    DotDotWithBlank(name);
  }

  lemma NameThenDot(name: string)
    requires Proper(name) && !IsSpace(name[0])
    ensures Resolve(name + "/" + ".") == Ok(ROOT + "/" + name)
  {
    var p := name + "/" + ".";
    assert p[|p| - 1] == '.' && p[0] == name[0];
    TrimSpaceResult(p);
    PartsAtSlash(name, ".");
    SplitWithout(name, '/');
    SplitWithout(".", '/');
    WalkSplit([WORKSPACE], [name], ["."]);
    WalkDown([WORKSPACE], [name]);
    assert ["."][1..] == [];
    var at := [WORKSPACE, name];
    assert Walk([WORKSPACE], Parts(p)) == at;
    JoinedPair(WORKSPACE, name);
    assert "/" + WORKSPACE == ROOT;
    ResolveIff(p);
  }

  lemma JoinedPair(a: string, b: string)
    ensures Joined([a, b]) == "/" + a + "/" + b
  {
    assert [a, b][..1] == [a];
    JoinedStarts([a]);
  }

  lemma DotDotWithBlank(name: string)
    requires name == ".. "
    ensures Resolve(ROOT + "/" + name).Err?
  {
    var r, dots := ROOT + "/" + name, name[..2];
    TrimmedOnce(r);
    assert r[..|r| - 1] == ROOT + "/" + dots;
    RelativeWalk(dots);
    SplitWithout(dots, '/');
    assert [dots][1..] == [];
    assert Walk([WORKSPACE], [dots]) == [];
    ResolveIff(r);
  }

  lemma TrimmedOnce(r: string)
    requires |r| >= 2 && !IsSpace(r[0]) && IsSpace(r[|r| - 1]) && !IsSpace(r[|r| - 2])
    ensures TrimSpace(r) == r[..|r| - 1]
  {
    assert TrimLeft(r) == r;
    var q := r[..|r| - 1];
    assert q[|q| - 1] == r[|r| - 2];
    assert TrimRight(q) == q;
  }
}
