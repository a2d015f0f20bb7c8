/** The file of daemon contexts: the store that loads, changes and saves it whole, and what
    holds of the file when handlers doing so overlap.  YAML is a function of a `Codec`. */
module Contexts {
  import opened Wrappers

  const UNIX := "unix"
  const HTTP := "http"
  const SSH := "ssh"
  const NONE := "none"
  const BEARER := "bearer-token"
  const AGENT := "ssh-agent"
  const LOCAL := "local"
  const LOCAL_TARGET := "unix://~/.pi-box/sandboxd.sock"

  datatype Auth = Auth(kind: string, tokenEnv: string, sshUser: string, sshHost: string)
  datatype Context = Context(name: string, target: string, transport: string, auth: Auth)
  datatype State = State(active: string, contexts: seq<Context>)

  const LOCAL_CONTEXT := Context(LOCAL, LOCAL_TARGET, UNIX, Auth(NONE, "", "", ""))

  datatype Codec = Codec(yaml: State -> Bytes, unyaml: Bytes -> Option<State>)

  /** What is written can be read back, and is not empty. */
  ghost predicate Faithful(c: Codec) {
    forall st :: c.yaml(st) != [] && c.unyaml(c.yaml(st)) == Some(st)
  }

  // -------------------------------------------------------------- validation

  /** `Validate`: the first rule broken, if any. */
  function Validate(x: Context): Option<string> {
    if x.name == "" then Some("context name is required")
    else if x.target == "" then Some("context target is required")
    else if x.transport !in {UNIX, HTTP, SSH} then Some("invalid transport")
    else if x.auth.kind !in {NONE, BEARER, AGENT} then Some("invalid auth.type")
    else if x.transport == HTTP then
      if x.auth.kind != BEARER then Some("http transport requires auth.type=bearer-token")
      else if x.auth.tokenEnv == "" then Some("bearer-token auth requires auth.token_env")
      else if exists c | c in x.auth.tokenEnv :: c in " \t\n" then Some("auth.token_env must be a single env var name")
      else None
    else if x.transport == SSH then
      if x.auth.kind != AGENT then Some("ssh transport requires auth.type=ssh-agent") else None
    else
      if x.auth.kind != NONE then Some("unix transport requires auth.type=none") else None
  }

  predicate EnvName(s: string) { s != "" && ' ' !in s && '\t' !in s && '\n' !in s }

  /** The transport/auth matrix: one auth type per transport. */
  predicate Fits(transport: string, auth: Auth) {
    || (transport == UNIX && auth.kind == NONE)
    || (transport == SSH && auth.kind == AGENT)
    || (transport == HTTP && auth.kind == BEARER && EnvName(auth.tokenEnv))
  }

  predicate ValidContext(x: Context) { x.name != "" && x.target != "" && Fits(x.transport, x.auth) }

  lemma ValidateIff(x: Context)
    ensures Validate(x).None? <==> ValidContext(x)
  {
    var env := x.auth.tokenEnv;
    assert (exists c | c in env :: c in " \t\n") <==> ' ' in env || '\t' in env || '\n' in env by {
      assert forall c :: c in " \t\n" <==> c == ' ' || c == '\t' || c == '\n';
    }
  }

  // -------------------------------------------------------------- operations

  /** The first context of that name. */
  function IndexOf(xs: seq<Context>, name: string): (r: Option<nat>)
    ensures r.Some? ==> r.value < |xs| && xs[r.value].name == name
    ensures r.Some? ==> forall i :: 0 <= i < r.value ==> xs[i].name != name
    ensures r.None? ==> forall i :: 0 <= i < |xs| ==> xs[i].name != name
  {
    if xs == [] then None
    else if xs[0].name == name then Some(0)
    else
      match IndexOf(xs[1..], name)
      case None => None
      case Some(i) => Some(i + 1)
  }

  function Create(st: State, x: Context): Result<State> {
    if x.name == LOCAL then Err("context name is reserved")
    else if Validate(x).Some? then Err(Validate(x).value)
    else if IndexOf(st.contexts, x.name).Some? then Err("context already exists")
    else Ok(st.(contexts := st.contexts + [x]))
  }

  function Update(st: State, name: string, x: Context): Result<State> {
    if name == LOCAL || x.name == LOCAL then Err("context name is reserved")
    else if name == "" then Err("context name is required")
    else
      var y := if x.name == "" then x.(name := name) else x;
      if y.name != name then Err("context name cannot be changed")
      else if Validate(y).Some? then Err(Validate(y).value)
      else
        match IndexOf(st.contexts, name)
        case None => Err("context not found")
        case Some(i) => Ok(st.(contexts := st.contexts[i := y]))
  }

  function Use(st: State, name: string): Result<State> {
    if name == LOCAL || IndexOf(st.contexts, name).Some? then Ok(st.(active := name))
    else Err("context not found")
  }

  function Delete(st: State, name: string): Result<State> {
    if name == LOCAL then Err("cannot delete reserved context")
    else
      match IndexOf(st.contexts, name)
      case None => Err("context not found")
      case Some(i) =>
        Ok(State(if st.active == name then LOCAL else st.active, st.contexts[..i] + st.contexts[i + 1..]))
  }

  function Get(st: State, name: string): Result<Context> {
    if name == LOCAL then Ok(LOCAL_CONTEXT)
    else
      match IndexOf(st.contexts, name)
      case None => Err("context not found")
      case Some(i) => Ok(st.contexts[i])
  }

  function ActiveName(st: State): string { if st.active == "" then LOCAL else st.active }

  function Active(st: State): Result<Context> { Get(st, ActiveName(st)) }

  /** `load`: an absent or empty file is the state with only the local context. */
  function LoadState(c: Codec, file: Option<Bytes>): Result<State> {
    if file.None? || file.value == [] then Ok(State(LOCAL, []))
    else
      match c.unyaml(file.value)
      case None => Err("parse context store")
      case Some(st) => Ok(if st.active == "" then st.(active := LOCAL) else st)
  }

  // --------------------------------------------------------------- invariant

  predicate DistinctNames(xs: seq<Context>) { forall i, j :: 0 <= i < j < |xs| ==> xs[i].name != xs[j].name }

  /** Distinct names, none reserved, every entry valid, and the active name resolves. */
  predicate Good(st: State) {
    && DistinctNames(st.contexts)
    && (forall i :: 0 <= i < |st.contexts| ==> st.contexts[i].name != LOCAL && ValidContext(st.contexts[i]))
    && (st.active == LOCAL || exists i :: 0 <= i < |st.contexts| && st.contexts[i].name == st.active)
  }

  ghost predicate FileGood(c: Codec, file: Option<Bytes>) {
    LoadState(c, file).Ok? && Good(LoadState(c, file).value)
  }

  lemma CreateKeepsGood(st: State, x: Context)
    requires Good(st) && Create(st, x).Ok?
    ensures Good(Create(st, x).value)
  {
    var xs, ys := st.contexts, st.contexts + [x];
    ValidateIff(x);
    if i :| 0 <= i < |xs| && xs[i].name == st.active { assert ys[i] == xs[i]; }
  }

  lemma UpdateKeepsGood(st: State, name: string, x: Context)
    requires Good(st) && Update(st, name, x).Ok?
    ensures Good(Update(st, name, x).value)
  {
    var xs, ys := st.contexts, Update(st, name, x).value.contexts;
    ValidateIff(if x.name == "" then x.(name := name) else x);
    assert forall i :: 0 <= i < |xs| ==> ys[i].name == xs[i].name;
  }

  /** What is left when entry `k` is cut out. */
  lemma CutOut(xs: seq<Context>, k: nat, ys: seq<Context>)
    requires k < |xs| && ys == xs[..k] + xs[k + 1..] && DistinctNames(xs)
    ensures |ys| == |xs| - 1 && DistinctNames(ys)
    ensures forall i :: 0 <= i < |ys| ==> ys[i] == if i < k then xs[i] else xs[i + 1]
    ensures forall i :: 0 <= i < |ys| ==> ys[i].name != xs[k].name
    ensures forall i :: 0 <= i < |xs| && i != k ==> xs[i] in ys
  {
    assert forall i :: 0 <= i < k ==> ys[i] == xs[i];
    assert forall i :: k < i < |xs| ==> ys[i - 1] == xs[i];
  }

  lemma DeleteKeepsGood(st: State, name: string)
    requires Good(st) && Delete(st, name).Ok?
    ensures Good(Delete(st, name).value)
  {
    var xs, ys, k := st.contexts, Delete(st, name).value.contexts, IndexOf(st.contexts, name).value;
    CutOut(xs, k, ys);
    if st.active != LOCAL && st.active != name {
      var i :| 0 <= i < |xs| && xs[i].name == st.active;
      assert xs[i] in ys;
    }
  }

  /** A well-formed state always has an active context, and it is a valid one. */
  lemma ActiveNeverFails(st: State)
    requires Good(st)
    ensures Active(st).Ok? && ValidContext(Active(st).value) && Active(st).value.name == ActiveName(st)
  {
    if st.active != LOCAL {
      var i :| 0 <= i < |st.contexts| && st.contexts[i].name == st.active;
    }
  }

  // Each operation seen through `Get`: only the named context changes.

  lemma CreateSeenByGet(st: State, x: Context, other: string)
    requires Good(st) && Create(st, x).Ok?
    ensures var s := Create(st, x).value;
      && Get(st, x.name).Err? && Get(s, x.name) == Ok(x) && (other != x.name ==> Get(s, other) == Get(st, other))
      && st.contexts <= s.contexts && |s.contexts| == |st.contexts| + 1 && s.active == st.active
  {
    var xs := st.contexts;
    CreateKeepsGood(st, x);
    FoundAt(xs + [x], |xs|);
    if IndexOf(xs, other).Some? { FoundAt(xs + [x], IndexOf(xs, other).value); }
  }

  lemma UpdateSeenByGet(st: State, name: string, x: Context, other: string)
    requires Good(st) && Update(st, name, x).Ok?
    ensures var s := Update(st, name, x).value;
      && Get(st, name).Ok? && Get(s, name) == Ok(x.(name := name)) && s.active == st.active
      && |s.contexts| == |st.contexts| && (forall i :: 0 <= i < |s.contexts| ==>
            s.contexts[i] == if st.contexts[i].name == name then x.(name := name) else st.contexts[i])
      && (other != name ==> Get(s, other) == Get(st, other))
  {
    var xs, y := st.contexts, x.(name := name);
    var i := IndexOf(xs, name).value;
    UpdateKeepsGood(st, name, x);
    FoundAt(xs[i := y], i);
    if IndexOf(xs, other).Some? { FoundAt(xs[i := y], IndexOf(xs, other).value); }
  }

  lemma DeleteSeenByGet(st: State, name: string, other: string)
    requires Good(st) && Delete(st, name).Ok?
    ensures var s := Delete(st, name).value;
      && Get(st, name).Ok? && Get(s, name).Err? && (other != name ==> Get(s, other) == Get(st, other))
      && ActiveName(s) == (if ActiveName(st) == name then LOCAL else ActiveName(st))
  {
    var xs, ys, k := st.contexts, Delete(st, name).value.contexts, IndexOf(st.contexts, name).value;
    CutOut(xs, k, ys);
    var j := IndexOf(xs, other);
    if other != name && j.Some? {
      FoundAt(ys, if j.value < k then j.value else j.value - 1);
    }
  }

  /** A known name becomes the active one, and every name gives what it gave. */
  lemma UseSeenByGet(st: State, name: string, other: string)
    requires Good(st)
    ensures Use(st, name).Ok? <==> Get(st, name).Ok?
    ensures Use(st, name).Ok? ==>
      var s := Use(st, name).value;
      ActiveName(s) == name && Active(s) == Get(st, name) && Get(s, other) == Get(st, other) && Good(s)
  {
  }

  /** When each operation succeeds: creating, for a valid context of a free name; updating,
      for a valid context that exists and keeps its name; deleting, for one that exists; and
      the local context is neither made, changed nor deleted. */
  lemma SucceedsIff(st: State, name: string, x: Context)
    ensures Create(st, x).Ok? <==> x.name != LOCAL && ValidContext(x) && Get(st, x.name).Err?
    ensures Update(st, name, x).Ok? <==>
      && name != LOCAL && x.name in {"", name}
      && ValidContext(x.(name := name)) && Get(st, name).Ok?
    ensures Delete(st, name).Ok? <==> name != LOCAL && Get(st, name).Ok?
  {
    ValidateIff(x);
    ValidateIff(x.(name := name));
  }

  /** Loading gives the contexts of the file as they are, and never an empty active name. */
  lemma LoadSeen(c: Codec, file: Option<Bytes>)
    ensures file.None? || file.value == [] ==>
      LoadState(c, file).Ok? && Active(LoadState(c, file).value) == Ok(LOCAL_CONTEXT)
      && LoadState(c, file).value.contexts == []
    ensures file.Some? && file.value != [] ==>
      && (LoadState(c, file).Ok? <==> c.unyaml(file.value).Some?)
      && (LoadState(c, file).Ok? ==>
            var st, stored := LoadState(c, file).value, c.unyaml(file.value).value;
            st.contexts == stored.contexts && st.active == ActiveName(stored) != "")
  {
  }

  lemma FoundAt(xs: seq<Context>, i: nat)
    requires DistinctNames(xs) && i < |xs|
    ensures IndexOf(xs, xs[i].name) == Some(i)
  {
  }

  /** Deleting what was just created gives back the state there was. */
  lemma CreateThenDelete(st: State, x: Context)
    requires Good(st) && Create(st, x).Ok?
    ensures Delete(Create(st, x).value, x.name) == Ok(st)
  {
    var xs := st.contexts;
    CreateKeepsGood(st, x);
    FoundAt(xs + [x], |xs|);
    assert (xs + [x])[..|xs|] + (xs + [x])[|xs| + 1..] == xs;
  }

  // ---------------------------------------------------------------- handlers

  datatype Request = Request(
    name: string, target: string, transport: string, authType: string, tokenEnv: string, sshUser: string,
    sshHost: string, token: string, bearer: string, key: string, private_: string)

  function InferAuth(transport: string): string {
    if transport == HTTP then BEARER else if transport == SSH then AGENT else NONE
  }

  function FromRequest(r: Request): Context {
    Context(r.name, r.target, r.transport,
            Auth(if r.authType == "" then InferAuth(r.transport) else r.authType, r.tokenEnv, r.sshUser, r.sshHost))
  }

  /** A request that carries raw secrets is turned away. */
  predicate Accepts(r: Request) { r.token == "" && r.bearer == "" && r.key == "" && r.private_ == "" }

  datatype Call =
    | CreateCall(r: Request)
    | UpdateCall(path: string, r: Request)
    | DeleteCall(path: string)
    | UseCall(name: string)

  /** What a handler checks before it opens the store. */
  predicate Admitted(call: Call) {
    match call
    case CreateCall(r) => Accepts(r)
    case UpdateCall(_, r) => Accepts(r)
    case DeleteCall(_) => true
    case UseCall(name) => name != ""
  }

  function Perform(st: State, call: Call): Result<State> {
    match call
    case CreateCall(r) => Create(st, FromRequest(r))
    case UpdateCall(path, r) => Update(st, path, FromRequest(if r.name == "" then r.(name := path) else r))
    case DeleteCall(path) => Delete(st, path)
    case UseCall(name) => Use(st, name)
  }

  /** Leaving the auth type out never makes a request fail the matrix: it is filled in with
      the one type its transport takes. */
  lemma InferredAuthFits(r: Request)
    requires r.authType == ""
    ensures Validate(FromRequest(r)).None? <==>
      r.name != "" && r.target != "" && (r.transport in {UNIX, SSH} || (r.transport == HTTP && EnvName(r.tokenEnv)))
  {
    ValidateIff(FromRequest(r));
  }

  /** What is created is what was asked for: every field of the request, and the one auth type
      of its transport when it names none. */
  lemma CreatedAsAsked(st: State, r: Request)
    requires Good(st) && Perform(st, CreateCall(r)).Ok?
    ensures var got := Get(Perform(st, CreateCall(r)).value, r.name);
      && got.Ok? && got.value.name == r.name && got.value.target == r.target && got.value.transport == r.transport
      && got.value.auth.tokenEnv == r.tokenEnv
      && got.value.auth.sshUser == r.sshUser && got.value.auth.sshHost == r.sshHost
      && (r.authType != "" ==> got.value.auth.kind == r.authType)
      && Fits(r.transport, got.value.auth)
  {
    CreateSeenByGet(st, FromRequest(r), "");
    ValidateIff(FromRequest(r));
  }

  /** An update asks for the same, and its name may be left out. */
  lemma UpdatedAsAsked(st: State, path: string, r: Request)
    requires Good(st) && Perform(st, UpdateCall(path, r)).Ok?
    ensures var got := Get(Perform(st, UpdateCall(path, r)).value, path);
      && r.name in {"", path} && got == Ok(FromRequest(r.(name := path)))
  {
    UpdateSeenByGet(st, path, FromRequest(if r.name == "" then r.(name := path) else r), "");
  }

  lemma PerformKeepsGood(st: State, call: Call)
    requires Good(st) && Perform(st, call).Ok?
    ensures Good(Perform(st, call).value)
  {
    match call
    case CreateCall(r) => CreateKeepsGood(st, FromRequest(r));
    case UpdateCall(path, r) => UpdateKeepsGood(st, path, FromRequest(if r.name == "" then r.(name := path) else r));
    case DeleteCall(path) => DeleteKeepsGood(st, path);
    case UseCall(_) =>
  }

  // ------------------------------------------------------- overlapping handlers

  /** A handler that has not loaded the file yet, one that holds what it loaded, and one
      that has answered. */
  datatype Handler = Waiting(call: Call) | Loaded(call: Call, st: State) | Answered(call: Call, ok: bool)

  datatype System = System(file: Option<Bytes>, handlers: seq<Handler>)

  /** Reading the file, and changing and writing it, are each one step. */
  datatype Step = Read(h: nat) | Write(h: nat)

  function Next(c: Codec, s: System, step: Step): System {
    match step
    case Read(h) =>
      if h >= |s.handlers| || !s.handlers[h].Waiting? then s
      else
        var call := s.handlers[h].call;
        var st := LoadState(c, s.file);
        s.(handlers := s.handlers[h :=
            if Admitted(call) && st.Ok? then Loaded(call, st.value) else Answered(call, false)])
    case Write(h) =>
      if h >= |s.handlers| || !s.handlers[h].Loaded? then s
      else
        var r := Perform(s.handlers[h].st, s.handlers[h].call);
        System(if r.Ok? then Some(c.yaml(r.value)) else s.file,
               s.handlers[h := Answered(s.handlers[h].call, r.Ok?)])
  }

  function Run(c: Codec, s: System, steps: seq<Step>): System {
    if steps == [] then s else Next(c, Run(c, s, steps[..|steps| - 1]), steps[|steps| - 1])
  }

  ghost predicate Inv(c: Codec, s: System) {
    && FileGood(c, s.file)
    && forall h :: 0 <= h < |s.handlers| && s.handlers[h].Loaded? ==> Good(s.handlers[h].st)
  }

  lemma SavedIsLoaded(c: Codec, st: State)
    requires Faithful(c) && Good(st)
    ensures LoadState(c, Some(c.yaml(st))) == Ok(st)
  {
    assert c.unyaml(c.yaml(st)) == Some(st);
    assert st.active != "";
  }

  lemma NextKeepsInv(c: Codec, s: System, step: Step)
    requires Faithful(c) && Inv(c, s)
    ensures Inv(c, Next(c, s, step))
  {
    if step.Write? && step.h < |s.handlers| && s.handlers[step.h].Loaded? {
      var r := Perform(s.handlers[step.h].st, s.handlers[step.h].call);
      if r.Ok? {
        PerformKeepsGood(s.handlers[step.h].st, s.handlers[step.h].call);
        SavedIsLoaded(c, r.value);
      }
    }
  }

  /** From an absent file, however the handlers overlap, the file on disk loads, is well
      formed, and has an active context. */
  lemma {:induction false} FileAlwaysGood(c: Codec, calls: seq<Handler>, steps: seq<Step>)
    requires Faithful(c) && forall h :: 0 <= h < |calls| ==> calls[h].Waiting?
    ensures Inv(c, Run(c, System(None, calls), steps))
    ensures Active(LoadState(c, Run(c, System(None, calls), steps).file).value).Ok?
  {
    if steps != [] {
      FileAlwaysGood(c, calls, steps[..|steps| - 1]);
      NextKeepsInv(c, Run(c, System(None, calls), steps[..|steps| - 1]), steps[|steps| - 1]);
    }
    ActiveNeverFails(LoadState(c, Run(c, System(None, calls), steps).file).value);
  }

  /** The call brings a token, a bearer or a key along instead of naming where it is. */
  predicate CarriesSecret(call: Call) {
    (call.CreateCall? || call.UpdateCall?)
    && (call.r.token != "" || call.r.bearer != "" || call.r.key != "" || call.r.private_ != "")
  }

  /** Under every schedule such a call is refused: it never gets to save. */
  lemma {:induction false} SecretsRefused(c: Codec, s: System, steps: seq<Step>, h: nat)
    requires h < |s.handlers| && s.handlers[h].Waiting? && CarriesSecret(s.handlers[h].call)
    ensures var now := Run(c, s, steps);
      && |now.handlers| == |s.handlers|
      && now.handlers[h] in {s.handlers[h], Answered(s.handlers[h].call, false)}
  {
    if steps != [] { SecretsRefused(c, s, steps[..|steps| - 1], h); }
  }

  /** As long as the file does not parse it stays as it is under every schedule, and no call is
      answered with success. */
  lemma {:induction false} UnreadableFileStays(c: Codec, s: System, steps: seq<Step>)
    requires LoadState(c, s.file).Err? && forall h :: 0 <= h < |s.handlers| ==> s.handlers[h].Waiting?
    ensures var now := Run(c, s, steps);
      && now.file == s.file
      && forall h :: 0 <= h < |now.handlers| ==>
           now.handlers[h].Waiting? || now.handlers[h] == Answered(now.handlers[h].call, false)
  {
    if steps != [] { UnreadableFileStays(c, s, steps[..|steps| - 1]); }
  }

  // ------------------------------------------------------------- lost updates

  /** The state a file stands for. */
  function OnDisk(c: Codec, s: System): State {
    var r := LoadState(c, s.file);
    if r.Ok? then r.value else State(LOCAL, [])
  }

  /** The step makes a handler answer, and whether the file is written. */
  predicate Answers(s: System, step: Step) { step.Write? && step.h < |s.handlers| && s.handlers[step.h].Loaded? }

  predicate Saves(s: System, step: Step) {
    Answers(s, step) && Perform(s.handlers[step.h].st, s.handlers[step.h].call).Ok?
  }

  /** Nothing was saved since handler `h` last had the chance to load. */
  predicate Fresh(c: Codec, s: System, steps: seq<Step>, h: nat) {
    steps != []
    && var front, last := steps[..|steps| - 1], steps[|steps| - 1];
       || (last == Read(h) && h < |s.handlers| && Run(c, s, front).handlers != Run(c, s, steps).handlers)
       || (!Saves(Run(c, s, front), last) && Fresh(c, s, front, h))
  }

  /** No save falls between another handler's load and its save. */
  predicate Unoverlapped(c: Codec, s: System, steps: seq<Step>) {
    steps == []
    || (var front, last := steps[..|steps| - 1], steps[|steps| - 1];
        && Unoverlapped(c, s, front)
        && (Answers(Run(c, s, front), last) ==> Fresh(c, s, front, last.h)))
  }

  /** The calls in the order their handlers answered. */
  function Order(c: Codec, s: System, steps: seq<Step>): seq<Call> {
    if steps == [] then []
    else
      var front, last := steps[..|steps| - 1], steps[|steps| - 1];
      var before := Run(c, s, front);
      if Answers(before, last) then Order(c, s, front) + [before.handlers[last.h].call] else Order(c, s, front)
  }

  /** The calls one after the other, a failing one changing nothing. */
  function Serially(st: State, calls: seq<Call>): State {
    if calls == [] then st
    else
      var before := Serially(st, calls[..|calls| - 1]);
      var r := Perform(before, calls[|calls| - 1]);
      if r.Ok? then r.value else before
  }

  lemma {:induction false} FreshHoldsFile(c: Codec, s: System, steps: seq<Step>, h: nat)
    requires Faithful(c) && Inv(c, s) && Fresh(c, s, steps, h)
    requires h < |Run(c, s, steps).handlers| && Run(c, s, steps).handlers[h].Loaded?
    ensures Run(c, s, steps).handlers[h].st == OnDisk(c, Run(c, s, steps))
  {
    var front, last := steps[..|steps| - 1], steps[|steps| - 1];
    var before := Run(c, s, front);
    if !(last == Read(h) && before.handlers != Run(c, s, steps).handlers) {
      FreshHoldsFile(c, s, front, h);
    }
  }

  lemma {:induction false} RunKeepsInv(c: Codec, s: System, steps: seq<Step>)
    requires Faithful(c) && Inv(c, s)
    ensures Inv(c, Run(c, s, steps))
  {
    if steps != [] {
      RunKeepsInv(c, s, steps[..|steps| - 1]);
      NextKeepsInv(c, Run(c, s, steps[..|steps| - 1]), steps[|steps| - 1]);
    }
  }

  lemma SeriallyLast(st: State, calls: seq<Call>, call: Call)
    ensures var before := Serially(st, calls); var r := Perform(before, call);
      Serially(st, calls + [call]) == if r.Ok? then r.value else before
  {
    assert (calls + [call])[..|calls|] == calls;
  }

  /** Handlers that overlap, but with no save between another's load and its save, leave the
      file as if they had run one after the other in the order they answered. */
  lemma {:induction false} UnoverlappedIsSerial(c: Codec, s: System, steps: seq<Step>)
    requires Faithful(c) && Inv(c, s) && Unoverlapped(c, s, steps)
    ensures OnDisk(c, Run(c, s, steps)) == Serially(OnDisk(c, s), Order(c, s, steps))
  {
    if steps != [] {
      var front, last := steps[..|steps| - 1], steps[|steps| - 1];
      var before := Run(c, s, front);
      UnoverlappedIsSerial(c, s, front);
      if Answers(before, last) {
        RunKeepsInv(c, s, front);
        FreshHoldsFile(c, s, front, last.h);
        AnswerOnDisk(c, before, last.h);
        SeriallyLast(OnDisk(c, s), Order(c, s, front), before.handlers[last.h].call);
      }
    }
  }

  lemma AnswerOnDisk(c: Codec, s: System, h: nat)
    requires Faithful(c) && Inv(c, s) && h < |s.handlers| && s.handlers[h].Loaded?
    ensures var r := Perform(s.handlers[h].st, s.handlers[h].call);
      OnDisk(c, Next(c, s, Write(h))) == if r.Ok? then r.value else OnDisk(c, s)
  {
    var st, call := s.handlers[h].st, s.handlers[h].call;
    if Perform(st, call).Ok? {
      PerformKeepsGood(st, call);
      SavedIsLoaded(c, Perform(st, call).value);
    }
  }

  // ----------------------------------------- exactly when a create is lost

  function Names(st: State): set<string> { set x | x in st.contexts :: x.name }

  lemma InNames(st: State, name: string)
    ensures name in Names(st) <==> IndexOf(st.contexts, name).Some?
  {
    if IndexOf(st.contexts, name).Some? { assert st.contexts[IndexOf(st.contexts, name).value] in st.contexts; }
  }

  /** The name a create handler is after. */
  function Wanted(h: Handler): string { if h.call.CreateCall? then h.call.r.name else "" }

  function Reported(s: System): set<string> {
    set h | 0 <= h < |s.handlers| && s.handlers[h].Answered? && s.handlers[h].ok :: Wanted(s.handlers[h])
  }

  /** Every handler waits to create a context of its own: accepted, valid, of a free name. */
  ghost predicate OwnCreates(c: Codec, s: System) {
    && Inv(c, s)
    && (forall h :: 0 <= h < |s.handlers| ==>
          s.handlers[h].Waiting? && Creatable(s.handlers[h]) && Wanted(s.handlers[h]) !in Names(OnDisk(c, s)))
    && forall h, k :: 0 <= h < k < |s.handlers| ==> Wanted(s.handlers[h]) != Wanted(s.handlers[k])
  }

  predicate Creatable(h: Handler) {
    h.call.CreateCall? && Accepts(h.call.r) && h.call.r.name != LOCAL && Validate(FromRequest(h.call.r)).None?
  }

  lemma {:induction false} CallsKept(c: Codec, s: System, steps: seq<Step>)
    ensures var now := Run(c, s, steps);
      && |now.handlers| == |s.handlers|
      && forall h :: 0 <= h < |s.handlers| ==> now.handlers[h].call == s.handlers[h].call
  {
    if steps != [] { CallsKept(c, s, steps[..|steps| - 1]); }
  }

  /** All the names there should be by now. */
  function Expected(c: Codec, s: System, steps: seq<Step>): set<string> {
    Names(OnDisk(c, s)) + Reported(Run(c, s, steps))
  }

  /** A loaded copy knows nothing it should not, and, unless fresh, misses a reported name. */
  ghost predicate CopyOk(c: Codec, s: System, steps: seq<Step>, h: nat)
    requires h < |Run(c, s, steps).handlers| && Run(c, s, steps).handlers[h].Loaded?
  {
    var known := Names(Run(c, s, steps).handlers[h].st);
    && Names(OnDisk(c, s)) <= known <= Expected(c, s, steps)
    && (Fresh(c, s, steps, h) || known != Expected(c, s, steps))
  }

  /** The file has every name it should exactly as long as no save has overlapped. */
  ghost predicate Tracks(c: Codec, s: System, steps: seq<Step>) {
    var now := Run(c, s, steps);
    && Names(OnDisk(c, s)) <= Names(OnDisk(c, now)) <= Expected(c, s, steps)
    && (Unoverlapped(c, s, steps) <==> Names(OnDisk(c, now)) == Expected(c, s, steps))
    && (forall h :: 0 <= h < |now.handlers| && now.handlers[h].Loaded? ==> CopyOk(c, s, steps, h))
    && (forall h :: 0 <= h < |now.handlers| && now.handlers[h].Answered? ==> now.handlers[h].ok)
  }

  /** What the handler wants is new to the file and to every copy until it saves. */
  lemma WantedIsNew(c: Codec, s: System, steps: seq<Step>, h: nat)
    requires OwnCreates(c, s) && h < |Run(c, s, steps).handlers| && !Run(c, s, steps).handlers[h].Answered?
    ensures Wanted(Run(c, s, steps).handlers[h]) !in Expected(c, s, steps)
  {
    var now := Run(c, s, steps);
    CallsKept(c, s, steps);
    assert Wanted(now.handlers[h]) == Wanted(s.handlers[h]);
    forall k | 0 <= k < |now.handlers| && now.handlers[k].Answered?
      ensures Wanted(now.handlers[k]) != Wanted(now.handlers[h])
    {
      assert k != h && Wanted(s.handlers[k]) != Wanted(s.handlers[h]);
    }
  }

  /** A save by handler `h`: the new name is reported and, beside it, the file has exactly
      what the handler's copy had. */
  lemma SaveFacts(c: Codec, s: System, front: seq<Step>, h: nat)
    requires Faithful(c) && OwnCreates(c, s) && Tracks(c, s, front)
    requires h < |Run(c, s, front).handlers| && Run(c, s, front).handlers[h].Loaded?
    ensures var before := Run(c, s, front);
      && Creatable(before.handlers[h]) && Saves(before, Write(h))
      && Names(OnDisk(c, Next(c, before, Write(h)))) == Names(before.handlers[h].st) + {Wanted(before.handlers[h])}
      && Next(c, before, Write(h)).handlers == before.handlers[h := Answered(before.handlers[h].call, true)]
  {
    var before := Run(c, s, front);
    CallsKept(c, s, front);
    assert Creatable(s.handlers[h]);
    RunKeepsInv(c, s, front);
    WantedIsNew(c, s, front, h);
    assert CopyOk(c, s, front, h);
    CreateOnto(before.handlers[h].st, before.handlers[h]);
    AnswerOnDisk(c, before, h);
  }

  lemma CreateOnto(st: State, h: Handler)
    requires Creatable(h) && Wanted(h) !in Names(st)
    ensures Perform(st, h.call).Ok? && Names(Perform(st, h.call).value) == Names(st) + {Wanted(h)}
  {
    var x := FromRequest(h.call.r);
    InNames(st, x.name);
    assert forall y :: y in st.contexts + [x] <==> y in st.contexts || y == x;
  }

  lemma ReportedMore(s: System, h: nat)
    requires h < |s.handlers| && !s.handlers[h].Answered?
    ensures Reported(s.(handlers := s.handlers[h := Answered(s.handlers[h].call, true)]))
         == Reported(s) + {Wanted(s.handlers[h])}
  {
    var s' := s.(handlers := s.handlers[h := Answered(s.handlers[h].call, true)]);
    assert s'.handlers[h].Answered? && Wanted(s'.handlers[h]) == Wanted(s.handlers[h]);
    forall n | n in Reported(s) ensures n in Reported(s') {
      var k :| 0 <= k < |s.handlers| && s.handlers[k].Answered? && s.handlers[k].ok && Wanted(s.handlers[k]) == n;
      assert s'.handlers[k] == s.handlers[k];
    }
  }

  lemma ReportedSame(s: System, h: nat, p: Handler)
    requires h < |s.handlers| && !s.handlers[h].Answered? && !p.Answered?
    ensures Reported(s.(handlers := s.handlers[h := p])) == Reported(s)
  {
    var s' := s.(handlers := s.handlers[h := p]);
    forall n | n in Reported(s) ensures n in Reported(s') {
      var k :| 0 <= k < |s.handlers| && s.handlers[k].Answered? && s.handlers[k].ok && Wanted(s.handlers[k]) == n;
      assert s'.handlers[k] == s.handlers[k];
    }
  }

  lemma LoadStep(c: Codec, s: System, front: seq<Step>, h: nat)
    requires Faithful(c) && OwnCreates(c, s)
    requires h < |Run(c, s, front).handlers| && Run(c, s, front).handlers[h].Waiting?
    ensures var before := Run(c, s, front);
      Next(c, before, Read(h))
      == before.(handlers := before.handlers[h := Loaded(before.handlers[h].call, OnDisk(c, before))])
  {
    CallsKept(c, s, front);
    RunKeepsInv(c, s, front);
    assert Creatable(s.handlers[h]);
  }

  lemma LoadIsFresh(c: Codec, s: System, steps: seq<Step>)
    requires Faithful(c) && OwnCreates(c, s) && steps != [] && steps[|steps| - 1].Read?
    requires var before, h := Run(c, s, steps[..|steps| - 1]), steps[|steps| - 1].h;
      h < |before.handlers| && before.handlers[h].Waiting?
    ensures Fresh(c, s, steps, steps[|steps| - 1].h)
  {
    var front, h := steps[..|steps| - 1], steps[|steps| - 1].h;
    CallsKept(c, s, front);
    LoadStep(c, s, front, h);
    assert Run(c, s, steps).handlers[h].Loaded?;
  }

  lemma LoadReportsNothing(c: Codec, s: System, steps: seq<Step>)
    requires Faithful(c) && OwnCreates(c, s) && steps != []
    requires !Answers(Run(c, s, steps[..|steps| - 1]), steps[|steps| - 1])
    ensures Reported(Run(c, s, steps)) == Reported(Run(c, s, steps[..|steps| - 1]))
  {
    var front, last := steps[..|steps| - 1], steps[|steps| - 1];
    var before := Run(c, s, front);
    assert Run(c, s, steps) == Next(c, before, last);
    if last.Read? && last.h < |before.handlers| && before.handlers[last.h].Waiting? {
      LoadStep(c, s, front, last.h);
      ReportedSame(before, last.h, Loaded(before.handlers[last.h].call, OnDisk(c, before)));
    } else {
      assert Next(c, before, last) == before;
    }
  }

  /** The last step was a load, or nothing. */
  lemma LoadKeepsTracks(c: Codec, s: System, steps: seq<Step>)
    requires Faithful(c) && OwnCreates(c, s) && steps != []
    requires Tracks(c, s, steps[..|steps| - 1]) && !Answers(Run(c, s, steps[..|steps| - 1]), steps[|steps| - 1])
    ensures Tracks(c, s, steps)
  {
    var front, last := steps[..|steps| - 1], steps[|steps| - 1];
    var before, now := Run(c, s, front), Run(c, s, steps);
    assert now == Next(c, before, last);
    LoadReportsNothing(c, s, steps);
    if last.Read? && last.h < |before.handlers| && before.handlers[last.h].Waiting? {
      LoadStep(c, s, front, last.h);
      LoadIsFresh(c, s, steps);
    } else {
      assert now == before;
    }
    forall h | 0 <= h < |now.handlers| && now.handlers[h].Loaded? ensures CopyOk(c, s, steps, h) {
      if now.handlers[h] == before.handlers[h] { assert CopyOk(c, s, front, h); }
    }
  }

  /** The last step was a save. */
  lemma SaveKeepsTracks(c: Codec, s: System, steps: seq<Step>)
    requires Faithful(c) && OwnCreates(c, s) && steps != []
    requires Tracks(c, s, steps[..|steps| - 1]) && Answers(Run(c, s, steps[..|steps| - 1]), steps[|steps| - 1])
    ensures Tracks(c, s, steps)
  {
    var front, h := steps[..|steps| - 1], steps[|steps| - 1].h;
    var before, now := Run(c, s, front), Run(c, s, steps);
    var mine := Wanted(before.handlers[h]);
    SaveFacts(c, s, front, h);
    ReportedMore(before, h);
    WantedIsNew(c, s, front, h);
    assert Expected(c, s, steps) == Expected(c, s, front) + {mine};
    assert CopyOk(c, s, front, h);
    if Fresh(c, s, front, h) { FreshHoldsFile(c, s, front, h); }
    forall k | 0 <= k < |now.handlers| && now.handlers[k].Loaded? ensures CopyOk(c, s, steps, k) {
      assert now.handlers[k] == before.handlers[k] && CopyOk(c, s, front, k);
      assert mine !in Names(now.handlers[k].st);
    }
  }

  lemma {:induction false} AlwaysTracks(c: Codec, s: System, steps: seq<Step>)
    requires Faithful(c) && OwnCreates(c, s)
    ensures Tracks(c, s, steps)
  {
    if steps == [] {
      assert Reported(s) == {};
    } else {
      var front := steps[..|steps| - 1];
      AlwaysTracks(c, s, front);
      if Answers(Run(c, s, front), steps[|steps| - 1]) {
        SaveKeepsTracks(c, s, steps);
      } else {
        LoadKeepsTracks(c, s, steps);
      }
    }
  }

  lemma {:induction false} SerialNames(c: Codec, s: System, steps: seq<Step>)
    requires Faithful(c) && OwnCreates(c, s)
    ensures Names(Serially(OnDisk(c, s), Order(c, s, steps))) == Expected(c, s, steps)
  {
    if steps == [] {
      assert Reported(s) == {};
    } else {
      var front, last := steps[..|steps| - 1], steps[|steps| - 1];
      var before := Run(c, s, front);
      SerialNames(c, s, front);
      AlwaysTracks(c, s, front);
      if Answers(before, last) {
        SaveFacts(c, s, front, last.h);
        ReportedMore(before, last.h);
        WantedIsNew(c, s, front, last.h);
        CreateOnto(Serially(OnDisk(c, s), Order(c, s, front)), before.handlers[last.h]);
        SeriallyLast(OnDisk(c, s), Order(c, s, front), before.handlers[last.h].call);
      } else {
        LoadReportsNothing(c, s, steps);
      }
    }
  }

  /** For handlers that each create a context of their own, under every schedule: no context
      reported as created is missing from the file, and the file is that of a serial run, if
      and only if no save fell between another handler's load and its save. */
  lemma CreatesSurviveIff(c: Codec, s: System, steps: seq<Step>)
    requires Faithful(c) && OwnCreates(c, s)
    ensures var end := Run(c, s, steps);
      && (Reported(end) <= Names(OnDisk(c, end)) <==> Unoverlapped(c, s, steps))
      && (OnDisk(c, end) == Serially(OnDisk(c, s), Order(c, s, steps)) <==> Unoverlapped(c, s, steps))
  {
    AlwaysTracks(c, s, steps);
    SerialNames(c, s, steps);
    if Unoverlapped(c, s, steps) { UnoverlappedIsSerial(c, s, steps); }
  }

  /** Two handlers that both load before either writes: the file ends as if only the second
      writer had run, and both callers are told of success. */
  lemma SecondWriterWins(c: Codec, file: Option<Bytes>, a: Call, b: Call)
    requires Faithful(c) && FileGood(c, file) && Admitted(a) && Admitted(b)
    requires Perform(LoadState(c, file).value, a).Ok? && Perform(LoadState(c, file).value, b).Ok?
    ensures var end := Run(c, System(file, [Waiting(a), Waiting(b)]), [Read(0), Read(1), Write(0), Write(1)]);
      && end.handlers == [Answered(a, true), Answered(b, true)]
      && Ok(OnDisk(c, end)) == Perform(LoadState(c, file).value, b)
  {
    var st := LoadState(c, file).value;
    BothLoadThenSave(c, file, st, a, b);
    PerformKeepsGood(st, b);
    SavedIsLoaded(c, Perform(st, b).value);
  }

  lemma BothLoadThenSave(c: Codec, file: Option<Bytes>, st: State, a: Call, b: Call)
    requires LoadState(c, file) == Ok(st) && Admitted(a) && Admitted(b) && Perform(st, a).Ok? && Perform(st, b).Ok?
    ensures Run(c, System(file, [Waiting(a), Waiting(b)]), [Read(0), Read(1), Write(0), Write(1)])
         == System(Some(c.yaml(Perform(st, b).value)), [Answered(a, true), Answered(b, true)])
  {
    var s0 := System(file, [Waiting(a), Waiting(b)]);
    var s1 := System(file, [Loaded(a, st), Waiting(b)]);
    var s2 := System(file, [Loaded(a, st), Loaded(b, st)]);
    var s3 := System(Some(c.yaml(Perform(st, a).value)), [Answered(a, true), Loaded(b, st)]);
    RunFour(c, s0, Read(0), Read(1), Write(0), Write(1));
    assert Next(c, s0, Read(0)) == s1;
    assert Next(c, s1, Read(1)) == s2;
    assert Next(c, s2, Write(0)) == s3;
  }

  lemma RunFour(c: Codec, s: System, w: Step, x: Step, y: Step, z: Step)
    ensures Run(c, s, [w, x, y, z]) == Next(c, Next(c, Next(c, Next(c, s, w), x), y), z)
  {
    assert Run(c, s, [w]) == Next(c, s, w) by { assert [w][..0] == []; }
    assert Run(c, s, [w, x]) == Next(c, Run(c, s, [w]), x) by { assert [w, x][..1] == [w]; }
    assert Run(c, s, [w, x, y]) == Next(c, Run(c, s, [w, x]), y) by { assert [w, x, y][..2] == [w, x]; }
    assert [w, x, y, z][..3] == [w, x, y];
  }

  /** So a context created first, and reported created, can be missing afterwards. */
  lemma CreatedContextLost(c: Codec, file: Option<Bytes>, a: Request, b: Request)
    requires Faithful(c) && FileGood(c, file) && Accepts(a) && Accepts(b)
    requires var st := LoadState(c, file).value;
      Create(st, FromRequest(a)).Ok? && Create(st, FromRequest(b)).Ok? && a.name != b.name
    ensures var end := Run(c, System(file, [Waiting(CreateCall(a)), Waiting(CreateCall(b))]),
                           [Read(0), Read(1), Write(0), Write(1)]);
      end.handlers == [Answered(CreateCall(a), true), Answered(CreateCall(b), true)]
      && Get(OnDisk(c, end), a.name).Err? && Get(OnDisk(c, end), b.name).Ok?
  {
    var st := LoadState(c, file).value;
    SecondWriterWins(c, file, CreateCall(a), CreateCall(b));
    CreateSeenByGet(st, FromRequest(b), a.name);
    CreateSeenByGet(st, FromRequest(a), a.name);
  }
}
