/** `Template.Validate`: the problems it reports and the templates that have none. */
module TemplateRules {
  import opened Wrappers
  import opened GoStrings
  import opened Templates

  datatype Problem =
    | NameRequired
    | BaseOrImageRequired
    | BadNetwork
    | CacheNotAbsolute(cache: string)
    | CacheElsewhere(cache: string)
    | MountNotAbsolute(mount: string)
    | BadTool(tool: string)
    | UnknownMode(mode: string)
    | BadState(mode: string)
    | BadSourceType
    | SnapshotOfMissing

  const NETWORKS := {"none", "restricted", "open", ""}
  const STATES := {"supported", "planned", "unsupported", ""}
  const MODES := {"fast", "compat", "secure", "microvm", "auto"}
  const SOURCES := {"builtin", "local", "snapshot", "imported", ""}

  predicate IsAbs(p: string) { "/" <= p }

  function Runtimes(t: Template): map<string, string> {
    if t.compatibility.Some? then t.compatibility.value.runtimes else map[]
  }

  /** The tool is `name:version`, cut at its first colon, with one side empty. */
  predicate HalfTool(tool: string) {
    exists i | 0 <= i < |tool| :: tool[i] == ':' && ':' !in tool[..i] && (i == 0 || i == |tool| - 1)
  }

  predicate Has(t: Template, p: Problem) {
    match p
    case NameRequired => forall i | 0 <= i < |t.name| :: IsSpace(t.name[i])
    case BaseOrImageRequired => t.base == "" && t.image == ""
    case BadNetwork => t.network !in NETWORKS
    case CacheNotAbsolute(k) => k in t.caches && !IsAbs(t.caches[k])
    case CacheElsewhere(k) => k in t.caches && !("/cache/" <= t.caches[k])
    case MountNotAbsolute(k) => k in t.mounts && !IsAbs(t.mounts[k])
    case BadTool(tool) => tool in t.tools && HalfTool(tool)
    case UnknownMode(m) => m in Runtimes(t) && m !in MODES
    case BadState(m) => m in Runtimes(t) && Runtimes(t)[m] !in STATES
    case BadSourceType => t.source.Some? && t.source.value.kind !in SOURCES
    case SnapshotOfMissing => t.source.Some? && t.source.value.kind == "snapshot" && t.source.value.snapshotOf == ""
  }

  ghost predicate Valid(t: Template) { forall p :: !Has(t, p) }

  /** Every problem the template has is reported and nothing else is, whichever order the
      maps are walked in. */
  method Validate(t: Template) returns (problems: seq<Problem>)
    ensures forall p :: p in problems <==> Has(t, p)
    ensures problems == [] <==> Valid(t)
  {
    problems := [];
    TrimmedToNothing(t.name);
    if TrimSpace(t.name) == "" { problems := problems + [NameRequired]; }
    if t.base == "" && t.image == "" { problems := problems + [BaseOrImageRequired]; }
    if t.network !in NETWORKS { problems := problems + [BadNetwork]; }
    var caches := CacheProblems(t);
    var mounts := MountProblems(t);
    var tools := ToolProblems(t);
    var modes := RuntimeProblems(t);
    var source := SourceProblems(t);
    problems := problems + caches + mounts + tools + modes + source;
    forall p ensures p in problems <==> Has(t, p) { }
    assert problems != [] ==> Has(t, problems[0]);
  }

  /** The templates without a problem, rule by rule. */
  lemma ValidIff(t: Template)
    ensures Valid(t) <==>
      && TrimSpace(t.name) != "" && (t.base != "" || t.image != "")
      && (t.network == "none" || t.network == "restricted" || t.network == "open" || t.network == "")
      && (forall k :: k in t.caches ==> "/cache/" <= t.caches[k])
      && (forall k :: k in t.mounts ==> "/" <= t.mounts[k])
      && (forall tool :: tool in t.tools && ':' in tool ==> Cut(tool).0 != "" && Cut(tool).1 != "")
      && (t.compatibility.Some? ==>
            forall m :: m in t.compatibility.value.runtimes ==>
              && (m == "fast" || m == "compat" || m == "secure" || m == "microvm" || m == "auto")
              && var st := t.compatibility.value.runtimes[m];
                 st == "supported" || st == "planned" || st == "unsupported" || st == "")
      && (t.source.Some? ==>
            var k := t.source.value.kind;
            && (k == "builtin" || k == "local" || k == "snapshot" || k == "imported" || k == "")
            && (k == "snapshot" ==> t.source.value.snapshotOf != ""))
  {
    TrimmedToNothing(t.name);
    forall tool ensures HalfTool(tool) <==> ':' in tool && (Cut(tool).0 == "" || Cut(tool).1 == "") {
      HalfIffEmptySide(tool);
    }
    if Valid(t) { ValidParts(t); }
  }

  lemma ValidParts(t: Template)
    requires Valid(t)
    ensures !Has(t, NameRequired) && !Has(t, BaseOrImageRequired) && !Has(t, BadNetwork)
    ensures !Has(t, BadSourceType) && !Has(t, SnapshotOfMissing)
    ensures forall k :: k in t.caches ==> "/cache/" <= t.caches[k]
    ensures forall k :: k in t.mounts ==> IsAbs(t.mounts[k])
    ensures forall tool :: tool in t.tools ==> !HalfTool(tool)
    ensures forall m :: m in Runtimes(t) ==> m in MODES && Runtimes(t)[m] in STATES
  {
    forall k | k in t.caches ensures "/cache/" <= t.caches[k] { assert !Has(t, CacheElsewhere(k)); }
    forall k | k in t.mounts ensures IsAbs(t.mounts[k]) { assert !Has(t, MountNotAbsolute(k)); }
    forall tool | tool in t.tools ensures !HalfTool(tool) { assert !Has(t, BadTool(tool)); }
    forall m | m in Runtimes(t) ensures m in MODES && Runtimes(t)[m] in STATES {
      assert !Has(t, UnknownMode(m)) && !Has(t, BadState(m));
    }
  }

  method CacheProblems(t: Template) returns (ps: seq<Problem>)
    ensures forall p :: p in ps <==> (p.CacheNotAbsolute? || p.CacheElsewhere?) && Has(t, p)
  {
    ps := [];
    var left := t.caches.Keys;
    while left != {}
      invariant left <= t.caches.Keys
      invariant forall p :: p in ps <==> (p.CacheNotAbsolute? || p.CacheElsewhere?) && p.cache !in left && Has(t, p)
      decreases |left|
    {
      var name :| name in left;
      if !IsAbs(t.caches[name]) { ps := ps + [CacheNotAbsolute(name)]; }
      if !("/cache/" <= t.caches[name]) { ps := ps + [CacheElsewhere(name)]; }
      left := left - {name};
    }
  }

  method MountProblems(t: Template) returns (ps: seq<Problem>)
    ensures forall p :: p in ps <==> p.MountNotAbsolute? && Has(t, p)
  {
    ps := [];
    var left := t.mounts.Keys;
    while left != {}
      invariant left <= t.mounts.Keys
      invariant forall p :: p in ps <==> p.MountNotAbsolute? && p.mount !in left && Has(t, p)
      decreases |left|
    {
      var name :| name in left;
      if !IsAbs(t.mounts[name]) { ps := ps + [MountNotAbsolute(name)]; }
      left := left - {name};
    }
  }

  /** strings.SplitN(tool, ":", 2): what is before the first colon and what is after it. */
  function Cut(tool: string): (string, string)
    requires ':' in tool
  {
    var i := IndexByte(tool, ':').value;
    (tool[..i], tool[i + 1..])
  }

  lemma HalfIffEmptySide(tool: string)
    ensures HalfTool(tool) <==> ':' in tool && (Cut(tool).0 == "" || Cut(tool).1 == "")
  {
    if i :| 0 <= i < |tool| && tool[i] == ':' && ':' !in tool[..i] && (i == 0 || i == |tool| - 1) {
      forall j | 0 <= j < i ensures tool[j] != ':' { assert tool[..i][j] == tool[j]; }
      IndexByteExactly(tool, ':', i);
    }
  }

  method ToolProblems(t: Template) returns (ps: seq<Problem>)
    ensures forall p :: p in ps <==> p.BadTool? && Has(t, p)
  {
    ps := [];
    for i := 0 to |t.tools|
      invariant forall p :: p in ps <==> p.BadTool? && p.tool in t.tools[..i] && HalfTool(p.tool)
    {
      var tool := t.tools[i];
      assert t.tools[..i + 1] == t.tools[..i] + [tool];
      HalfIffEmptySide(tool);
      if ':' in tool {
        var parts := Cut(tool);
        if parts.0 == "" || parts.1 == "" { ps := ps + [BadTool(tool)]; }
      }
    }
    assert t.tools[..|t.tools|] == t.tools;
  }

  method RuntimeProblems(t: Template) returns (ps: seq<Problem>)
    ensures forall p :: p in ps <==> (p.UnknownMode? || p.BadState?) && Has(t, p)
  {
    ps := [];
    if t.compatibility.None? { return; }
    var runtimes := t.compatibility.value.runtimes;
    var left := runtimes.Keys;
    while left != {}
      invariant left <= runtimes.Keys
      invariant forall p :: p in ps <==> (p.UnknownMode? || p.BadState?) && p.mode !in left && Has(t, p)
      decreases |left|
    {
      var mode :| mode in left;
      if mode !in MODES { ps := ps + [UnknownMode(mode)]; }
      if runtimes[mode] !in STATES { ps := ps + [BadState(mode)]; }
      left := left - {mode};
    }
  }

  method SourceProblems(t: Template) returns (ps: seq<Problem>)
    ensures forall p :: p in ps <==> (p.BadSourceType? || p.SnapshotOfMissing?) && Has(t, p)
  {
    ps := [];
    if t.source.Some? {
      if t.source.value.kind !in SOURCES { ps := ps + [BadSourceType]; }
      if t.source.value.kind == "snapshot" && t.source.value.snapshotOf == "" { ps := ps + [SnapshotOfMissing]; }
    }
  }
}
