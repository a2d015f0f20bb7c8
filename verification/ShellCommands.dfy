/** What the printed strings mean to a shell: `shellJoin` as one command, `shellCommand`
    as a directory change, an environment and a command. */
module ShellCommands {
  import opened Wrappers
  import opened Seqs
  import opened ShellLexer
  import opened ShellPrinters
  import opened ShellGrammar

  function CharsOf(args: seq<string>, all: bool): (r: seq<Chars>)
    ensures |r| == |args| && forall i :: 0 <= i < |args| ==> r[i] == PieceChars(args[i], all)
  {
    seq(|args|, i requires 0 <= i < |args| => PieceChars(args[i], all))
  }

  lemma PieceNotActive(a: string, all: bool)
    ensures !Active(PieceChars(a, all))
  {
  }

  // ------------------------------------------------------------- shellJoin

  /** `a` would be printed bare and read as `NAME=value`. */
  predicate AssignShaped(a: string) {
    Safe(a) && exists i :: 0 <= i < |a| && a[i] == '=' && IsName(a[..i])
  }

  predicate ReadAsKeyword(a: string) { Safe(a) && ReservedWord(a) }

  lemma PieceReserved(a: string, all: bool)
    ensures IsReserved(PieceChars(a, all)) <==> !all && ReadAsKeyword(a)
  {
    var w := PieceChars(a, all);
    RemoveMarks(a, all || !Safe(a));
    if a != [] && (all || !Safe(a)) {
      assert w[0].quoted;
    }
  }

  lemma MarkedTake(a: string, quoted: bool, n: nat)
    requires n <= |a|
    ensures Marked(a, quoted)[..n] == Marked(a[..n], quoted)
  {
  }

  lemma NamesHaveNoEquals(a: string)
    requires IsName(a)
    ensures forall j :: 0 <= j < |a| ==> a[j] != '='
  {
    forall j | 0 <= j < |a| ensures a[j] != '=' { assert IsNameChar(a[j]); }
  }

  lemma PieceAssignment(a: string, all: bool)
    ensures AssignmentOf(PieceChars(a, all)).Some? <==> !all && AssignShaped(a)
  {
    var w := PieceChars(a, all);
    if !all && Safe(a) {
      match FirstEquals(w) {
        case None =>
          forall i | 0 <= i < |a| ensures a[i] != '=' { assert !IsEquals(w[i]); }
        case Some(n) =>
          MarkedTake(a, false, n);
          RemoveMarks(a[..n], false);
          if i :| 0 <= i < |a| && a[i] == '=' && IsName(a[..i]) {
            NamesHaveNoEquals(a[..i]);
            assert IsEquals(w[i]) && n <= i;
            if n < i { assert a[..i][n] == '='; }
          }
      }
    }
  }

  /** The script `shellJoin(args)` is `args` as one simple command with no assignments
      exactly when the first argument is not printed bare as a keyword or NAME=value. */
  lemma ShellJoinParses(args: seq<string>)
    requires args != []
    ensures Parse(ShellJoin(args)) == Some([Simple([], args)])
       <==> !ReadAsKeyword(args[0]) && !AssignShaped(args[0])
  {
    var ws := CharsOf(args, false);
    ShellJoinRoundTrip(args);
    assert Words(args, false) == WordTokens(ws) + [];
    SplitWords(ws, []);
    assert [ws] + [] == [ws];
    ParseOne(ws);
    PieceReserved(args[0], false);
    PieceAssignment(args[0], false);
    forall i | 0 <= i < |ws| ensures !Active(ws[i]) { PieceNotActive(args[i], false); }
    var n := LeadingAssignments(ws);
    if n == 0 {
      assert Assigns(ws[..0]) == [] && ws[0..] == ws;
      assert Literals(ws) == args;
    }
  }

  predicate ReadAsOptions(a: string) { Safe(a) && OptionShaped(a) }

  lemma {:induction false} JoinStarts(parts: seq<string>)
    requires parts != [] && parts[0] != []
    ensures Join(parts) != [] && Join(parts)[0] == parts[0][0]
  {
    if |parts| > 1 { JoinStarts(parts[..|parts| - 1]); }
  }

  lemma JoinOptionShaped(args: seq<string>, all: bool)
    requires args != []
    ensures OptionShaped(Join(Pieces(args, all))) <==> !all && ReadAsOptions(args[0])
  {
    JoinStarts(Pieces(args, all));
  }

  /** `sh -c` on `shellJoin(args)` runs `args` as one simple command with no assignments
      exactly when the first argument is not printed bare as a keyword, NAME=value or
      options.  The comment on shellJoin promises it of every argument list. */
  lemma ShellJoinRunsArgs(args: seq<string>)
    requires args != []
    ensures Sh(ShellJoin(args)) == Some([Simple([], args)])
       <==> !ReadAsKeyword(args[0]) && !AssignShaped(args[0]) && !ReadAsOptions(args[0])
  {
    ShellJoinParses(args);
    JoinOptionShaped(args, false);
  }

  /** No arguments: no command. */
  lemma ShellJoinEmpty()
    ensures Sh(ShellJoin([])) == Some([])
  {
    ShellJoinRoundTrip([]);
    assert Words([], false) == [];
  }

  /** A shape that fails: the first argument becomes an assignment, not a command word. */
  lemma ShellJoinLosesAssignment()
    ensures Sh(ShellJoin(["A=b", "cmd"])) != Some([Simple([], ["A=b", "cmd"])])
  {
    var a := "A=b";
    assert a[..1] == "A";
    assert IsName("A");
    assert AssignShaped(a);
    ShellJoinRunsArgs(["A=b", "cmd"]);
  }

  /** Another: the first argument is read as options of the shell. */
  lemma ShellJoinLosesOptions()
    ensures Sh(ShellJoin(["-x", "foo"])).None?
  {
    assert Safe("-x");
    JoinOptionShaped(["-x", "foo"], false);
  }

  // ---------------------------------------------------------- shellCommand

  /** `k + "=" + shellQuote(v) + " "`, once per variable in iteration order. */
  function EnvText(env: seq<(string, string)>): string {
    if env == [] then []
    else
      var (k, v) := env[|env| - 1];
      EnvText(env[..|env| - 1]) + (k + ['='] + ShellQuote(v) + [' '])
  }

  function CdText(wd: string): string {
    if wd == [] then [] else "cd " + ShellQuote(wd) + " && "
  }

  function ShellCommandText(wd: string, env: seq<(string, string)>, cmd: seq<string>): string {
    CdText(wd) + EnvText(env) + Join(Pieces(cmd, true))
  }

  /** Some iteration order of a map. */
  ghost predicate Enumerates(env: seq<(string, string)>, m: map<string, string>) {
    && (forall i, j :: 0 <= i < j < |env| ==> env[i].0 != env[j].0)
    && (forall i :: 0 <= i < |env| ==> env[i].0 in m && m[env[i].0] == env[i].1)
    && (forall k :: k in m ==> exists i :: 0 <= i < |env| && env[i].0 == k)
  }

  /** `shellCommand`: the map is walked in whatever order the runtime picks. */
  method ShellCommand(wd: string, env: map<string, string>, cmd: seq<string>) returns (r: string)
    ensures exists order :: Enumerates(order, env) && r == ShellCommandText(wd, order, cmd)
    ensures Recovers(Sh(r), wd, env, cmd) <==> Renderable(wd, env, cmd)
  {
    var cd := if wd == "" then "" else "cd " + ShellQuote(wd) + " && ";
    ghost var order;
    var vars;
    vars, order := EnvPrefix(env);
    var tail := JoinQuoted(cmd);
    r := cd + vars + tail;
    ShellCommandRecovers(wd, order, env, cmd);
  }

  /** `for k, v := range req.Env` */
  method EnvPrefix(env: map<string, string>) returns (r: string, ghost order: seq<(string, string)>)
    ensures Enumerates(order, env) && r == EnvText(order)
  {
    r, order := "", [];
    ghost var done: map<string, string> := map[];
    var left := env.Keys;
    while left != {}
      invariant left <= env.Keys && done.Keys == env.Keys - left
      invariant forall k :: k in done ==> done[k] == env[k]
      invariant Enumerates(order, done)
      invariant r == EnvText(order)
      decreases |left|
    {
      var k :| k in left;
      EnumerateMore(order, done, k, env[k]);
      EnvTextMore(order, k, env[k]);
      left := left - {k};
      order, done := order + [(k, env[k])], done[k := env[k]];
      r := r + (k + ['='] + ShellQuote(env[k]) + [' ']);
    }
    assert done == env;
  }

  lemma EnvTextMore(order: seq<(string, string)>, k: string, v: string)
    ensures EnvText(order + [(k, v)]) == EnvText(order) + (k + ['='] + ShellQuote(v) + [' '])
  {
    assert (order + [(k, v)])[..|order|] == order;
  }

  method JoinQuoted(cmd: seq<string>) returns (r: string)
    ensures r == Join(Pieces(cmd, true))
  {
    var parts := new string[|cmd|];
    for i := 0 to |cmd|
      invariant forall j :: 0 <= j < i ==> parts[j] == ShellQuote(cmd[j])
    {
      parts[i] := ShellQuote(cmd[i]);
    }
    assert parts[..] == Pieces(cmd, true);
    r := Join(parts[..]);
  }

  lemma EnumerateMore(order: seq<(string, string)>, m: map<string, string>, k: string, v: string)
    requires Enumerates(order, m) && k !in m
    ensures Enumerates(order + [(k, v)], m[k := v])
  {
    var more, m' := order + [(k, v)], m[k := v];
    forall j | j in m' ensures exists i :: 0 <= i < |more| && more[i].0 == j {
      if j == k {
        assert more[|order|].0 == j;
      } else {
        var i :| 0 <= i < |order| && order[i].0 == j;
        assert more[i].0 == j;
      }
    }
  }

  /** The request the string stands for. */
  function Intended(wd: string, env: seq<(string, string)>, cmd: seq<string>): seq<Command> {
    (if wd == [] then [] else [Simple([], ["cd", wd])])
    + (if env == [] && cmd == [] then [] else [Simple(env, cmd)])
  }

  function EnvWord(p: (string, string)): Chars {
    Marked(p.0 + ['='], false) + Marked(p.1, true)
  }

  function EnvWords(env: seq<(string, string)>): (r: seq<Chars>)
    ensures |r| == |env| && forall i :: 0 <= i < |env| ==> r[i] == EnvWord(env[i])
  {
    seq(|env|, i requires 0 <= i < |env| => EnvWord(env[i]))
  }

  lemma NameNotSpecial(k: string)
    requires IsName(k)
    ensures forall i :: 0 <= i < |k + ['=']| ==> !Special((k + ['='])[i])
  {
    forall i | 0 <= i < |k| ensures !Special(k[i]) { assert IsNameChar(k[i]); }
  }

  /** Two texts and a character, each from where the one before left the machine. */
  lemma RunThree(l: Lexer, a: string, l1: Lexer, b: string, l2: Lexer, c: char)
    requires Run(l, a) == l1 && Run(l1, b) == l2
    ensures Run(l, a + b + [c]) == Step(l2, c)
  {
    RunConcat(l, a, b);
    RunConcat(l, a + b, [c]);
    RunOne(l2, c);
  }

  lemma EnvPieceLexes(l: Lexer, p: (string, string))
    requires l.mode.Plain? && l.cur.None? && IsName(p.0)
    ensures Run(l, p.0 + ['='] + ShellQuote(p.1) + [' ']) == l.(toks := l.toks + [Word(EnvWord(p))])
  {
    var key, text := p.0 + ['='], ShellQuote(p.1);
    var l1, l2 := l.(cur := Some(Marked(key, false))), l.(cur := Some(EnvWord(p)));
    assert Run(l, key) == l1 by {
      NameNotSpecial(p.0);
      SafeLexes(l, key);
      NoneBefore(Marked(key, false));
    }
    assert Run(l1, text) == l2 by { QuotedPieceIsLiteral(l1, p.1); }
    RunThree(l, key, l1, text, l2, ' ');
  }

  predicate NamesValid(env: seq<(string, string)>) {
    forall i :: 0 <= i < |env| ==> IsName(env[i].0)
  }

  lemma EnvSnoc(toks: seq<Token>, env: seq<(string, string)>)
    requires env != []
    ensures var n := |env| - 1;
      toks + WordTokens(EnvWords(env)) == toks + WordTokens(EnvWords(env[..n])) + [Word(EnvWord(env[n]))]
  {
    var n := |env| - 1;
    assert WordTokens(EnvWords(env)) == WordTokens(EnvWords(env[..n])) + [Word(EnvWord(env[n]))];
  }

  lemma {:induction false} EnvLexes(l: Lexer, env: seq<(string, string)>)
    requires l.mode.Plain? && l.cur.None? && NamesValid(env)
    ensures Run(l, EnvText(env)) == l.(toks := l.toks + WordTokens(EnvWords(env)))
    decreases |env|
  {
    if env == [] {
      assert l.toks + WordTokens(EnvWords(env)) == l.toks;
    } else {
      var n := |env| - 1;
      var front := env[..n];
      EnvLexes(l, front);
      EnvSnoc(l.toks, env);
      var (k, v) := env[n];
      RunConcat(l, EnvText(front), k + ['='] + ShellQuote(v) + [' ']);
      EnvPieceLexes(l.(toks := l.toks + WordTokens(EnvWords(front))), env[n]);
    }
  }

  function CdWords(wd: string): seq<Chars> { [Marked("cd", false), Marked(wd, true)] }

  function CdTokens(wd: string): seq<Token> {
    if wd == [] then [] else WordTokens(CdWords(wd)) + [Op("&&")]
  }

  lemma CdWordLexes()
    ensures Run(START, "cd ") == Lexer(Plain, None, [Word(Marked("cd", false))])
  {
    var cd := ['c', 'd'];
    assert "cd " == cd + [' '];
    SafeLexes(START, cd);
    NoneBefore(Marked(cd, false));
    RunConcat(START, cd, [' ']);
    RunOne(Lexer(Plain, Some(Marked(cd, false)), []), ' ');
    NoneBefore([Word(Marked(cd, false))]);
  }

  lemma RunParts(l: Lexer, a: string, l1: Lexer, b: string, l2: Lexer, c: string)
    requires Run(l, a) == l1 && Run(l1, b) == l2
    ensures Run(l, a + b + c) == Run(l2, c)
  {
    RunConcat(l, a, b);
    RunConcat(l, a + b, c);
  }

  lemma CdTokensOf(wd: string)
    requires wd != []
    ensures CdTokens(wd) == [Word(Marked("cd", false))] + [Word(Marked(wd, true))] + [Op("&&")]
  {
    assert WordTokens(CdWords(wd)) == [Word(Marked("cd", false))] + [Word(Marked(wd, true))];
  }

  lemma CdLexes(wd: string)
    ensures Run(START, CdText(wd)) == START.(toks := CdTokens(wd))
  {
    if wd != [] {
      var l1 := Lexer(Plain, None, [Word(Marked("cd", false))]);
      var l2 := l1.(cur := Some(Marked(wd, true)));
      CdWordLexes();
      assert Run(l1, ShellQuote(wd)) == l2 by {
        QuotedPieceIsLiteral(l1, wd);
        NoneBefore(Marked(wd, true));
      }
      AndLexes(l2);
      RunParts(START, "cd ", l1, ShellQuote(wd), l2, " && ");
      CdTokensOf(wd);
    }
  }

  /** ` && ` ends the word and leaves one operator token. */
  lemma AndLexes(l: Lexer)
    requires l.mode.Plain? && l.cur.Some?
    ensures Run(l, " && ") == Lexer(Plain, None, l.toks + [Word(l.cur.value)] + [Op("&&")])
  {
    var d := Delimit(l);
    assert ['&'] + ['&'] == "&&";
    assert ("&&" + [' '])[2] == ' ' && !IsLongOperator("&&" + [' ']);
    assert " && " == [' ', '&'] + ['&', ' '];
    RunTwo(l, ' ', '&');
    RunTwo(d.(mode := Operator(['&'])), '&', ' ');
    RunConcat(l, [' ', '&'], ['&', ' ']);
  }

  lemma CommandLexes(wd: string, env: seq<(string, string)>, cmd: seq<string>)
    requires NamesValid(env)
    ensures Lex(ShellCommandText(wd, env, cmd))
         == Some(CdTokens(wd) + WordTokens(EnvWords(env) + CharsOf(cmd, true)))
  {
    var l1 := START.(toks := CdTokens(wd));
    var l2 := l1.(toks := l1.toks + WordTokens(EnvWords(env)));
    CdLexes(wd);
    EnvLexes(l1, env);
    RunConcat(START, CdText(wd), EnvText(env));
    RunConcat(START, CdText(wd) + EnvText(env), Join(Pieces(cmd, true)));
    JoinLexes(l2, cmd, true);
    TokensOfBoth(CdTokens(wd), EnvWords(env), cmd);
  }

  lemma TokensOfBoth(cd: seq<Token>, env: seq<Chars>, cmd: seq<string>)
    ensures cd + WordTokens(env) + Words(cmd, true) == cd + WordTokens(env + CharsOf(cmd, true))
  {
    assert WordTokens(env) + Words(cmd, true) == WordTokens(env + CharsOf(cmd, true));
  }

  lemma EnvWordAssigns(p: (string, string))
    requires IsName(p.0)
    ensures AssignmentOf(EnvWord(p)) == Some(p)
    ensures !Active(EnvWord(p)) && !IsReserved(EnvWord(p))
  {
    var (k, v) := p;
    var w := EnvWord(p);
    var n := |k|;
    NamesHaveNoEquals(k);
    assert IsEquals(w[n]);
    forall j | 0 <= j < n ensures !IsEquals(w[j]) { assert w[j].c == k[j]; }
    FirstEqualsAt(w, n);
    assert w[..n] == Marked(k, false) && w[n + 1..] == Marked(v, true);
    RemoveMarks(k, false);
    RemoveMarks(v, true);
    NameNotSpecial(k);
    forall i | 0 <= i < |w| && !w[i].quoted ensures !Special(w[i].c) { assert w[i].c == (k + ['='])[i]; }
    assert QuoteRemoval(w)[n] == '=';
  }

  lemma CommandWord(a: string)
    ensures var w := PieceChars(a, true);
      AssignmentOf(w).None? && !Active(w) && !IsReserved(w) && QuoteRemoval(w) == a
  {
    PieceAssignment(a, true);
    PieceReserved(a, true);
    PieceNotActive(a, true);
    RemoveMarks(a, true);
  }

  /** Assignments first, then words that are none. */
  lemma SimpleParses(ws: seq<Chars>, env: seq<(string, string)>, words: seq<string>)
    requires ws != [] && |ws| == |env| + |words|
    requires forall i :: 0 <= i < |ws| ==> !Active(ws[i]) && !IsReserved(ws[i])
    requires forall i :: 0 <= i < |env| ==> AssignmentOf(ws[i]) == Some(env[i])
    requires forall i :: |env| <= i < |ws| ==> AssignmentOf(ws[i]).None? && QuoteRemoval(ws[i]) == words[i - |env|]
    ensures ParseSimple(ws) == Some(Simple(env, words))
  {
    var n := |env|;
    LeadingExactly(ws, n);
    assert Assigns(ws[..n]) == env;
    assert Literals(ws[n..]) == words;
  }

  /** The segment of assignments and fully quoted words parses to exactly both. */
  lemma SegmentParses(env: seq<(string, string)>, cmd: seq<string>)
    requires NamesValid(env) && (env != [] || cmd != [])
    ensures ParseSimple(EnvWords(env) + CharsOf(cmd, true)) == Some(Simple(env, cmd))
  {
    var ws := EnvWords(env) + CharsOf(cmd, true);
    forall i | 0 <= i < |ws|
      ensures !Active(ws[i]) && !IsReserved(ws[i])
      ensures i < |env| ==> AssignmentOf(ws[i]) == Some(env[i])
      ensures i >= |env| ==> AssignmentOf(ws[i]).None? && QuoteRemoval(ws[i]) == cmd[i - |env|]
    {
      if i < |env| {
        EnvWordAssigns(env[i]);
      } else {
        CommandWord(cmd[i - |env|]);
      }
    }
    SimpleParses(ws, env, cmd);
  }

  lemma CdParses(wd: string)
    requires wd != []
    ensures ParseSimple(CdWords(wd)) == Some(Simple([], ["cd", wd]))
  {
    var ws := CdWords(wd);
    RemoveMarks("cd", false);
    RemoveMarks(wd, true);
    assert FirstEquals(ws[0]).None?;
    assert !IsReserved(ws[0]);
    assert LeadingAssignments(ws) == 0;
    assert Assigns(ws[..0]) == [] && ws[0..] == ws;
    assert Literals(ws) == ["cd", wd];
  }

  lemma TokensParse(wd: string, ws: seq<Chars>)
    requires wd != [] || ws != []
    ensures ParseTokens(CdTokens(wd) + WordTokens(ws))
         == if wd == [] then ParseAll([ws]) else ParseAll([CdWords(wd), ws])
  {
    SplitWords(ws, []);
    assert WordTokens(ws) + [] == WordTokens(ws);
    assert [ws] + [] == [ws];
    if wd == [] {
      assert [] + WordTokens(ws) == WordTokens(ws);
    } else {
      var more := [Op("&&")] + WordTokens(ws);
      assert more[1..] == WordTokens(ws);
      SplitWords(CdWords(wd), more);
      assert CdTokens(wd) + WordTokens(ws) == WordTokens(CdWords(wd)) + more;
      assert [CdWords(wd)] + [ws] == [CdWords(wd), ws];
    }
  }

  lemma ValidRequestParses(wd: string, env: seq<(string, string)>, cmd: seq<string>)
    requires NamesValid(env) && (wd == [] || env != [] || cmd != [])
    ensures Parse(ShellCommandText(wd, env, cmd)) == Some(Intended(wd, env, cmd))
  {
    var ws := EnvWords(env) + CharsOf(cmd, true);
    CommandLexes(wd, env, cmd);
    if env == [] && cmd == [] {
      assert ws == [] && CdTokens(wd) + WordTokens(ws) == [];
      assert Intended(wd, env, cmd) == [];
    } else {
      SegmentParses(env, cmd);
      SegmentsParse(wd, ws, Simple(env, cmd));
    }
  }

  lemma SegmentsParse(wd: string, ws: seq<Chars>, c: Command)
    requires ws != [] && ParseSimple(ws) == Some(c)
    ensures ParseTokens(CdTokens(wd) + WordTokens(ws))
         == Some((if wd == [] then [] else [Simple([], ["cd", wd])]) + [c])
  {
    TokensParse(wd, ws);
    if wd == [] {
      ParseOne(ws);
      NoneBefore([c]);
    } else {
      CdParses(wd);
      ParseTwo(CdWords(wd), ws);
      assert [Simple([], ["cd", wd]), c] == [Simple([], ["cd", wd])] + [c];
    }
  }

  /** A directory and nothing to run in it: `cd 'dir' && ` does not parse. */
  lemma DanglingAnd(wd: string)
    requires wd != []
    ensures Parse(ShellCommandText(wd, [], [])).None?
  {
    var ws := EnvWords([]) + CharsOf([], true);
    assert ws == [];
    CommandLexes(wd, [], []);
    TokensParse(wd, ws);
    CdParses(wd);
    ParseTwo(CdWords(wd), ws);
  }

  /** A script made of valid parts never starts like an option. */
  lemma NeverOptions(wd: string, env: seq<(string, string)>, cmd: seq<string>)
    requires NamesValid(env)
    ensures !OptionShaped(ShellCommandText(wd, env, cmd))
  {
    if wd == [] {
      if env != [] {
        EnvTextStarts(env);
      } else if cmd != [] {
        JoinOptionShaped(cmd, true);
      }
    }
  }

  lemma {:induction false} EnvTextStarts(env: seq<(string, string)>)
    requires env != [] && NamesValid(env)
    ensures EnvText(env) != [] && EnvText(env)[0] == env[0].0[0] && IsNameStart(EnvText(env)[0])
  {
    if |env| > 1 { EnvTextStarts(env[..|env| - 1]); }
  }

  /** The shell reads the printed command back as the working directory, the environment
      and the command words, with no command word taken for an assignment, exactly when
      every variable name is valid and `cd` is followed by something.  The order in which
      the map was walked does not matter. */
  lemma ShellCommandRoundTrip(wd: string, env: seq<(string, string)>, cmd: seq<string>)
    ensures Sh(ShellCommandText(wd, env, cmd)) == Some(Intended(wd, env, cmd))
       <==> NamesValid(env) && (wd == [] || env != [] || cmd != [])
  {
    if NamesValid(env) && (wd == [] || env != [] || cmd != []) {
      ValidRequestParses(wd, env, cmd);
      NeverOptions(wd, env, cmd);
    } else if NamesValid(env) {
      DanglingAnd(wd);
    } else if Parse(ShellCommandText(wd, env, cmd)) == Some(Intended(wd, env, cmd)) {
      OnlyValidNamesParse(wd, env, cmd);
    }
  }

  lemma OnlyValidNamesParse(wd: string, env: seq<(string, string)>, cmd: seq<string>)
    requires env != [] && Parse(ShellCommandText(wd, env, cmd)) == Some(Intended(wd, env, cmd))
    ensures NamesValid(env)
  {
    var cs := Intended(wd, env, cmd);
    var last := |cs| - 1;
    assert cs[last] == Simple(env, cmd);
    var toks := Lex(ShellCommandText(wd, env, cmd)).value;
    ParsedNamesValid(SplitAnd(toks).value, last);
    forall i | 0 <= i < |env| ensures IsName(env[i].0) { assert env[i] in cs[last].assigns; }
  }

  function ToMap(env: seq<(string, string)>): map<string, string> {
    if env == [] then map[] else ToMap(env[..|env| - 1])[env[|env| - 1].0 := env[|env| - 1].1]
  }

  /** Whatever the order, the parsed assignments are the request's environment. */
  lemma {:induction false} EnvironmentRecovered(env: seq<(string, string)>, m: map<string, string>)
    requires Enumerates(env, m)
    ensures ToMap(env) == m
  {
    if env == [] {
      assert m == map[];
    } else {
      var n := |env| - 1;
      EnumerateLess(env, m);
      EnvironmentRecovered(env[..n], m - {env[n].0});
      assert m == (m - {env[n].0})[env[n].0 := env[n].1];
    }
  }

  /** The parsed script changes to `wd` if there is one, then sets exactly `env` for
      exactly `cmd`. */
  predicate Recovers(p: Option<seq<Command>>, wd: string, env: map<string, string>, cmd: seq<string>) {
    p.Some?
    && var cs := p.value;
       var k := if wd == [] then 0 else 1;
       && |cs| == k + (if env == map[] && cmd == [] then 0 else 1)
       && (k == 1 ==> cs[0] == Simple([], ["cd", wd]))
       && (|cs| == k + 1 ==> cs[k].words == cmd && ToMap(cs[k].assigns) == env)
  }

  predicate Renderable(wd: string, env: map<string, string>, cmd: seq<string>) {
    (forall k :: k in env ==> IsName(k)) && (wd == [] || env != map[] || cmd != [])
  }

  lemma {:induction false} ToMapKeys(env: seq<(string, string)>, k: string)
    requires k in ToMap(env)
    ensures exists i :: 0 <= i < |env| && env[i].0 == k
  {
    var n := |env| - 1;
    if env[n].0 != k {
      ToMapKeys(env[..n], k);
      var i :| 0 <= i < n && env[..n][i].0 == k;
      assert env[i].0 == k;
    }
  }

  /** The request as a whole comes back from the printed string, whichever order its
      environment was walked in, exactly when it is renderable. */
  lemma ShellCommandRecovers(wd: string, order: seq<(string, string)>, env: map<string, string>, cmd: seq<string>)
    requires Enumerates(order, env)
    ensures Recovers(Sh(ShellCommandText(wd, order, cmd)), wd, env, cmd) <==> Renderable(wd, env, cmd)
  {
    EnvironmentRecovered(order, env);
    assert order == [] <==> env == map[] by {
      if order != [] { assert order[0].0 in env; }
    }
    if Renderable(wd, env, cmd) {
      ValidRequestParses(wd, order, cmd);
      NeverOptions(wd, order, cmd);
    } else if env == map[] && cmd == [] {
      DanglingAnd(wd);
    } else if Recovers(Parse(ShellCommandText(wd, order, cmd)), wd, env, cmd) {
      RecoveredNamesValid(wd, order, env, cmd);
    }
  }

  lemma RecoveredNamesValid(wd: string, order: seq<(string, string)>, env: map<string, string>, cmd: seq<string>)
    requires env != map[] || cmd != []
    requires Recovers(Parse(ShellCommandText(wd, order, cmd)), wd, env, cmd)
    ensures forall k :: k in env ==> IsName(k)
  {
    var cs := Parse(ShellCommandText(wd, order, cmd)).value;
    var toks := Lex(ShellCommandText(wd, order, cmd)).value;
    var last := |cs| - 1;
    ParsedNamesValid(SplitAnd(toks).value, last);
    forall k | k in env ensures IsName(k) {
      ToMapKeys(cs[last].assigns, k);
      var i :| 0 <= i < |cs[last].assigns| && cs[last].assigns[i].0 == k;
      assert cs[last].assigns[i] in cs[last].assigns;
    }
  }

  lemma EnumerateLess(env: seq<(string, string)>, m: map<string, string>)
    requires env != [] && Enumerates(env, m)
    ensures var n := |env| - 1; Enumerates(env[..n], m - {env[n].0})
  {
    var n := |env| - 1;
    forall j | j in m && j != env[n].0
      ensures exists i :: 0 <= i < |env[..n]| && env[..n][i].0 == j
    {
      var i :| 0 <= i < |env| && env[i].0 == j;
      assert env[..n][i].0 == j;
    }
  }
}
