/** The shell printers: `shellQuote` and `shellJoin` (CLI), `shellCommand` (gVisor), with
    the round trip through the POSIX lexer of ShellLexer. */
module ShellPrinters {
  import opened Wrappers
  import opened Seqs
  import opened LineSplit
  import opened ShellLexer

  // --------------------------------------------------------------- printers

  /** `strings.ReplaceAll(s, "'", `'\''`)` */
  function EscapeQuotes(s: string): string {
    if s == [] then []
    else (if s[0] == '\'' then ['\'', '\\', '\'', '\''] else [s[0]]) + EscapeQuotes(s[1..])
  }

  function ShellQuote(s: string): string { ['\''] + EscapeQuotes(s) + ['\''] }

  /** The characters `shellJoin` looks for. */
  predicate Special(c: char) {
    c in {' ', '\t', '\n', '\'', '"', '\\', '$', '&', ';', '|', '<', '>', '(', ')', '{', '}',
          '[', ']', '*', '?', '~', '#', '`', '!'}
  }

  predicate Safe(a: string) {
    a != [] && forall i :: 0 <= i < |a| ==> !Special(a[i])
  }

  /** One argument; `all` quotes it even when that is not needed. */
  function Piece(a: string, all: bool): string {
    if !all && Safe(a) then a else ShellQuote(a)
  }

  function Pieces(args: seq<string>, all: bool): (r: seq<string>)
    ensures |r| == |args| && forall i :: 0 <= i < |args| ==> r[i] == Piece(args[i], all)
  {
    seq(|args|, i requires 0 <= i < |args| => Piece(args[i], all))
  }

  /** `strings.Join(parts, " ")` */
  function Join(parts: seq<string>): string {
    if parts == [] then []
    else if |parts| == 1 then parts[0]
    else Join(parts[..|parts| - 1]) + [' '] + parts[|parts| - 1]
  }

  function ShellJoin(args: seq<string>): string { Join(Pieces(args, false)) }

  /** The loop that fills the slice `quoted` by index. */
  method ShellJoinLoop(args: seq<string>) returns (r: string)
    ensures r == ShellJoin(args)
  {
    var quoted := new string[|args|];
    for i := 0 to |args|
      invariant forall j :: 0 <= j < i ==> quoted[j] == Piece(args[j], false)
    {
      var a := args[i];
      var unsafe := HasSpecial(a);
      if a != "" && !unsafe {
        quoted[i] := a;
        continue;
      }
      quoted[i] := ShellQuote(a);
    }
    assert quoted[..] == Pieces(args, false);
    r := Join(quoted[..]);
  }

  /** `strings.ContainsAny` with the special characters. */
  method HasSpecial(a: string) returns (found: bool)
    ensures found <==> exists i :: 0 <= i < |a| && Special(a[i])
  {
    found := false;
    for i := 0 to |a|
      invariant !found ==> forall j :: 0 <= j < i ==> !Special(a[j])
    {
      if Special(a[i]) { return true; }
    }
  }

  // ------------------------------------------------------ what is printed

  lemma {:induction false} EscapeConcat(a: string, b: string)
    ensures EscapeQuotes(a + b) == EscapeQuotes(a) + EscapeQuotes(b)
  {
    if a == [] {
      NoneBefore(b);
      NoneBefore(EscapeQuotes(b));
    } else {
      ConsTail(a, b);
      EscapeConcat(a[1..], b);
      Regroup(if a[0] == '\'' then ['\'', '\\', '\'', '\''] else [a[0]], EscapeQuotes(a[1..]), EscapeQuotes(b));
    }
  }

  /** `strings.ReplaceAll`: a text without quotes stays, and each quote between two texts
      becomes four characters. */
  lemma {:induction false} EscapeReplaces(a: string, b: string)
    ensures '\'' !in a ==> EscapeQuotes(a) == a
    ensures EscapeQuotes(a + ['\''] + b) == EscapeQuotes(a) + ['\'', '\\', '\'', '\''] + EscapeQuotes(b)
  {
    EscapeConcat(a + ['\''], b);
    EscapeConcat(a, ['\'']);
    assert ['\''][1..] == [] && EscapeQuotes([]) == [];
    assert EscapeQuotes(['\'']) == ['\'', '\\', '\'', '\''];
    if a != [] && '\'' !in a {
      assert '\'' !in a[1..];
      EscapeReplaces(a[1..], []);
      HeadTail(a);
    }
  }

  /** `strings.Join`: pieces without spaces are what lies between the spaces. */
  lemma {:induction false} JoinSplits(parts: seq<string>)
    requires parts != [] && forall p :: p in parts ==> ' ' !in p
    ensures Split(Join(parts), ' ') == parts
  {
    var last := parts[|parts| - 1];
    SplitWithout(last, ' ');
    if |parts| == 1 {
      assert parts == [last];
    } else {
      JoinSplits(parts[..|parts| - 1]);
      SplitAtSpace(Join(parts[..|parts| - 1]), last);
      assert parts[..|parts| - 1] + [last] == parts;
    }
  }

  lemma {:induction false} SplitAtSpace(a: string, b: string)
    requires ' ' !in b
    ensures Split(a + [' '] + b, ' ') == Split(a, ' ') + [b]
  {
    SplitWithout(b, ' ');
    if a == [] {
      assert [] + [' '] + b == [' '] + b && ([' '] + b)[1..] == b;
    } else {
      assert (a + [' '] + b)[1..] == a[1..] + [' '] + b;
      SplitAtSpace(a[1..], b);
      var x := Split(a[1..], ' ');
      assert (x + [b])[1..] == x[1..] + [b];
    }
  }

  // ------------------------------------------- what a printed piece lexes to

  function PieceChars(a: string, all: bool): Chars { Marked(a, all || !Safe(a)) }

  lemma AppendMarked(w: Chars, c: char, s: string, quoted: bool)
    ensures w + [QChar(c, quoted)] + Marked(s, quoted) == w + Marked([c] + s, quoted)
  {
  }

  /** Inside single quotes the escaped text adds exactly the text, all of it quoted. */
  lemma {:induction false} EscapedLexes(l: Lexer, s: string)
    requires l.mode.Single? && l.cur.Some?
    ensures Run(l, EscapeQuotes(s)) == l.(cur := Some(l.cur.value + Marked(s, true)))
    decreases s
  {
    if s == [] {
      assert l.cur.value + Marked(s, true) == l.cur.value;
    } else {
      var next := Append(l, s[0], true);
      if s[0] == '\'' {
        QuoteEscapeLexes(l);
        RunConcat(l, ['\'', '\\', '\'', '\''], EscapeQuotes(s[1..]));
      } else {
        RunOne(l, s[0]);
        RunConcat(l, [s[0]], EscapeQuotes(s[1..]));
      }
      EscapedLexes(next, s[1..]);
      AppendMarked(l.cur.value, s[0], s[1..], true);
      HeadTail(s);
    }
  }

  lemma QuoteEscapeLexes(l: Lexer)
    requires l.mode.Single? && l.cur.Some?
    ensures Run(l, ['\'', '\\', '\'', '\'']) == Append(l, '\'', true)
  {
    var plain := l.(mode := Plain);
    RunTwo(l, '\'', '\\');
    RunTwo(plain.(mode := Escape), '\'', '\'');
    assert ['\'', '\\', '\'', '\''] == ['\'', '\\'] + ['\'', '\''];
    RunConcat(l, ['\'', '\\'], ['\'', '\'']);
  }

  lemma RunTwo(l: Lexer, a: char, b: char)
    ensures Run(l, [a, b]) == Step(Step(l, a), b)
  {
    assert [a, b][1..] == [b];
    RunOne(Step(l, a), b);
  }

  /** Where the lexer stands once an operator it was reading has ended. */
  function OperatorEnded(l: Lexer): Lexer {
    if l.mode.Operator? then l.(mode := Plain, toks := l.toks + [Op(l.mode.op)]) else l
  }

  /** A quote ends an operator and opens a quotation. */
  lemma QuoteOpens(l: Lexer)
    requires l.mode.Plain? || l.mode.Operator?
    ensures Step(l, '\'') == OperatorEnded(l).(mode := Single, cur := Some(CurOf(l)))
  {
    if l.mode.Operator? {
      var op := l.mode.op + ['\''];
      assert op[|op| - 1] == '\'';
      assert !IsLongOperator(op);
    }
  }

  /** A quoted piece contributes one literal run of characters wherever the surrounding
      script has the lexer outside quotations, comments and expansions: it ends an operator
      being read, extends the word being read, if any, and leaves the machine ready for more
      of that word. */
  lemma QuotedPieceIsLiteral(l: Lexer, s: string)
    requires l.mode.Plain? || l.mode.Operator?
    ensures Run(l, ShellQuote(s)) == OperatorEnded(l).(cur := Some(CurOf(l) + Marked(s, true)))
  {
    var inside := OperatorEnded(l).(mode := Single, cur := Some(CurOf(l)));
    RunConcat(l, ['\''] + EscapeQuotes(s), ['\'']);
    RunConcat(l, ['\''], EscapeQuotes(s));
    RunOne(l, '\'');
    QuoteOpens(l);
    EscapedLexes(inside, s);
    RunOne(inside.(cur := Some(CurOf(l) + Marked(s, true))), '\'');
  }

  /** Characters that end nothing and start nothing are read as themselves. */
  lemma {:induction false} SafeLexes(l: Lexer, s: string)
    requires l.mode.Plain? && forall i :: 0 <= i < |s| ==> !Special(s[i])
    ensures Run(l, s) == if s == [] then l else l.(cur := Some(CurOf(l) + Marked(s, false)))
    decreases s
  {
    if s != [] {
      assert !Special(s[0]);
      SafeLexes(Step(l, s[0]), s[1..]);
      AppendMarked(CurOf(l), s[0], s[1..], false);
      HeadTail(s);
      if s[1..] == [] {
        assert CurOf(l) + [QChar(s[0], false)] + Marked(s[1..], false) == CurOf(l) + [QChar(s[0], false)];
      }
    }
  }

  lemma PieceLexes(l: Lexer, a: string, all: bool)
    requires l.mode.Plain? && l.cur.None?
    ensures Run(l, Piece(a, all)) == l.(cur := Some(PieceChars(a, all)))
  {
    assert [] + Marked(a, all || !Safe(a)) == Marked(a, all || !Safe(a));
    if !all && Safe(a) {
      SafeLexes(l, a);
    } else {
      QuotedPieceIsLiteral(l, a);
    }
  }

  function Words(args: seq<string>, all: bool): (r: seq<Token>)
    ensures |r| == |args| && forall i :: 0 <= i < |args| ==> r[i] == Word(PieceChars(args[i], all))
  {
    seq(|args|, i requires 0 <= i < |args| => Word(PieceChars(args[i], all)))
  }

  lemma WordsSnoc(toks: seq<Token>, args: seq<string>, all: bool)
    requires args != []
    ensures var n := |args| - 1;
      && toks + Words(args, all) == toks + Words(args[..n], all) + [Word(PieceChars(args[n], all))]
      && Pieces(args, all)[..n] == Pieces(args[..n], all)
  {
    var n := |args| - 1;
    assert Words(args, all) == Words(args[..n], all) + [Word(PieceChars(args[n], all))];
  }

  /** A space-separated list of pieces lexes to one word per argument. */
  lemma {:induction false} JoinLexes(l: Lexer, args: seq<string>, all: bool)
    requires l.mode.Plain? && l.cur.None?
    ensures var r := Run(l, Join(Pieces(args, all)));
      && r.mode.Plain? && (args != [] ==> r.cur.Some?)
      && Delimit(r) == l.(toks := l.toks + Words(args, all))
  {
    var ps := Pieces(args, all);
    if args == [] {
      assert ps == [] && l.toks + Words(args, all) == l.toks;
    } else {
      var n := |args| - 1;
      var a := args[n];
      WordsSnoc(l.toks, args, all);
      if n == 0 {
        PieceLexes(l, a, all);
        assert l.toks + Words(args[..n], all) == l.toks;
      } else {
        JoinLexes(l, args[..n], all);
        var front := Join(ps[..n]);
        var mid := Run(l, front);
        RunConcat(l, front + [' '], ps[n]);
        RunConcat(l, front, [' ']);
        RunOne(mid, ' ');
        PieceLexes(Delimit(mid), a, all);
      }
    }
  }

  /** Lexing `shellJoin(args)` and removing quotes gives back exactly `args`. */
  lemma ShellJoinRoundTrip(args: seq<string>)
    ensures Lex(ShellJoin(args)) == Some(Words(args, false))
    ensures forall i :: 0 <= i < |args| ==> QuoteRemoval(PieceChars(args[i], false)) == args[i]
  {
    JoinLexes(START, args, false);
    NoneBefore(Words(args, false));
    forall i | 0 <= i < |args|
      ensures QuoteRemoval(PieceChars(args[i], false)) == args[i]
    {
      RemoveMarks(args[i], !Safe(args[i]));
    }
  }
}
