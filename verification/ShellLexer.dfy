/** Token recognition of the POSIX shell (IEEE Std 1003.1-2017, Shell Command Language,
    sections 2.2 and 2.3), as a machine that reads one character at a time.  Every
    character of a word remembers whether it was quoted; quote removal (2.6.7) then
    keeps the characters and drops the marks.  Parameter expansion, command
    substitution and arithmetic lead to `Expansion`, where the machine gives up. */
module ShellLexer {
  import opened Wrappers
  import opened Seqs

  datatype QChar = QChar(c: char, quoted: bool)
  type Chars = seq<QChar>

  datatype Token = Word(chars: Chars) | Op(op: string)

  datatype Mode =
    | Plain | Escape | Single | Double | DoubleEscape | Comment
    | Operator(op: string)
    | Expansion

  /** `cur` is the word being read; Some([]) is a word begun by an empty quotation. */
  datatype Lexer = Lexer(mode: Mode, cur: Option<Chars>, toks: seq<Token>)

  const START := Lexer(Plain, None, [])

  predicate IsBlank(c: char) { c == ' ' || c == '\t' }

  predicate StartsOperator(c: char) {
    c == '&' || c == '|' || c == ';' || c == '<' || c == '>' || c == '(' || c == ')' || c == '\n'
  }

  /** The operators longer than one character. */
  predicate IsLongOperator(s: string) {
    s == "&&" || s == "||" || s == ";;" || s == "<<" || s == ">>" || s == "<&" || s == ">&"
    || s == "<>" || s == "<<-" || s == ">|"
  }

  function CurOf(l: Lexer): Chars { if l.cur.Some? then l.cur.value else [] }

  function Append(l: Lexer, c: char, quoted: bool): Lexer {
    l.(cur := Some(CurOf(l) + [QChar(c, quoted)]))
  }

  function Delimit(l: Lexer): Lexer {
    match l.cur
    case None => l
    case Some(w) => l.(cur := None, toks := l.toks + [Word(w)])
  }

  function StepPlain(l: Lexer, c: char): Lexer {
    if c == '\\' then l.(mode := Escape)
    else if c == '\'' then l.(mode := Single, cur := Some(CurOf(l)))
    else if c == '"' then l.(mode := Double, cur := Some(CurOf(l)))
    else if c == '$' || c == '`' then l.(mode := Expansion)
    else if StartsOperator(c) then Delimit(l).(mode := Operator([c]))
    else if IsBlank(c) then Delimit(l)
    else if c == '#' && l.cur.None? then l.(mode := Comment)
    else Append(l, c, false)
  }

  function Step(l: Lexer, c: char): Lexer {
    match l.mode
    case Plain => StepPlain(l, c)
    case Escape =>
      if c == '\n' then l.(mode := Plain) else Append(l, c, true).(mode := Plain)
    case Single =>
      if c == '\'' then l.(mode := Plain) else Append(l, c, true)
    case Double =>
      if c == '"' then l.(mode := Plain)
      else if c == '\\' then l.(mode := DoubleEscape)
      else if c == '$' || c == '`' then l.(mode := Expansion)
      else Append(l, c, true)
    case DoubleEscape =>
      if c == '\n' then l.(mode := Double)
      else if c == '$' || c == '`' || c == '"' || c == '\\' then Append(l, c, true).(mode := Double)
      else Append(Append(l, '\\', true), c, true).(mode := Double)
    case Comment =>
      if c == '\n' then l.(mode := Operator("\n")) else l
    case Operator(op) =>
      if IsLongOperator(op + [c]) then l.(mode := Operator(op + [c]))
      else StepPlain(l.(mode := Plain, toks := l.toks + [Op(op)]), c)
    case Expansion => l
  }

  function Run(l: Lexer, s: string): Lexer
    decreases s
  {
    if s == [] then l else Run(Step(l, s[0]), s[1..])
  }

  /** End of input.  None: an open quotation, a trailing backslash, or an expansion. */
  function Finish(l: Lexer): Option<seq<Token>> {
    match l.mode
    case Plain => Some(Delimit(l).toks)
    case Comment => Some(l.toks)
    case Operator(op) => Some(l.toks + [Op(op)])
    case _ => None
  }

  function Lex(s: string): Option<seq<Token>> { Finish(Run(START, s)) }

  lemma {:induction false} RunConcat(l: Lexer, a: string, b: string)
    ensures Run(l, a + b) == Run(Run(l, a), b)
    decreases a
  {
    if a == [] {
      NoneBefore(b);
    } else {
      ConsTail(a, b);
      RunConcat(Step(l, a[0]), a[1..], b);
    }
  }

  lemma RunOne(l: Lexer, c: char)
    ensures Run(l, [c]) == Step(l, c)
  {
    assert [c][1..] == [];
  }

  // --------------------------------------------------------- quote removal

  function Marked(s: string, quoted: bool): (r: Chars)
    ensures |r| == |s| && forall i :: 0 <= i < |s| ==> r[i] == QChar(s[i], quoted)
  {
    seq(|s|, i requires 0 <= i < |s| => QChar(s[i], quoted))
  }

  function QuoteRemoval(w: Chars): (r: string)
    ensures |r| == |w| && forall i :: 0 <= i < |w| ==> r[i] == w[i].c
  {
    seq(|w|, i requires 0 <= i < |w| => w[i].c)
  }

  lemma RemoveMarks(s: string, quoted: bool)
    ensures QuoteRemoval(Marked(s, quoted)) == s
  {
  }
}
