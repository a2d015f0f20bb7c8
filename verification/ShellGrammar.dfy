/** The part of the shell grammar (IEEE Std 1003.1-2017, Shell Command Language, section
    2.10) that the printers aim at: simple commands joined by `&&`, each a run of
    variable assignments and then words.  A word with an unquoted pattern or tilde
    character would be expanded further and is outside this grammar. */
module ShellGrammar {
  import opened Wrappers
  import opened Seqs
  import opened ShellLexer

  datatype Command = Simple(assigns: seq<(string, string)>, words: seq<string>)

  predicate IsNameStart(c: char) { 'a' <= c <= 'z' || 'A' <= c <= 'Z' || c == '_' }
  predicate IsNameChar(c: char) { IsNameStart(c) || '0' <= c <= '9' }

  /** A valid variable name (section 3.235 of the Base Definitions). */
  predicate IsName(s: string) {
    s != [] && IsNameStart(s[0]) && forall i :: 0 <= i < |s| ==> IsNameChar(s[i])
  }

  predicate ReservedWord(s: string) {
    s in {"!", "{", "}", "case", "do", "done", "elif", "else", "esac", "fi", "for", "if", "in",
          "then", "until", "while"}
  }

  predicate Unquoted(w: Chars) { forall i :: 0 <= i < |w| ==> !w[i].quoted }

  /** Section 2.4: recognised only when no character is quoted. */
  predicate IsReserved(w: Chars) { Unquoted(w) && ReservedWord(QuoteRemoval(w)) }

  predicate Active(w: Chars) {
    exists i :: 0 <= i < |w| && !w[i].quoted && w[i].c in {'*', '?', '[', '~'}
  }

  predicate IsEquals(q: QChar) { q == QChar('=', false) }

  function FirstEquals(w: Chars): (r: Option<nat>)
    ensures r.Some? ==> r.value < |w| && IsEquals(w[r.value])
    ensures r.Some? ==> forall j :: 0 <= j < r.value ==> !IsEquals(w[j])
    ensures r.None? ==> forall j :: 0 <= j < |w| ==> !IsEquals(w[j])
  {
    if w == [] then None
    else if IsEquals(w[0]) then Some(0)
    else match FirstEquals(w[1..])
      case None => None
      case Some(n) => Some(n + 1)
  }

  lemma FirstEqualsAt(w: Chars, n: nat)
    requires n < |w| && IsEquals(w[n]) && forall j :: 0 <= j < n ==> !IsEquals(w[j])
    ensures FirstEquals(w) == Some(n)
  {
  }

  /** Rule 7b: an unquoted `=` after an unquoted valid name. */
  function AssignmentOf(w: Chars): (r: Option<(string, string)>)
    ensures r.Some? ==> IsName(r.value.0)
  {
    match FirstEquals(w)
    case None => None
    case Some(n) =>
      if Unquoted(w[..n]) && IsName(QuoteRemoval(w[..n]))
      then Some((QuoteRemoval(w[..n]), QuoteRemoval(w[n + 1..])))
      else None
  }

  /** Assignments are recognised only before the command word. */
  function LeadingAssignments(ws: seq<Chars>): (n: nat)
    ensures n <= |ws| && forall i :: 0 <= i < n ==> AssignmentOf(ws[i]).Some?
    ensures n < |ws| ==> AssignmentOf(ws[n]).None?
  {
    if ws == [] || AssignmentOf(ws[0]).None? then 0
    else
      1 + LeadingAssignments(ws[1..])
  }

  lemma {:induction false} LeadingExactly(ws: seq<Chars>, n: nat)
    requires n <= |ws| && forall i :: 0 <= i < n ==> AssignmentOf(ws[i]).Some?
    requires n < |ws| ==> AssignmentOf(ws[n]).None?
    ensures LeadingAssignments(ws) == n
  {
    if n > 0 { LeadingExactly(ws[1..], n - 1); }
  }

  function Assigns(ws: seq<Chars>): (r: seq<(string, string)>)
    requires forall i :: 0 <= i < |ws| ==> AssignmentOf(ws[i]).Some?
    ensures |r| == |ws| && forall i :: 0 <= i < |ws| ==> r[i] == AssignmentOf(ws[i]).value
  {
    seq(|ws|, i requires 0 <= i < |ws| => AssignmentOf(ws[i]).value)
  }

  function Literals(ws: seq<Chars>): (r: seq<string>)
    ensures |r| == |ws| && forall i :: 0 <= i < |ws| ==> r[i] == QuoteRemoval(ws[i])
  {
    seq(|ws|, i requires 0 <= i < |ws| => QuoteRemoval(ws[i]))
  }

  function ParseSimple(ws: seq<Chars>): Option<Command> {
    if ws == [] || IsReserved(ws[0]) || (exists i :: 0 <= i < |ws| && Active(ws[i])) then None
    else
      var n := LeadingAssignments(ws);
      Some(Simple(Assigns(ws[..n]), Literals(ws[n..])))
  }

  /** Cuts the tokens at `&&`; None at any other operator. */
  function SplitAnd(toks: seq<Token>): (r: Option<seq<seq<Chars>>>)
    ensures r.Some? ==> |r.value| >= 1
  {
    if toks == [] then Some([[]])
    else match SplitAnd(toks[1..])
      case None => None
      case Some(segs) =>
        match toks[0]
        case Word(w) => Some([[w] + segs[0]] + segs[1..])
        case Op(op) => if op == "&&" then Some([[]] + segs) else None
  }

  function ParseAll(segs: seq<seq<Chars>>): Option<seq<Command>> {
    if segs == [] then Some([])
    else match (ParseSimple(segs[0]), ParseAll(segs[1..]))
      case (Some(c), Some(cs)) => Some([c] + cs)
      case _ => None
  }

  function ParseTokens(toks: seq<Token>): Option<seq<Command>> {
    if toks == [] then Some([])
    else match SplitAnd(toks)
      case None => None
      case Some(segs) => ParseAll(segs)
  }

  /** The script, when it is an and-list of literal simple commands. */
  function Parse(s: string): Option<seq<Command>> {
    match Lex(s)
    case None => None
    case Some(toks) => ParseTokens(toks)
  }

  /** `sh -c` goes on reading options after `-c` (sh, OPTIONS, in the Shell and Utilities
      volume): a string that starts like one is not taken for the script. */
  predicate OptionShaped(s: string) { s != [] && (s[0] == '-' || s[0] == '+') }

  /** What `sh -c s` runs. */
  function Sh(s: string): Option<seq<Command>> { if OptionShaped(s) then None else Parse(s) }

  function WordTokens(ws: seq<Chars>): (r: seq<Token>)
    ensures |r| == |ws| && forall i :: 0 <= i < |ws| ==> r[i] == Word(ws[i])
  {
    seq(|ws|, i requires 0 <= i < |ws| => Word(ws[i]))
  }

  /** Words alone are one segment; with more after `&&` they are the first segment. */
  lemma {:induction false} SplitWords(ws: seq<Chars>, more: seq<Token>)
    requires more == [] || (more[0] == Op("&&") && SplitAnd(more[1..]).Some?)
    ensures SplitAnd(WordTokens(ws) + more)
         == Some([ws] + (if more == [] then [] else SplitAnd(more[1..]).value))
  {
    var toks := WordTokens(ws) + more;
    if ws == [] {
      assert toks == more;
      assert [ws] + [] == [[]];
    } else {
      SplitWords(ws[1..], more);
      assert WordTokens(ws)[1..] == WordTokens(ws[1..]);
      assert toks[0] == Word(ws[0]) && toks[1..] == WordTokens(ws[1..]) + more;
      HeadTail(ws);
    }
  }

  lemma ParseOne(ws: seq<Chars>)
    ensures ParseAll([ws]) == if ParseSimple(ws).None? then None else Some([ParseSimple(ws).value])
  {
    assert [ws][1..] == [];
    assert ParseAll([]) == Some([]);
    if ParseSimple(ws).Some? {
      assert [ParseSimple(ws).value] + [] == [ParseSimple(ws).value];
    }
  }

  lemma ParseTwo(a: seq<Chars>, b: seq<Chars>)
    ensures ParseAll([a, b]) ==
      if ParseSimple(a).None? || ParseSimple(b).None? then None
      else Some([ParseSimple(a).value, ParseSimple(b).value])
  {
    assert [a, b][1..] == [b];
    ParseOne(b);
    if ParseSimple(a).Some? && ParseSimple(b).Some? {
      var x, y := ParseSimple(a).value, ParseSimple(b).value;
      assert [x] + [y] == [x, y];
    }
  }

  lemma {:induction false} ParsedNamesValid(segs: seq<seq<Chars>>, i: nat)
    requires ParseAll(segs).Some? && i < |ParseAll(segs).value|
    ensures forall p :: p in ParseAll(segs).value[i].assigns ==> IsName(p.0)
  {
    if i == 0 {
    } else {
      ParsedNamesValid(segs[1..], i - 1);
    }
  }
}
