/** Splitting wire text into lines, and reassembling lines from pieces of it. */
module LineSplit {
  import opened Seqs

  /** `s.split(sep)`, newlines unless said otherwise: never empty; the last element is what
      follows the last separator. */
  function Split(s: string, sep: char := '\n'): (r: seq<string>)
    ensures |r| >= 1
  {
    if s == [] then [[]]
    else
      var r := Split(s[1..], sep);
      if s[0] == sep then [[]] + r else [[s[0]] + r[0]] + r[1..]
  }

  function Last(lines: seq<string>): string
    requires |lines| >= 1
  {
    lines[|lines| - 1]
  }

  function AllButLast(lines: seq<string>): seq<string>
    requires |lines| >= 1
  {
    lines[..|lines| - 1]
  }

  /** Splitting is compositional: only the unfinished last line meets new text. */
  lemma {:induction false} SplitConcat(a: string, b: string)
    ensures Split(a + b) == AllButLast(Split(a)) + Split(Last(Split(a)) + b)
  {
    if a == [] {
      assert a + b == b;
      assert Last(Split(a)) + b == b;
    } else {
      assert (a + b)[1..] == a[1..] + b;
      SplitConcat(a[1..], b);
      SplitConcatHead(a[0], a[1..], b);
      assert [a[0]] + a[1..] == a && [a[0]] + (a[1..] + b) == a + b;
    }
  }

  lemma SplitHead(c: char, s: string)
    ensures Split([c] + s) == if c == '\n' then [[]] + Split(s) else [[c] + Split(s)[0]] + Split(s)[1..]
  {
    assert ([c] + s)[1..] == s;
  }

  /** Prepending to the first of several lines leaves the last one alone. */
  lemma SpliceFirst(c: char, r: seq<string>, y: seq<string>)
    requires |r| >= 2
    ensures var x, l := r[..|r| - 1] + y, [[c] + r[0]] + r[1..];
      && x[0] == r[0]
      && [[c] + x[0]] + x[1..] == l[..|l| - 1] + y
      && l[|l| - 1] == r[|r| - 1]
  {
    var x, l := r[..|r| - 1] + y, [[c] + r[0]] + r[1..];
    assert x[1..] == r[1..|r| - 1] + y;
    assert l[..|l| - 1] == [[c] + r[0]] + r[1..|r| - 1];
  }

  lemma SplitConcatHead(c: char, a: string, b: string)
    requires Split(a + b) == AllButLast(Split(a)) + Split(Last(Split(a)) + b)
    ensures Split([c] + (a + b)) == AllButLast(Split([c] + a)) + Split(Last(Split([c] + a)) + b)
  {
    var r := Split(a);
    SplitHead(c, a + b);
    SplitHead(c, a);
    if c == '\n' {
      NewFirst([], r, Split(Last(r) + b));
    } else if |r| == 1 {
      SplitHead(c, r[0] + b);
      NoneBefore(Split(r[0] + b));
      NoneBefore(Split([c] + r[0] + b));
      ConsConcat(c, r[0], b);
    } else {
      SpliceFirst(c, r, Split(Last(r) + b));
    }
  }

  lemma NewFirst(l: string, r: seq<string>, y: seq<string>)
    requires |r| >= 1
    ensures AllButLast([l] + r) + y == [l] + (AllButLast(r) + y)
    ensures Last([l] + r) == Last(r)
  {
  }

  lemma ConsConcat(c: char, a: string, b: string)
    ensures [c] + a + b == [c] + (a + b)
  {
  }

  lemma {:induction false} SplitWithout(s: string, sep: char := '\n')
    requires sep !in s
    ensures Split(s, sep) == [s]
  {
    if s != [] {
      assert sep !in s[1..];
      SplitWithout(s[1..], sep);
      assert [s[0]] + s[1..] == s;
    }
  }

  lemma {:induction false} PartsWithout(s: string, sep: char := '\n')
    ensures forall l :: l in Split(s, sep) ==> sep !in l
  {
    if s != [] { PartsWithout(s[1..], sep); }
  }

  function NonBlank(lines: seq<string>, blank: string -> bool): seq<string> {
    if lines == [] then []
    else NonBlank(lines[..|lines| - 1], blank) + (if blank(Last(lines)) then [] else [Last(lines)])
  }

  lemma {:induction false} NonBlankConcat(a: seq<string>, b: seq<string>, blank: string -> bool)
    ensures NonBlank(a + b, blank) == NonBlank(a, blank) + NonBlank(b, blank)
  {
    if b == [] {
      assert a + b == a;
    } else {
      assert (a + b)[..|a + b| - 1] == a + b[..|b| - 1];
      NonBlankConcat(a, b[..|b| - 1], blank);
    }
  }

  /** Wherever a list of lines is cut at one of them, that line is kept exactly when it is
      not blank, between what is kept before it and after it. */
  lemma NonBlankAround(a: seq<string>, l: string, b: seq<string>, blank: string -> bool)
    ensures NonBlank(a + [l] + b, blank)
         == NonBlank(a, blank) + (if blank(l) then [] else [l]) + NonBlank(b, blank)
  {
    NonBlankConcat(a + [l], b, blank);
    assert (a + [l])[..|a|] == a;
  }

  /** The lines a reader of newline-terminated text sees, blank ones skipped. */
  function CompleteLines(s: string, blank: string -> bool): seq<string> {
    NonBlank(AllButLast(Split(s)), blank)
  }

  /** The step every client takes on new text `t` with `buffer` left over. */
  lemma FeedText(seen: string, t: string, blank: string -> bool)
    ensures var buffer := Last(Split(seen));
      && CompleteLines(seen + t, blank)
         == CompleteLines(seen, blank) + NonBlank(AllButLast(Split(buffer + t)), blank)
      && Last(Split(seen + t)) == Last(Split(buffer + t))
  {
    var a := AllButLast(Split(seen));
    var b := Split(Last(Split(seen)) + t);
    SplitConcat(seen, t);
    assert AllButLast(a + b) == a + AllButLast(b);
    NonBlankConcat(a, AllButLast(b), blank);
  }

  lemma AllLines(s: string, blank: string -> bool)
    ensures NonBlank(Split(s), blank)
         == CompleteLines(s, blank) + (if blank(Last(Split(s))) then [] else [Last(Split(s))])
  {
  }

  lemma {:induction false} SplitLineBreak(l: string)
    requires '\n' !in l
    ensures Split(l + ['\n']) == [l, []]
  {
    if l == [] {
      assert l + ['\n'] == "\n" && "\n"[1..] == [];
    } else {
      assert (l + ['\n'])[1..] == l[1..] + ['\n'];
      SplitLineBreak(l[1..]);
      assert [l[0]] + l[1..] == l;
    }
  }

  /** Each line and a newline: what `writeEvent` puts on the wire. */
  function Unlines(lines: seq<string>): string {
    if lines == [] then [] else Unlines(lines[..|lines| - 1]) + lines[|lines| - 1] + ['\n']
  }

  lemma {:induction false} SplitUnlines(lines: seq<string>)
    requires forall l :: l in lines ==> '\n' !in l
    ensures Split(Unlines(lines)) == lines + [[]]
  {
    if lines != [] {
      var front, l := lines[..|lines| - 1], lines[|lines| - 1];
      SplitUnlines(front);
      SplitLineBreak(l);
      SplitAppendLine(Unlines(front), front, l + ['\n'], l);
      AppendLine(Unlines(front), l);
    }
  }

  lemma {:induction false} UnlinesFirst(l: string, ls: seq<string>)
    ensures Unlines([l] + ls) == l + ['\n'] + Unlines(ls)
  {
    if ls == [] {
      assert [l] + ls == [l] && [l][..0] == [];
      assert Unlines([]) == [] && [] + l + ['\n'] == l + ['\n'] + [];
    } else {
      var front, last := ls[..|ls| - 1], ls[|ls| - 1];
      UnlinesFirst(l, front);
      assert ([l] + ls)[..|ls|] == [l] + front;
      Rearranged(l + ['\n'], Unlines(front), last);
    }
  }

  lemma Rearranged(a: string, b: string, c: string)
    ensures a + b + c + ['\n'] == a + (b + c + ['\n'])
  {
  }

  /** Splitting loses nothing: the complete lines with their newlines, and the rest. */
  lemma {:induction false} SplitKeepsText(s: string)
    ensures Unlines(AllButLast(Split(s))) + Last(Split(s)) == s
    ensures forall l :: l in Split(s) ==> '\n' !in l
  {
    PartsWithout(s);
    if s != [] {
      var r := Split(s[1..]);
      SplitKeepsText(s[1..]);
      HeadTail(s);
      if s[0] == '\n' {
        NewFirst([], r, []);
        assert AllButLast([[]] + r) == [[]] + AllButLast(r);
        UnlinesFirst([], AllButLast(r));
        LineThen([], Unlines(AllButLast(r)), Last(r));
      } else if |r| == 1 {
        assert Split(s) == [[s[0]] + r[0]];
        assert Unlines([]) == [] && AllButLast(r) == [] && AllButLast(Split(s)) == [];
      } else {
        var mid := r[1..|r| - 1];
        assert AllButLast(r) == [r[0]] + mid && AllButLast(Split(s)) == [[s[0]] + r[0]] + mid;
        UnlinesFirst(r[0], mid);
        UnlinesFirst([s[0]] + r[0], mid);
        FirstLonger(s[0], r[0], Unlines(mid), Last(r));
      }
    }
  }

  lemma LineThen(l: string, w: string, rest: string)
    ensures l + ['\n'] + w + rest == l + (['\n'] + (w + rest))
  {
  }

  lemma FirstLonger(c: char, l: string, w: string, rest: string)
    ensures [c] + l + ['\n'] + w + rest == [c] + (l + ['\n'] + w + rest)
  {
  }

  lemma AppendLine(w: string, l: string)
    ensures w + l + ['\n'] == w + (l + ['\n'])
  {
  }

  lemma SplitAppendLine(w: string, front: seq<string>, line: string, l: string)
    requires Split(w) == front + [[]] && Split(line) == [l, []]
    ensures Split(w + line) == front + [l] + [[]]
  {
    SplitConcat(w, line);
    assert AllButLast(front + [[]]) == front;
    assert Last(front + [[]]) + line == line;
  }
}
