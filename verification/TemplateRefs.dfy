/** References to templates, `name` or `name@N`, and the line diff. */
module TemplateRefs {
  import opened Wrappers
  import opened Seqs
  import opened GoStrings
  import opened LineSplit
  import opened Templates

  // ------------------------------------------------------- decimal numbers

  const MAX_INT64 := 0x7FFF_FFFF_FFFF_FFFF

  function Itoa(n: nat): (r: string)
    ensures r != [] && forall i :: 0 <= i < |r| ==> IsDigit(r[i])
  {
    if n < 10 then [Digit(n)] else Itoa(n / 10) + [Digit(n % 10)]
  }

  predicate IsDigit(c: char) { '0' <= c <= '9' }

  function Digit(n: nat): (c: char)
    requires n < 10
    ensures IsDigit(c) && DigitValue(c) == n
  {
    (n + '0' as int) as char
  }

  function DigitValue(c: char): int { c as int - '0' as int }

  function Value(s: string): int {
    if s == [] then 0 else 10 * Value(s[..|s| - 1]) + DigitValue(s[|s| - 1])
  }

  function Unsigned(s: string): string {
    if s != [] && (s[0] == '+' || s[0] == '-') then s[1..] else s
  }

  predicate AllDigits(s: string) { forall i :: 0 <= i < |s| ==> IsDigit(s[i]) }

  /** `strconv.Atoi` on a 64-bit machine: an optional sign, digits, no overflow. */
  function Atoi(s: string): Option<int> {
    var digits := Unsigned(s);
    if digits == [] || !AllDigits(digits) then None
    else
      var n := if s[0] == '-' then -Value(digits) else Value(digits);
      if -MAX_INT64 - 1 <= n <= MAX_INT64 then Some(n) else None
  }

  lemma {:induction false} ValueOfItoa(n: nat)
    ensures Value(Itoa(n)) == n
  {
    if n < 10 {
      assert [Digit(n)][..0] == [];
    } else {
      ValueOfItoa(n / 10);
      assert (Itoa(n / 10) + [Digit(n % 10)])[..|Itoa(n / 10)|] == Itoa(n / 10);
    }
  }

  /** So revision file names, `Itoa(n) + ".yaml"`, are different for different numbers. */
  lemma NumberRoundTrip(n: nat)
    requires n <= MAX_INT64
    ensures Atoi(Itoa(n)) == Some(n)
  {
    ValueOfItoa(n);
    assert IsDigit(Itoa(n)[0]);
  }

  /** Signs are read, and numbers that need more than 64 bits are refused. */
  lemma SignedNumbers(n: nat, sign: char)
    requires sign == '+' || sign == '-'
    ensures Atoi(Itoa(n)) == if n <= MAX_INT64 then Some(n) else None
    ensures Atoi([sign] + Itoa(n)).Some? <==> n <= (if sign == '-' then MAX_INT64 + 1 else MAX_INT64)
    ensures Atoi([sign] + Itoa(n)).Some? ==>
      if sign == '-' then Atoi([sign] + Itoa(n)).value + n == 0 else Atoi([sign] + Itoa(n)).value == n
  {
    var digits := Itoa(n);
    ValueOfItoa(n);
    assert IsDigit(digits[0]) && Unsigned(digits) == digits;
    WithoutSign(sign, digits);
  }

  lemma WithoutSign(sign: char, digits: string)
    requires sign == '+' || sign == '-'
    ensures Unsigned([sign] + digits) == digits && ([sign] + digits)[0] == sign
  {
    assert ([sign] + digits)[1..] == digits;
  }

  // ------------------------------------------------------------ references

  function ResolveRef(c: Codec, s: Store, ref: string): Option<Template> {
    match IndexByte(ref, '@')
    case None => Get(c, s, ref)
    case Some(i) =>
      match Atoi(ref[i + 1..])
      case None => None
      case Some(n) => GetRevision(c, DirOf(s, ref[..i]), n)
  }

  /** A name without `@` refers to itself, and with `@N` to its N-th revision. */
  lemma RefsResolve(c: Codec, s: Store, name: string, n: nat)
    requires '@' !in name && n <= MAX_INT64
    ensures ResolveRef(c, s, name) == Get(c, s, name)
    ensures ResolveRef(c, s, name + "@" + Itoa(n)) == GetRevision(c, DirOf(s, name), n)
  {
    RefAt(c, s, name, Itoa(n));
    NumberRoundTrip(n);
  }

  /** What follows the first `@` must be a number: anything else, a second `@` included, is
      refused. */
  lemma RefAt(c: Codec, s: Store, name: string, rev: string)
    requires '@' !in name
    ensures ResolveRef(c, s, name + "@" + rev) ==
      if Atoi(rev).None? then None else GetRevision(c, DirOf(s, name), Atoi(rev).value)
    ensures '@' in rev || rev == "" ==> Atoi(rev).None?
  {
    var ref := name + "@" + rev;
    assert ref[|name|] == '@';
    IndexByteExactly(ref, '@', |name|);
    assert ref[..|name|] == name && ref[|name| + 1..] == rev;
    if '@' in rev { AtIsNoNumber(rev); }
  }

  lemma AtIsNoNumber(rev: string)
    requires '@' in rev
    ensures Atoi(rev).None?
  {
    var i :| 0 <= i < |rev| && rev[i] == '@';
    var digits := Unsigned(rev);
    assert digits[i - (|rev| - |digits|)] == '@';
    assert !AllDigits(digits);
  }

  // ------------------------------------------------------------- line diff

  /** `strings.TrimRight(s, "\n")` */
  function TrimNewlines(s: string): string {
    if s != [] && s[|s| - 1] == '\n' then TrimNewlines(s[..|s| - 1]) else s
  }

  function Lines(s: string): seq<string> { Split(TrimNewlines(s)) }

  /** The lines of `from` that `other` does not have anywhere, each with `mark`. */
  function Only(mark: string, from: seq<string>, other: set<string>): string {
    if from == [] then []
    else
      var l := from[|from| - 1];
      Only(mark, from[..|from| - 1], other) + (if l in other then [] else mark + l + ['\n'])
  }

  const NO_DIFFERENCES := "(no differences)\n"

  function LineDiff(a: string, b: string): string { Report(Lines(a), Lines(b)) }

  function Report(al: seq<string>, bl: seq<string>): string {
    var out := Only("- ", al, set l | l in bl) + Only("+ ", bl, set l | l in al);
    if out == [] then NO_DIFFERENCES else out
  }

  /** `lineDiff`: two membership maps, then two passes into a builder. */
  method LineDiffLoop(a: string, b: string) returns (r: string)
    ensures r == LineDiff(a, b)
  {
    r := DiffLines(Lines(a), Lines(b));
  }

  method DiffLines(al: seq<string>, bl: seq<string>) returns (r: string)
    ensures r == Report(al, bl)
  {
    var inB := Members(bl);
    var inA := Members(al);
    var out := WriteOnly("", "- ", al, inB);
    assert out == Only("- ", al, inB);
    out := WriteOnly(out, "+ ", bl, inA);
    if |out| == 0 { return NO_DIFFERENCES; }
    r := out;
  }

  method Members(lines: seq<string>) returns (m: set<string>)
    ensures m == set l | l in lines
  {
    m := {};
    for i := 0 to |lines|
      invariant m == set l | l in lines[..i]
    {
      assert lines[..i + 1] == lines[..i] + [lines[i]];
      m := m + {lines[i]};
    }
    assert lines[..|lines|] == lines;
  }

  method WriteOnly(out: string, mark: string, from: seq<string>, other: set<string>) returns (r: string)
    ensures r == out + Only(mark, from, other)
  {
    r := out;
    for i := 0 to |from|
      invariant r == out + Only(mark, from[..i], other)
    {
      assert from[..i + 1][..i] == from[..i];
      if from[i] !in other {
        r := r + (mark + from[i] + ['\n']);
      }
    }
    assert from[..|from|] == from;
  }

  lemma {:induction false} OnlyEmpty(mark: string, from: seq<string>, other: set<string>)
    requires mark != []
    ensures Only(mark, from, other) == [] <==> forall i :: 0 <= i < |from| ==> from[i] in other
    ensures Only(mark, from, other) != [] ==> Only(mark, from, other)[0] == mark[0]
  {
    if from != [] {
      OnlyEmpty(mark, from[..|from| - 1], other);
      var l := from[|from| - 1];
      assert forall i :: 0 <= i < |from| - 1 ==> from[..|from| - 1][i] == from[i];
    }
  }

  /** The diff reports nothing exactly when the two texts have the same set of lines:
      order and repetition of lines do not show. */
  lemma DiffSeesLineSets(a: string, b: string)
    ensures LineDiff(a, b) == NO_DIFFERENCES <==> (set l | l in Lines(a)) == (set l | l in Lines(b))
  {
    var al, bl := Lines(a), Lines(b);
    var sa, sb := set l | l in al, set l | l in bl;
    OnlyEmpty("- ", al, sb);
    OnlyEmpty("+ ", bl, sa);
    MembersWithin(al, sb);
    MembersWithin(bl, sa);
    var minus, plus := Only("- ", al, sb), Only("+ ", bl, sa);
    if minus + plus != [] {
      assert (minus + plus)[0] == if minus != [] then minus[0] else plus[0];
      assert NO_DIFFERENCES[0] == '(';
    }
  }

  /** The marked lines, one by one. */
  function MarkedLines(mark: string, from: seq<string>, other: set<string>): seq<string> {
    if from == [] then []
    else
      var l := from[|from| - 1];
      MarkedLines(mark, from[..|from| - 1], other) + (if l in other then [] else [mark + l])
  }

  lemma {:induction false} OnlyIsMarked(mark: string, from: seq<string>, other: set<string>)
    ensures Only(mark, from, other) == Unlines(MarkedLines(mark, from, other))
  {
    if from != [] {
      var front, l := from[..|from| - 1], from[|from| - 1];
      var ms := MarkedLines(mark, front, other);
      OnlyIsMarked(mark, front, other);
      assert (ms + [mark + l])[..|ms|] == ms;
      AppendLine(Unlines(ms), mark + l);
      assert ms + [] == ms && Only(mark, front, other) + [] == Only(mark, front, other);
    }
  }

  lemma {:induction false} MarkedMembers(mark: string, from: seq<string>, other: set<string>, m: string)
    ensures m in MarkedLines(mark, from, other) <==> exists l :: l in from && l !in other && m == mark + l
  {
    if from != [] {
      var front, last := from[..|from| - 1], from[|from| - 1];
      MarkedMembers(mark, front, other, m);
      assert from == front + [last];
    }
  }

  lemma {:induction false} OnlyConcat(mark: string, a: seq<string>, b: seq<string>, other: set<string>)
    ensures Only(mark, a + b, other) == Only(mark, a, other) + Only(mark, b, other)
  {
    if b == [] {
      assert a + b == a && Only(mark, a, other) + [] == Only(mark, a, other);
    } else {
      var front, last := b[..|b| - 1], b[|b| - 1];
      OnlyConcat(mark, a, front, other);
      assert (a + b)[..|a + b| - 1] == a + front;
      Regroup(Only(mark, a, other), Only(mark, front, other), if last in other then [] else mark + last + ['\n']);
    }
  }

  /** A line is reported exactly when the other side has it nowhere, in its place between what
      is reported of the lines before it and after it. */
  lemma OnlyAround(mark: string, a: seq<string>, l: string, b: seq<string>, other: set<string>)
    ensures Only(mark, a + [l] + b, other)
         == Only(mark, a, other) + (if l in other then [] else mark + l + ['\n']) + Only(mark, b, other)
  {
    OnlyConcat(mark, a + [l], b, other);
    OnlyConcat(mark, a, [l], other);
    assert [l][..0] == [] && Only(mark, [], other) == [];
    NoneBefore(mark + l + ['\n']);
  }

  /** A report that is not empty has a line `- l` for each line only the first text has, and
      after those a line `+ l` for each only the second has, and no other. */
  lemma DiffMarksSides(a: string, b: string) returns (ms: seq<string>, ps: seq<string>)
    ensures LineDiff(a, b) == if ms + ps == [] then NO_DIFFERENCES else Unlines(ms + ps)
    ensures forall m :: m in ms <==> exists l :: l in Lines(a) && l !in Lines(b) && m == "- " + l
    ensures forall m :: m in ps <==> exists l :: l in Lines(b) && l !in Lines(a) && m == "+ " + l
  {
    var al, bl := Lines(a), Lines(b);
    var sa, sb := set l | l in al, set l | l in bl;
    ms, ps := MarkedLines("- ", al, sb), MarkedLines("+ ", bl, sa);
    OnlyIsMarked("- ", al, sb);
    OnlyIsMarked("+ ", bl, sa);
    UnlinesConcat(ms, ps);
    forall m ensures m in ms <==> exists l :: l in al && l !in bl && m == "- " + l { MarkedMembers("- ", al, sb, m); }
    forall m ensures m in ps <==> exists l :: l in bl && l !in al && m == "+ " + l { MarkedMembers("+ ", bl, sa, m); }
    UnlinesEmpty(ms + ps);
  }

  lemma {:induction false} UnlinesConcat(xs: seq<string>, ys: seq<string>)
    ensures Unlines(xs + ys) == Unlines(xs) + Unlines(ys)
  {
    if ys == [] {
      assert xs + ys == xs && Unlines(xs) + [] == Unlines(xs);
    } else {
      var front, last := ys[..|ys| - 1], ys[|ys| - 1];
      assert (xs + ys)[..|xs + ys| - 1] == xs + front;
      UnlinesConcat(xs, front);
      Rearranged(Unlines(xs), Unlines(front), last);
    }
  }

  lemma UnlinesEmpty(xs: seq<string>)
    ensures Unlines(xs) == [] <==> xs == []
  {
  }

  lemma MembersWithin(lines: seq<string>, other: set<string>)
    ensures (forall i :: 0 <= i < |lines| ==> lines[i] in other) <==> (set l | l in lines) <= other
  {
    if (set l | l in lines) <= other {
      forall i | 0 <= i < |lines| ensures lines[i] in other { assert lines[i] in lines; }
    }
  }

  predicate IsDocument(lines: seq<string>) {
    lines != [] && lines[|lines| - 1] != "" && forall l :: l in lines ==> '\n' !in l
  }

  lemma LinesOfUnlines(lines: seq<string>)
    requires IsDocument(lines)
    ensures Lines(Unlines(lines)) == lines
  {
    var front, last := lines[..|lines| - 1], lines[|lines| - 1];
    SplitUnlines(front);
    LinesOfText(Unlines(front), front, last);
    assert front + [last] == lines;
  }

  lemma LinesOfText(text: string, front: seq<string>, last: string)
    requires Split(text) == front + [[]] && last != "" && '\n' !in last
    ensures Lines(text + last + ['\n']) == front + [last]
  {
    assert last[|last| - 1] in last;
    TrimOne(text, last);
    SplitLastLine(text, front, last);
  }

  lemma TrimOne(text: string, last: string)
    requires last != "" && last[|last| - 1] != '\n'
    ensures TrimNewlines(text + last + ['\n']) == text + last
  {
    var t := text + last;
    assert t[|t| - 1] == last[|last| - 1] && (t + ['\n'])[..|t|] == t;
    assert TrimNewlines(t) == t;
  }

  lemma SplitLastLine(text: string, front: seq<string>, last: string)
    requires Split(text) == front + [[]] && '\n' !in last
    ensures Split(text + last) == front + [last]
  {
    SplitConcat(text, last);
    assert AllButLast(front + [[]]) == front && Last(front + [[]]) + last == last;
    SplitWithout(last);
  }

  lemma SameSetLooksAlike(al: seq<string>, bl: seq<string>)
    requires IsDocument(al) && IsDocument(bl) && (set l | l in al) == (set l | l in bl)
    ensures LineDiff(Unlines(al), Unlines(bl)) == NO_DIFFERENCES
    ensures al != bl ==> Unlines(al) != Unlines(bl)
  {
    LinesOfUnlines(al);
    LinesOfUnlines(bl);
    DiffSeesLineSets(Unlines(al), Unlines(bl));
  }

  /** Two documents that differ in the order of two lines, as the YAML of two templates with
      the same tools in another order does, look the same. */
  lemma DiffMissesReordering(pre: seq<string>, x: string, y: string, post: seq<string>)
    requires IsDocument(pre + [x, y] + post) && IsDocument(pre + [y, x] + post) && x != y
    ensures var a, b := Unlines(pre + [x, y] + post), Unlines(pre + [y, x] + post);
      a != b && LineDiff(a, b) == NO_DIFFERENCES
  {
    var al, bl := pre + [x, y] + post, pre + [y, x] + post;
    SameLines(pre, x, y, post);
    SameLines(pre, y, x, post);
    assert al[|pre|] == x && bl[|pre|] == y;
    SameSetLooksAlike(al, bl);
  }

  lemma SameLines(pre: seq<string>, x: string, y: string, post: seq<string>)
    ensures forall l :: l in pre + [x, y] + post ==> l in pre + [y, x] + post
    ensures (set l | l in pre + [x, y] + post) <= (set l | l in pre + [y, x] + post)
  {
    forall l | l in pre + [x, y] + post ensures l in pre + [y, x] + post {
      assert l in pre || l in [x, y] || l in post;
    }
  }
}
