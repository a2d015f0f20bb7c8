/** The parts of Go's `strings` and `path` packages that the modelled code calls. */
module GoStrings {
  import opened Wrappers

  /** unicode.IsSpace. */
  predicate IsSpace(c: char) {
    var n := c as int;
    0x09 <= n <= 0x0D || n == 0x20 || n == 0x85 || n == 0xA0 || n == 0x1680
    || 0x2000 <= n <= 0x200A || n == 0x2028 || n == 0x2029 || n == 0x202F || n == 0x205F || n == 0x3000
  }

  function TrimLeft(s: string): string {
    if s != "" && IsSpace(s[0]) then TrimLeft(s[1..]) else s
  }

  function TrimRight(s: string): string {
    if s != "" && IsSpace(s[|s| - 1]) then TrimRight(s[..|s| - 1]) else s
  }

  function TrimSpace(s: string): string { TrimRight(TrimLeft(s)) }

  predicate Trimmed(q: string) { q == "" || (!IsSpace(q[0]) && !IsSpace(q[|q| - 1])) }

  lemma {:induction false} TrimmedToNothing(s: string)
    ensures TrimSpace(s) == "" <==> forall i | 0 <= i < |s| :: IsSpace(s[i])
  {
    LeftTrimmed(s);
    if TrimLeft(s) != "" { RightTrimmed(TrimLeft(s)); }
  }

  lemma {:induction false} LeftTrimmed(s: string)
    ensures TrimLeft(s) == "" <==> forall i | 0 <= i < |s| :: IsSpace(s[i])
    ensures TrimLeft(s) != "" ==> !IsSpace(TrimLeft(s)[0])
  {
    if s != "" && IsSpace(s[0]) {
      LeftTrimmed(s[1..]);
      if TrimLeft(s) == "" {
        forall i | 0 <= i < |s| ensures IsSpace(s[i]) { if i > 0 { assert s[i] == s[1..][i - 1]; } }
      }
    }
  }

  lemma {:induction false} RightTrimmed(s: string)
    requires s != "" && !IsSpace(s[0])
    ensures TrimRight(s) != "" && TrimRight(s)[0] == s[0]
  {
    if IsSpace(s[|s| - 1]) { RightTrimmed(s[..|s| - 1]); }
  }

  lemma {:induction false} TrimRightResult(s: string)
    ensures TrimRight(s) <= s
    ensures TrimRight(s) == "" || !IsSpace(TrimRight(s)[|TrimRight(s)| - 1])
  {
    if s != "" && IsSpace(s[|s| - 1]) { TrimRightResult(s[..|s| - 1]); }
  }

  lemma TrimSpaceResult(s: string)
    ensures Trimmed(TrimSpace(s))
    ensures Trimmed(s) ==> TrimSpace(s) == s
  {
    LeftTrimmed(s);
    TrimRightResult(TrimLeft(s));
  }

  lemma {:induction false} LeftSpaces(s: string)
    ensures |TrimLeft(s)| <= |s| && s[|s| - |TrimLeft(s)|..] == TrimLeft(s)
    ensures forall k :: 0 <= k < |s| - |TrimLeft(s)| ==> IsSpace(s[k])
  {
    if s != "" && IsSpace(s[0]) { LeftSpaces(s[1..]); }
  }

  lemma {:induction false} RightSpaces(s: string)
    ensures TrimRight(s) <= s && forall k :: |TrimRight(s)| <= k < |s| ==> IsSpace(s[k])
  {
    if s != "" && IsSpace(s[|s| - 1]) { RightSpaces(s[..|s| - 1]); }
  }

  /** What is trimmed off are blanks, on both sides, and nothing in between. */
  lemma TrimSpaceCuts(s: string) returns (i: nat, j: nat)
    ensures i <= j <= |s| && TrimSpace(s) == s[i..j]
    ensures forall k :: 0 <= k < |s| && !(i <= k < j) ==> IsSpace(s[k])
  {
    LeftSpaces(s);
    RightSpaces(TrimLeft(s));
    i := |s| - |TrimLeft(s)|;
    j := i + |TrimSpace(s)|;
    assert s[i..j] == s[i..][..j - i];
    forall k | j <= k < |s| ensures IsSpace(s[k]) { assert s[k] == TrimLeft(s)[k - i]; }
  }

  /** Go's `<` on strings: byte order, which on UTF-8 is code point order. */
  predicate Less(a: string, b: string) {
    b != "" && (a == "" || a[0] < b[0] || (a[0] == b[0] && Less(a[1..], b[1..])))
  }

  lemma {:induction false} LessIsTotal(a: string, b: string)
    ensures a == b || Less(a, b) || Less(b, a)
    ensures !(Less(a, b) && Less(b, a)) && !Less(a, a)
  {
    if a != "" && b != "" {
      LessIsTotal(a[1..], b[1..]);
      LessIsTotal(a[1..], a[1..]);
      if a[0] == b[0] && a[1..] == b[1..] { assert a == [a[0]] + a[1..] == [b[0]] + b[1..] == b; }
    } else if a != "" {
      LessIsTotal(a[1..], a[1..]);
    }
  }

  lemma {:induction false} LessChains(a: string, b: string, c: string)
    requires !Less(b, a) && !Less(c, b)
    ensures !Less(c, a)
  {
    if a != "" && b != "" && c != "" && a[0] == b[0] == c[0] { LessChains(a[1..], b[1..], c[1..]); }
  }

  /** `a` and `b` agree in their first `i` characters, and there `a` ends or is smaller. */
  predicate SmallerAt(a: string, b: string, i: nat) {
    i <= |a| && i < |b| && a[..i] == b[..i] && (i == |a| || a[i] < b[i])
  }

  lemma SmallerLater(a: string, b: string, i: nat)
    requires a != "" && b != "" && a[0] == b[0]
    ensures SmallerAt(a[1..], b[1..], i) <==> SmallerAt(a, b, i + 1)
  {
    if i + 1 <= |a| && i + 1 <= |b| {
      assert a[..i + 1] == [a[0]] + a[1..][..i] && b[..i + 1] == [b[0]] + b[1..][..i];
      assert a[1..][..i] == a[..i + 1][1..] && b[1..][..i] == b[..i + 1][1..];
    }
  }

  lemma SmallerFirst(a: string, b: string, i: nat)
    requires SmallerAt(a, b, i)
    ensures b != "" && (i == 0 ==> a == "" || a[0] < b[0])
    ensures i > 0 ==> a != "" && a[0] == b[0] && SmallerAt(a[1..], b[1..], i - 1)
  {
    if i > 0 {
      assert a[..i][0] == b[..i][0];
      SmallerLater(a, b, i - 1);
    }
  }

  /** The shorter of two strings that agree so far comes first; otherwise the first difference
      decides. */
  lemma {:induction false} LessIff(a: string, b: string)
    ensures Less(a, b) <==> exists i :: SmallerAt(a, b, i)
  {
    if a != "" && b != "" { LessIff(a[1..], b[1..]); }
    if i: nat :| SmallerAt(a, b, i) {
      SmallerFirst(a, b, i);
    }
    if Less(a, b) {
      if a == "" || a[0] < b[0] {
        assert SmallerAt(a, b, 0);
      } else {
        var i: nat :| SmallerAt(a[1..], b[1..], i);
        SmallerLater(a, b, i);
      }
    }
  }

  /** strings.IndexByte: where `c` first occurs. */
  function IndexByte(s: string, c: char): (r: Option<nat>)
    ensures r.Some? ==> r.value < |s| && s[r.value] == c && c !in s[..r.value]
    ensures r.None? ==> c !in s
  {
    if s == "" then None
    else if s[0] == c then Some(0)
    else
      match IndexByte(s[1..], c)
      case None => None
      case Some(i) =>
        assert s[..i + 1] == [s[0]] + s[1..][..i];
        Some(i + 1)
  }

  lemma {:induction false} IndexByteExactly(s: string, c: char, i: nat)
    requires i < |s| && s[i] == c && forall j :: 0 <= j < i ==> s[j] != c
    ensures IndexByte(s, c) == Some(i)
  {
    if i > 0 { IndexByteExactly(s[1..], c, i - 1); }
  }

  function TrimSlashes(p: string): string {
    if p != "" && p[|p| - 1] == '/' then TrimSlashes(p[..|p| - 1]) else p
  }

  function AfterLastSlash(p: string): string {
    if p == "" || p[|p| - 1] == '/' then "" else AfterLastSlash(p[..|p| - 1]) + [p[|p| - 1]]
  }

  /** path.Base. */
  function Base(p: string): string {
    if p == "" then "."
    else
      var q := TrimSlashes(p);
      if q == "" then "/" else AfterLastSlash(q)
  }

  lemma {:induction false} BaseOfChild(dir: string, x: string)
    requires '/' !in x && x != ""
    ensures Base(dir + "/" + x) == x
  {
    var p := dir + "/" + x;
    assert p[|p| - 1] == x[|x| - 1] && x[|x| - 1] in x;
    AfterSlash(dir, x);
  }

  lemma {:induction false} AfterSlash(dir: string, x: string)
    requires '/' !in x
    ensures AfterLastSlash(dir + "/" + x) == x
  {
    var p := dir + "/" + x;
    if x != "" {
      assert p[|p| - 1] == x[|x| - 1] && x[|x| - 1] in x;
      assert p[..|p| - 1] == dir + "/" + x[..|x| - 1];
      AfterSlash(dir, x[..|x| - 1]);
    }
  }

  lemma {:induction false} SlashesTrimmed(p: string)
    ensures TrimSlashes(p + "/") == TrimSlashes(p)
  {
    assert (p + "/")[..|p|] == p;
  }

  /** Slashes at the end do not change the last element, and slashes alone are the root. */
  lemma BaseIgnoresSlashes(p: string)
    ensures Base(p + "/") == if p == "" then "/" else Base(p)
  {
    SlashesTrimmed(p);
    assert TrimSlashes("") == "";
  }
}
