/** The three clients of the exec stream: the GUI, the TypeScript SDK and the Python
    SDK.  Each turns byte chunks back into NDJSON lines.  `blank` stands for the
    client's own whitespace test, `line.trim() === ""` or `not line.strip()`. */
module ExecClients {
  import opened Wrappers
  import opened Seqs
  import opened GoStrings
  import opened Utf8
  import opened LineSplit

  function Flatten(chunks: seq<Bytes>): Bytes {
    if chunks == [] then []
    else Flatten(chunks[..|chunks| - 1]) + chunks[|chunks| - 1]
  }

  /** `chunks` is some way of cutting the UTF-8 form of `text`. */
  ghost predicate Cuts(chunks: seq<Bytes>, text: string) { Flatten(chunks) == Encode(text) }

  lemma {:induction false} FlattenPrefix(chunks: seq<Bytes>, i: nat)
    requires i <= |chunks|
    ensures Flatten(chunks[..i]) <= Flatten(chunks)
    ensures i < |chunks| ==> Flatten(chunks[..i + 1]) == Flatten(chunks[..i]) + chunks[i]
  {
    if i < |chunks| { assert chunks[..i + 1][..i] == chunks[..i]; }
    if i == |chunks| {
      assert chunks[..i] == chunks;
    } else {
      var front := chunks[..|chunks| - 1];
      FlattenPrefix(front, i);
      assert front[..i] == chunks[..i];
    }
  }

  /** The decoder has consumed `prefix`: `k` characters, and `tail` is pending. */
  ghost predicate DecodedTo(text: string, prefix: Bytes, k: nat, tail: Bytes) {
    && k <= |text| && Unfinished(tail)
    && prefix <= Encode(text)
    && prefix == Encode(text[..k]) + tail
  }

  lemma Glue(text: string, k: nat, k': nat)
    requires k <= k' <= |text|
    ensures text[..k] + text[k..k'] == text[..k']
  {
  }

  lemma EncodeSplit(text: string, k: nat)
    requires k <= |text|
    ensures Encode(text) == Encode(text[..k]) + Encode(text[k..])
  {
    assert text[..k] + text[k..] == text;
    EncodeConcat(text[..k], text[k..]);
  }

  lemma DropFront(a: Bytes, b: Bytes, c: Bytes)
    requires a + b <= a + c
    ensures b <= c
  {
    assert b == (a + b)[|a|..] == (a + c)[..|a + b|][|a|..] == c[..|b|];
  }

  /** What the decoder is given begins what is left of the text. */
  lemma RestFits(text: string, prefix: Bytes, k: nat, tail: Bytes, chunk: Bytes)
    requires DecodedTo(text, prefix, k, tail) && prefix + chunk <= Encode(text)
    ensures tail + chunk <= Encode(text[k..])
    ensures prefix + chunk == Encode(text[..k]) + (tail + chunk)
  {
    EncodeSplit(text, k);
    Regroup(Encode(text[..k]), tail, chunk);
    DropFront(Encode(text[..k]), tail + chunk, Encode(text[k..]));
  }

  /** One chunk through an incremental decoder. */
  lemma DecodeChunk(text: string, prefix: Bytes, k: nat, tail: Bytes, chunk: Bytes) returns (k': nat, tail': Bytes)
    requires DecodedTo(text, prefix, k, tail) && prefix + chunk <= Encode(text)
    ensures k <= k' && DecodedTo(text, prefix + chunk, k', tail')
    ensures Decode(tail + chunk) == Decoded(text[k..k'], tail')
  {
    RestFits(text, prefix, k, tail, chunk);
    var j;
    j, tail' := CutText(text[k..], tail + chunk);
    k' := k + j;
    EncodeMiddle(text, k, j);
    DecodeEncode(text[k..k'], tail');
    Regroup(Encode(text[..k]), Encode(text[k..k']), tail');
  }

  lemma EncodeMiddle(text: string, k: nat, j: nat)
    requires k + j <= |text|
    ensures text[k..][..j] == text[k..k + j]
    ensures Encode(text[..k + j]) == Encode(text[..k]) + Encode(text[k..k + j])
  {
    assert text[..k + j][..k] == text[..k] && text[..k + j][k..] == text[k..k + j];
    EncodeSplit(text[..k + j], k);
  }

  lemma EqualTails(a: Bytes, b: Bytes, c: Bytes)
    requires a + b == a + c
    ensures b == c
  {
    assert b == (a + b)[|a|..] == (a + c)[|a|..] == c;
  }

  /** Once every byte has been decoded, no character is left over. */
  lemma DecodedAll(text: string, k: nat, tail: Bytes)
    requires DecodedTo(text, Encode(text), k, tail)
    ensures k == |text| && tail == []
  {
    EncodeSplit(text, k);
    EqualTails(Encode(text[..k]), tail, Encode(text[k..]));
    if text[k..] != [] {
      NotUnfinished(text[k..]);
    }
  }

  lemma NotUnfinished(t: string)
    requires t != []
    ensures !Unfinished(Encode(t))
  {
    var e, b := EncodeChar(t[0]), Encode(t);
    assert b[0] == e[0] && |e| <= |b|;
    if c: char :| b < EncodeChar(c) {
      assert false;
    }
  }

  /** Where a client stands after `prefix`: the lines completed so far have been yielded
      and the line begun last is in `buffer`. */
  ghost predicate ClientInv(text: string, prefix: Bytes, k: nat, pending: Bytes,
                            yielded: seq<string>, buffer: string, blank: string -> bool) {
    && DecodedTo(text, prefix, k, pending)
    && yielded == CompleteLines(text[..k], blank)
    && buffer == Last(Split(text[..k]))
  }

  lemma ClientStep(text: string, prefix: Bytes, k: nat, pending: Bytes, chunk: Bytes,
                   yielded: seq<string>, buffer: string, blank: string -> bool) returns (k': nat, pending': Bytes)
    requires ClientInv(text, prefix, k, pending, yielded, buffer, blank) && prefix + chunk <= Encode(text)
    ensures k <= k' <= |text| && Decode(pending + chunk) == Decoded(text[k..k'], pending')
    ensures var lines := Split(buffer + text[k..k']);
      ClientInv(text, prefix + chunk, k', pending',
                yielded + NonBlank(AllButLast(lines), blank), Last(lines), blank)
  {
    k', pending' := DecodeChunk(text, prefix, k, pending, chunk);
    FeedText(text[..k], text[k..k'], blank);
    Glue(text, k, k');
  }

  lemma ClientEnd(text: string, k: nat, pending: Bytes, yielded: seq<string>, buffer: string, blank: string -> bool)
    requires ClientInv(text, Encode(text), k, pending, yielded, buffer, blank)
    ensures k == |text| && pending == []
    ensures yielded == CompleteLines(text, blank) && buffer == Last(Split(text))
  {
    DecodedAll(text, k, pending);
    TakeAll(text, k);
  }

  // --------------------------------------------------- reading, JavaScript

  /** The reading loop of both JavaScript clients: the completed lines that are not blank,
      and the line begun last.  `bad` is a wire that is not UTF-8 (the decoder would
      substitute U+FFFD). */
  method ReadLines(chunks: seq<Bytes>, blank: string -> bool, ghost text: string)
    returns (lines: seq<string>, buffer: string, bad: bool)
    requires Cuts(chunks, text)
    ensures !bad && lines == CompleteLines(text, blank) && buffer == Last(Split(text))
  {
    var pending := [];
    lines, buffer, bad := [], "", false;
    ghost var k := 0;
    for i := 0 to |chunks|
      invariant !bad && ClientInv(text, Flatten(chunks[..i]), k, pending, lines, buffer, blank)
    {
      FlattenPrefix(chunks, i);
      FlattenPrefix(chunks, i + 1);
      ghost var k', _ := ClientStep(text, Flatten(chunks[..i]), k, pending, chunks[i], lines, buffer, blank);
      match Decode(pending + chunks[i])
      case Malformed => bad := true;
      case Decoded(t, rest) =>
        var pieces := Split(buffer + t);
        pending, buffer := rest, Last(pieces);
        lines := KeepNonBlank(lines, AllButLast(pieces), blank);
        k := k';
    }
    TakeAll(chunks, |chunks|);
    ClientEnd(text, k, pending, lines, buffer, blank);
  }

  /** `for (const line of lines) { if (!line.trim()) continue; ... }` */
  method KeepNonBlank(kept: seq<string>, lines: seq<string>, blank: string -> bool) returns (r: seq<string>)
    ensures r == kept + NonBlank(lines, blank)
  {
    r := kept;
    for i := 0 to |lines|
      invariant r == kept + NonBlank(lines[..i], blank)
    {
      assert lines[..i + 1][..i] == lines[..i];
      if !blank(lines[i]) {
        r := r + [lines[i]];
      }
    }
    assert lines[..|lines|] == lines;
  }

  // ------------------------------------------------------------------- GUI

  /** The events of the lines up to the first that does not parse. */
  function ParsedUpTo<E>(lines: seq<string>, parse: string -> Option<E>): seq<E>
    decreases |lines|
  {
    if lines == [] || parse(lines[0]).None? then [] else [parse(lines[0]).value] + ParsedUpTo(lines[1..], parse)
  }

  /** `execStream` in the GUI: every non-blank line, terminated or not, as an event; the
      first line that does not parse throws. */
  method GuiExecStream<E>(chunks: seq<Bytes>, blank: string -> bool, parse: string -> Option<E>, ghost text: string)
    returns (yielded: seq<E>, threw: bool, bad: bool)
    requires Cuts(chunks, text)
    ensures !bad && yielded == ParsedUpTo(NonBlank(Split(text), blank), parse)
    ensures threw <==> exists l :: l in NonBlank(Split(text), blank) && parse(l).None?
  {
    var lines, buffer;
    lines, buffer, bad := ReadLines(chunks, blank, text);
    AllLines(text, blank);
    assert lines + [] == lines;
    if !blank(buffer) {
      lines := lines + [buffer];
    }
    yielded, threw := ParseLines(lines, parse);
  }

  method ParseLines<E>(lines: seq<string>, parse: string -> Option<E>) returns (yielded: seq<E>, threw: bool)
    ensures yielded == ParsedUpTo(lines, parse)
    ensures threw <==> exists l :: l in lines && parse(l).None?
    ensures |yielded| <= |lines| && forall i :: 0 <= i < |yielded| ==> parse(lines[i]) == Some(yielded[i])
    ensures if threw then |yielded| < |lines| && parse(lines[|yielded|]).None? else |yielded| == |lines|
  {
    yielded, threw := [], false;
    for i := 0 to |lines|
      invariant !threw && ParsedUpTo(lines, parse) == yielded + ParsedUpTo(lines[i..], parse)
      invariant |yielded| == i && forall j :: 0 <= j < i ==> parse(lines[j]) == Some(yielded[j])
    {
      assert lines[i..][0] == lines[i] && lines[i..][1..] == lines[i + 1..];
      match parse(lines[i])
      case None =>
        assert yielded + [] == yielded;
        return yielded, true;
      case Some(e) =>
        Regroup(yielded, [e], ParsedUpTo(lines[i + 1..], parse));
        yielded := yielded + [e];
    }
    assert yielded + [] == yielded;
  }

  // -------------------------------------------------------- TypeScript SDK

  /** A line as an event; one that is not JSON is raw output. */
  function EventOf<E>(line: string, parse: string -> Option<E>, raw: string -> E): E {
    if parse(line).Some? then parse(line).value else raw(line)
  }

  function EventsOf<E>(lines: seq<string>, parse: string -> Option<E>, raw: string -> E): (r: seq<E>)
    ensures |r| == |lines| && forall i :: 0 <= i < |lines| ==> r[i] == EventOf(lines[i], parse, raw)
  {
    seq(|lines|, i requires 0 <= i < |lines| => EventOf(lines[i], parse, raw))
  }

  /** As the GUI, without the final flush: only newline-terminated lines. */
  method TsExecStream<E>(chunks: seq<Bytes>, blank: string -> bool, parse: string -> Option<E>, raw: string -> E,
                         ghost text: string)
    returns (yielded: seq<E>, bad: bool)
    requires Cuts(chunks, text)
    ensures !bad && yielded == EventsOf(CompleteLines(text, blank), parse, raw)
    ensures |yielded| == |CompleteLines(text, blank)|
    ensures forall i :: 0 <= i < |yielded| ==>
      match parse(CompleteLines(text, blank)[i])
      case Some(e) => yielded[i] == e
      case None => yielded[i] == raw(CompleteLines(text, blank)[i])
  {
    var lines, buffer;
    lines, buffer, bad := ReadLines(chunks, blank, text);
    yielded := YieldEvents(lines, parse, raw);
  }

  method YieldEvents<E>(lines: seq<string>, parse: string -> Option<E>, raw: string -> E) returns (yielded: seq<E>)
    ensures yielded == EventsOf(lines, parse, raw)
  {
    yielded := [];
    for i := 0 to |lines|
      invariant |yielded| == i && forall j :: 0 <= j < i ==> yielded[j] == EventOf(lines[j], parse, raw)
    {
      match parse(lines[i])
      case Some(e) => yielded := yielded + [e];
      case None => yielded := yielded + [raw(lines[i])];
    }
  }

  // ------------------------------------------------------------ Python SDK

  /** Byte offset `n` falls between two characters. */
  ghost predicate OnBoundary(text: string, n: nat) {
    exists k: nat :: k <= |text| && |Encode(text[..k])| == n
  }

  /** Each of the first `n` chunks ends between two characters. */
  ghost predicate CutsOnBoundaries(chunks: seq<Bytes>, text: string, n: nat)
    requires n <= |chunks|
  {
    forall i :: 1 <= i <= n ==> OnBoundary(text, |Flatten(chunks[..i])|)
  }

  /** An unfinished character after `k` whole ones is not a boundary. */
  lemma NotBoundary(text: string, prefix: Bytes, k: nat, tail: Bytes)
    requires DecodedTo(text, prefix, k, tail) && tail != []
    ensures !OnBoundary(text, |prefix|)
  {
    forall j: nat | j <= |text| && |Encode(text[..j])| == |prefix|
      ensures false
    {
      assert text[..j] + text[j..] == text;
      EncodeConcat(text[..j], text[j..]);
      assert Encode(text[..j]) == Encode(text)[..|prefix|] == prefix;
      DecodeEncode(text[..j], []);
      assert Encode(text[..j]) + [] == prefix;
      DecodeEncode(text[..k], tail);
    }
  }

  /** One chunk decoded on its own succeeds exactly when it ends on a boundary. */
  lemma PyStep(text: string, prefix: Bytes, k: nat, chunk: Bytes, yielded: seq<string>, buffer: string,
               blank: string -> bool)
    returns (k': nat)
    requires ClientInv(text, prefix, k, [], yielded, buffer, blank) && prefix + chunk <= Encode(text)
    ensures DecodeWhole(chunk).Some? <==> OnBoundary(text, |prefix + chunk|)
    ensures DecodeWhole(chunk).Some? ==>
      var lines := Split(buffer + DecodeWhole(chunk).value);
      ClientInv(text, prefix + chunk, k', [], yielded + NonBlank(AllButLast(lines), blank), Last(lines), blank)
  {
    var tail';
    k', tail' := ClientStep(text, prefix, k, [], chunk, yielded, buffer, blank);
    assert [] + chunk == chunk;
    if tail' != [] {
      NotBoundary(text, prefix + chunk, k', tail');
    } else {
      assert Encode(text[..k']) + [] == Encode(text[..k']);
    }
  }

  lemma MoreBoundaries(chunks: seq<Bytes>, text: string, n: nat)
    requires n < |chunks| && CutsOnBoundaries(chunks, text, n)
    requires OnBoundary(text, |Flatten(chunks[..n + 1])|)
    ensures CutsOnBoundaries(chunks, text, n + 1)
  {
  }

  lemma StrayCut(chunks: seq<Bytes>, text: string, n: nat)
    requires n < |chunks| && !OnBoundary(text, |Flatten(chunks[..n + 1])|)
    ensures !CutsOnBoundaries(chunks, text, |chunks|)
  {
  }

  /** The reading loop of the Python SDK.  It decodes each chunk on its own, so a chunk that
      ends inside a character raises.  `failed` says that happened, after `good` chunks. */
  method PyReadLines(chunks: seq<Bytes>, blank: string -> bool, ghost text: string)
    returns (lines: seq<string>, failed: bool, good: nat, ghost k: nat)
    requires Cuts(chunks, text)
    requires forall c :: c in chunks ==> c != []
    ensures failed <==> !CutsOnBoundaries(chunks, text, |chunks|)
    ensures !failed ==> lines == CompleteLines(text, blank)
    ensures failed ==> StopsAt(chunks, text, good, k) && lines == CompleteLines(text[..k], blank)
  {
    var buffer := "";
    lines, failed, good, k := [], false, 0, 0;
    while good < |chunks|
      invariant good <= |chunks|
      invariant ClientInv(text, Flatten(chunks[..good]), k, [], lines, buffer, blank)
      invariant CutsOnBoundaries(chunks, text, good)
    {
      FlattenPrefix(chunks, good);
      FlattenPrefix(chunks, good + 1);
      ghost var k' := PyStep(text, Flatten(chunks[..good]), k, chunks[good], lines, buffer, blank);
      match DecodeWhole(chunks[good])
      case None =>
        failed := true;
        StrayCut(chunks, text, good);
        EncodedTo(text, Flatten(chunks[..good]), k);
        return;
      case Some(t) =>
        lines, buffer := DrainLines(lines, buffer + t, blank);
        k := k';
        MoreBoundaries(chunks, text, good);
        good := good + 1;
    }
    TakeAll(chunks, |chunks|);
    ClientEnd(text, k, [], lines, buffer, blank);
  }

  /** Chunk `good` is the first that ends inside a character; before it come the first `k`
      characters of the text. */
  ghost predicate StopsAt(chunks: seq<Bytes>, text: string, good: nat, k: nat) {
    && good < |chunks| && !OnBoundary(text, |Flatten(chunks[..good + 1])|)
    && k <= |text| && Encode(text[..k]) == Flatten(chunks[..good])
  }

  /** What `json.loads` makes of a line: an error, a value without `get`, or an object. */
  datatype Loaded<E> = NotJson | NotObject | Object(event: E)

  /** The events of the lines up to the first whose `data.get` raises. */
  function PyEvents<E>(lines: seq<string>, load: string -> Loaded<E>, raw: string -> E): seq<E>
    decreases |lines|
  {
    if lines == [] || load(lines[0]).NotObject? then []
    else [PyEvent(lines[0], load, raw)] + PyEvents(lines[1..], load, raw)
  }

  function PyEvent<E>(line: string, load: string -> Loaded<E>, raw: string -> E): E
    requires !load(line).NotObject?
  {
    if load(line).Object? then load(line).event else raw(line)
  }

  /** An object gives its event, and a line that is not JSON is raw output. */
  predicate PyEventAt<E(==)>(line: string, load: string -> Loaded<E>, raw: string -> E, e: E) {
    match load(line)
    case Object(event) => e == event
    case NotJson => e == raw(line)
    case NotObject => false
  }

  method PyYield<E>(lines: seq<string>, load: string -> Loaded<E>, raw: string -> E)
    returns (yielded: seq<E>, raised: bool)
    ensures yielded == PyEvents(lines, load, raw)
    ensures raised <==> exists l :: l in lines && load(l).NotObject?
    ensures |yielded| <= |lines| && forall i :: 0 <= i < |yielded| ==> PyEventAt(lines[i], load, raw, yielded[i])
    ensures if raised then |yielded| < |lines| && load(lines[|yielded|]).NotObject? else |yielded| == |lines|
  {
    yielded, raised := [], false;
    for i := 0 to |lines|
      invariant !raised && PyEvents(lines, load, raw) == yielded + PyEvents(lines[i..], load, raw)
      invariant |yielded| == i && forall j :: 0 <= j < i ==> PyEventAt(lines[j], load, raw, yielded[j])
    {
      assert lines[i..][0] == lines[i] && lines[i..][1..] == lines[i + 1..];
      var event;
      match load(lines[i]) {
        case NotObject =>
          assert yielded + [] == yielded;
          return yielded, true;
        case Object(e) => event := e;
        case NotJson => event := raw(lines[i]);
      }
      Regroup(yielded, [event], PyEvents(lines[i + 1..], load, raw));
      yielded := yielded + [event];
    }
    assert yielded + [] == yielded;
  }

  /** `exec_stream` in the Python SDK.  It fails when a chunk ends inside a character (`cut`)
      or a line is JSON and not an object, whichever comes first, and then yields one more
      event, made of the error. */
  method PyExecStream<E>(chunks: seq<Bytes>, blank: string -> bool, load: string -> Loaded<E>, raw: string -> E,
                         error: E, ghost text: string)
    returns (yielded: seq<E>, failed: bool, cut: bool, good: nat, ghost k: nat)
    requires Cuts(chunks, text)
    requires forall c :: c in chunks ==> c != []
    ensures cut <==> !CutsOnBoundaries(chunks, text, |chunks|)
    ensures cut ==> StopsAt(chunks, text, good, k)
    ensures failed <==> cut || exists l :: l in CompleteLines(text, blank) && load(l).NotObject?
    ensures !failed ==> yielded == PyEvents(CompleteLines(text, blank), load, raw)
    ensures failed ==>
      yielded == PyEvents(CompleteLines(if cut then text[..k] else text, blank), load, raw) + [error]
  {
    var lines, raised;
    lines, cut, good, k := PyReadLines(chunks, blank, text);
    yielded, raised := PyYield(lines, load, raw);
    failed := cut || raised;
    if failed { yielded := yielded + [error]; }
  }

  lemma EncodedTo(text: string, prefix: Bytes, k: nat)
    requires DecodedTo(text, prefix, k, [])
    ensures Encode(text[..k]) == prefix
  {
    assert Encode(text[..k]) + [] == Encode(text[..k]);
  }

  predicate Ascii(text: string) {
    forall i :: 0 <= i < |text| ==> text[i] as int < 0x80
  }

  lemma {:induction false} AsciiLength(text: string)
    requires Ascii(text)
    ensures |Encode(text)| == |text|
  {
    if text != [] {
      AsciiLength(text[1..]);
    }
  }

  /** On ASCII output the Python client cannot fail, however the bytes are cut. */
  lemma AsciiCutsAreBoundaries(chunks: seq<Bytes>, text: string)
    requires Cuts(chunks, text) && Ascii(text)
    ensures CutsOnBoundaries(chunks, text, |chunks|)
  {
    AsciiLength(text);
    forall i | 1 <= i <= |chunks|
      ensures OnBoundary(text, |Flatten(chunks[..i])|)
    {
      FlattenPrefix(chunks, i);
      var n := |Flatten(chunks[..i])|;
      AsciiLength(text[..n]);
    }
  }

  /** What `resp.read(4096)` delivers: full reads, and the rest. */
  function Reads(bytes: Bytes): (r: seq<Bytes>)
    ensures forall c :: c in r ==> c != []
    decreases |bytes|
  {
    if bytes == [] then []
    else if |bytes| <= READ_SIZE then [bytes]
    else [bytes[..READ_SIZE]] + Reads(bytes[READ_SIZE..])
  }

  const READ_SIZE := 4096

  lemma {:induction false} FlattenCons(x: Bytes, chunks: seq<Bytes>)
    ensures Flatten([x] + chunks) == x + Flatten(chunks)
  {
    if chunks == [] {
      assert [x] + [] == [x] && [x][..0] == [];
    } else {
      var n := |chunks| - 1;
      assert ([x] + chunks)[..n + 1] == [x] + chunks[..n];
      FlattenCons(x, chunks[..n]);
    }
  }

  lemma {:induction false} ReadsFlatten(bytes: Bytes)
    ensures Flatten(Reads(bytes)) == bytes
    decreases |bytes|
  {
    if bytes == [] {
    } else if |bytes| <= READ_SIZE {
      assert [bytes][..0] == [];
    } else {
      ReadsFlatten(bytes[READ_SIZE..]);
      FlattenCons(bytes[..READ_SIZE], Reads(bytes[READ_SIZE..]));
    }
  }

  /** Output that starts with 4095 ASCII characters and then one that is not is enough to
      make it fail: the first read ends inside that character. */
  lemma PythonFailsInsideCharacter(front: string, c: char, rest: string)
    requires Ascii(front) && |front| == READ_SIZE - 1 && c as int >= 0x80
    ensures var text := front + [c] + rest;
      Cuts(Reads(Encode(text)), text) && !CutsOnBoundaries(Reads(Encode(text)), text, |Reads(Encode(text))|)
  {
    var text, e := front + [c] + rest, EncodeChar(c);
    var bytes := Encode(text);
    AsciiLength(front);
    EncodeThree(front, c, rest);
    assert |e| >= 2;
    ReadsFlatten(bytes);
    var prefix := bytes[..READ_SIZE];
    assert prefix == Encode(front) + [e[0]];
    assert text[..READ_SIZE - 1] == front;
    assert [e[0]] < e;
    NotBoundary(text, prefix, READ_SIZE - 1, [e[0]]);
    assert Reads(bytes)[..1] == [prefix];
    FlattenCons(prefix, []);
    StrayCut(Reads(bytes), text, 0);
  }

  lemma EncodeThree(front: string, c: char, rest: string)
    ensures Encode(front + [c] + rest) == Encode(front) + EncodeChar(c) + Encode(rest)
  {
    EncodeConcat(front + [c], rest);
    EncodeConcat(front, [c]);
    assert [c][1..] == [] && EncodeChar(c) + [] == EncodeChar(c);
  }

  lemma SplitFirst(s: string, i: nat)
    requires i < |s| && s[i] == '\n' && '\n' !in s[..i]
    ensures Split(s) == [s[..i]] + Split(s[i + 1..])
  {
    CutAt(s, i);
    SplitLineBreak(s[..i]);
    SplitAfterBreak(s[..i] + ['\n'], s[..i], s[i + 1..]);
  }

  lemma CutAt(s: string, i: nat)
    requires i < |s|
    ensures s == s[..i] + [s[i]] + s[i + 1..]
  {
  }

  lemma SplitAfterBreak(line: string, l: string, rest: string)
    requires Split(line) == [l, []]
    ensures Split(line + rest) == [l] + Split(rest)
  {
    SplitConcat(line, rest);
    assert AllButLast([l, []]) == [l];
    assert Last([l, []]) + rest == rest;
  }

  lemma FirstLineOff(buffer: string, i: nat, first: seq<string>, blank: string -> bool)
    requires i < |buffer| && buffer[i] == '\n' && '\n' !in buffer[..i]
    requires first == if blank(buffer[..i]) then [] else [buffer[..i]]
    ensures CompleteLines(buffer, blank) == first + CompleteLines(buffer[i + 1..], blank)
    ensures Last(Split(buffer)) == Last(Split(buffer[i + 1..]))
  {
    var line, rest := buffer[..i], Split(buffer[i + 1..]);
    SplitFirst(buffer, i);
    FirstOfLines(line, rest, Split(buffer));
    NonBlankConcat([line], AllButLast(rest), blank);
    NonBlankOne(line, blank);
  }

  lemma FirstOfLines(line: string, rest: seq<string>, all: seq<string>)
    requires all == [line] + rest && rest != []
    ensures AllButLast(all) == [line] + AllButLast(rest) && Last(all) == Last(rest)
  {
  }

  lemma NonBlankOne(line: string, blank: string -> bool)
    ensures NonBlank([line], blank) == if blank(line) then [] else [line]
  {
    assert [line][..0] == [];
  }

  /** `while "\n" in buffer: line, buffer = buffer.split("\n", 1)` */
  method DrainLines(yielded: seq<string>, text: string, blank: string -> bool)
    returns (r: seq<string>, buffer: string)
    ensures r == yielded + CompleteLines(text, blank) && buffer == Last(Split(text))
  {
    r, buffer := yielded, text;
    while '\n' in buffer
      invariant r + CompleteLines(buffer, blank) == yielded + CompleteLines(text, blank)
      invariant Last(Split(buffer)) == Last(Split(text))
      decreases |buffer|
    {
      var i := IndexByte(buffer, '\n').value;
      var line, rest := buffer[..i], buffer[i + 1..];
      ghost var first := if blank(line) then [] else [line];
      FirstLineOff(buffer, i, first, blank);
      Regroup(r, first, CompleteLines(rest, blank));
      if !blank(line) {
        r := r + [line];
      }
      buffer := rest;
    }
    SplitWithout(buffer);
  }

  // ----------------------------------------------------------- round trip

  lemma {:induction false} NothingBlank(lines: seq<string>, blank: string -> bool)
    requires forall l :: l in lines ==> !blank(l)
    ensures NonBlank(lines, blank) == lines
  {
    if lines != [] {
      var front, last := lines[..|lines| - 1], lines[|lines| - 1];
      NothingBlank(front, blank);
      assert last in lines && front + [last] == lines;
    }
  }

  /** Some line format for events: no newlines, never blank, and it reads back, in Python as
      an object. */
  ghost predicate Encodes<E>(events: seq<E>, enc: E -> string, parse: string -> Option<E>, load: string -> Loaded<E>,
                             blank: string -> bool) {
    blank("")
    && forall e :: e in events ==>
         '\n' !in enc(e) && !blank(enc(e)) && parse(enc(e)) == Some(e) && load(enc(e)) == Object(e)
  }

  function Encoded<E>(events: seq<E>, enc: E -> string): (r: seq<string>)
    ensures |r| == |events| && forall i :: 0 <= i < |events| ==> r[i] == enc(events[i])
  {
    seq(|events|, i requires 0 <= i < |events| => enc(events[i]))
  }

  lemma {:induction false} AllParsed<E>(events: seq<E>, lines: seq<string>, parse: string -> Option<E>)
    requires |lines| == |events| && forall i :: 0 <= i < |events| ==> parse(lines[i]) == Some(events[i])
    ensures ParsedUpTo(lines, parse) == events
    decreases |lines|
  {
    if lines != [] {
      AllParsed(events[1..], lines[1..], parse);
      HeadTail(events);
    }
  }

  lemma {:induction false} AllLoaded<E>(events: seq<E>, lines: seq<string>, load: string -> Loaded<E>, raw: string -> E)
    requires |lines| == |events| && forall i :: 0 <= i < |events| ==> load(lines[i]) == Object(events[i])
    ensures PyEvents(lines, load, raw) == events
    decreases |lines|
  {
    if lines != [] {
      AllLoaded(events[1..], lines[1..], load, raw);
      HeadTail(events);
    }
  }

  lemma LinesOfWire<E>(events: seq<E>, enc: E -> string, blank: string -> bool)
    requires blank("") && forall e :: e in events ==> '\n' !in enc(e) && !blank(enc(e))
    ensures var wire := Unlines(Encoded(events, enc));
      NonBlank(Split(wire), blank) == CompleteLines(wire, blank) == Encoded(events, enc)
  {
    var lines := Encoded(events, enc);
    SplitUnlines(lines);
    NothingBlank(lines, blank);
    assert AllButLast(lines + [[]]) == lines;
    NonBlankConcat(lines, [[]], blank);
    NonBlankOne("", blank);
    assert lines + [] == lines;
  }

  /** What each client yields of the emitted lines, which the contracts of the three clients
      speak of, are the events the server wrote, in order. */
  lemma ClientsRecoverEvents<E>(events: seq<E>, enc: E -> string, parse: string -> Option<E>,
                                load: string -> Loaded<E>, raw: string -> E, blank: string -> bool)
    requires Encodes(events, enc, parse, load, blank)
    ensures var wire := Unlines(Encoded(events, enc));
      && ParsedUpTo(NonBlank(Split(wire), blank), parse) == events
      && EventsOf(CompleteLines(wire, blank), parse, raw) == events
      && PyEvents(CompleteLines(wire, blank), load, raw) == events
  {
    var lines := Encoded(events, enc);
    LinesOfWire(events, enc, blank);
    forall i | 0 <= i < |events| ensures parse(lines[i]) == Some(events[i]) && load(lines[i]) == Object(events[i]) {
      assert events[i] in events;
    }
    AllParsed(events, lines, parse);
    AllLoaded(events, lines, load, raw);
    assert EventsOf(lines, parse, raw) == events;
  }
}
