/** UTF-8 (RFC 3629, section 3) on Dafny's Unicode scalar values, with the two ways the
    clients decode a byte stream that arrives in chunks: incrementally, keeping an
    unfinished character for the next chunk, or each chunk on its own. */
module Utf8 {
  import opened Wrappers
  import opened Seqs

  function EncodeChar(c: char): (r: Bytes)
    ensures 1 <= |r| <= 4 && |r| == CharLen(r[0])
  {
    var n := c as int;
    var n1 := n / 64;
    var n2 := n1 / 64;
    var n3 := n2 / 64;
    if n < 0x80 then [n]
    else if n < 0x800 then [0xC0 + n1, 0x80 + n % 64]
    else if n < 0x10000 then [0xE0 + n2, 0x80 + n1 % 64, 0x80 + n % 64]
    else [0xF0 + n3, 0x80 + n2 % 64, 0x80 + n1 % 64, 0x80 + n % 64]
  }

  /** Length of the character a byte can start; 0 when it cannot start one. */
  function CharLen(b: Byte): nat {
    if b < 0x80 then 1
    else if b < 0xC2 then 0
    else if b < 0xE0 then 2
    else if b < 0xF0 then 3
    else if b < 0xF5 then 4
    else 0
  }

  function Encode(t: string): Bytes {
    if t == [] then [] else EncodeChar(t[0]) + Encode(t[1..])
  }

  /** The code point `n` bytes spell, before checking that they spell it properly. */
  function CodePoint(b: Bytes): int
    requires 1 <= |b| <= 4
  {
    var b0: int := b[0];
    if |b| == 1 then b0
    else
      var b1: int := b[1];
      if |b| == 2 then (b0 - 0xC0) * 64 + (b1 - 0x80)
      else
        var b2: int := b[2];
        if |b| == 3 then ((b0 - 0xE0) * 64 + (b1 - 0x80)) * 64 + (b2 - 0x80)
        else (((b0 - 0xF0) * 64 + (b1 - 0x80)) * 64 + (b2 - 0x80)) * 64 + (b[3] as int - 0x80)
  }

  predicate IsScalar(n: int) { 0 <= n < 0xD800 || 0xE000 <= n < 0x110000 }

  /** Strict: overlong forms, surrogates and stray continuation bytes are rejected. */
  function DecodeChar(b: Bytes): Option<char>
    requires 1 <= |b| <= 4
  {
    var n := CodePoint(b);
    if IsScalar(n) && EncodeChar(n as char) == b then Some(n as char) else None
  }

  /** Everything complete in `b`, and the unfinished character that may end it. */
  datatype Decoded = Decoded(text: string, rest: Bytes) | Malformed

  function Decode(b: Bytes): Decoded
    decreases |b|
  {
    if b == [] then Decoded([], [])
    else
      var k := CharLen(b[0]);
      if k == 0 then Malformed
      else if |b| < k then Decoded([], b)
      else match DecodeChar(b[..k])
        case None => Malformed
        case Some(c) =>
          match Decode(b[k..])
          case Malformed => Malformed
          case Decoded(t, r) => Decoded([c] + t, r)
  }

  /** `bytes.decode("utf-8")`: an unfinished character is an error too. */
  function DecodeWhole(b: Bytes): Option<string> {
    match Decode(b)
    case Decoded(t, r) => if r == [] then Some(t) else None
    case Malformed => None
  }

  lemma CharRoundTrip(c: char)
    ensures DecodeChar(EncodeChar(c)) == Some(c)
  {
    var n := c as int;
    var e := EncodeChar(c);
    if n >= 0x10000 {
      assert e[0] as int - 0xF0 == n / 64 / 64 / 64;
      assert e[1] as int - 0x80 == n / 64 / 64 % 64;
    }
    assert CodePoint(e) == n;
  }

  /** `tail` is the beginning of a character that the text goes on with. */
  ghost predicate Unfinished(tail: Bytes) {
    tail == [] || exists c: char :: tail < EncodeChar(c)
  }

  lemma DecodeFirst(c: char, more: Bytes)
    requires DecodeChar(EncodeChar(c)) == Some(c) && Decode(more).Decoded?
    ensures Decode(EncodeChar(c) + more) == Decoded([c] + Decode(more).text, Decode(more).rest)
  {
    var e := EncodeChar(c);
    var b := e + more;
    assert b[0] == e[0] && b[..|e|] == e && b[|e|..] == more;
  }

  lemma DecodeUnfinished(tail: Bytes)
    requires Unfinished(tail)
    ensures Decode(tail) == Decoded([], tail)
  {
    if tail != [] {
      var c: char :| tail < EncodeChar(c);
      assert tail[0] == EncodeChar(c)[0];
    }
  }

  lemma {:induction false} DecodeEncode(t: string, tail: Bytes)
    requires Unfinished(tail)
    ensures Decode(Encode(t) + tail) == Decoded(t, tail)
  {
    if t == [] {
      assert Encode(t) + tail == tail;
      DecodeUnfinished(tail);
    } else {
      CharRoundTrip(t[0]);
      DecodeEncode(t[1..], tail);
      DecodeFirst(t[0], Encode(t[1..]) + tail);
      Regroup(EncodeChar(t[0]), Encode(t[1..]), tail);
      HeadTail(t);
    }
  }

  lemma {:induction false} EncodeConcat(a: string, b: string)
    ensures Encode(a + b) == Encode(a) + Encode(b)
  {
    if a == [] {
      assert a + b == b;
    } else {
      assert (a + b)[1..] == a[1..] + b;
      EncodeConcat(a[1..], b);
    }
  }

  /** Any byte prefix of an encoded text is some whole characters and one unfinished. */
  lemma {:induction false} CutText(t: string, prefix: Bytes) returns (k: nat, tail: Bytes)
    requires prefix <= Encode(t)
    ensures k <= |t| && prefix == Encode(t[..k]) + tail && Unfinished(tail)
    ensures k == |t| ==> tail == []
  {
    if t == [] || prefix == [] {
      k, tail := 0, [];
    } else {
      var e := EncodeChar(t[0]);
      if |prefix| < |e| {
        k, tail := 0, prefix;
        assert prefix == Encode(t)[..|prefix|] == e[..|prefix|];
        assert prefix < e;
      } else {
        var rest := prefix[|e|..];
        DropPrefix(e, prefix, Encode(t[1..]));
        var k', tail' := CutText(t[1..], rest);
        k, tail := k' + 1, tail';
        TakeSucc(t, k');
        Regroup(e, Encode(t[1..][..k']), tail);
      }
    }
  }

  lemma DropPrefix(e: Bytes, prefix: Bytes, more: Bytes)
    requires |e| <= |prefix| && prefix <= e + more
    ensures prefix[|e|..] <= more && prefix == e + prefix[|e|..]
  {
    assert prefix == (e + more)[..|prefix|];
  }

  lemma TakeSucc(t: string, k: nat)
    requires k < |t|
    ensures t[..k + 1][1..] == t[1..][..k] && t[..k + 1][0] == t[0]
  {
  }
}
