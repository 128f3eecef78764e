/** Base64 as in src/api/iot_base64.c: the encoding of section 4 of RFC 4648, its size
    functions, and a decoder that may write over its own input. Characters are bytes. */
module Base64 {

  const PAD: bv8 := 61
  const BAD: bv8 := 100

  /** base64_list */
  function List(i: bv8): bv8 {
    if i < 26 then i + 65 else if i < 52 then i + 71 else if i < 62 then i - 4 else if i == 62 then 43 else 47
  }

  /** base64_index */
  function Index(c: bv8): bv8 {
    if c == 43 then 62
    else if c == 47 then 63
    else if 48 <= c <= 57 then c + 4
    else if 65 <= c <= 90 then c - 65
    else if 97 <= c <= 122 then c - 71
    else BAD
  }

  /** The two tables are inverse on the alphabet, which does not hold the pad. */
  lemma Alphabet(i: bv8)
    requires i < 64
    ensures Index(List(i)) == i && List(i) != PAD
  {
  }

  lemma AlphabetBack(c: bv8)
    requires Index(c) != BAD
    ensures List(Index(c)) == c && Index(c) < 64
  {
  }

  // ------------------------------------------------------------- encoding

  function EncodeSize(n: nat): nat { if n > 0 then 4 * (1 + (n - 1) / 3) else 0 }

  function DecodeSize(n: nat): nat { if n > 0 then 3 * (1 + (n - 1) / 4) else 0 }

  /** Section 4: a group of 24 bits, missing bytes as zeros, in four groups of six bits. */
  function Group(a: bv8, b: bv8, c: bv8): bv24 {
    ((a as bv24) << 16) | ((b as bv24) << 8) | (c as bv24)
  }

  function Six(g: bv24, shift: nat): bv8
    requires shift <= 18
  {
    ((g >> shift) & 0x3F) as bv8
  }

  /** The characters section 4 prescribes for the last bytes of the input. */
  function Quantum(b: seq<bv8>): (r: seq<bv8>)
    requires 0 < |b|
    ensures |r| == 4
  {
    var g := Group(b[0], if |b| > 1 then b[1] else 0, if |b| > 2 then b[2] else 0);
    [List(Six(g, 18)), List(Six(g, 12)), if |b| > 1 then List(Six(g, 6)) else PAD, if |b| > 2 then List(Six(g, 0)) else PAD]
  }

  /** The input after one group. */
  function Rest(b: seq<bv8>): seq<bv8> { if |b| > 3 then b[3..] else [] }

  function Encoded(b: seq<bv8>): seq<bv8>
    decreases |b|
  {
    if b == [] then [] else Quantum(b) + Encoded(Rest(b))
  }

  lemma {:induction false} EncodedLength(b: seq<bv8>)
    ensures |Encoded(b)| == EncodeSize(|b|)
    decreases |b|
  {
    hide Quantum;
    if b != [] {
      EncodedLength(Rest(b));
    }
  }

  /** iot_base64_encode_block, with the bytes it reads. */
  method EncodeBlock(out: array<bv8>, at: nat, src: seq<bv8>)
    requires |src| > 0 && at + 4 <= out.Length
    modifies out
    ensures forall j :: at <= j < at + 4 ==> out[j] == Quantum(src)[j - at]
    ensures forall j :: 0 <= j < at || at + 4 <= j < out.Length ==> out[j] == old(out[j])
  {
    hide Quantum, List;
    BlockIsQuantum(src);
    out[at] := List(src[0] >> 2);
    out[at + 1] := List((src[0] & 0x03) << 4);
    out[at + 2] := PAD;
    out[at + 3] := PAD;
    if |src| > 1 {
      out[at + 1] := List(((src[0] & 0x03) << 4) | ((src[1] & 0xF0) >> 4));
      out[at + 2] := List((src[1] & 0x0F) << 2);
      if |src| > 2 {
        out[at + 2] := List(((src[1] & 0x0F) << 2) | ((src[2] & 0xC0) >> 6));
        out[at + 3] := List(src[2] & 0x3F);
      }
    }
  }

  lemma {:induction false} BlockIsQuantum(b: seq<bv8>)
    requires |b| > 0
    ensures var x, y, z := b[0], if |b| > 1 then b[1] else 0, if |b| > 2 then b[2] else 0;
            Quantum(b) == [List(x >> 2),
                           if |b| > 1 then List(((x & 0x03) << 4) | ((y & 0xF0) >> 4)) else List((x & 0x03) << 4),
                           if |b| > 2 then List(((y & 0x0F) << 2) | ((z & 0xC0) >> 6))
                           else if |b| > 1 then List((y & 0x0F) << 2) else PAD,
                           if |b| > 2 then List(z & 0x3F) else PAD]
  {
    hide List;
    var x, y, z := b[0], if |b| > 1 then b[1] else 0, if |b| > 2 then b[2] else 0;
    SixParts(x, y, z);
    if |b| == 1 {
      SixParts(x, 0, 0);
    }
  }

  lemma SixParts(x: bv8, y: bv8, z: bv8)
    ensures Six(Group(x, y, z), 18) == x >> 2
    ensures Six(Group(x, y, z), 12) == ((x & 0x03) << 4) | ((y & 0xF0) >> 4)
    ensures Six(Group(x, y, z), 6) == ((y & 0x0F) << 2) | ((z & 0xC0) >> 6)
    ensures Six(Group(x, y, z), 0) == z & 0x3F
  {
  }

  function Min(a: nat, b: nat): nat { if a < b then a else b }

  /** iot_base64_encode: a short output holds the blocks that fit whole. */
  method Encode(out: array<bv8>, outLen: nat, src: array<bv8>, srcLen: nat) returns (result: nat)
    requires outLen <= out.Length && srcLen <= src.Length && out != src
    modifies out
    ensures result == Min(EncodeSize(srcLen), 4 * (outLen / 4))
    ensures result <= |Encoded(src[..srcLen])| && out[..result] == Encoded(src[..srcLen])[..result]
    ensures forall j :: result <= j < out.Length ==> out[j] == old(out[j])
  {
    hide Quantum, Encoded, Rest, From, EncodeSize, Min;
    result := 0;
    ghost var input := src[..srcLen];
    ghost var text := Encoded(input);
    EncodedLength(input);
    var i, left := 0, srcLen;
    FromStart(input);
    while result + 4 <= outLen && left > 0
      invariant left == (if i < srcLen then srcLen - i else 0)
      invariant result <= outLen && result % 4 == 0 && result <= |text|
      invariant forall j :: 0 <= j < result ==> out[j] == text[j]
      invariant text[result..] == Encoded(From(input, i))
      invariant forall j :: result <= j < out.Length ==> out[j] == old(out[j])
    {
      ghost var b := From(input, i);
      var block := src[i..srcLen];
      FromSlice(input, i);
      assert block == b;
      EncodeBlock(out, result, block);
      NextBlock(text, result, b);
      RestFrom(input, i);
      i := i + 3;
      result := result + 4;
      left := if left >= 3 then left - 3 else 0;
    }
    FromSlice(input, i);
    EncodedLength(From(input, i));
    EncodeEnds(srcLen, From(input, i), left, result, outLen);
  }

  lemma {:induction false} EncodeEnds(n: nat, rest: seq<bv8>, left: nat, result: nat, outLen: nat)
    requires result <= outLen && result % 4 == 0 && (result + 4 > outLen || left == 0)
    requires left == 0 <==> rest == []
    requires EncodeSize(n) == result + EncodeSize(|rest|)
    ensures result == Min(EncodeSize(n), 4 * (outLen / 4))
  {
    assert if rest == [] then EncodeSize(|rest|) == 0 else EncodeSize(|rest|) >= 4;
    hide EncodeSize;
    assert result == 4 * (result / 4);
    if left == 0 {
      assert result / 4 <= outLen / 4;
    } else {
      assert result / 4 == outLen / 4;
    }
  }

  /** The input from position i on. */
  function From(b: seq<bv8>, i: nat): seq<bv8> { if i < |b| then b[i..] else [] }

  lemma RestFrom(b: seq<bv8>, i: nat)
    requires i < |b|
    ensures Rest(From(b, i)) == From(b, i + 3)
  {
  }

  lemma FromStart(b: seq<bv8>)
    ensures From(b, 0) == b
  {
  }

  lemma FromSlice(b: seq<bv8>, i: nat)
    ensures i < |b| ==> From(b, i) == b[i..]
    ensures |From(b, i)| == if i < |b| then |b| - i else 0
  {
  }

  lemma NextBlock(text: seq<bv8>, at: nat, b: seq<bv8>)
    requires at <= |text| && b != [] && text[at..] == Encoded(b)
    ensures at + 4 <= |text| && text[at + 4..] == Encoded(Rest(b))
    ensures forall j :: at <= j < at + 4 ==> text[j] == Quantum(b)[j - at]
  {
  }

  // ------------------------------------------------------------- decoding

  /** A character of a block as six bits; the pad counts as zero. */
  function Sextet(c: bv8): bv8 { if c == PAD then 0 else Index(c) }

  function IsPad(c: bv8): nat { if c == PAD then 1 else 0 }

  function Pads(q: seq<bv8>): nat
    requires |q| == 4
  {
    IsPad(q[0]) + IsPad(q[1]) + IsPad(q[2]) + IsPad(q[3])
  }

  /** A block decodes when it has no foreign character and at most two pads, wherever they
      are. */
  predicate Decodable(q: seq<bv8>)
    requires |q| == 4
  {
    Sextet(q[0]) != BAD && Sextet(q[1]) != BAD && Sextet(q[2]) != BAD && Sextet(q[3]) != BAD && Pads(q) <= 2
  }

  function Join(a: bv8, b: bv8, c: bv8, d: bv8): (r: seq<bv8>)
    ensures |r| == 3
  {
    [(a << 2) | (b >> 4), (b << 4) | (c >> 2), ((c << 6) & 0xC0) | d]
  }

  /** The bytes of a block: three, less one for each pad. */
  function BlockBytes(q: seq<bv8>): (r: seq<bv8>)
    requires |q| == 4 && Decodable(q)
    ensures |r| == 3 - Pads(q)
  {
    Join(Sextet(q[0]), Sextet(q[1]), Sextet(q[2]), Sextet(q[3]))[..3 - Pads(q)]
  }

  /** iot_base64_decode_block: -1, or the number of bytes. */
  method DecodeBlock(q: seq<bv8>) returns (n: int, out: seq<bv8>)
    requires |q| == 4
    ensures |out| == 3
    ensures Decodable(q) ==> 1 <= n <= 3 && out[..n] == BlockBytes(q)
    ensures !Decodable(q) ==> n < 1
  {
    hide Join, Index;
    n := 3;
    var tmp := [BAD, BAD, BAD, BAD];
    var i := 3;
    while i >= 0 && n >= 0
      invariant -1 <= i <= 3 && |tmp| == 4
      invariant n >= 0 ==> (forall j :: i < j < 4 ==> tmp[j] == Sextet(q[j]) && Sextet(q[j]) != BAD)
                           && n == 3 - PadsFrom(q, i + 1)
      invariant n < 0 ==> !Decodable(q)
    {
      if q[i] == PAD {
        tmp := tmp[i := 0];
        n := n - 1;
      } else {
        tmp := tmp[i := Index(q[i])];
      }
      if tmp[i] == BAD {
        n := -1;
      }
      i := i - 1;
    }
    out := Join(tmp[0], tmp[1], tmp[2], tmp[3]);
  }

  function PadsFrom(q: seq<bv8>, i: nat): nat
    requires |q| == 4 && i <= 4
    decreases 4 - i
  {
    if i == 4 then 0 else IsPad(q[i]) + PadsFrom(q, i + 1)
  }

  /** What decoding a whole number of blocks with a given room does: whether it succeeds,
      and the bytes written until the input or the room ends or a block is bad. */
  datatype Outcome = Outcome(ok: bool, bytes: seq<bv8>)

  function Decoded(s: seq<bv8>, room: nat): (r: Outcome)
    requires |s| % 4 == 0
    ensures |r.bytes| <= room
  {
    if s == [] || room == 0 then Outcome(true, [])
    else if !Decodable(s[..4]) then Outcome(false, [])
    else
      var b := BlockBytes(s[..4]);
      if |b| >= room then Outcome(true, b[..room])
      else
        var r := Decoded(s[4..], room - |b|);
        Outcome(r.ok, b + r.bytes)
  }

  /** The characters read for an input of n: whole blocks. */
  function Whole(n: nat): nat { (n + 3) / 4 * 4 }

  /** One past the last character the decoder looks at, in memory s: it stops at the end of the
      input, of the room, or at a bad block, and looks at a block's last character first. */
  function ReadEnd(s: seq<bv8>, n: nat, at: nat, room: nat): nat
    decreases n - at
  {
    if at >= n || room == 0 then at
    else if at + 4 > |s| || !Decodable(s[at..at + 4]) then at + 4
    else ReadEnd(s, n, at + 4, room - Min(|BlockBytes(s[at..at + 4])|, room))
  }

  /** The whole blocks an input of n characters has in memory s, the last one filled up with
      what comes after it. */
  function Blocks(s: seq<bv8>, n: nat): (r: seq<bv8>)
    ensures |r| % 4 == 0 && |r| <= Whole(n)
    ensures Whole(n) <= |s| ==> r == s[..Whole(n)]
  {
    s[..Min(Whole(n), |s| / 4 * 4)]
  }

  /** iot_base64_decode. Output and input may be the same array: what is written never
      reaches the input still to be read. */
  method Decode(out: array<bv8>, outLen: nat, src: array<bv8>, srcLen: nat) returns (numBytes: int)
    requires outLen <= out.Length && ReadEnd(src[..], srcLen, 0, outLen) <= src.Length
    modifies out
    ensures var r := Decoded(old(Blocks(src[..], srcLen)), outLen);
            && numBytes == (if r.ok then |r.bytes| else -1)
            && out[..|r.bytes|] == r.bytes
            && forall j :: |r.bytes| <= j < out.Length ==> out[j] == old(out[j])
  {
    hide *;
    numBytes := 0;
    ghost var memory := src[..];
    ghost var s := Blocks(memory, srcLen);
    ghost var total := Decoded(s, outLen);
    var i: nat, at: nat, left: nat := 0, 0, outLen;
    StartAhead(memory, srcLen, outLen);
    while i < srcLen && left > 0 && numBytes >= 0
      invariant at + left == outLen && at <= i && i % 4 == 0
      invariant at <= |total.bytes| && forall j :: 0 <= j < at ==> out[j] == total.bytes[j]
      invariant forall j :: i <= j < |s| ==> src[j] == memory[j]
      invariant forall j :: at <= j < out.Length ==> out[j] == old(out[j])
      invariant numBytes == at || numBytes == -1
      invariant numBytes == at ==> Ahead(memory, srcLen, i, left, total, at)
      invariant numBytes == -1 ==> !total.ok && at == |total.bytes|
    {
      BlockThere(memory, srcLen, i, left, total, at);
      var block := src[i..i + 4];
      assert block == memory[i..i + 4];
      var n, temp := DecodeBlock(block);
      if n < 1 || n > 3 {
        BadStep(memory, srcLen, i, left, total, at);
        numBytes := -1;
      } else {
        GoodStep(memory, srcLen, i, left, total, at);
        var m := CopyBlock(out, at, temp[..n], left);
        at := at + m;
        left := left - m;
        numBytes := numBytes + m;
      }
      i := i + 4;
    }
    if numBytes >= 0 {
      NothingAhead(memory, srcLen, i, left, total, at);
    }
  }

  /** Where the decoder is: what is still to be decoded gives the rest of the result, and
      lies in memory as far as it is looked at. */
  predicate Ahead(s: seq<bv8>, n: nat, i: nat, left: nat, total: Outcome, at: nat) {
    && i % 4 == 0 && i <= |Blocks(s, n)| && at <= |total.bytes|
    && Decoded(Blocks(s, n)[i..], left) == Outcome(total.ok, total.bytes[at..])
    && ReadEnd(s, n, i, left) <= |s|
  }

  lemma {:induction false} StartAhead(s: seq<bv8>, n: nat, room: nat)
    requires ReadEnd(s, n, 0, room) <= |s|
    ensures Ahead(s, n, 0, room, Decoded(Blocks(s, n), room), 0)
    ensures |Decoded(Blocks(s, n), room).bytes| <= room && |Blocks(s, n)| <= |s|
  {
    hide Decoded, Whole, ReadEnd;
    assert Blocks(s, n)[0..] == Blocks(s, n);
  }

  /** A block that is looked at lies in memory. */
  lemma {:induction false} BlockThere(s: seq<bv8>, n: nat, i: nat, left: nat, total: Outcome, at: nat)
    requires Ahead(s, n, i, left, total, at) && i < n && left > 0
    ensures i % 4 == 0 && i + 4 <= |Blocks(s, n)| <= |s| && at <= |total.bytes|
    ensures Blocks(s, n)[i..] != [] && Blocks(s, n)[i..][..4] == s[i..i + 4]
    ensures Blocks(s, n)[i..][4..] == Blocks(s, n)[i + 4..]
    ensures Decodable(s[i..i + 4]) ==>
              ReadEnd(s, n, i + 4, left - Min(|BlockBytes(s[i..i + 4])|, left)) <= |s|
  {
    hide Decoded, Decodable, BlockBytes;
  }

  lemma {:induction false} BadStep(s: seq<bv8>, n: nat, i: nat, left: nat, total: Outcome, at: nat)
    requires Ahead(s, n, i, left, total, at) && i < n && left > 0
    requires i + 4 <= |s| && !Decodable(s[i..i + 4])
    ensures !total.ok && at == |total.bytes|
  {
    BlockThere(s, n, i, left, total, at);
    hide Decodable, BlockBytes, Blocks, ReadEnd, Whole;
  }

  lemma {:induction false} GoodStep(s: seq<bv8>, n: nat, i: nat, left: nat, total: Outcome, at: nat)
    requires Ahead(s, n, i, left, total, at) && i < n && left > 0
    requires i + 4 <= |s| && Decodable(s[i..i + 4])
    ensures var b := BlockBytes(s[i..i + 4]);
            var m := Min(|b|, left);
            && at + m <= |total.bytes| && (forall j :: at <= j < at + m ==> total.bytes[j] == b[j - at])
            && 0 < m <= 3 && Ahead(s, n, i + 4, left - m, total, at + m)
  {
    hide *;
    BlockThere(s, n, i, left, total, at);
    AheadIs(s, n, i, left, total, at);
    var rest := Blocks(s, n)[i..];
    BlockRoom(rest[..4], left);
    var b := BlockBytes(rest[..4]);
    var m := Min(|b|, left);
    DecodedFirst(rest, left);
    RestOfBytes(total.bytes, at, b, m, Decoded(rest[4..], left - m).bytes);
    AheadIs(s, n, i + 4, left - m, total, at + m);
  }

  lemma {:induction false} BlockRoom(q: seq<bv8>, left: nat)
    requires |q| == 4 && Decodable(q) && left > 0
    ensures 0 < Min(|BlockBytes(q)|, left) <= 3
    ensures Min(|BlockBytes(q)|, left) <= left && Min(|BlockBytes(q)|, left) <= |BlockBytes(q)|
  {
    hide BlockBytes;
  }

  lemma AheadIs(s: seq<bv8>, n: nat, i: nat, left: nat, total: Outcome, at: nat)
    requires i % 4 == 0 && i <= |Blocks(s, n)| && at <= |total.bytes|
    ensures |Blocks(s, n)[i..]| % 4 == 0
    ensures Ahead(s, n, i, left, total, at)
       <==> Decoded(Blocks(s, n)[i..], left) == Outcome(total.ok, total.bytes[at..]) && ReadEnd(s, n, i, left) <= |s|
  {
  }

  /** The first block of the specification. */
  lemma {:induction false} DecodedFirst(s: seq<bv8>, room: nat)
    requires |s| % 4 == 0 && s != [] && room > 0 && Decodable(s[..4])
    ensures var b := BlockBytes(s[..4]);
            var m := Min(|b|, room);
            var r := Decoded(s[4..], room - m);
            Decoded(s, room) == Outcome(r.ok, b[..m] + r.bytes)
  {
    hide Decodable, BlockBytes;
    var b := BlockBytes(s[..4]);
    if |b| >= room {
      assert b[..room] + [] == b[..room];
    } else {
      assert b[..|b|] == b;
    }
  }

  lemma RestOfBytes(all: seq<bv8>, at: nat, b: seq<bv8>, m: nat, r: seq<bv8>)
    requires at <= |all| && m <= |b| && all[at..] == b[..m] + r
    ensures at + m <= |all| && all[at + m..] == r
    ensures forall j :: at <= j < at + m ==> all[j] == b[j - at]
  {
    assert all[at..][m..] == r;
    assert forall j :: at <= j < at + m ==> all[j] == all[at..][j - at];
  }

  lemma {:induction false} NothingAhead(s: seq<bv8>, n: nat, i: nat, left: nat, total: Outcome, at: nat)
    requires Ahead(s, n, i, left, total, at) && (i >= n || left == 0)
    ensures total.ok && at == |total.bytes|
  {
    hide ReadEnd, Decodable, BlockBytes;
    assert i >= n ==> i == |Blocks(s, n)|;
  }

  /** The copying loop of the decoder: as much of a block as there is room for. */
  method CopyBlock(out: array<bv8>, at: nat, block: seq<bv8>, left: nat) returns (m: nat)
    requires at + left <= out.Length
    modifies out
    ensures m == Min(|block|, left) && forall j :: at <= j < at + m ==> out[j] == block[j - at]
    ensures forall j :: 0 <= j < at || at + m <= j < out.Length ==> out[j] == old(out[j])
  {
    m := 0;
    while m < |block| && m < left
      invariant m <= |block| && m <= left
      invariant forall j :: at <= j < at + m ==> out[j] == block[j - at]
      invariant forall j :: 0 <= j < at || at + m <= j < out.Length ==> out[j] == old(out[j])
    {
      out[at + m] := block[m];
      m := m + 1;
    }
  }
}
