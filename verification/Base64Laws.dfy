/** The laws of the base64 functions: round trips both ways, exactly which texts decode, and
    decoding in place. */
module Base64Laws {
  import opened Base64

  // --------------------------------------------------------- blocks, in bits

  lemma JoinSix(x: bv8, y: bv8, z: bv8)
    ensures Join(x >> 2, ((x & 0x03) << 4) | ((y & 0xF0) >> 4), ((y & 0x0F) << 2) | ((z & 0xC0) >> 6), z & 0x3F)
         == [x, y, z]
  {
  }

  lemma SixBound(g: bv24, shift: nat)
    requires shift <= 18
    ensures Six(g, shift) < 64
  {
  }

  lemma ListedSextet(i: bv8)
    requires i < 64
    ensures Sextet(List(i)) == i && List(i) != PAD && i != BAD && IsPad(List(i)) == 0
  {
  }

  lemma PadSextet()
    ensures Sextet(PAD) == 0 && IsPad(PAD) == 1 && 0 != BAD
  {
  }

  lemma ZeroBytes(x: bv8, y: bv8)
    ensures Six(Group(x, 0, 0), 6) == 0 && Six(Group(x, 0, 0), 0) == 0 && Six(Group(x, y, 0), 0) == 0
  {
  }

  /** The first group of an input decodes to the bytes it was made of. */
  lemma {:induction false} QuantumDecodes(b: seq<bv8>)
    requires b != []
    ensures Decodable(Quantum(b)) && BlockBytes(Quantum(b)) == b[..Min(|b|, 3)]
  {
    var x, y, z := b[0], if |b| > 1 then b[1] else 0, if |b| > 2 then b[2] else 0;
    var g := Group(x, y, z);
    SixBound(g, 18);
    SixBound(g, 12);
    SixBound(g, 6);
    SixBound(g, 0);
    ListedSextet(Six(g, 18));
    ListedSextet(Six(g, 12));
    ListedSextet(Six(g, 6));
    ListedSextet(Six(g, 0));
    PadSextet();
    ZeroBytes(x, y);
    SixParts(x, y, z);
    JoinSix(x, y, z);
    hide Six, Group, Join, Sextet, List, IsPad;
    assert Join(Six(g, 18), Six(g, 12), Six(g, 6), Six(g, 0)) == [x, y, z];
    assert [x, y, z][..Min(|b|, 3)] == b[..Min(|b|, 3)];
  }

  /** Decoding an encoding gives the bytes back, cut off at the room there is. */
  lemma {:induction false} RoundTrip(b: seq<bv8>, room: nat)
    ensures |Encoded(b)| % 4 == 0
    ensures Decoded(Encoded(b), room) == Outcome(true, b[..Min(|b|, room)])
    decreases |b|
  {
    hide *;
    if b == [] || room == 0 {
      NothingToDecode(b, room);
    } else {
      QuantumDecodes(b);
      EncodedFirst(b);
      BytesJoin(b, room);
      var k := Min(Min(|b|, 3), room);
      DecodedFirst(Encoded(b), room);
      RoundTrip(Rest(b), room - k);
    }
  }

  lemma {:induction false} NothingToDecode(b: seq<bv8>, room: nat)
    requires b == [] || room == 0
    ensures |Encoded(b)| % 4 == 0 && Decoded(Encoded(b), room) == Outcome(true, b[..Min(|b|, room)])
  {
    EncodedLength(b);
    assert b[..0] == [];
  }

  lemma BytesJoin(b: seq<bv8>, room: nat)
    requires b != []
    ensures var m := Min(|b|, 3);
            var k := Min(m, room);
            && k <= m <= |b| && k <= room && Min(|b|, room) <= |b| && Min(|Rest(b)|, room - k) <= |Rest(b)|
            && |Rest(b)| < |b|
            && b[..m][..k] + Rest(b)[..Min(|Rest(b)|, room - k)] == b[..Min(|b|, room)]
  {
  }

  lemma {:induction false} EncodedFirst(b: seq<bv8>)
    requires b != []
    ensures |Encoded(b)| % 4 == 0 && |Encoded(b)| >= 4
    ensures Encoded(b)[..4] == Quantum(b) && Encoded(b)[4..] == Encoded(Rest(b))
    ensures b == b[..Min(|b|, 3)] + Rest(b)
  {
    hide Quantum;
    EncodedLength(b);
  }

  // ------------------------------------------------------ which texts decode

  predicate AllDecodable(s: seq<bv8>)
    requires |s| % 4 == 0
  {
    s == [] || (Decodable(s[..4]) && AllDecodable(s[4..]))
  }

  function AllPads(s: seq<bv8>): nat
    requires |s| % 4 == 0
  {
    if s == [] then 0 else Pads(s[..4]) + AllPads(s[4..])
  }

  /** With room for the last block (in particular with the room iot_base64_decode_size asks
      for) decoding succeeds exactly when every block is decodable; with that full room it
      returns three bytes a block, less one for each pad. */
  lemma {:induction false} DecodesExactly(s: seq<bv8>, room: nat)
    requires |s| % 4 == 0 && 3 * (|s| / 4) < room + 3
    ensures Decoded(s, room).ok <==> AllDecodable(s)
    ensures Decoded(s, room).ok && room >= DecodeSize(|s|) ==> |Decoded(s, room).bytes| + AllPads(s) == 3 * (|s| / 4)
  {
    hide Decodable, BlockBytes, Pads;
    if s != [] {
      if Decodable(s[..4]) {
        var n := |BlockBytes(s[..4])|;
        if n < room {
          DecodesExactly(s[4..], room - n);
        } else {
          assert s[4..] == [];
        }
      }
    }
  }

  /** Less room only cuts the output off. */
  lemma {:induction false} RoomCuts(s: seq<bv8>, small: nat, large: nat)
    requires |s| % 4 == 0 && small <= large && Decoded(s, large).ok
    ensures Decoded(s, small) == Outcome(true, Decoded(s, large).bytes[..Min(small, |Decoded(s, large).bytes|)])
    decreases |s|
  {
    hide *;
    if s == [] || small == 0 {
      NothingCut(s, small, large);
    } else {
      FirstDecodes(s, large);
      DecodedFirst(s, small);
      DecodedFirst(s, large);
      var b := BlockBytes(s[..4]);
      MinIs(|b|, small);
      MinIs(|b|, large);
      var left := large - Min(|b|, large);
      RoomCuts(s[4..], small - Min(|b|, small), left);
      CutJoin(b, Decoded(s[4..], left).bytes, small, large);
    }
  }

  lemma MinIs(a: nat, b: nat)
    ensures Min(a, b) <= a && Min(a, b) <= b && (Min(a, b) == a || Min(a, b) == b)
  {
  }

  lemma NothingCut(s: seq<bv8>, small: nat, large: nat)
    requires |s| % 4 == 0 && (s == [] || small == 0)
    ensures Min(small, |Decoded(s, large).bytes|) <= |Decoded(s, large).bytes|
    ensures Decoded(s, small) == Outcome(true, Decoded(s, large).bytes[..Min(small, |Decoded(s, large).bytes|)])
  {
  }

  lemma FirstDecodes(s: seq<bv8>, room: nat)
    requires |s| % 4 == 0 && s != [] && room > 0 && Decoded(s, room).ok
    ensures Decodable(s[..4])
  {
  }

  lemma CutJoin(b: seq<bv8>, r: seq<bv8>, small: nat, large: nat)
    requires small <= large && |r| <= large - Min(|b|, large)
    ensures var ms, ml := Min(|b|, small), Min(|b|, large);
            && ms <= |b| && ml <= |b| && ms <= small && ml <= large
            && Min(small - ms, |r|) <= |r| && Min(small, |b[..ml] + r|) <= |b[..ml] + r|
            && b[..ms] + r[..Min(small - ms, |r|)] == (b[..ml] + r)[..Min(small, |b[..ml] + r|)]
  {
  }

  // --------------------------------------------------------- canonical texts

  predicate Letter(c: bv8) { c != PAD && Index(c) != BAD }

  /** Section 3.5: only the last block is padded, at its end, and the bits the pads make
      unused are zero. */
  predicate CanonicalEnd(q: seq<bv8>)
    requires |q| == 4
  {
    Letter(q[0]) && Letter(q[1])
    && ((Letter(q[2]) && Letter(q[3]))
        || (Letter(q[2]) && Index(q[2]) & 0x03 == 0 && q[3] == PAD)
        || (Index(q[1]) & 0x0F == 0 && q[2] == PAD && q[3] == PAD))
  }

  predicate Canonical(s: seq<bv8>)
    requires |s| % 4 == 0
  {
    s == []
    || (if |s| == 4 then CanonicalEnd(s)
        else Letter(s[0]) && Letter(s[1]) && Letter(s[2]) && Letter(s[3]) && Canonical(s[4..]))
  }

  lemma SixJoin(a: bv8, b: bv8, c: bv8, d: bv8)
    requires a < 64 && b < 64 && c < 64 && d < 64
    ensures var r := Join(a, b, c, d); var g := Group(r[0], r[1], r[2]);
            Six(g, 18) == a && Six(g, 12) == b && Six(g, 6) == c && Six(g, 0) == d
  {
  }

  lemma TailJoin(a: bv8, b: bv8, c: bv8)
    requires a < 64 && b < 64 && c < 64
    ensures c & 0x03 == 0 ==> Join(a, b, c, 0)[2] == 0
    ensures b & 0x0F == 0 ==> Join(a, b, 0, 0)[1] == 0 && Join(a, b, 0, 0)[2] == 0
  {
  }

  /** Joining sextets and cutting off the bytes whose bits are zero loses nothing. */
  lemma {:induction false} QuantumJoin(a: bv8, b: bv8, c: bv8, d: bv8, n: nat)
    requires a < 64 && b < 64 && c < 64 && d < 64 && 1 <= n <= 3
    requires n < 3 ==> d == 0 && c & 0x03 == 0
    requires n < 2 ==> c == 0 && b & 0x0F == 0
    ensures Quantum(Join(a, b, c, d)[..n])
            == [List(a), List(b), if n > 1 then List(c) else PAD, if n > 2 then List(d) else PAD]
  {
    SixJoin(a, b, c, d);
    TailJoin(a, b, c);
    hide Six, Group, Join, List;
  }

  /** A canonical last block is the encoding of its bytes. */
  lemma {:induction false} BlockCanonical(q: seq<bv8>)
    requires |q| == 4 && CanonicalEnd(q)
    ensures Decodable(q) && BlockBytes(q) != [] && Quantum(BlockBytes(q)) == q
  {
    hide List, Index, Join, Quantum;
    AlphabetBack(q[0]);
    AlphabetBack(q[1]);
    if q[2] != PAD { AlphabetBack(q[2]); }
    if q[3] != PAD { AlphabetBack(q[3]); }
    QuantumJoin(Sextet(q[0]), Sextet(q[1]), Sextet(q[2]), Sextet(q[3]), 3 - Pads(q));
  }

  lemma QuantumOfThree(b: seq<bv8>, r: seq<bv8>)
    requires |b| == 3
    ensures Quantum(b + r) == Quantum(b) && Rest(b + r) == r && Encoded(b + r) == Quantum(b) + Encoded(r)
  {
  }

  lemma LettersFull(q: seq<bv8>)
    requires |q| == 4 && Letter(q[0]) && Letter(q[1]) && Letter(q[2]) && Letter(q[3])
    ensures CanonicalEnd(q) && Pads(q) == 0
  {
  }

  lemma OneBlock(b: seq<bv8>)
    requires 0 < |b| <= 3
    ensures Encoded(b) == Quantum(b)
  {
  }

  lemma DecodedOne(q: seq<bv8>, room: nat)
    requires |q| == 4 && Decodable(q) && room >= 3
    ensures Decoded(q, room) == Outcome(true, BlockBytes(q)) && |BlockBytes(q)| <= 3
  {
  }

  lemma DecodedMore(q: seq<bv8>, rest: seq<bv8>, room: nat)
    requires |q| == 4 && |rest| % 4 == 0 && Decodable(q) && Pads(q) == 0 && room > 3
    ensures var r := Decoded(rest, room - 3);
            |BlockBytes(q)| == 3 && Decoded(q + rest, room) == Outcome(r.ok, BlockBytes(q) + r.bytes)
  {
  }

  /** A canonical text is the encoding of what it decodes to. */
  lemma {:induction false} CanonicalReencodes(s: seq<bv8>, room: nat)
    requires |s| % 4 == 0 && Canonical(s) && room >= DecodeSize(|s|)
    ensures Decoded(s, room).ok && Encoded(Decoded(s, room).bytes) == s
    ensures s != [] ==> Decoded(s, room).bytes != []
  {
    hide *;
    if s == [] {
      NothingToReencode(room);
    } else if |s| == 4 {
      OnlyBlock(s);
      BlockCanonical(s);
      DecodedOne(s, room);
      OneBlock(BlockBytes(s));
    } else {
      var q, rest := s[..4], s[4..];
      FullBlock(s, room);
      LettersFull(q);
      BlockCanonical(q);
      CanonicalReencodes(rest, room - 3);
      DecodedMore(q, rest, room);
      QuantumOfThree(BlockBytes(q), Decoded(rest, room - 3).bytes);
      assert s == q + rest;
    }
  }

  lemma NothingToReencode(room: nat)
    ensures Decoded([], room) == Outcome(true, []) && Encoded([]) == []
  {
  }

  lemma OnlyBlock(s: seq<bv8>)
    requires |s| == 4 && Canonical(s)
    ensures CanonicalEnd(s) && DecodeSize(|s|) == 3
  {
  }

  lemma {:induction false} FullBlock(s: seq<bv8>, room: nat)
    requires |s| % 4 == 0 && |s| > 4 && Canonical(s) && room >= DecodeSize(|s|)
    ensures Letter(s[..4][0]) && Letter(s[..4][1]) && Letter(s[..4][2]) && Letter(s[..4][3])
    ensures |s[4..]| % 4 == 0 && s[4..] != [] && Canonical(s[4..]) && room > 3 && room - 3 >= DecodeSize(|s[4..]|)
  {
    hide Letter;
  }

  lemma {:induction false} QuantumCanonical(b: seq<bv8>)
    requires b != []
    ensures CanonicalEnd(Quantum(b))
    ensures |b| > 3 ==> var q := Quantum(b); Letter(q[0]) && Letter(q[1]) && Letter(q[2]) && Letter(q[3])
  {
    var x, y, z := b[0], if |b| > 1 then b[1] else 0, if |b| > 2 then b[2] else 0;
    var g := Group(x, y, z);
    SixBound(g, 18);
    SixBound(g, 12);
    SixBound(g, 6);
    SixBound(g, 0);
    Alphabet(Six(g, 18));
    Alphabet(Six(g, 12));
    Alphabet(Six(g, 6));
    Alphabet(Six(g, 0));
    TailBits(x, y);
    hide Six, Group, List, Index;
  }

  lemma TailBits(x: bv8, y: bv8)
    ensures Six(Group(x, y, 0), 6) & 0x03 == 0 && Six(Group(x, 0, 0), 12) & 0x0F == 0
  {
  }

  lemma {:induction false} EncodedIsCanonical(b: seq<bv8>)
    ensures |Encoded(b)| % 4 == 0 && Canonical(Encoded(b))
    decreases |b|
  {
    hide Quantum, CanonicalEnd, Letter;
    EncodedLength(b);
    if b != [] {
      EncodedIsCanonical(Rest(b));
      EncodedLength(Rest(b));
      QuantumCanonical(b);
      var e := Encoded(b);
      assert e[4..] == Encoded(Rest(b));
      assert Rest(b) == [] ==> e == Quantum(b);
      assert forall k :: 0 <= k < 4 ==> e[k] == Quantum(b)[k];
    }
  }

  /** Decoding and encoding again gives a text back exactly when the text is canonical. */
  lemma ReencodesIffCanonical(s: seq<bv8>, room: nat)
    requires |s| % 4 == 0 && room >= DecodeSize(|s|)
    ensures Decoded(s, room).ok && Encoded(Decoded(s, room).bytes) == s <==> Canonical(s)
  {
    if Canonical(s) {
      CanonicalReencodes(s, room);
    } else if Decoded(s, room).ok && Encoded(Decoded(s, room).bytes) == s {
      EncodedIsCanonical(Decoded(s, room).bytes);
    }
  }

  // ------------------------------------------------------- decoding in place

  /** A text whose length is not a multiple of four never decodes: its last block takes in
      the terminator. */
  lemma {:induction false} TerminatorSpoils(s: seq<bv8>, n: nat)
    requires |s| == Whole(n) && n % 4 != 0 && s[n] == 0
    ensures !AllDecodable(s)
  {
    if n < 4 {
      assert s[..4] == s;
    } else {
      assert Whole(n - 4) == Whole(n) - 4;
      assert s[4..][n - 4] == s[n];
      TerminatorSpoils(s[4..], n - 4);
    }
  }

  /** Where the last block does not lie in memory, the reads stay inside exactly when a block
      before it is bad. */
  lemma {:induction false} ReadsCut(s: seq<bv8>, n: nat, at: nat, room: nat)
    requires |s| < Whole(n) && at % 4 == 0 && at <= |Blocks(s, n)| && 3 * (|Blocks(s, n)| - at) < 4 * room
    ensures ReadEnd(s, n, at, room) <= |s| <==> !AllDecodable(Blocks(s, n)[at..])
    decreases |s| - at
  {
    hide *;
    ReadsStep(s, n, at, room);
    if at < |Blocks(s, n)| {
      var rest := Blocks(s, n)[at..];
      AllStep(rest);
      if Decodable(rest[..4]) {
        ReadsCut(s, n, at + 4, room - Min(|BlockBytes(rest[..4])|, room));
      }
    }
  }

  lemma {:induction false} ReadsStep(s: seq<bv8>, n: nat, at: nat, room: nat)
    requires |s| < Whole(n) && at % 4 == 0 && at <= |Blocks(s, n)| && 3 * (|Blocks(s, n)| - at) < 4 * room
    ensures |Blocks(s, n)| % 4 == 0 && |Blocks(s, n)| <= |s|
    ensures at == |Blocks(s, n)| ==> ReadEnd(s, n, at, room) > |s| && AllDecodable(Blocks(s, n)[at..])
    ensures at < |Blocks(s, n)| ==>
              var rest := Blocks(s, n)[at..];
              && |rest| >= 4 && |rest| % 4 == 0 && rest[4..] == Blocks(s, n)[at + 4..]
              && (!Decodable(rest[..4]) ==> ReadEnd(s, n, at, room) <= |s|)
              && (Decodable(rest[..4]) ==>
                    var m := Min(|BlockBytes(rest[..4])|, room);
                    m <= room && 3 * (|Blocks(s, n)| - (at + 4)) < 4 * (room - m)
                    && ReadEnd(s, n, at, room) == ReadEnd(s, n, at + 4, room - m))
  {
    hide Decodable, BlockBytes;
    if at < |Blocks(s, n)| {
      assert Blocks(s, n)[at..][..4] == s[at..at + 4];
    }
  }

  lemma AllStep(s: seq<bv8>)
    requires |s| % 4 == 0 && s != []
    ensures AllDecodable(s) <==> Decodable(s[..4]) && AllDecodable(s[4..])
  {
  }

  lemma {:induction false} ReadsWhole(s: seq<bv8>, n: nat, at: nat, room: nat)
    requires Whole(n) <= |s| && at % 4 == 0 && at <= Whole(n)
    ensures ReadEnd(s, n, at, room) <= Whole(n)
    decreases Whole(n) - at
  {
    hide Decodable, BlockBytes;
    if at < n && room > 0 && Decodable(s[at..at + 4]) {
      ReadsWhole(s, n, at + 4, room - Min(|BlockBytes(s[at..at + 4])|, room));
    }
  }

  /** A string is allocated with its terminator and no more. Decoding it then looks at
      nothing else exactly when its length is 0 or 3 modulo 4, or one of its whole blocks is
      bad. */
  lemma {:induction false} StringReads(s: seq<bv8>, n: nat)
    requires |s| == n + 1
    ensures ReadEnd(s, n, 0, n) <= |s| <==> n % 4 == 0 || n % 4 == 3 || !AllDecodable(s[..n / 4 * 4])
  {
    hide ReadEnd, AllDecodable;
    if Whole(n) <= |s| {
      ReadsWhole(s, n, 0, n);
    } else {
      ReadsCut(s, n, 0, n);
      assert Blocks(s, n)[0..] == s[..n / 4 * 4];
    }
  }

  /** The text "A" takes two characters, and the decoder looks at the fourth. */
  lemma OneLetterReads()
    ensures ReadEnd(['A' as bv8, 0], 1, 0, 1) == 4
  {
  }

  lemma WholeLength(n: nat)
    ensures Whole(n) % 4 == 0 && 3 * (Whole(n) / 4) < n + 3
    ensures n % 4 == 0 ==> Whole(n) == n && DecodeSize(n) <= n && DecodeSize(n) == 3 * (n / 4)
    ensures n <= Whole(n) && 3 * (Whole(n) / 4) == DecodeSize(n)
  {
  }

  function Length(s: seq<bv8>): (n: nat)
    requires 0 in s
    ensures n < |s| && s[n] == 0 && 0 !in s[..n]
  {
    if s[0] == 0 then 0
    else
      var n := Length(s[1..]);
      assert s[..n + 1] == [s[0]] + s[1..][..n];
      n + 1
  }

  /** The string to raw branch of iot_common_data_convert: the object's text is decoded over
      itself. It converts exactly the texts made of whole decodable blocks, and the bytes are
      those a decode into a buffer of its own would give. */
  method StringToRaw(heap: array<bv8>) returns (converted: bool, length: nat)
    requires 0 in heap[..]
    requires var n := Length(heap[..]); ReadEnd(heap[..], n, 0, n) <= heap.Length
    modifies heap
    ensures var n := Length(old(heap[..]));
            var s := Blocks(old(heap[..]), n);
            && (converted <==> n % 4 == 0 && AllDecodable(s))
            && (converted ==> length + AllPads(s) == 3 * (n / 4)
                              && heap[..length] == Decoded(s, DecodeSize(n)).bytes)
  {
    hide *;
    var strLen := StrLen(heap);
    StringOutcome(heap[..], strLen);
    var len := Decode(heap, strLen, heap, strLen);
    converted, length := len >= 0, if len >= 0 then len else 0;
  }

  /** os_strlen */
  method StrLen(s: array<bv8>) returns (n: nat)
    requires 0 in s[..]
    ensures n == Length(s[..])
  {
    n := 0;
    while s[n] != 0
      invariant n <= Length(s[..])
      decreases s.Length - n
    {
      assert s[n] in s[..];
      n := n + 1;
    }
  }

  /** What decoding a string with as much room as its length does. */
  lemma {:induction false} StringOutcome(memory: seq<bv8>, n: nat)
    requires n < |memory| && memory[n] == 0 && ReadEnd(memory, n, 0, n) <= |memory|
    ensures n <= |memory| && |Blocks(memory, n)| % 4 == 0
    ensures var s, r := Blocks(memory, n), Decoded(Blocks(memory, n), n);
            && (r.ok <==> n % 4 == 0 && AllDecodable(s))
            && (r.ok ==> |r.bytes| + AllPads(s) == 3 * (n / 4) && r.bytes == Decoded(s, DecodeSize(n)).bytes)
  {
    var s := Blocks(memory, n);
    WholeLength(n);
    if n % 4 == 0 {
      hide *;
      DecodesExactly(s, n);
      DecodesExactly(s, DecodeSize(n));
      if AllDecodable(s) {
        RoomCuts(s, DecodeSize(n), n);
        FullCut(Decoded(s, n).bytes, DecodeSize(n));
      }
    } else {
      LastBlockBad(memory, n);
      hide *;
      DecodesExactly(s, n);
    }
  }

  lemma FullCut(b: seq<bv8>, n: nat)
    requires |b| <= n
    ensures b[..Min(n, |b|)] == b
  {
  }

  lemma {:induction false} LastBlockBad(memory: seq<bv8>, n: nat)
    requires n < |memory| && memory[n] == 0 && ReadEnd(memory, n, 0, n) <= |memory| && n % 4 != 0
    ensures |Blocks(memory, n)| % 4 == 0 && !AllDecodable(Blocks(memory, n))
  {
    var s := Blocks(memory, n);
    assert s[0..] == s;
    hide AllDecodable, ReadEnd;
    if Whole(n) <= |memory| {
      TerminatorSpoils(s, n);
    } else {
      ReadsCut(memory, n, 0, n);
    }
  }
}
