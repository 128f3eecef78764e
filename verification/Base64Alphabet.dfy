/** The alphabet of section 4 of RFC 4648 written out, and the examples of its section 10. */
module Base64Alphabet {
  import opened Base64

  /** The 64 characters, each in the place of its value. */
  const LETTERS: string := "ABCDEFGHIJKLMNOPQRSTUVWXYZ" + "abcdefghijklmnopqrstuvwxyz" + "0123456789+/"

  /** The encoder's table, and its pad. */
  lemma ListIs(i: bv8)
    requires i < 64
    ensures List(i) as int == LETTERS[i as nat] as int && PAD as int == '=' as int
  {
    Letters(i as nat);
  }

  lemma Letters(i: nat)
    requires i < 64
    ensures LETTERS[i] as int
         == if i < 26 then 65 + i else if i < 52 then 71 + i else if i < 62 then i - 4 else if i == 62 then 43 else 47
  {
    if i < 26 {
      assert LETTERS[i] == "ABCDEFGHIJKLMNOPQRSTUVWXYZ"[i];
    } else if i < 52 {
      assert LETTERS[i] == "abcdefghijklmnopqrstuvwxyz"[i - 26];
    } else {
      assert LETTERS[i] == "0123456789+/"[i - 52];
    }
  }

  /** The decoder's table knows just these characters, by their places. */
  lemma IndexIs(c: bv8, i: bv8)
    requires i < 64
    ensures Index(c) == i <==> IsLetter(c, i)
  {
    ListIs(i);
    Alphabet(i);
    if Index(c) == i {
      AlphabetBack(c);
    }
  }

  /** The character that has value i. */
  predicate IsLetter(c: bv8, i: bv8)
    requires i < 64
  {
    c as int == LETTERS[i as nat] as int
  }

  ghost predicate InAlphabet(c: bv8) {
    exists i: bv8 :: i < 64 && IsLetter(c, i)
  }

  lemma {:induction false} KnownIs(c: bv8)
    ensures Index(c) != BAD <==> InAlphabet(c)
  {
    hide Index, List, IsLetter;
    if Index(c) != BAD {
      AlphabetBack(c);
      IndexIs(c, Index(c));
    } else if InAlphabet(c) {
      var i: bv8 :| i < 64 && IsLetter(c, i);
      IndexIs(c, i);
    }
  }

  /** A block decodes exactly when its characters are in the alphabet or the pad '=', and two
      of them at most are the pad. */
  lemma {:induction false} DecodableIs(q: seq<bv8>)
    requires |q| == 4
    ensures Decodable(q)
       <==> (forall k :: 0 <= k < 4 ==> InAlphabet(q[k]) || q[k] == 61)
            && !(q[0] == q[1] == q[2] == 61) && !(q[0] == q[1] == q[3] == 61)
            && !(q[0] == q[2] == q[3] == 61) && !(q[1] == q[2] == q[3] == 61)
  {
    hide InAlphabet, Index;
    KnownIs(q[0]);
    KnownIs(q[1]);
    KnownIs(q[2]);
    KnownIs(q[3]);
    KnownRange(q[0]);
    KnownRange(q[1]);
    KnownRange(q[2]);
    KnownRange(q[3]);
  }

  lemma KnownRange(c: bv8)
    ensures BAD != 0 && (Index(c) == BAD || Index(c) < 64)
  {
  }

  /** The size functions: four characters for every three bytes begun, and three bytes for
      every four characters begun. */
  lemma SizesAre(n: nat)
    ensures EncodeSize(n) == 4 * ((n + 2) / 3) && DecodeSize(n) == 3 * ((n + 3) / 4)
  {
  }

  /** Bytes that are the characters of a text. */
  predicate Spells(b: seq<bv8>, s: string) {
    |b| == |s| && forall i :: 0 <= i < |b| ==> b[i] as int == s[i] as int
  }

  /** f, fo, foo and foob. */
  lemma {:induction false} Examples()
    ensures Encoded([]) == [] && Spells(Encoded([0x66]), "Zg==") && Spells(Encoded([0x66, 0x6F]), "Zm8=")
    ensures Spells(Encoded([0x66, 0x6F, 0x6F]), "Zm9v") && Spells(Encoded([0x66, 0x6F, 0x6F, 0x62]), "Zm9vYg==")
  {
    Quanta();
    hide Quantum;
    assert [0x66 as bv8, 0x6F, 0x6F, 0x62][3..] == [0x62];
    assert Encoded([0x66, 0x6F, 0x6F, 0x62]) == Quantum([0x66, 0x6F, 0x6F, 0x62]) + Encoded([0x62]);
    Numbers();
  }

  lemma Numbers()
    ensures Spells([90, 103, 61, 61], "Zg==") && Spells([90, 109, 56, 61], "Zm8=")
    ensures Spells([90, 109, 57, 118], "Zm9v") && Spells([90, 109, 57, 118, 89, 103, 61, 61], "Zm9vYg==")
  {
  }

  lemma {:induction false} Quanta()
    ensures Quantum([0x66]) == [90, 103, 61, 61] && Quantum([0x66, 0x6F]) == [90, 109, 56, 61]
    ensures Quantum([0x66, 0x6F, 0x6F]) == [90, 109, 57, 118] && Quantum([0x66, 0x6F, 0x6F, 0x62]) == [90, 109, 57, 118]
    ensures Quantum([0x62]) == [89, 103, 61, 61]
  {
    Sixes();
    hide Six, Group;
  }

  lemma Sixes()
    ensures Six(Group(0x66, 0, 0), 18) == 25 && Six(Group(0x66, 0, 0), 12) == 32
    ensures Six(Group(0x66, 0x6F, 0), 18) == 25 && Six(Group(0x66, 0x6F, 0), 12) == 38 && Six(Group(0x66, 0x6F, 0), 6) == 60
    ensures Six(Group(0x66, 0x6F, 0x6F), 18) == 25 && Six(Group(0x66, 0x6F, 0x6F), 12) == 38
    ensures Six(Group(0x66, 0x6F, 0x6F), 6) == 61 && Six(Group(0x66, 0x6F, 0x6F), 0) == 47
    ensures Six(Group(0x62, 0, 0), 18) == 24 && Six(Group(0x62, 0, 0), 12) == 32
  {
  }
}
