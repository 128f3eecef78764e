/** The characters of JSON text: escaping of strings and printing of integers, as
    src/utilities/app_json_encode.c writes them, and reading integers back, as
    src/utilities/app_json_decode.c does. A C string is a `string` without its
    terminator. */
module JsonText {
  import opened Wrappers

  // ---------------------------------------------------------------- strings

  /** The characters that are written as a two-character escape. */
  predicate Escaped(c: char) {
    c == '\"' || c == '\\' || c == '\U{0008}' || c == '\U{000C}' || c == '\n' || c == '\r' || c == '\t'
  }

  /** The second character of an escape, or the character itself. */
  function Letter(c: char): char {
    if c == '\U{0008}' then 'b'
    else if c == '\U{000C}' then 'f'
    else if c == '\n' then 'n'
    else if c == '\r' then 'r'
    else if c == '\t' then 't'
    else c
  }

  function EscapeChar(c: char): string {
    if Escaped(c) then ['\\', Letter(c)] else [c]
  }

  function Escape(s: string): string {
    if s == [] then [] else EscapeChar(s[0]) + Escape(s[1..])
  }

  /** The escapes, character by character. */
  lemma EscapesAre(c: char)
    ensures EscapeChar(c) ==
            if c == '\"' then "\\\""
            else if c == '\\' then "\\\\"
            else if c == '\U{0008}' then "\\b"
            else if c == '\U{000C}' then "\\f"
            else if c == '\n' then "\\n"
            else if c == '\r' then "\\r"
            else if c == '\t' then "\\t"
            else [c]
  {
  }

  /** No control character, or one of the five that have an escape. */
  predicate PrintableChar(c: char) {
    c >= ' ' || c == '\U{0008}' || c == '\U{000C}' || c == '\n' || c == '\r' || c == '\t'
  }

  predicate Printable(s: string) {
    forall c :: c in s ==> PrintableChar(c)
  }

  /** Such a string is escaped without a control character. */
  lemma {:induction false} EscapedIsVisible(s: string)
    requires Printable(s)
    ensures forall c :: c in Escape(s) ==> c >= ' '
  {
    if s != [] {
      EscapedIsVisible(s[1..]);
      EscapesAre(s[0]);
      assert s[0] in s && forall c :: c in EscapeChar(s[0]) ==> c >= ' ';
      hide EscapeChar;
      assert forall c :: c in Escape(s) ==> c in EscapeChar(s[0]) || c in Escape(s[1..]);
    }
  }

  /** Reads back one two-character escape. */
  function Unletter(c: char): Option<char> {
    if c == '\"' || c == '\\' then Some(c)
    else if c == 'b' then Some('\U{0008}')
    else if c == 'f' then Some('\U{000C}')
    else if c == 'n' then Some('\n')
    else if c == 'r' then Some('\r')
    else if c == 't' then Some('\t')
    else None
  }

  /** Undoes Escape; fails on an escape the encoder never writes. */
  function Unescape(s: string): Option<string> {
    if s == [] then Some([])
    else if s[0] == '\\' then
      if |s| < 2 then None
      else
        var c, rest := Unletter(s[1]), Unescape(s[2..]);
        if c.Some? && rest.Some? then Some([c.value] + rest.value) else None
    else
      var rest := Unescape(s[1..]);
      if rest.Some? then Some([s[0]] + rest.value) else None
  }

  lemma {:induction false} UnescapeEscape(s: string)
    ensures Unescape(Escape(s)) == Some(s)
  {
    if s != [] {
      UnescapeEscape(s[1..]);
      var e, tail := EscapeChar(s[0]), Escape(s[1..]);
      assert Escape(s) == e + tail;
      hide Unescape, Escape;
      UnescapeOne(s[0], tail);
      assert (e + tail)[|e|..] == tail;
      assert [s[0]] + s[1..] == s;
    }
  }

  /** One character of a string, read back. */
  lemma UnescapeOne(c: char, tail: string)
    ensures var text := EscapeChar(c) + tail;
            Unescape(text) == match Unescape(text[|EscapeChar(c)|..])
                              case Some(s) => Some([c] + s)
                              case None => None
  {
    var text := EscapeChar(c) + tail;
    if Escaped(c) {
      assert text[1] == Letter(c) && Unletter(Letter(c)) == Some(c);
    }
  }

  /** Escaping loses nothing: two different strings never print alike. */
  lemma EscapeInjective(s: string, t: string)
    requires Escape(s) == Escape(t)
    ensures s == t
  {
    UnescapeEscape(s);
    UnescapeEscape(t);
  }

  /** No NUL is written for a string that has none. */
  lemma {:induction false} EscapeNoNul(s: string)
    requires '\0' !in s
    ensures '\0' !in Escape(s)
  {
    if s != [] {
      EscapeNoNul(s[1..]);
    }
  }

  /** app_json_encode_strlen: the length of the escaped text, computed beforehand. */
  method StrLen(str: string) returns (result: nat)
    ensures result == |Escape(str)|
  {
    result := 0;
    var k := 0;
    while k < |str|
      invariant k <= |str|
      invariant result + |Escape(str[k..])| == |Escape(str)|
    {
      assert str[k..][1..] == str[k + 1..];
      if Escaped(str[k]) {
        result := result + 1;
      }
      result := result + 1;
      k := k + 1;
    }
  }

  /** True when a copy limited to `num` characters would have to stop between the
      backslash and the letter of an escape. */
  predicate Splits(src: string, num: nat) {
    src != [] && num > 0
    && (num < |EscapeChar(src[0])| || Splits(src[1..], num - |EscapeChar(src[0])|))
  }

  function Min(a: nat, b: nat): nat {
    if a < b then a else b
  }

  lemma {:induction false} FullLengthNeverSplits(src: string, num: nat)
    requires |Escape(src)| <= num
    ensures !Splits(src, num)
  {
    if src != [] {
      FullLengthNeverSplits(src[1..], num - |EscapeChar(src[0])|);
    }
  }

  /** app_json_encode_strncpy: copies the escaped text, cut at `num` characters. The
      loop ends for every `num` that does not split an escape (SplitCopyNeverEnds shows
      what happens otherwise); spare room gets a single NUL, because the padding loop
      does not advance its pointer. */
  method StrNCpy(dest: array<char>, at: nat, src: string, num: nat)
    requires at + num <= dest.Length
    requires !Splits(src, num)
    modifies dest
    ensures var n := Min(num, |Escape(src)|);
            (forall j :: 0 <= j < n ==> dest[at + j] == Escape(src)[j])
            && (n < num ==> dest[at + n] == '\0')
            && forall j :: 0 <= j < at || at + (if n < num then n + 1 else n) <= j < dest.Length ==> dest[j] == old(dest[j])
  {
    var i := CopyEscaped(dest, at, src, num);
    PadNul(dest, at + i, i, num);
  }

  /** The copying loop of app_json_encode_strncpy. */
  method CopyEscaped(dest: array<char>, at: nat, src: string, num: nat) returns (i: nat)
    requires at + num <= dest.Length
    requires !Splits(src, num)
    modifies dest
    ensures i == Min(num, |Escape(src)|)
    ensures forall j :: at <= j < at + i ==> dest[j] == Escape(src)[j - at]
    ensures forall j :: 0 <= j < at || at + i <= j < dest.Length ==> dest[j] == old(dest[j])
  {
    i := 0;
    var k, skipChar := 0, false;
    ghost var text := Escape(src);
    assert src[0..] == src && Escape(src[|src|..]) == [];
    hide Escape, EscapeChar, Splits;
    while i < num && k < |src|
      invariant k <= |src| && i <= num && !skipChar
      invariant !Splits(src[k..], num - i)
      invariant i <= |text| && text[i..] == Escape(src[k..])
      invariant forall j :: at <= j < at + i ==> dest[j] == text[j - at]
      invariant forall j :: 0 <= j < at || at + i <= j < dest.Length ==> dest[j] == old(dest[j])
      decreases |src| - k
    {
      EscapeStep(src, k, text, i, num - i);
      var n;
      n, skipChar := PutChar(dest, at + i, src[k], num - i, skipChar);
      i := i + n;
      if !skipChar {
        k := k + 1;
      }
    }
  }

  /** One round of the copy: writes one source character, escaped if need be, and returns
      how far the output moved. With no room for an escape it writes nothing and sets the
      flag, which is never cleared. */
  method PutChar(dest: array<char>, out: nat, c: char, room: nat, skip: bool) returns (n: nat, skipChar: bool)
    requires room > 0 && out + room <= dest.Length && !skip
    modifies dest
    ensures Copy(if skipChar then 0 else 1, n, skipChar) == CopyStep([c], room, Copy(0, 0, skip))
    ensures skipChar <==> |EscapeChar(c)| > room
    ensures n == if skipChar then 0 else |EscapeChar(c)|
    ensures forall j :: out <= j < out + n ==> dest[j] == EscapeChar(c)[j - out]
    ensures forall j :: 0 <= j < out || out + n <= j < dest.Length ==> dest[j] == old(dest[j])
  {
    skipChar := skip;
    n := 0;
    if Escaped(c) {
      if 1 < room {
        dest[out] := '\\';
        n := n + 1;
      } else {
        skipChar := true;
      }
    }
    if !skipChar {
      dest[out + n] := Letter(c);
      n := n + 1;
    }
  }

  /** The padding loop at the end of the copy. */
  method PadNul(dest: array<char>, out: nat, start: nat, num: nat)
    requires start <= num && (start < num ==> out < dest.Length)
    modifies dest
    ensures start < num ==> dest[out] == '\0'
    ensures forall j :: 0 <= j < dest.Length && (j != out || start == num) ==> dest[j] == old(dest[j])
  {
    for i := start to num
      invariant start < i ==> dest[out] == '\0'
      invariant forall j :: 0 <= j < dest.Length && (j != out || start == i) ==> dest[j] == old(dest[j])
    {
      dest[out] := '\0';
    }
  }

  lemma EscapeStep(src: string, k: nat, text: string, i: nat, room: nat)
    requires k < |src| && i <= |text| && text[i..] == Escape(src[k..])
    requires room > 0 && !Splits(src[k..], room)
    ensures 0 < |EscapeChar(src[k])| <= room && !Splits(src[k + 1..], room - |EscapeChar(src[k])|)
    ensures var e := EscapeChar(src[k]);
            i + |e| <= |text| && text[i..i + |e|] == e && text[i + |e|..] == Escape(src[k + 1..])
    ensures forall j :: i <= j < i + |EscapeChar(src[k])| ==> text[j] == EscapeChar(src[k])[j - i]
  {
  }

  /** The loop variables of the copy: characters read, characters written, and the flag. */
  datatype Copy = Copy(k: nat, i: nat, skip: bool)

  predicate CopyGuard(src: string, num: nat, c: Copy) {
    c.i < num && c.k < |src|
  }

  function CopyStep(src: string, num: nat, c: Copy): Copy
    requires CopyGuard(src, num, c)
  {
    var esc := Escaped(src[c.k]);
    var slash := esc && c.i + 1 < num;
    var skip := c.skip || (esc && !slash);
    var i := if slash then c.i + 1 else c.i;
    if skip then Copy(c.k, i, skip) else Copy(c.k + 1, i + 1, skip)
  }

  /** The loop variables after `n` rounds (fewer, when the guard fails first). */
  function CopyRounds(src: string, num: nat, c: Copy, n: nat): Copy
    decreases n
  {
    if n == 0 || !CopyGuard(src, num, c) then c
    else CopyRounds(src, num, CopyStep(src, num, c), n - 1)
  }

  lemma {:induction false} StuckForever(src: string, num: nat, c: Copy, n: nat)
    requires CopyGuard(src, num, c) && Escaped(src[c.k]) && c.i + 1 == num
    ensures CopyGuard(src, num, CopyRounds(src, num, c, n))
    decreases n
  {
    if n > 0 {
      StuckForever(src, num, CopyStep(src, num, c), n - 1);
    }
  }

  lemma {:induction false} SplitReachesStuck(src: string, num: nat, c: Copy, n: nat)
    requires c.k <= |src| && c.i <= num && !c.skip && Splits(src[c.k..], num - c.i)
    ensures CopyGuard(src, num, CopyRounds(src, num, c, n))
    decreases n
  {
    assert src[c.k..][0] == src[c.k] && src[c.k..][1..] == src[c.k + 1..];
    if n > 0 {
      if Escaped(src[c.k]) && c.i + 1 == num {
        StuckForever(src, num, c, n);
      } else {
        SplitReachesStuck(src, num, CopyStep(src, num, c), n - 1);
      }
    }
  }

  lemma {:induction false} WholeCopyEnds(src: string, num: nat, c: Copy)
    requires c.k <= |src| && c.i <= num && !c.skip && !Splits(src[c.k..], num - c.i)
    ensures var e := CopyRounds(src, num, c, |src| - c.k);
            !CopyGuard(src, num, e) && !e.skip && e.i == Min(num, c.i + |Escape(src[c.k..])|)
    decreases |src| - c.k
  {
    if CopyGuard(src, num, c) {
      assert src[c.k..][0] == src[c.k] && src[c.k..][1..] == src[c.k + 1..];
      WholeCopyEnds(src, num, CopyStep(src, num, c));
    }
  }

  /** When the limit splits no escape the loop ends within a round a character, the flag
      never set, after the whole text or as much of it as the limit allows. */
  lemma CopyEnds(src: string, num: nat)
    requires !Splits(src, num)
    ensures var e := CopyRounds(src, num, Copy(0, 0, false), |src|);
            !CopyGuard(src, num, e) && !e.skip && e.i == Min(num, |Escape(src)|)
  {
    assert src[0..] == src;
    WholeCopyEnds(src, num, Copy(0, 0, false));
  }

  /** Exactly when the limit splits an escape the copy loop runs for ever: its guard
      still holds after any number of rounds. (CopyEnds is the other direction.) */
  lemma SplitCopyNeverEnds(src: string, num: nat, n: nat)
    requires Splits(src, num)
    ensures CopyGuard(src, num, CopyRounds(src, num, Copy(0, 0, false), n))
  {
    assert src[0..] == src;
    SplitReachesStuck(src, num, Copy(0, 0, false), n);
  }

  // --------------------------------------------------------------- integers

  predicate IsDigit(c: char) { '0' <= c <= '9' }

  function DigitChar(n: nat): (c: char)
    requires n < 10
    ensures IsDigit(c)
  {
    '0' + n as char
  }

  function DigitValue(c: char): nat
    requires IsDigit(c)
  {
    (c - '0') as nat
  }

  function Digits(n: nat): (r: string)
    ensures r != [] && forall c :: c in r ==> IsDigit(c)
    ensures r[0] == '0' <==> n == 0
    ensures n < 10 ==> |r| == 1
  {
    if n < 10 then [DigitChar(n)] else Digits(n / 10) + [DigitChar(n % 10)]
  }

  function IntText(v: int): string {
    if v < 0 then "-" + Digits(-v) else Digits(v)
  }

  /** app_json_encode_intlen */
  method IntLen(value: nat, neg: bool) returns (len: nat)
    ensures value > 0 ==> len == |Digits(value)| + if neg then 1 else 0
    ensures value == 0 ==> len == 1
  {
    len := 0;
    if neg || value == 0 {
      len := len + 1;
    }
    var i := value;
    while i > 0
      invariant i <= value
      invariant len + (if i > 0 then |Digits(i)| else 0)
             == (if value > 0 then |Digits(value)| else 0) + if neg || value == 0 then 1 else 0
    {
      i := i / 10;
      len := len + 1;
    }
  }

  /** The number a run of digits stands for. */
  function DigitsValue(s: string): nat
    requires forall c :: c in s ==> IsDigit(c)
  {
    if s == [] then 0 else 10 * DigitsValue(s[..|s| - 1]) + DigitValue(s[|s| - 1])
  }

  lemma {:induction false} DigitsValueDigits(n: nat)
    ensures DigitsValue(Digits(n)) == n
  {
    var r := Digits(n);
    if n < 10 {
      assert r == [DigitChar(n)];
    } else {
      DigitsValueDigits(n / 10);
      assert r[..|r| - 1] == Digits(n / 10);
    }
  }

  predicate Digital(s: string) { forall c :: c in s ==> IsDigit(c) }

  /** The texts app_json_decode_integer accepts: digits, possibly none, after an optional
      minus. */
  predicate IntShaped(s: string) {
    Digital(s) || (s != [] && s[0] == '-' && Digital(s[1..]))
  }

  function Magnitude(s: string): nat
    requires IntShaped(s)
  {
    if Digital(s) then DigitsValue(s) else DigitsValue(s[1..])
  }

  function IntValue(s: string): int
    requires IntShaped(s)
  {
    if Digital(s) then DigitsValue(s) else -(DigitsValue(s[1..]) as int)
  }

  /** An integer by the grammar of section 6 of RFC 8259: an optional minus, then a zero alone
      or a run of digits that starts with another digit. */
  predicate IsRfcInt(s: string) {
    var d := if s != [] && s[0] == '-' then s[1..] else s;
    d == "0" || (d != [] && '1' <= d[0] <= '9' && Digital(d[1..]))
  }

  predicate HasDigit(s: string) { exists c :: c in s && IsDigit(c) }

  /** A zero in front, where a minus may stand before it, and then another digit. */
  predicate HasLeadingZero(s: string) {
    || (|s| > 1 && s[0] == '0' && IsDigit(s[1]))
    || (|s| > 2 && s[0] == '-' && s[1] == '0' && IsDigit(s[2]))
  }

  /** What the decoder accepts is an integer of the grammar exactly when there is a digit and
      no zero in front of one; and it accepts every integer of the grammar. */
  lemma AcceptsIntegers(s: string)
    ensures IsRfcInt(s) <==> IntShaped(s) && HasDigit(s) && !HasLeadingZero(s)
  {
    if s != [] && s[0] == '-' {
      assert forall c :: c in s && IsDigit(c) ==> c in s[1..];
      UnsignedInteger(s[1..]);
    } else {
      UnsignedInteger(s);
    }
  }

  lemma UnsignedInteger(d: string)
    ensures d == "0" || (d != [] && '1' <= d[0] <= '9' && Digital(d[1..]))
       <==> Digital(d) && d != [] && !(|d| > 1 && d[0] == '0' && IsDigit(d[1]))
    ensures Digital(d) && d != [] ==> HasDigit(d)
  {
    if d != [] {
      assert d[0] in d && d == [d[0]] + d[1..];
      assert forall c :: c in d <==> c == d[0] || c in d[1..];
      if |d| > 1 {
        assert d[1..][0] == d[1];
      } else {
        assert d[1..] == [];
      }
    }
  }

  /** Two texts it accepts that are none: a minus alone reads as zero, and 007 as seven. */
  lemma AcceptsOthers()
    ensures IntShaped("-") && IntValue("-") == 0 && !IsRfcInt("-")
    ensures IntShaped("007") && IntValue("007") == 7 && !IsRfcInt("007")
  {
    assert "-"[1..] == [] && !IsDigit("-"[0]);
    var s := "007";
    assert s[..2] == "00" && "00"[..1] == "0" && "0"[..0] == [];
    assert DigitsValue("0") == 0 && DigitsValue("00") == 0 && DigitsValue(s) == 7;
  }

  lemma IntShapedPrefix(s: string, k: nat)
    requires k < |s|
    ensures IntShaped(s[..k + 1]) <==> IntShaped(s[..k]) && (IsDigit(s[k]) || (k == 0 && s[k] == '-'))
    ensures IntShaped(s[..k + 1]) && IsDigit(s[k]) ==> Magnitude(s[..k + 1]) == 10 * Magnitude(s[..k]) + DigitValue(s[k])
  {
    var a, b := s[..k], s[..k + 1];
    assert b == a + [s[k]];
    assert b[..|b| - 1] == a;
    if k > 0 {
      assert b[1..] == a[1..] + [s[k]];
      assert b[1..][..|b| - 2] == a[1..];
    }
  }

  /** app_json_decode_integer on one token: `long` arithmetic must not overflow while the
      digits accumulate. */
  method DecodeInteger(s: string) returns (result: Option<int>)
    requires forall k :: 0 <= k <= |s| && IntShaped(s[..k]) ==> Magnitude(s[..k]) < 0x8000_0000_0000_0000
    ensures result.Some? <==> IntShaped(s)
    ensures result.Some? ==> result.value == IntValue(s)
  {
    var v := 0;
    var isNeg := false;
    var ok := true;
    var i := 0;
    while i < |s| && ok
      invariant i <= |s|
      invariant ok <==> IntShaped(s[..i])
      invariant ok ==> v == Magnitude(s[..i]) && (isNeg <==> i > 0 && s[0] == '-')
      invariant v < 0x8000_0000_0000_0000
      invariant !ok ==> !IntShaped(s)
    {
      IntShapedPrefix(s, i);
      var c := s[i];
      if '0' <= c <= '9' {
        v := v * 10 + DigitValue(c);
      } else if c == '-' && i == 0 {
        isNeg := true;
        assert s[..1][1..] == [];
      } else {
        ok := false;
        NotShapedExtends(s, i + 1);
      }
      i := i + 1;
      assert s[..i] <= s;
    }
    assert ok ==> s[..i] == s;
    if !ok {
      v := 0;
    } else if isNeg {
      assert !IsDigit(s[0]);
      v := v * -1;
    }
    result := if ok then Some(v) else None;
  }

  lemma NotShapedExtends(s: string, k: nat)
    requires k <= |s| && !IntShaped(s[..k])
    ensures !IntShaped(s)
  {
  }

  /** The digits, and the order they are written in. */
  lemma {:induction false} DigitsAre()
    ensures IntText(1234567890) == "1234567890" && IntText(-1234567890) == "-1234567890" && IntText(0) == "0"
  {
    assert Digits(1) == "1";
    assert Digits(12) == "12";
    assert Digits(123) == "123";
    assert Digits(1234) == "1234";
    assert Digits(12345) == "12345";
    assert Digits(123456) == "123456";
    assert Digits(1234567) == "1234567";
    assert Digits(12345678) == "12345678";
    assert Digits(123456789) == "123456789";
    assert Digits(1234567890) == "1234567890";
  }

  /** Printing and then reading is the identity, for every integer. */
  lemma {:induction false} IntRoundTrip(v: int)
    ensures IntShaped(IntText(v)) && IntValue(IntText(v)) == v
  {
    hide Digits, DigitsValue;
    if v < 0 {
      var t := IntText(v);
      assert t[1..] == Digits(-v);
      assert t[0] in t && !IsDigit(t[0]);
      DigitsValueDigits(-v);
    } else {
      DigitsValueDigits(v);
    }
  }

  lemma {:induction false} PrefixOfDigits(s: string, k: nat)
    requires Digital(s) && k <= |s|
    ensures DigitsValue(s[..k]) <= DigitsValue(s)
    decreases |s|
  {
    if k < |s| {
      PrefixOfDigits(s[..|s| - 1], k);
      assert s[..|s| - 1][..k] == s[..k];
    } else {
      assert s[..k] == s;
    }
  }

  /** On everything the encoder prints (all of int64 but the minimum) the reader's
      accumulator stays in range, so the decoder may be called. */
  lemma {:induction false} PrintedNeverOverflows(v: int, k: nat)
    requires -0x8000_0000_0000_0000 < v < 0x8000_0000_0000_0000 && k <= |IntText(v)| && IntShaped(IntText(v)[..k])
    ensures Magnitude(IntText(v)[..k]) < 0x8000_0000_0000_0000
  {
    hide Digits;
    var t := IntText(v);
    if v < 0 {
      var d := Digits(-v);
      DigitsValueDigits(-v);
      if k > 0 {
        assert t[..k][1..] == d[..k - 1];
        assert !IsDigit(t[..k][0]);
        PrefixOfDigits(d, k - 1);
      }
    } else {
      DigitsValueDigits(v);
      PrefixOfDigits(t, k);
    }
  }
}
