/** JSON trees, the text that stands for a tree, and a reader for the grammar of RFC 8259
    section 2 restricted to what an encoder call can produce: booleans, integers, strings,
    arrays and objects (no null, fractions, exponents or \u escapes). */
module JsonTree {
  import opened Wrappers
  import opened JsonText

  datatype Kind = Array | Object

  datatype Json =
    | Bool(b: bool)
    | Int(n: int)
    | Str(s: string)
    | Node(kind: Kind, members: seq<Member>)

  /** An element of an array (whose key is "") or a property of an object. */
  datatype Member = Member(key: string, value: Json)

  /** Output flags: a space after ',' and ':' (APP_JSON_FLAG_EXPAND), and the number of
      columns to indent (0 for none). */
  datatype Format = Format(expand: bool, indent: nat)

  function OpenChar(k: Kind): char { if k == Array then '[' else '{' }

  function CloseChar(k: Kind): char { if k == Array then ']' else '}' }

  function Spaces(n: nat): (r: string)
    ensures |r| == n
  {
    seq(n, _ => ' ')
  }

  /** The columns an item at depth d is indented by. */
  function Pad(f: Format, d: nat): nat { f.indent * d }

  /** What separates an item at depth d from what precedes it. */
  function Lead(f: Format, d: nat, first: bool): string {
    (if first then [] else if f.indent == 0 && f.expand then ", " else ",")
    + if f.indent == 0 then [] else (if d > 0 then "\n" else []) + Spaces(Pad(f, d))
  }

  function KeyText(f: Format, key: string): string {
    "\"" + Escape(key) + "\":" + if f.expand then " " else []
  }

  /** What closes a container that sits at depth d. */
  function Closing(f: Format, d: nat, k: Kind, empty: bool): string {
    (if f.indent == 0 || empty then [] else "\n" + Spaces(Pad(f, d))) + [CloseChar(k)]
  }

  /** The text of a value at depth d. */
  function Text(f: Format, d: nat, v: Json): string
    decreases v
  {
    match v
    case Bool(b) => if b then "true" else "false"
    case Int(n) => IntText(n)
    case Str(s) => "\"" + Escape(s) + "\""
    case Node(k, ms) => [OpenChar(k)] + Items(f, d + 1, k, true, ms) + Closing(f, d, k, ms == [])
  }

  /** The text of the items of a container, all at depth d. */
  function Items(f: Format, d: nat, k: Kind, first: bool, ms: seq<Member>): string
    decreases ms
  {
    if ms == [] then []
    else
      Lead(f, d, first) + MemberText(f, d, k, ms[0]) + Items(f, d, k, false, ms[1..])
  }

  /** An item without what separates it from the previous one. */
  function MemberText(f: Format, d: nat, k: Kind, m: Member): string
    decreases m
  {
    (if k == Object then KeyText(f, m.key) else []) + Text(f, d, m.value)
  }

  predicate IsOpenChar(c: char) { c == '[' || c == '{' }

  /** A finished value never ends in a bracket that opens. */
  lemma TextEnd(f: Format, d: nat, v: Json)
    ensures Text(f, d, v) != [] && !IsOpenChar(Text(f, d, v)[|Text(f, d, v)| - 1])
  {
  }

  lemma {:induction false} ItemsAppend(f: Format, d: nat, k: Kind, first: bool, ms: seq<Member>, m: Member)
    ensures Items(f, d, k, first, ms + [m]) == Items(f, d, k, first, ms) + (Lead(f, d, first && ms == []) + MemberText(f, d, k, m))
    decreases |ms|
  {
    if ms == [] {
      assert ms + [m] == [m];
      assert Items(f, d, k, false, [m][1..]) == [];
    } else {
      assert (ms + [m])[1..] == ms[1..] + [m];
      ItemsAppend(f, d, k, false, ms[1..], m);
    }
  }

  // ------------------------------------------------------------ the reader

  datatype Parsed<+T> = Bad | Got(value: T, rest: string)

  predicate IsSpace(c: char) { c == ' ' || c == '\n' || c == '\t' || c == '\r' }

  function SkipSpace(s: string): (r: string)
    ensures |r| <= |s|
    ensures r == [] || !IsSpace(r[0])
  {
    if s != [] && IsSpace(s[0]) then SkipSpace(s[1..]) else s
  }

  /** The rest of a string after its opening quote. Control characters must be escaped. */
  function ParseString(s: string): (r: Parsed<string>)
    ensures r.Got? ==> |r.rest| < |s|
    decreases |s|
  {
    if s == [] || s[0] < ' ' then Bad
    else if s[0] == '\"' then Got([], s[1..])
    else if s[0] == '\\' then
      if |s| < 2 || Unletter(s[1]).None? then Bad
      else
        var tail := ParseString(s[2..]);
        if tail.Bad? then Bad else Got([Unletter(s[1]).value] + tail.value, tail.rest)
    else
      var tail := ParseString(s[1..]);
      if tail.Bad? then Bad else Got([s[0]] + tail.value, tail.rest)
  }

  /** The longest run of digits at the start of s. */
  function DigitRun(s: string): (n: nat)
    ensures n <= |s| && Digital(s[..n])
    ensures n < |s| ==> !IsDigit(s[n])
  {
    if s == [] || !IsDigit(s[0]) then 0
    else
      var n := DigitRun(s[1..]);
      assert s[..n + 1] == [s[0]] + s[1..][..n];
      n + 1
  }

  /** An integer: an optional minus, then 0 or a run of digits that does not start with 0. */
  function ParseInt(s: string): (r: Parsed<int>)
    ensures r.Got? ==> |r.rest| < |s|
  {
    var neg := s != [] && s[0] == '-';
    var t := if neg then s[1..] else s;
    var n := DigitRun(t);
    if n == 0 || (n > 1 && t[0] == '0') then Bad
    else Got(if neg then -(DigitsValue(t[..n]) as int) else DigitsValue(t[..n]), t[n..])
  }

  function ParseValue(text: string): (r: Parsed<Json>)
    ensures r.Got? ==> |r.rest| < |text|
    decreases |text|, 0
  {
    var s := SkipSpace(text);
    if s == [] then Bad
    else if "true" <= s then Got(Bool(true), s[4..])
    else if "false" <= s then Got(Bool(false), s[5..])
    else if s[0] == '\"' then
      var t := ParseString(s[1..]);
      if t.Bad? then Bad else Got(Str(t.value), t.rest)
    else if s[0] == '[' then
      var t := ParseBody(Array, s[1..]);
      if t.Bad? then Bad else Got(Node(Array, t.value), t.rest)
    else if s[0] == '{' then
      var t := ParseBody(Object, s[1..]);
      if t.Bad? then Bad else Got(Node(Object, t.value), t.rest)
    else
      var t := ParseInt(s);
      if t.Bad? then Bad else Got(Int(t.value), t.rest)
  }

  /** An element, or a key, a colon and a value. */
  function ParseMember(k: Kind, text: string): (r: Parsed<Member>)
    ensures r.Got? ==> |r.rest| < |text|
    decreases |text|, 1
  {
    if k == Array then
      var v := ParseValue(text);
      if v.Bad? then Bad else Got(Member([], v.value), v.rest)
    else
      var s := SkipSpace(text);
      if s == [] || s[0] != '\"' then Bad
      else
        var key := ParseString(s[1..]);
        if key.Bad? then Bad
        else
          var t := SkipSpace(key.rest);
          if t == [] || t[0] != ':' then Bad
          else
            var v := ParseValue(t[1..]);
            if v.Bad? then Bad else Got(Member(key.value, v.value), v.rest)
  }

  /** What follows the opening bracket of a container. */
  function ParseBody(k: Kind, text: string): (r: Parsed<seq<Member>>)
    ensures r.Got? ==> |r.rest| < |text|
    decreases |text|, 3
  {
    var s := SkipSpace(text);
    if s != [] && s[0] == CloseChar(k) then Got([], s[1..])
    else
      var m := ParseMember(k, text);
      if m.Bad? then Bad
      else
        var t := ParseTail(k, m.rest);
        if t.Bad? then Bad else Got([m.value] + t.value, t.rest)
  }

  /** What follows an item of a container. */
  function ParseTail(k: Kind, text: string): (r: Parsed<seq<Member>>)
    ensures r.Got? ==> |r.rest| < |text|
    decreases |text|, 2
  {
    var s := SkipSpace(text);
    if s == [] then Bad
    else if s[0] == CloseChar(k) then Got([], s[1..])
    else if s[0] != ',' then Bad
    else
      var m := ParseMember(k, s[1..]);
      if m.Bad? then Bad
      else
        var t := ParseTail(k, m.rest);
        if t.Bad? then Bad else Got([m.value] + t.value, t.rest)
  }

  /** A whole document: one value and nothing else. */
  function Parse(text: string): Option<Json> {
    var v := ParseValue(text);
    if v.Got? && SkipSpace(v.rest) == [] then Some(v.value) else None
  }

  // -------------------------------------------------- printing then reading

  /** A tree the reader can give back: printable strings, and no keys inside arrays. */
  predicate Readable(v: Json)
    decreases v
  {
    match v
    case Bool(_) => true
    case Int(_) => true
    case Str(s) => Printable(s)
    case Node(k, ms) => forall m <- ms :: ReadableMember(k, m)
  }

  predicate ReadableMember(k: Kind, m: Member)
    decreases m
  {
    (if k == Array then m.key == [] else Printable(m.key)) && Readable(m.value)
  }

  predicate NoDigit(rest: string) { rest == [] || !IsDigit(rest[0]) }

  lemma {:induction false} ParseStringEscape(s: string, rest: string)
    requires Printable(s)
    ensures ParseString(Escape(s) + "\"" + rest) == Got(s, rest)
  {
    if s == [] {
      assert Escape(s) + "\"" + rest == ['\"'] + rest;
    } else {
      var e, tail := EscapeChar(s[0]), Escape(s[1..]) + "\"" + rest;
      ParseStringEscape(s[1..], rest);
      assert Escape(s) + "\"" + rest == e + tail;
      hide ParseString, Escape;
      ParseEscaped(s[0], tail);
      assert (e + tail)[|e|..] == tail;
      assert [s[0]] + s[1..] == s;
    }
  }

  /** One character of a string, read back. */
  lemma ParseEscaped(c: char, tail: string)
    requires Printable([c])
    ensures var text := EscapeChar(c) + tail;
            ParseString(text) == match ParseString(text[|EscapeChar(c)|..])
                                 case Got(s, rest) => Got([c] + s, rest)
                                 case Bad => Bad
  {
    var text := EscapeChar(c) + tail;
    assert c in [c];
    if Escaped(c) {
      assert text[1] == Letter(c) && Unletter(Letter(c)) == Some(c);
    }
  }

  lemma {:induction false} DigitRunOf(d: string, rest: string)
    requires Digital(d) && NoDigit(rest)
    ensures DigitRun(d + rest) == |d|
  {
    if d == [] {
      assert d + rest == rest;
    } else {
      assert (d + rest)[1..] == d[1..] + rest;
      DigitRunOf(d[1..], rest);
    }
  }

  lemma {:induction false} ParseIntText(n: int, rest: string)
    requires NoDigit(rest)
    ensures ParseInt(IntText(n) + rest) == Got(n, rest)
  {
    var d := Digits(if n < 0 then -n else n);
    assert d[0] in d;
    DigitRunOf(d, rest);
    DigitsValueDigits(if n < 0 then -n else n);
    hide Digits, DigitsValue, DigitRun, NoDigit, ParseInt;
    if n < 0 {
      assert IntText(n) + rest == ['-'] + (d + rest);
    }
    ParseSigned(d, rest, n < 0);
  }

  lemma {:induction false} ParseSigned(d: string, rest: string, neg: bool)
    requires Digital(d) && d != [] && DigitRun(d + rest) == |d| && (d[0] == '0' ==> |d| == 1)
    ensures ParseInt((if neg then ['-'] + (d + rest) else d + rest))
         == Got(if neg then -(DigitsValue(d) as int) else DigitsValue(d), rest)
  {
    hide Digits, DigitsValue, DigitRun;
    var t := d + rest;
    assert d[0] in d && t[0] == d[0];
    assert (['-'] + t)[1..] == t;
    assert t[..|d|] == d && t[|d|..] == rest;
  }

  lemma SkipSpaceRun(ws: string, s: string)
    requires forall c :: c in ws ==> IsSpace(c)
    ensures SkipSpace(ws + s) == SkipSpace(s)
  {
    if ws == [] {
      assert ws + s == s;
    } else {
      assert (ws + s)[1..] == ws[1..] + s;
      SkipSpaceRun(ws[1..], s);
    }
  }

  /** A value's text starts with a character that is not a space, a comma or a bracket
      that closes. */
  lemma TextStart(f: Format, d: nat, v: Json)
    ensures Text(f, d, v) != []
    ensures var c := Text(f, d, v)[0]; !IsSpace(c) && c != ']' && c != '}' && c != '\0'
  {
    match v
    case Bool(b) =>
    case Int(n) =>
      var t := IntText(n);
      assert t[0] == '-' || IsDigit(t[0]);
    case Str(s) =>
    case Node(k, ms) =>
  }

  /** Regroupings of concatenations, for use by congruence. */
  lemma Group3(a: string, b: string, c: string)
    ensures a + b + c == a + (b + c)
  {
  }

  lemma Group5(a: string, b: string, c: string, d: string, e: string)
    ensures a + b + c + d + e == a + (b + (c + d + e))
  {
    Group3(a, b, c);
    Group3(a, b + c, d);
    Group3(a, b + c + d, e);
    Group3(b, c, d);
    Group3(b, c + d, e);
  }

  lemma {:induction false} ParseText(f: Format, d: nat, v: Json, rest: string)
    requires Readable(v) && NoDigit(rest)
    ensures ParseValue(Text(f, d, v) + rest) == Got(v, rest)
    decreases v, 0
  {
    hide ParseBody, ParseString, ParseInt, ParseValue, Escape, IntText, Items;
    match v
    case Bool(b) =>
      BoolStep(b, rest);
    case Int(n) =>
      IntStep(n, rest);
    case Str(str) =>
      StrStep(str, rest);
    case Node(k, ms) =>
      var items, close := Items(f, d + 1, k, true, ms), Closing(f, d, k, ms == []);
      ParseItems(f, d, k, ms, rest);
      Group3([OpenChar(k)], items, close);
      Group3([OpenChar(k)], items + close, rest);
      NodeStep(k, items + close + rest, ms, rest);
  }

  /** Unfoldings of the reader, stated on arbitrary texts. */
  lemma BoolStep(b: bool, rest: string)
    ensures ParseValue((if b then "true" else "false") + rest) == Got(Bool(b), rest)
  {
  }

  lemma IntStep(n: int, rest: string)
    requires NoDigit(rest)
    ensures ParseValue(IntText(n) + rest) == Got(Int(n), rest)
  {
    var s := IntText(n) + rest;
    assert s[0] == '-' || IsDigit(s[0]);
    assert SkipSpace(s) == s;
    ParseIntText(n, rest);
  }

  lemma StrStep(str: string, rest: string)
    requires Printable(str)
    ensures ParseValue("\"" + Escape(str) + "\"" + rest) == Got(Str(str), rest)
  {
    var s := "\"" + Escape(str) + "\"" + rest;
    ParseStringEscape(str, rest);
    assert s[0] == '\"' && SkipSpace(s) == s;
    assert s[1..] == Escape(str) + "\"" + rest;
  }

  lemma NodeStep(k: Kind, body: string, ms: seq<Member>, rest: string)
    requires ParseBody(k, body) == Got(ms, rest)
    ensures ParseValue([OpenChar(k)] + body) == Got(Node(k, ms), rest)
  {
  }

  lemma BodyStep(k: Kind, text: string, m: Member, mid: string, ms: seq<Member>, rest: string)
    requires SkipSpace(text) != [] && SkipSpace(text)[0] != CloseChar(k)
    requires ParseMember(k, text) == Got(m, mid) && ParseTail(k, mid) == Got(ms, rest)
    ensures ParseBody(k, text) == Got([m] + ms, rest)
  {
  }

  lemma TailStep(k: Kind, text: string, m: Member, mid: string, ms: seq<Member>, rest: string)
    requires ParseMember(k, text) == Got(m, mid) && ParseTail(k, mid) == Got(ms, rest)
    ensures ParseTail(k, [','] + text) == Got([m] + ms, rest)
  {
  }

  lemma TailEnd(k: Kind, ws: string, rest: string)
    requires forall c :: c in ws ==> IsSpace(c)
    ensures ParseTail(k, ws + ([CloseChar(k)] + rest)) == Got([], rest)
  {
    var s := [CloseChar(k)] + rest;
    SkipSpaceRun(ws, s);
    assert s[1..] == rest;
  }

  lemma ElementStep(ws: string, vt: string, v: Json, tail: string)
    requires forall c :: c in ws ==> IsSpace(c)
    requires ParseValue(vt) == Got(v, tail)
    ensures ParseMember(Array, ws + vt) == Got(Member([], v), tail)
  {
    SkipSpaceRun(ws, vt);
  }

  lemma {:induction false} PropertyStep(ws: string, key: string, gap: string, vt: string, v: Json, tail: string)
    requires forall c :: c in ws ==> IsSpace(c)
    requires forall c :: c in gap ==> IsSpace(c)
    requires Printable(key) && ParseValue(vt) == Got(v, tail)
    ensures ParseMember(Object, ws + (['\"'] + (Escape(key) + "\"" + ([':'] + (gap + vt))))) == Got(Member(key, v), tail)
  {
    hide Escape, ParseString, ParseValue;
    var after := [':'] + (gap + vt);
    var s := ['\"'] + (Escape(key) + "\"" + after);
    SkipSpaceRun(ws, s);
    assert s[1..] == Escape(key) + "\"" + after;
    ParseStringEscape(key, after);
    assert SkipSpace(after) == after && after[1..] == gap + vt;
    ValueAfterSpace(gap, vt);
  }

  lemma ValueAfterSpace(ws: string, vt: string)
    requires forall c :: c in ws ==> IsSpace(c)
    ensures ParseValue(ws + vt) == ParseValue(vt)
  {
    SkipSpaceRun(ws, vt);
  }

  function Gap(f: Format): string { if f.expand then " " else [] }

  /** The spaces and line break in front of an item or a closing bracket. */
  function Margin(f: Format, d: nat, breaks: bool): (r: string)
    ensures forall c :: c in r ==> IsSpace(c)
  {
    if f.indent == 0 then [] else (if breaks then "\n" else []) + Spaces(Pad(f, d))
  }

  lemma LeadMargin(f: Format, d: nat, first: bool)
    ensures first ==> Lead(f, d, first) == Margin(f, d, d > 0)
    ensures !first ==> Lead(f, d, first) == [','] + (if f.indent == 0 then Gap(f) else Margin(f, d, d > 0))
  {
  }

  lemma KeyGroup(f: Format, key: string, text: string, tail: string)
    ensures KeyText(f, key) + text + tail == ['\"'] + (Escape(key) + "\"" + ([':'] + (Gap(f) + (text + tail))))
  {
  }

  lemma {:induction false} ParseMemberText(f: Format, d: nat, k: Kind, ws: string, m: Member, tail: string)
    requires ReadableMember(k, m) && NoDigit(tail)
    requires forall c :: c in ws ==> IsSpace(c)
    ensures ParseMember(k, ws + (MemberText(f, d, k, m) + tail)) == Got(m, tail)
    decreases m, 1
  {
    hide ParseValue, ParseMember, ParseBody, ParseTail, ParseString, SkipSpace, Escape, Text;
    var text := Text(f, d, m.value);
    var vt := text + tail;
    ParseText(f, d, m.value, tail);
    if k == Array {
      assert MemberText(f, d, k, m) == text;
      ElementStep(ws, vt, m.value, tail);
    } else {
      KeyGroup(f, m.key, text, tail);
      PropertyStep(ws, m.key, Gap(f), vt, m.value, tail);
    }
  }

  lemma MemberStart(f: Format, d: nat, k: Kind, ws: string, m: Member, tail: string)
    requires forall c :: c in ws ==> IsSpace(c)
    ensures var s := SkipSpace(ws + (MemberText(f, d, k, m) + tail));
            s != [] && s[0] != CloseChar(k)
  {
    TextStart(f, d, m.value);
    SkipSpaceRun(ws, MemberText(f, d, k, m) + tail);
  }

  /** The text of a container from one of its items on. */
  function FromItem(f: Format, d: nat, k: Kind, first: bool, ms: seq<Member>, rest: string): string {
    Items(f, d + 1, k, first, ms) + Closing(f, d, k, first && ms == []) + rest
  }

  lemma {:induction false} FromItemHead(f: Format, d: nat, k: Kind, first: bool, ms: seq<Member>, rest: string)
    requires ms != []
    ensures FromItem(f, d, k, first, ms, rest)
         == Lead(f, d + 1, first) + (MemberText(f, d + 1, k, ms[0]) + FromItem(f, d, k, false, ms[1..], rest))
  {
    hide Lead, MemberText, Closing;
    Group5(Lead(f, d + 1, first), MemberText(f, d + 1, k, ms[0]), Items(f, d + 1, k, false, ms[1..]),
           Closing(f, d, k, false), rest);
  }

  lemma TailStart(f: Format, d: nat, k: Kind, ms: seq<Member>, rest: string)
    ensures NoDigit(FromItem(f, d, k, false, ms, rest))
  {
  }

  lemma {:induction false} ParseItems(f: Format, d: nat, k: Kind, ms: seq<Member>, rest: string)
    requires forall m <- ms :: ReadableMember(k, m)
    ensures ParseBody(k, FromItem(f, d, k, true, ms, rest)) == Got(ms, rest)
    decreases ms, 2
  {
    hide ParseValue, ParseMember, ParseTail, Text, MemberText, Items;
    var text := FromItem(f, d, k, true, ms, rest);
    if ms == [] {
      EmptyBody(f, d, k, rest);
    } else {
      var tail := FromItem(f, d, k, false, ms[1..], rest);
      var ws := Margin(f, d + 1, true);
      hide FromItem, ParseBody;
      LeadMargin(f, d + 1, true);
      FromItemHead(f, d, k, true, ms, rest);
      TailStart(f, d, k, ms[1..], rest);
      ParseMemberText(f, d + 1, k, ws, ms[0], tail);
      MemberStart(f, d + 1, k, ws, ms[0], tail);
      ParseRest(f, d, k, ms[1..], rest);
      BodyStep(k, text, ms[0], tail, ms[1..], rest);
      assert [ms[0]] + ms[1..] == ms;
    }
  }

  lemma EmptyBody(f: Format, d: nat, k: Kind, rest: string)
    ensures ParseBody(k, FromItem(f, d, k, true, [], rest)) == Got([], rest)
  {
  }

  lemma EmptyTail(f: Format, d: nat, k: Kind, rest: string)
    ensures ParseTail(k, FromItem(f, d, k, false, [], rest)) == Got([], rest)
  {
    var ws := Margin(f, d, true);
    assert FromItem(f, d, k, false, [], rest) == ws + ([CloseChar(k)] + rest);
    TailEnd(k, ws, rest);
  }

  lemma {:induction false} ParseRest(f: Format, d: nat, k: Kind, ms: seq<Member>, rest: string)
    requires forall m <- ms :: ReadableMember(k, m)
    ensures ParseTail(k, FromItem(f, d, k, false, ms, rest)) == Got(ms, rest)
    decreases ms, 2
  {
    hide ParseValue, ParseMember, ParseTail, ParseBody, Text, MemberText, Items, FromItem;
    if ms == [] {
      EmptyTail(f, d, k, rest);
    } else {
      var tail := FromItem(f, d, k, false, ms[1..], rest);
      var ws := if f.indent == 0 then Gap(f) else Margin(f, d + 1, true);
      var after := ws + (MemberText(f, d + 1, k, ms[0]) + tail);
      LeadMargin(f, d + 1, false);
      FromItemHead(f, d, k, false, ms, rest);
      Group3([','], ws, MemberText(f, d + 1, k, ms[0]) + tail);
      TailStart(f, d, k, ms[1..], rest);
      ParseMemberText(f, d + 1, k, ws, ms[0], tail);
      ParseRest(f, d, k, ms[1..], rest);
      TailStep(k, after, ms[0], tail, ms[1..], rest);
      assert [ms[0]] + ms[1..] == ms;
    }
  }

  /** The text of a tree, in any output format, is a document of the grammar and reads back
      as that very tree. */
  lemma ParseRoundTrip(f: Format, d: nat, v: Json)
    requires Readable(v)
    ensures Parse(Text(f, d, v)) == Some(v)
  {
    ParseText(f, d, v, []);
    assert Text(f, d, v) + [] == Text(f, d, v);
  }
}
