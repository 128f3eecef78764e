/** The text of a tree, written down a second time: each container is its items joined by a
    separator, between brackets. It does not share the first one's parts. */
module JsonLayout {
  import opened JsonText
  import opened JsonTree

  function Join(parts: seq<string>, separator: string): string {
    if parts == [] then []
    else if |parts| == 1 then parts[0]
    else parts[0] + separator + Join(parts[1..], separator)
  }

  /** A new line, and its margin of so many columns. */
  function NewLine(columns: nat): (r: string)
    ensures |r| == columns + 1
  {
    if columns == 0 then "\n" else NewLine(columns - 1) + " "
  }

  /** What stands between the items of a container whose items are indented to `columns`. */
  function Separator(f: Format, columns: nat): string {
    if f.indent > 0 then "," + NewLine(columns)
    else if f.expand then ", "
    else ","
  }

  /** A value that stands at depth d. */
  function Laid(f: Format, d: nat, v: Json): string
    decreases v
  {
    match v
    case Bool(true) => "true"
    case Bool(false) => "false"
    case Int(n) => IntText(n)
    case Str(s) => "\"" + Escape(s) + "\""
    case Node(Array, ms) =>
      "[" + Inside(f, d, Join(Parts(f, d + 1, Array, ms), Separator(f, f.indent * (d + 1))), ms == []) + "]"
    case Node(Object, ms) =>
      "{" + Inside(f, d, Join(Parts(f, d + 1, Object, ms), Separator(f, f.indent * (d + 1))), ms == []) + "}"
  }

  /** What stands between the brackets: with indentation, lines of its own. */
  function Inside(f: Format, d: nat, items: string, empty: bool): string {
    if empty then []
    else if f.indent == 0 then items
    else NewLine(f.indent * (d + 1)) + items + NewLine(f.indent * d)
  }

  function Parts(f: Format, d: nat, k: Kind, ms: seq<Member>): (r: seq<string>)
    ensures |r| == |ms|
    decreases ms
  {
    if ms == [] then [] else [Part(f, d, k, ms[0])] + Parts(f, d, k, ms[1..])
  }

  function Part(f: Format, d: nat, k: Kind, m: Member): string
    decreases m
  {
    if k == Array then Laid(f, d, m.value)
    else "\"" + Escape(m.key) + "\"" + (if f.expand then ": " else ":") + Laid(f, d, m.value)
  }

  lemma {:induction false} NewLineIs(n: nat)
    ensures NewLine(n) == "\n" + Spaces(n)
  {
    if n > 0 {
      NewLineIs(n - 1);
      assert Spaces(n) == Spaces(n - 1) + " ";
    }
  }

  /** Both give the same text, in every layout. */
  lemma {:induction false} TextIsLaid(f: Format, d: nat, v: Json)
    ensures Text(f, d, v) == Laid(f, d, v)
    decreases v, 0
  {
    match v
    case Bool(b) =>
    case Int(n) =>
    case Str(s) =>
    case Node(k, ms) =>
      if ms != [] {
        ItemsAreJoined(f, d + 1, k, true, ms);
      }
      NodeText(f, d, k, ms);
  }

  /** A container, once its items are known to be joined. */
  lemma {:induction false} NodeText(f: Format, d: nat, k: Kind, ms: seq<Member>)
    requires ms != [] ==>
               Items(f, d + 1, k, true, ms)
               == Before(f, d + 1, true) + Join(Parts(f, d + 1, k, ms), Separator(f, f.indent * (d + 1)))
    ensures Text(f, d, Node(k, ms)) == Laid(f, d, Node(k, ms))
  {
    hide Join, Parts, Items, Separator;
    NewLineIs(f.indent * d);
    if ms != [] && f.indent > 0 {
      var i, o, j, n := NewLine(f.indent * (d + 1)), [OpenChar(k)], Join(Parts(f, d + 1, k, ms), Separator(f, f.indent * (d + 1))), NewLine(f.indent * d);
      Bracketed(o, i, j, n, [CloseChar(k)]);
    } else if ms != [] {
      var j := Join(Parts(f, d + 1, k, ms), Separator(f, f.indent * (d + 1)));
      assert [] + j == j;
    } else {
      NoItems(f, d + 1, k);
    }
  }

  lemma NoItems(f: Format, d: nat, k: Kind)
    ensures Items(f, d, k, true, []) == []
  {
  }

  lemma Bracketed(o: string, i: string, j: string, n: string, c: string)
    ensures o + (i + j) + (n + c) == o + (i + j + n) + c
  {
  }

  /** What precedes an item, at depth d > 0. */
  function Before(f: Format, d: nat, first: bool): string {
    if !first then Separator(f, f.indent * d) else if f.indent > 0 then NewLine(f.indent * d) else []
  }

  lemma LeadIsBefore(f: Format, d: nat, first: bool)
    requires d > 0
    ensures Lead(f, d, first) == Before(f, d, first)
  {
    NewLineIs(f.indent * d);
  }

  lemma {:induction false} ItemsAreJoined(f: Format, d: nat, k: Kind, first: bool, ms: seq<Member>)
    requires d > 0 && ms != []
    ensures Items(f, d, k, first, ms) == Before(f, d, first) + Join(Parts(f, d, k, ms), Separator(f, f.indent * d))
    decreases ms, 1
  {
    hide Text, Laid, Lead, Before, MemberText, Part, Separator;
    TextIsLaid(f, d, ms[0].value);
    PartIs(f, d, k, ms[0]);
    LeadIsBefore(f, d, first);
    var before, part, sep := Before(f, d, first), Part(f, d, k, ms[0]), Separator(f, f.indent * d);
    if |ms| > 1 {
      ItemsAreJoined(f, d, k, false, ms[1..]);
      SeparatorBefore(f, d);
      Joined(before, part, sep, Join(Parts(f, d, k, ms[1..]), sep));
    } else {
      assert ms[1..] == [] && before + part + [] == before + part;
    }
  }

  lemma SeparatorBefore(f: Format, d: nat)
    ensures Before(f, d, false) == Separator(f, f.indent * d)
  {
  }

  lemma Joined(b: string, p: string, s: string, r: string)
    ensures b + p + (s + r) == b + (p + s + r)
  {
  }

  lemma {:induction false} PartIs(f: Format, d: nat, k: Kind, m: Member)
    requires Text(f, d, m.value) == Laid(f, d, m.value)
    ensures MemberText(f, d, k, m) == Part(f, d, k, m)
  {
    hide Text, Laid, Escape;
  }
}
