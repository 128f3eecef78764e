/** The text that stands for an unfinished stack of containers, and what each change of the
    stack appends to it. */
module EncoderText {
  import opened JsonTree
  import opened EncoderStack

  /** The key of an item, when its container is an object. */
  function KeyPart(f: Format, parent: Kind, key: string): string {
    if parent == Object then KeyText(f, key) else []
  }

  /** What opens a frame at depth d in its parent. */
  function Opening(f: Format, d: nat, parent: Kind, first: bool, fr: Frame): string {
    if fr.mark == Wrapped then
      Lead(f, d, first) + "{" + Lead(f, d + 1, true) + KeyText(f, fr.key) + [OpenChar(fr.kind)]
    else
      Lead(f, d, first) + KeyPart(f, parent, fr.key) + [OpenChar(fr.kind)]
  }

  /** The text written so far. */
  function Render(f: Format, s: State): string
    decreases |s.open|
  {
    if s.open == [] then Items(f, 0, Array, true, s.roots)
    else
      var fr, up := Top(s.open), s.(open := Up(s.open));
      Render(f, up) + Opening(f, Depth(up.open), TopKind(up.open), TopItems(up) == [], fr)
      + Items(f, Depth(s.open), fr.kind, true, fr.done)
  }

  lemma RenderPush(f: Format, s: State, fr: Frame)
    ensures Render(f, Push(s, fr))
         == Render(f, s) + Opening(f, Depth(s.open), TopKind(s.open), TopItems(s) == [], fr)
            + Items(f, Depth(s.open) + Levels(fr), fr.kind, true, fr.done)
  {
    DepthPush(s.open, fr);
    assert Push(s, fr).(open := s.open) == s;
  }

  /** Adding an item appends its separator and its text. */
  lemma {:induction false} RenderAddItem(f: Format, s: State, m: Member)
    ensures Render(f, AddItem(s, m))
         == Render(f, s)
            + (Lead(f, Depth(s.open), TopItems(s) == []) + MemberText(f, Depth(s.open), TopKind(s.open), m))
  {
    hide Lead, MemberText, Opening, Items;
    var d := Depth(s.open);
    if s.open == [] {
      ItemsAppend(f, 0, Array, true, s.roots, m);
    } else {
      var fr, up := Top(s.open), s.(open := Up(s.open));
      var more := fr.(done := fr.done + [m]);
      ItemsAppend(f, d, fr.kind, true, fr.done, m);
      RenderPush(f, up, more);
      RenderPush(f, up, fr);
      assert up.open + [fr] == s.open;
      OpeningIgnoresItems(f, Depth(up.open), TopKind(up.open), TopItems(up) == [], fr, more);
      Group3(Render(f, up) + Opening(f, Depth(up.open), TopKind(up.open), TopItems(up) == [], fr),
             Items(f, d, fr.kind, true, fr.done),
             Lead(f, d, fr.done == []) + MemberText(f, d, fr.kind, m));
    }
  }

  lemma OpeningIgnoresItems(f: Format, d: nat, parent: Kind, first: bool, a: Frame, b: Frame)
    requires a.mark == b.mark && a.key == b.key && a.kind == b.kind
    ensures Opening(f, d, parent, first, a) == Opening(f, d, parent, first, b)
  {
  }

  /** Closing the innermost container appends its closing bracket. */
  lemma {:induction false} RenderCloseLevel(f: Format, s: State)
    requires s.open != [] && WellNested(s.open)
    ensures Depth(s.open) > 0
    ensures Render(f, CloseLevel(s))
         == Render(f, s) + Closing(f, Depth(s.open) - 1, Top(s.open).kind, Top(s.open).done == [])
  {
    hide *;
    LevelParts(s);
    var fr, up := Top(s.open), s.(open := Up(s.open));
    if fr.mark == Wrapped {
      CloseWrapped(f, up, fr);
    } else {
      ClosePlain(f, up, fr);
    }
  }

  lemma LevelParts(s: State)
    requires s.open != [] && WellNested(s.open)
    ensures var fr, up := Top(s.open), s.(open := Up(s.open));
            var m := Member(fr.key, Node(fr.kind, fr.done));
            && Push(up, fr) == s && Depth(s.open) > 0
            && Depth(s.open) - 1 == Depth(up.open) + (if fr.mark == Wrapped then 1 else 0)
            && (fr.mark == Wrapped ==> TopKind(up.open) == Array)
            && CloseLevel(s) == if fr.mark == Wrapped then Push(up, Frame(Auto, [], Object, [m])) else AddItem(up, m)
  {
    assert Up(s.open) + [Top(s.open)] == s.open;
  }

  lemma {:induction false} ClosePlain(f: Format, up: State, fr: Frame)
    requires fr.mark != Wrapped
    ensures Render(f, AddItem(up, Member(fr.key, Node(fr.kind, fr.done))))
         == Render(f, Push(up, fr)) + Closing(f, Depth(up.open), fr.kind, fr.done == [])
  {
    hide Render, Items, Lead, Closing, KeyText;
    var d := Depth(up.open);
    var m := Member(fr.key, Node(fr.kind, fr.done));
    RenderAddItem(f, up, m);
    RenderPush(f, up, fr);
    Regroup(Render(f, up), Lead(f, d, TopItems(up) == []), KeyPart(f, TopKind(up.open), fr.key),
            [OpenChar(fr.kind)], Items(f, d + 1, fr.kind, true, fr.done), Closing(f, d, fr.kind, fr.done == []));
  }

  lemma Regroup(r: string, l: string, k: string, o: string, i: string, c: string)
    ensures r + (l + (k + (o + i + c))) == r + (l + k + o) + i + c
  {
  }

  lemma {:induction false} CloseWrapped(f: Format, up: State, fr: Frame)
    requires fr.mark == Wrapped && TopKind(up.open) == Array
    ensures Render(f, Push(up, Frame(Auto, [], Object, [Member(fr.key, Node(fr.kind, fr.done))])))
         == Render(f, Push(up, fr)) + Closing(f, Depth(up.open) + 1, fr.kind, fr.done == [])
  {
    hide Render, Lead, Closing, KeyText;
    var d := Depth(up.open);
    var m := Member(fr.key, Node(fr.kind, fr.done));
    var auto := Frame(Auto, [], Object, [m]);
    RenderPush(f, up, auto);
    RenderPush(f, up, fr);
    var lead, lead2, key := Lead(f, d, TopItems(up) == []), Lead(f, d + 1, true), KeyText(f, fr.key);
    var items, close := Items(f, d + 2, fr.kind, true, fr.done), Closing(f, d + 1, fr.kind, fr.done == []);
    assert Text(f, d + 1, m.value) == [OpenChar(fr.kind)] + items + close;
    OneItem(f, d + 1, Object, m);
    assert lead + [] + "{" == lead + "{";
    RegroupWrapped(Render(f, up), lead + "{", lead2, key, [OpenChar(fr.kind)], items, close);
  }

  lemma OneItem(f: Format, d: nat, k: Kind, m: Member)
    ensures Items(f, d, k, true, [m]) == Lead(f, d, true) + MemberText(f, d, k, m)
  {
  }

  lemma RegroupWrapped(r: string, l: string, l2: string, k: string, o: string, i: string, c: string)
    ensures r + l + (l2 + (k + (o + i + c))) == r + (l + l2 + k + o) + i + c
  {
  }

  /** The closing brackets still owed, innermost first. */
  function Owed(f: Format, s: State): string
    decreases Depth(s.open)
  {
    if s.open == [] then []
    else
      DepthCloseLevel(s);
      Closing(f, Depth(s.open) - 1, Top(s.open).kind, Top(s.open).done == []) + Owed(f, CloseLevel(s))
  }

  /** Closing everything appends exactly what is owed. */
  lemma {:induction false} RenderCloseAll(f: Format, s: State)
    requires WellNested(s.open)
    ensures Render(f, CloseAll(s)) == Render(f, s) + Owed(f, s)
    decreases Depth(s.open)
  {
    hide *;
    if s.open == [] {
      NothingOwed(f, s);
    } else {
      OwedStep(f, s);
      NestedCloseLevel(s);
      RenderCloseLevel(f, s);
      RenderCloseAll(f, CloseLevel(s));
      Group3(Render(f, s), Closing(f, Depth(s.open) - 1, Top(s.open).kind, Top(s.open).done == []),
             Owed(f, CloseLevel(s)));
    }
  }

  lemma NothingOwed(f: Format, s: State)
    requires s.open == []
    ensures CloseAll(s) == s && Render(f, s) + Owed(f, s) == Render(f, s)
  {
  }

  lemma {:induction false} OwedStep(f: Format, s: State)
    requires s.open != []
    ensures Depth(s.open) > 0 && Depth(CloseLevel(s).open) < Depth(s.open)
    ensures CloseAll(s) == CloseAll(CloseLevel(s))
    ensures Owed(f, s)
         == Closing(f, Depth(s.open) - 1, Top(s.open).kind, Top(s.open).done == []) + Owed(f, CloseLevel(s))
  {
    DepthCloseLevel(s);
  }

  lemma LastOfConcat(a: string, b: string)
    requires b != []
    ensures (a + b)[|a + b| - 1] == b[|b| - 1]
  {
  }

  lemma {:induction false} ItemEnds(f: Format, s: State, m: Member)
    ensures var r := Render(f, AddItem(s, m)); r != [] && !IsOpenChar(r[|r| - 1])
  {
    hide Render, Lead, Text, KeyText;
    var d := Depth(s.open);
    var lead, item := Lead(f, d, TopItems(s) == []), MemberText(f, d, TopKind(s.open), m);
    RenderAddItem(f, s, m);
    TextEnd(f, d, m.value);
    LastOfConcat(if TopKind(s.open) == Object then KeyText(f, m.key) else [], Text(f, d, m.value));
    LastOfConcat(lead, item);
    LastOfConcat(Render(f, s), lead + item);
  }

  lemma OpeningEnds(f: Format, d: nat, parent: Kind, first: bool, fr: Frame)
    ensures var o := Opening(f, d, parent, first, fr); o != [] && o[|o| - 1] == OpenChar(fr.kind)
  {
  }

  /** How the text ends tells whether the innermost container has items. */
  lemma {:induction false} RenderEnd(f: Format, s: State)
    ensures var r := Render(f, s);
            if s == EMPTY then r == []
            else r != [] && (IsOpenChar(r[|r| - 1]) <==> TopItems(s) == [])
  {
    hide Opening, Lead, MemberText;
    var items := TopItems(s);
    if items != [] {
      var before, m := RemoveLast(s);
      hide Render;
      ItemEnds(f, before, m);
    } else if s.open != [] {
      var fr, up := Top(s.open), s.(open := Up(s.open));
      var o := Opening(f, Depth(up.open), TopKind(up.open), TopItems(up) == [], fr);
      OpeningEnds(f, Depth(up.open), TopKind(up.open), TopItems(up) == [], fr);
      LastOfConcat(Render(f, up), o);
      assert Render(f, up) + o + [] == Render(f, up) + o;
    }
  }

  lemma RemoveLast(s: State) returns (before: State, m: Member)
    requires TopItems(s) != []
    ensures AddItem(before, m) == s
  {
    var items := TopItems(s);
    var n := |items| - 1;
    m := items[n];
    assert items == items[..n] + [m];
    if s.open == [] {
      before := s.(roots := items[..n]);
    } else {
      before := s.(open := Up(s.open) + [Top(s.open).(done := items[..n])]);
      DepthPush(Up(s.open), Top(s.open).(done := items[..n]));
      assert Up(s.open) + [Top(s.open)] == s.open;
    }
  }

  /** The text never starts with NUL. */
  lemma {:induction false} RenderStart(f: Format, s: State)
    requires s != EMPTY
    ensures Render(f, s) != [] && Render(f, s)[0] != '\0'
    decreases |s.open|
  {
    if s.open == [] {
      FirstItem(f, s.roots);
    } else {
      hide Opening, Items;
      var fr, up := Top(s.open), s.(open := Up(s.open));
      if up != EMPTY {
        RenderStart(f, up);
      } else {
        FirstOpening(f, fr);
      }
    }
  }

  lemma {:induction false} FirstItem(f: Format, roots: seq<Member>)
    requires roots != []
    ensures Items(f, 0, Array, true, roots) != [] && Items(f, 0, Array, true, roots)[0] != '\0'
  {
    hide Text;
    var t := Text(f, 0, roots[0].value);
    TextStart(f, 0, roots[0].value);
    assert Lead(f, 0, true) == [];
    assert MemberText(f, 0, Array, roots[0]) == t;
  }

  lemma FirstOpening(f: Format, fr: Frame)
    ensures Opening(f, 0, Array, true, fr) != [] && Opening(f, 0, Array, true, fr)[0] != '\0'
  {
  }

  /** The room a closing bracket may take at depth d, with its line break. */
  function ClosingRoom(f: Format, d: nat): nat {
    if f.indent == 0 then 1 else Pad(f, d) + 2
  }

  /** The room all closing brackets may take. */
  function Reserve(f: Format, depth: nat): nat {
    if depth == 0 then 0 else Reserve(f, depth - 1) + ClosingRoom(f, depth - 1)
  }

  lemma ClosingFits(f: Format, d: nat, k: Kind, empty: bool)
    ensures |Closing(f, d, k, empty)| <= ClosingRoom(f, d)
  {
  }

  /** The reserved room is enough for what is owed; in compact output it is one character
      for each open container. */
  lemma {:induction false} OwedFits(f: Format, s: State)
    ensures |Owed(f, s)| <= Reserve(f, Depth(s.open))
    ensures f.indent == 0 ==> |Owed(f, s)| == Reserve(f, Depth(s.open)) == Depth(s.open)
    decreases Depth(s.open)
  {
    if s.open != [] {
      DepthCloseLevel(s);
      ClosingFits(f, Depth(s.open) - 1, Top(s.open).kind, Top(s.open).done == []);
      OwedFits(f, CloseLevel(s));
    }
  }
}
