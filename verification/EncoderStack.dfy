/** What a sequence of encoder calls means: a stack of containers being filled, the text
    that is already known to stand for it, and the machine word that packs its shape. */
module EncoderStack {
  import opened Wrappers
  import opened JsonTree

  /** How a frame came to be: opened by the caller; an object the encoder put around a keyed
      item of an array, still without that item; or such an object together with the keyed
      container inside it. */
  datatype Mark = Plain | Auto | Wrapped

  datatype Frame = Frame(mark: Mark, key: string, kind: Kind, done: seq<Member>)

  /** The finished top-level values, and the open frames from the outermost in. */
  datatype State = State(roots: seq<Member>, open: seq<Frame>)

  datatype Status = Success | Full | BadRequest | NoMemory

  const EMPTY := State([], [])

  /** The number of containers a frame stands for. */
  function Levels(fr: Frame): nat { if fr.mark == Wrapped then 2 else 1 }

  function Top(open: seq<Frame>): Frame
    requires open != []
  {
    open[|open| - 1]
  }

  function Up(open: seq<Frame>): seq<Frame>
    requires open != []
  {
    open[..|open| - 1]
  }

  function Depth(open: seq<Frame>): nat {
    if open == [] then 0 else Depth(Up(open)) + Levels(Top(open))
  }

  function TopKind(open: seq<Frame>): Kind {
    if open == [] then Array else Top(open).kind
  }

  /** The items already in the innermost container. */
  function TopItems(s: State): seq<Member> {
    if s.open == [] then s.roots else Top(s.open).done
  }

  function AddItem(s: State, m: Member): State {
    if s.open == [] then s.(roots := s.roots + [m])
    else s.(open := Up(s.open) + [Top(s.open).(done := Top(s.open).done + [m])])
  }

  function Push(s: State, fr: Frame): State {
    s.(open := s.open + [fr])
  }

  /** Closes the innermost container and hands it to the one around it. */
  function CloseLevel(s: State): State
    requires s.open != []
  {
    var fr, up := Top(s.open), s.(open := Up(s.open));
    var node := Node(fr.kind, fr.done);
    if fr.mark == Wrapped then Push(up, Frame(Auto, [], Object, [Member(fr.key, node)]))
    else AddItem(up, Member(fr.key, node))
  }

  lemma DepthPush(open: seq<Frame>, fr: Frame)
    ensures open + [fr] != [] && Up(open + [fr]) == open && Top(open + [fr]) == fr
    ensures Depth(open + [fr]) == Depth(open) + Levels(fr)
  {
  }

  lemma DepthAddItem(s: State, m: Member)
    ensures Depth(AddItem(s, m).open) == Depth(s.open)
    ensures |AddItem(s, m).open| == |s.open| && TopKind(AddItem(s, m).open) == TopKind(s.open)
  {
  }

  lemma DepthCloseLevel(s: State)
    requires s.open != []
    ensures Depth(CloseLevel(s).open) == Depth(s.open) - 1
  {
    var fr, up := Top(s.open), s.(open := Up(s.open));
    if fr.mark == Wrapped {
      DepthPush(up.open, Frame(Auto, [], Object, [Member(fr.key, Node(fr.kind, fr.done))]));
    } else {
      DepthAddItem(up, Member(fr.key, Node(fr.kind, fr.done)));
    }
  }

  /** Closes every open container. */
  function CloseAll(s: State): (r: State)
    ensures r.open == []
    decreases Depth(s.open)
  {
    if s.open == [] then s
    else
      DepthCloseLevel(s);
      CloseAll(CloseLevel(s))
  }

  /** Ends the frame on top: one container, or two when it was wrapped. */
  function CloseTop(s: State): State
    requires s.open != []
  {
    var t := CloseLevel(s);
    if Top(s.open).mark == Wrapped then
      DepthPush(Up(s.open), Frame(Auto, [], Object, [Member(Top(s.open).key, Node(Top(s.open).kind, Top(s.open).done))]));
      CloseLevel(t)
    else t
  }

  // ------------------------------------------------------------- the calls

  const MAX_DEPTH: nat := 21

  datatype Call =
    | Start(key: Option<string>, kind: Kind)
    | Leaf(key: Option<string>, value: Json)
    | End(kind: Kind)

  function KeyOf(key: Option<string>): string { if key.Some? then key.value else [] }

  /** True when a keyed item has to be put into an object of its own. */
  predicate Wraps(open: seq<Frame>, key: Option<string>) {
    key.Some? && open != [] && Top(open).kind == Array
  }

  /** The state in which a keyed item can be written: a root object is opened if there is
      none, and a wrapping object if the item would be a bare element of an array. */
  function Enclose(s: State, key: Option<string>): State {
    if key.Some? && s.open == [] then Push(s, Frame(Plain, [], Object, []))
    else if Wraps(s.open, key) then Push(s, Frame(Auto, [], Object, []))
    else s
  }

  function Begin(s: State, key: Option<string>, kind: Kind): State {
    if Wraps(s.open, key) then Push(s, Frame(Wrapped, key.value, kind, []))
    else Push(Enclose(s, key), Frame(Plain, KeyOf(key), kind, []))
  }

  function Put(s: State, key: Option<string>, v: Json): State {
    if Wraps(s.open, key) then AddItem(s, Member([], Node(Object, [Member(key.value, v)])))
    else AddItem(Enclose(s, key), Member(KeyOf(key), v))
  }

  /** The effect of one call, and what it returns. A call that is refused changes nothing. */
  function Apply(s: State, c: Call): (State, Status) {
    match c
    case Start(key, kind) =>
      if Depth(s.open) >= MAX_DEPTH then (s, Full) else (Begin(s, key, kind), Success)
    case Leaf(key, v) =>
      if key.None? && s.open == [] then (s, BadRequest)
      else if Wraps(s.open, key) && Depth(s.open) >= MAX_DEPTH then (s, Full)
      else (Put(s, key, v), Success)
    case End(kind) =>
      if s.open == [] || Top(s.open).kind != kind then (s, BadRequest) else (CloseTop(s), Success)
  }

  function Run(s: State, calls: seq<Call>): State
    decreases |calls|
  {
    if calls == [] then s else Run(Apply(s, calls[0]).0, calls[1..])
  }

  /** Objects added by the encoder stand directly in an array, or at the top level. */
  predicate WellNested(open: seq<Frame>) {
    open == []
    || (WellNested(Up(open))
        && (Top(open).mark != Plain ==> TopKind(Up(open)) == Array)
        && (Top(open).mark == Auto ==> Top(open).kind == Object))
  }

  /** What holds between calls. */
  predicate Stable(s: State) {
    WellNested(s.open) && (forall fr <- s.open :: fr.mark != Auto)
    && Depth(s.open) <= MAX_DEPTH + 1 && |s.open| <= MAX_DEPTH
  }

  lemma NestedPush(open: seq<Frame>, fr: Frame)
    ensures WellNested(open + [fr])
       <==> WellNested(open) && (fr.mark != Plain ==> TopKind(open) == Array) && (fr.mark == Auto ==> fr.kind == Object)
  {
  }

  lemma NestedAddItem(s: State, m: Member)
    requires WellNested(s.open)
    ensures WellNested(AddItem(s, m).open)
  {
  }

  lemma NestedCloseLevel(s: State)
    requires s.open != [] && WellNested(s.open)
    ensures WellNested(CloseLevel(s).open)
  {
  }

  lemma {:induction false} FramesBelowDepth(open: seq<Frame>)
    ensures |open| <= Depth(open)
  {
    if open != [] {
      FramesBelowDepth(Up(open));
    }
  }

  lemma {:induction false} PushStable(s: State, fr: Frame)
    requires Stable(s) && |s.open| < MAX_DEPTH && Depth(s.open) + Levels(fr) <= MAX_DEPTH + 1
    requires fr.mark != Auto && (fr.mark == Wrapped ==> TopKind(s.open) == Array)
    ensures Stable(Push(s, fr)) && |Push(s, fr).open| == |s.open| + 1
    ensures Depth(Push(s, fr).open) == Depth(s.open) + Levels(fr)
  {
    hide Depth, WellNested, TopKind;
    DepthPush(s.open, fr);
    NestedPush(s.open, fr);
  }

  lemma {:induction false} StartStable(s: State, key: Option<string>, kind: Kind)
    requires Stable(s) && Depth(s.open) < MAX_DEPTH
    ensures Stable(Begin(s, key, kind)) && Begin(s, key, kind) != EMPTY
  {
    FramesBelowDepth(s.open);
    assert Depth([]) == 0;
    hide Depth, Stable, Push;
    if Wraps(s.open, key) {
      PushStable(s, Frame(Wrapped, key.value, kind, []));
    } else {
      if key.Some? && s.open == [] {
        PushStable(s, Frame(Plain, [], Object, []));
      }
      PushStable(Enclose(s, key), Frame(Plain, KeyOf(key), kind, []));
    }
  }

  lemma AddItemStable(s: State, m: Member)
    requires Stable(s)
    ensures Stable(AddItem(s, m)) && AddItem(s, m) != EMPTY
  {
  }

  /** The depth check counts containers, the word holds frames; still a frame is always left
      for every push, and two containers at most are added past the check. */
  lemma {:induction false} ApplyStable(s: State, c: Call)
    requires Stable(s)
    ensures Stable(Apply(s, c).0)
    ensures Apply(s, c).1 == Success ==> Apply(s, c).0 != EMPTY
  {
    hide Depth, Stable, Begin, Put, CloseTop;
    if Apply(s, c).1 == Success {
      match c
      case Start(key, kind) =>
        StartStable(s, key, kind);
      case Leaf(key, v) =>
        LeafStable(s, key, v);
      case End(kind) =>
        EndStable(s);
    }
  }

  lemma {:induction false} LeafStable(s: State, key: Option<string>, v: Json)
    requires Stable(s) && (key.Some? || s.open != [])
    ensures Stable(Put(s, key, v)) && Put(s, key, v) != EMPTY
  {
    assert Depth([]) == 0;
    hide Depth, Stable, Push;
    if Wraps(s.open, key) {
      AddItemStable(s, Member([], Node(Object, [Member(key.value, v)])));
    } else {
      if key.Some? && s.open == [] {
        PushStable(s, Frame(Plain, [], Object, []));
      }
      AddItemStable(Enclose(s, key), Member(KeyOf(key), v));
    }
  }

  lemma {:induction false} EndStable(s: State)
    requires Stable(s) && s.open != []
    ensures Stable(CloseTop(s)) && CloseTop(s) != EMPTY
  {
    hide CloseTop, CloseLevel;
    CloseTopIs(s);
    AddItemStable(s.(open := Up(s.open)), TopMember(s));
  }

  /** What the frame on top becomes in its parent. */
  function TopMember(s: State): Member
    requires s.open != []
  {
    var fr := Top(s.open);
    var node := Node(fr.kind, fr.done);
    if fr.mark == Wrapped then Member([], Node(Object, [Member(fr.key, node)])) else Member(fr.key, node)
  }

  lemma CloseTopIs(s: State)
    requires s.open != []
    ensures CloseTop(s) == AddItem(s.(open := Up(s.open)), TopMember(s))
  {
  }

  // ------------------------------------------- calls given as a nested term

  /** A nested description of calls: a value, or a container with the calls made inside. */
  datatype Term =
    | LeafTerm(key: Option<string>, value: Json)
    | NodeTerm(key: Option<string>, kind: Kind, kids: seq<Term>)

  function Calls(t: Term): seq<Call>
    decreases t
  {
    match t
    case LeafTerm(key, v) => [Leaf(key, v)]
    case NodeTerm(key, kind, kids) => [Start(key, kind)] + AllCalls(kids) + [End(kind)]
  }

  function AllCalls(ts: seq<Term>): seq<Call>
    decreases ts
  {
    if ts == [] then [] else Calls(ts[0]) + AllCalls(ts[1..])
  }

  /** The tree a term describes. */
  function Meaning(t: Term): Json
    decreases t, 0
  {
    match t
    case LeafTerm(_, v) => v
    case NodeTerm(_, kind, kids) => Node(kind, Meanings(kind, kids))
  }

  /** What a term contributes to a container: in an object a property, whose key is "" when
      none was given; in an array an element, wrapped in an object when it has a key. */
  function Contribution(parent: Kind, t: Term): Member
    decreases t, 1
  {
    Contributed(parent, t.key, Meaning(t))
  }

  function Contributed(parent: Kind, key: Option<string>, v: Json): Member {
    if parent == Object then Member(KeyOf(key), v)
    else if key.None? then Member([], v)
    else Member([], Node(Object, [Member(key.value, v)]))
  }

  function Meanings(parent: Kind, ts: seq<Term>): seq<Member>
    decreases ts
  {
    if ts == [] then [] else [Contribution(parent, ts[0])] + Meanings(parent, ts[1..])
  }

  predicate AllSucceed(s: State, calls: seq<Call>)
    decreases |calls|
  {
    calls == [] || (Apply(s, calls[0]).1 == Success && AllSucceed(Apply(s, calls[0]).0, calls[1..]))
  }

  lemma {:induction false} RunAppend(s: State, a: seq<Call>, b: seq<Call>)
    ensures Run(s, a + b) == Run(Run(s, a), b)
    ensures AllSucceed(s, a + b) <==> AllSucceed(s, a) && AllSucceed(Run(s, a), b)
    decreases |a|
  {
    if a == [] {
      assert a + b == b;
    } else {
      assert (a + b)[1..] == a[1..] + b;
      RunAppend(Apply(s, a[0]).0, a[1..], b);
    }
  }

  function AddItems(s: State, ms: seq<Member>): State
    decreases |ms|
  {
    if ms == [] then s else AddItems(AddItem(s, ms[0]), ms[1..])
  }

  lemma {:induction false} AddItemsIs(s: State, ms: seq<Member>)
    requires s.open != []
    ensures AddItems(s, ms) == s.(open := Up(s.open) + [Top(s.open).(done := Top(s.open).done + ms)])
    decreases |ms|
  {
    var fr := Top(s.open);
    if ms == [] {
      assert fr.done + ms == fr.done;
      assert Up(s.open) + [fr] == s.open;
    } else {
      var t := AddItem(s, ms[0]);
      DepthPush(Up(s.open), fr.(done := fr.done + [ms[0]]));
      AddItemsIs(t, ms[1..]);
      assert (fr.done + [ms[0]]) + ms[1..] == fr.done + ms;
    }
  }

  /** The calls of a term, made inside an open container, add exactly what the term
      contributes and leave the stack as it was. */
  lemma {:induction false} RunTerm(s: State, t: Term)
    requires s.open != [] && AllSucceed(s, Calls(t))
    ensures Run(s, Calls(t)) == AddItem(s, Contribution(TopKind(s.open), t))
    decreases t, 1
  {
    match t
    case LeafTerm(key, v) =>
      assert Run(s, Calls(t)) == Put(s, key, v);
    case NodeTerm(key, kind, kids) =>
      RunNode(s, Begin(s, key, kind), t);
      BeginEnd(s, key, kind, Meanings(kind, kids));
  }

  /** A container begun, filled and ended is an item of the container around it. */
  lemma {:induction false} BeginEnd(s: State, key: Option<string>, kind: Kind, ms: seq<Member>)
    requires s.open != []
    ensures var t := AddItems(Begin(s, key, kind), ms);
            t.open != [] && CloseTop(t) == AddItem(s, Contributed(TopKind(s.open), key, Node(kind, ms)))
  {
    hide AddItems, Depth, CloseTop, CloseLevel;
    var inner := Begin(s, key, kind);
    var fr := Top(inner.open);
    DepthPush(s.open, fr);
    AddItemsIs(inner, ms);
    assert fr.done + ms == ms;
    DepthPush(s.open, fr.(done := ms));
    CloseTopIs(AddItems(inner, ms));
  }

  /** The calls of a container: its start, then its items, then its end. */
  lemma {:induction false} RunNode(s: State, inner: State, t: Term)
    requires t.NodeTerm? && AllSucceed(s, Calls(t)) && inner == Begin(s, t.key, t.kind)
    ensures inner.open != [] && AddItems(inner, Meanings(t.kind, t.kids)).open != []
    ensures Run(s, Calls(t)) == CloseTop(AddItems(inner, Meanings(t.kind, t.kids)))
    decreases t, 0
  {
    hide Run, AllSucceed, AllCalls, Meanings, AddItems, CloseTop, Depth, Begin, TopKind;
    var start, kids, end := [Start(t.key, t.kind)], AllCalls(t.kids), [End(t.kind)];
    assert Calls(t) == start + kids + end;
    RunAppend(s, start + kids, end);
    RunAppend(s, start, kids);
    RunOne(s, start[0]);
    BeginTop(s, t.key, t.kind);
    RunTerms(inner, t.kids);
    AddItemsIs(inner, Meanings(t.kind, t.kids));
    RunOne(AddItems(inner, Meanings(t.kind, t.kids)), end[0]);
  }

  lemma RunOne(s: State, c: Call)
    ensures Run(s, [c]) == Apply(s, c).0 && (AllSucceed(s, [c]) <==> Apply(s, c).1 == Success)
  {
  }

  lemma BeginTop(s: State, key: Option<string>, kind: Kind)
    ensures Begin(s, key, kind).open != [] && TopKind(Begin(s, key, kind).open) == kind
  {
  }

  lemma {:induction false} RunTerms(s: State, ts: seq<Term>)
    requires s.open != [] && AllSucceed(s, AllCalls(ts))
    ensures Run(s, AllCalls(ts)) == AddItems(s, Meanings(TopKind(s.open), ts))
    decreases ts
  {
    if ts != [] {
      RunAppend(s, Calls(ts[0]), AllCalls(ts[1..]));
      RunTerm(s, ts[0]);
      var m := Contribution(TopKind(s.open), ts[0]);
      DepthAddItem(s, m);
      RunTerms(AddItem(s, m), ts[1..]);
    }
  }

  /** A whole document: started without a key on a fresh encoder, it leaves one finished
      value, the tree the term describes. */
  lemma {:induction false} RunDocument(t: Term)
    requires t.NodeTerm? && t.key.None? && AllSucceed(EMPTY, Calls(t))
    ensures Run(EMPTY, Calls(t)) == State([Member([], Meaning(t))], [])
  {
    hide Calls, AllCalls, Meanings, AllSucceed, Run, AddItems, CloseTop, CloseLevel, Depth;
    var inner := Begin(EMPTY, t.key, t.kind);
    var ms := Meanings(t.kind, t.kids);
    RunNode(EMPTY, inner, t);
    AddItemsIs(inner, ms);
    CloseTopIs(AddItems(inner, ms));
    assert [] + ms == ms;
    assert Up(inner.open) == [];
  }

  /** A document whose root is opened by its first item: on a fresh encoder a keyed item
      opens an object, and everything after goes into it. */
  lemma {:induction false} RunOpenDocument(ts: seq<Term>)
    requires ts != [] && ts[0].key.Some? && AllSucceed(EMPTY, AllCalls(ts))
    ensures CloseAll(Run(EMPTY, AllCalls(ts))) == State([Member([], Node(Object, Meanings(Object, ts)))], [])
  {
    var e := Enclose(EMPTY, ts[0].key);
    var ms := Meanings(Object, ts);
    FirstCall(ts);
    SameStart(e, AllCalls(ts));
    hide Calls, AllCalls, Meanings, AllSucceed, Run, AddItems, Depth, Apply;
    RunTerms(e, ts);
    AddItemsIs(e, ms);
    assert [] + ms == ms;
    CloseOne(State([], [Frame(Plain, [], Object, ms)]));
  }

  /** The calls of a row of terms start with the first one's own call. */
  lemma FirstCall(ts: seq<Term>)
    requires ts != []
    ensures var c := if ts[0].LeafTerm? then Leaf(ts[0].key, ts[0].value) else Start(ts[0].key, ts[0].kind);
            AllCalls(ts) != [] && AllCalls(ts)[0] == c
  {
  }

  /** A keyed call on a fresh encoder does what it would do in an object just opened. */
  lemma SameStart(e: State, calls: seq<Call>)
    requires calls != [] && !calls[0].End? && calls[0].key.Some? && e == Enclose(EMPTY, calls[0].key)
    ensures Run(e, calls) == Run(EMPTY, calls) && (AllSucceed(e, calls) <==> AllSucceed(EMPTY, calls))
    ensures e == State([], [Frame(Plain, [], Object, [])])
  {
    assert Enclose(e, calls[0].key) == e;
    assert Apply(e, calls[0]) == Apply(EMPTY, calls[0]);
  }

  lemma CloseOne(s: State)
    requires s.roots == [] && |s.open| == 1 && s.open[0].mark == Plain
    ensures CloseAll(s) == State([Member(s.open[0].key, Node(s.open[0].kind, s.open[0].done))], [])
  {
  }

  // ----------------------------------------------- which terms are accepted

  /** Whether the calls of a term are accepted inside a container of that kind, with so many
      brackets open: every container, and every object put around a keyed value, is begun
      with fewer than 21 brackets open. */
  predicate Fits(t: Term, depth: nat, parent: Kind)
    decreases t
  {
    match t
    case LeafTerm(key, _) => key.Some? && parent == Array ==> depth < 21
    case NodeTerm(key, kind, kids) =>
      depth < 21 && FitsAll(kids, depth + (if key.Some? && parent == Array then 2 else 1), kind)
  }

  predicate FitsAll(ts: seq<Term>, depth: nat, parent: Kind)
    decreases ts
  {
    ts == [] || (Fits(ts[0], depth, parent) && FitsAll(ts[1..], depth, parent))
  }

  /** The brackets a term has open at most: its containers, one in another, and the objects
      put around its keyed items in arrays. */
  function Height(t: Term, parent: Kind): nat
    decreases t
  {
    var added := if t.key.Some? && parent == Array then 1 else 0;
    match t
    case LeafTerm(_, _) => added
    case NodeTerm(_, kind, kids) => added + 1 + HeightAll(kids, kind)
  }

  function HeightAll(ts: seq<Term>, parent: Kind): nat
    decreases ts
  {
    if ts == [] then 0
    else
      var a, b := Height(ts[0], parent), HeightAll(ts[1..], parent);
      if a > b then a else b
  }

  /** A term of height 21 at most fits. */
  lemma {:induction false} HeightFits(t: Term, depth: nat, parent: Kind)
    requires depth + Height(t, parent) <= 21
    ensures Fits(t, depth, parent)
    decreases t, 0
  {
    if t.NodeTerm? {
      HeightFitsAll(t.kids, depth + (if t.key.Some? && parent == Array then 2 else 1), t.kind);
    }
  }

  lemma {:induction false} HeightFitsAll(ts: seq<Term>, depth: nat, parent: Kind)
    requires depth + HeightAll(ts, parent) <= 21
    ensures FitsAll(ts, depth, parent)
    decreases ts, 1
  {
    if ts != [] {
      HeightFits(ts[0], depth, parent);
      HeightFitsAll(ts[1..], depth, parent);
    }
  }

  /** And a term that fits has height 22 at most. */
  lemma {:induction false} FitsHeight(t: Term, depth: nat, parent: Kind)
    requires Fits(t, depth, parent) && depth <= 22
    ensures depth + Height(t, parent) <= 22
    decreases t, 0
  {
    if t.NodeTerm? {
      FitsHeightAll(t.kids, depth + (if t.key.Some? && parent == Array then 2 else 1), t.kind);
    }
  }

  lemma {:induction false} FitsHeightAll(ts: seq<Term>, depth: nat, parent: Kind)
    requires FitsAll(ts, depth, parent) && depth <= 22
    ensures depth + HeightAll(ts, parent) <= 22
    decreases ts, 1
  {
    if ts != [] {
      FitsHeight(ts[0], depth, parent);
      FitsHeightAll(ts[1..], depth, parent);
    }
  }

  /** The calls of a term are accepted in an open container exactly when it fits. */
  lemma {:induction false} AcceptedIffFits(s: State, t: Term)
    requires s.open != [] || (t.NodeTerm? && t.key.None?)
    ensures AllSucceed(s, Calls(t)) <==> Fits(t, Depth(s.open), TopKind(s.open))
    decreases t, 1
  {
    match t
    case LeafTerm(key, v) =>
      RunOne(s, Leaf(key, v));
    case NodeTerm(key, kind, kids) =>
      hide Run, AllSucceed, AllCalls, Fits, FitsAll, Begin;
      var start, inside, end := [Start(key, kind)], AllCalls(kids), [End(kind)];
      assert Calls(t) == start + inside + end;
      NodeFits(t, Depth(s.open), TopKind(s.open));
      RunAppend(s, start + inside, end);
      RunAppend(s, start, inside);
      RunOne(s, start[0]);
      if Depth(s.open) < 21 {
        var inner := Begin(s, key, kind);
        BeginTop(s, key, kind);
        BeginDepth(s, key, kind);
        RowAcceptedIffFits(inner, kids);
        if AllSucceed(inner, inside) {
          RunTerms(inner, kids);
          AddItemsIs(inner, Meanings(kind, kids));
          RunOne(AddItems(inner, Meanings(kind, kids)), end[0]);
        }
      }
  }

  lemma NodeFits(t: Term, depth: nat, parent: Kind)
    requires t.NodeTerm?
    ensures Fits(t, depth, parent)
       <==> depth < 21 && FitsAll(t.kids, depth + (if t.key.Some? && parent == Array then 2 else 1), t.kind)
  {
  }

  lemma {:induction false} BeginDepth(s: State, key: Option<string>, kind: Kind)
    requires s.open != [] || key.None?
    ensures Depth(Begin(s, key, kind).open)
         == Depth(s.open) + if key.Some? && TopKind(s.open) == Array then 2 else 1
  {
    DepthPush(s.open, Top(Begin(s, key, kind).open));
  }

  lemma {:induction false} RowAcceptedIffFits(s: State, ts: seq<Term>)
    requires s.open != []
    ensures AllSucceed(s, AllCalls(ts)) <==> FitsAll(ts, Depth(s.open), TopKind(s.open))
    decreases ts, 2
  {
    if ts != [] {
      hide AllSucceed, Calls, Fits;
      assert AllCalls(ts) == Calls(ts[0]) + AllCalls(ts[1..]);
      RunAppend(s, Calls(ts[0]), AllCalls(ts[1..]));
      AcceptedIffFits(s, ts[0]);
      if AllSucceed(s, Calls(ts[0])) {
        RunTerm(s, ts[0]);
        var m := Contribution(TopKind(s.open), ts[0]);
        DepthAddItem(s, m);
        RowAcceptedIffFits(AddItem(s, m), ts[1..]);
      }
    }
  }

  /** The same for a row whose first item opens the root object. */
  lemma {:induction false} OpenAcceptedIffFits(ts: seq<Term>)
    requires ts != [] && ts[0].key.Some?
    ensures AllSucceed(EMPTY, AllCalls(ts)) <==> FitsAll(ts, 1, Object)
  {
    var e := Enclose(EMPTY, ts[0].key);
    FirstCall(ts);
    SameStart(e, AllCalls(ts));
    assert Depth([Frame(Plain, [], Object, [])]) == 1 by {
      DepthPush([], Frame(Plain, [], Object, []));
    }
    hide AllSucceed, AllCalls, FitsAll, Depth;
    RowAcceptedIffFits(e, ts);
  }

  /** Which other calls are refused, and that nothing changes then. */
  lemma Refused(s: State, key: Option<string>, v: Json, kind: Kind)
    ensures Apply(s, Leaf(key, v)) == (s, BadRequest) <==> s.open == [] && key.None?
    ensures Apply(s, Leaf(key, v)) == (s, Full)
       <==> s.open != [] && Top(s.open).kind == Array && key.Some? && Depth(s.open) >= 21
    ensures Apply(s, End(kind)) == (s, BadRequest) <==> s.open == [] || Top(s.open).kind != kind
    ensures Apply(s, Leaf(key, v)).1 == Success || Apply(s, Leaf(key, v)).0 == s
  {
  }

  /** With 21 brackets open, or more, nothing is begun. */
  lemma StartRefused(s: State, key: Option<string>, kind: Kind)
    ensures Apply(s, Start(key, kind)) == (s, Full) <==> Depth(s.open) >= 21
  {
  }
}
