/** What a dump is, as a JSON document. */
module EncoderDocument {
  import opened Wrappers
  import opened JsonText
  import opened JsonTree
  import opened EncoderStack
  import opened EncoderText
  import opened JsonLayout
  import opened JsonEncoder

  /** Strings without control characters other than the five that are escaped. */
  predicate PrintableCall(c: Call) {
    match c
    case Start(key, _) => Printable(KeyOf(key))
    case Leaf(key, v) => Printable(KeyOf(key)) && Readable(v)
    case End(_) => true
  }

  predicate ReadableItems(k: Kind, ms: seq<Member>) {
    forall m <- ms :: ReadableMember(k, m)
  }

  predicate ReadableFrame(parent: Kind, fr: Frame) {
    && ReadableItems(fr.kind, fr.done)
    && (if fr.mark == Plain && parent == Array then fr.key == [] else Printable(fr.key))
    && (fr.mark == Auto ==> fr.key == [])
  }

  predicate ReadableOpen(open: seq<Frame>) {
    open == [] || (ReadableOpen(Up(open)) && ReadableFrame(TopKind(Up(open)), Top(open)))
  }

  predicate ReadableState(s: State) {
    ReadableItems(Array, s.roots) && ReadableOpen(s.open)
  }

  lemma ReadablePush(open: seq<Frame>, fr: Frame)
    requires ReadableOpen(open) && ReadableFrame(TopKind(open), fr)
    ensures ReadableOpen(open + [fr])
  {
  }

  lemma ReadableAddItem(s: State, m: Member)
    requires ReadableState(s) && ReadableMember(TopKind(s.open), m)
    ensures ReadableState(AddItem(s, m))
  {
  }

  lemma ReadableCloseLevel(s: State)
    requires s.open != [] && ReadableState(s) && WellNested(s.open)
    ensures ReadableState(CloseLevel(s))
  {
    var fr, up := Top(s.open), s.(open := Up(s.open));
    var m := Member(fr.key, Node(fr.kind, fr.done));
    if fr.mark == Wrapped {
      assert ReadableMember(Object, m);
      ReadablePush(up.open, Frame(Auto, [], Object, [m]));
    } else {
      ReadableAddItem(up, m);
    }
  }

  lemma {:induction false} ReadableCloseAll(s: State)
    requires ReadableState(s) && WellNested(s.open)
    ensures ReadableState(CloseAll(s))
    decreases Depth(s.open)
  {
    if s.open != [] {
      DepthCloseLevel(s);
      ReadableCloseLevel(s);
      NestedCloseLevel(s);
      ReadableCloseAll(CloseLevel(s));
    }
  }

  lemma ReadableApply(s: State, c: Call)
    requires Stable(s) && ReadableState(s) && PrintableCall(c)
    ensures ReadableState(Apply(s, c).0)
  {
    if Apply(s, c).1 == Success {
      match c
      case Start(key, kind) =>
        ReadableStart(s, key, kind);
      case Leaf(key, v) =>
        ReadableLeaf(s, key, v);
      case End(kind) =>
        ReadableCloseLevel(s);
        if Top(s.open).mark == Wrapped {
          NestedCloseLevel(s);
          ReadableCloseLevel(CloseLevel(s));
        }
    }
  }

  lemma {:induction false} ReadableStart(s: State, key: Option<string>, kind: Kind)
    requires ReadableState(s) && Printable(KeyOf(key))
    ensures ReadableState(Begin(s, key, kind))
  {
    hide ReadableOpen, Printable, Depth;
    var root := Frame(Plain, [], Object, []);
    if Wraps(s.open, key) {
      ReadablePush(s.open, Frame(Wrapped, key.value, kind, []));
    } else {
      if key.Some? && s.open == [] {
        EmptyPrintable();
        ReadablePush(s.open, root);
        DepthPush(s.open, root);
      }
      ReadablePush(Enclose(s, key).open, Frame(Plain, KeyOf(key), kind, []));
    }
  }

  lemma EmptyPrintable()
    ensures Printable([])
  {
  }

  lemma ReadableLeaf(s: State, key: Option<string>, v: Json)
    requires ReadableState(s) && Printable(KeyOf(key)) && Readable(v)
    ensures ReadableState(Put(s, key, v))
  {
    var root := Frame(Plain, [], Object, []);
    ReadablePush(s.open, root);
    DepthPush(s.open, root);
    if Wraps(s.open, key) {
      var m := Member(key.value, v);
      assert ReadableMember(Object, m);
      ReadableAddItem(s, Member([], Node(Object, [m])));
    } else {
      ReadableAddItem(Enclose(s, key), Member(KeyOf(key), v));
    }
  }

  lemma {:induction false} ReadableRun(s: State, calls: seq<Call>)
    requires Stable(s) && ReadableState(s) && forall c <- calls :: PrintableCall(c)
    ensures Stable(Run(s, calls)) && ReadableState(Run(s, calls))
    decreases |calls|
  {
    if calls != [] {
      ApplyStable(s, calls[0]);
      ReadableApply(s, calls[0]);
      ReadableRun(Apply(s, calls[0]).0, calls[1..]);
    }
  }

  // -------------------------------------------------------------- no NUL

  lemma {:induction false} TextNoNul(f: Format, d: nat, v: Json)
    requires Readable(v)
    ensures '\0' !in Text(f, d, v)
    decreases v, 0
  {
    match v
    case Bool(b) =>
    case Int(n) =>
      assert forall c :: c in Digits(if n < 0 then -n else n) ==> IsDigit(c);
    case Str(s) =>
      EscapeNoNul(s);
    case Node(k, ms) =>
      ItemsNoNul(f, d + 1, k, true, ms);
  }

  lemma {:induction false} ItemsNoNul(f: Format, d: nat, k: Kind, first: bool, ms: seq<Member>)
    requires ReadableItems(k, ms)
    ensures '\0' !in Items(f, d, k, first, ms)
    decreases ms, 1
  {
    if ms != [] {
      var m := ms[0];
      assert ReadableMember(k, m);
      TextNoNul(f, d, m.value);
      ItemsNoNul(f, d, k, false, ms[1..]);
      StartNoNul(f, d, k, first, m);
      hide Text, Lead, KeyText;
    }
  }

  lemma StartNoNul(f: Format, d: nat, k: Kind, first: bool, m: Member)
    requires ReadableMember(k, m)
    ensures '\0' !in Lead(f, d, first) && (k == Object ==> '\0' !in KeyText(f, m.key))
  {
    EscapeNoNul(m.key);
  }

  // -------------------------------------------------------- the documents

  /** For every sequence of calls with printable strings: the dump holds no NUL; it is a
      document of the grammar exactly when the calls describe one top-level value; and then
      it reads back as that value. */
  lemma DumpReads(f: Format, calls: seq<Call>)
    requires forall c <- calls :: PrintableCall(c)
    requires Run(EMPTY, calls) != EMPTY
    ensures var done := CloseAll(Run(EMPTY, calls));
            && '\0' !in Render(f, done)
            && (Parse(Render(f, done)).Some? <==> |done.roots| == 1)
            && (|done.roots| == 1 ==> Parse(Render(f, done)) == Some(done.roots[0].value))
  {
    ReadableRun(EMPTY, calls);
    var s := Run(EMPTY, calls);
    var done := CloseAll(s);
    ReadableCloseAll(s);
    ItemsNoNul(f, 0, Array, true, done.roots);
    SomeRoot(s);
    assert Readable(done.roots[0].value) by {
      assert ReadableMember(Array, done.roots[0]);
    }
    RootsRead(f, done.roots);
  }

  lemma {:induction false} SomeRoot(s: State)
    requires s != EMPTY
    ensures |CloseAll(s).roots| > 0
    decreases Depth(s.open)
  {
    if s.open != [] {
      DepthCloseLevel(s);
      SomeRoot(CloseLevel(s));
    }
  }

  lemma {:induction false} RootsRead(f: Format, roots: seq<Member>)
    requires |roots| > 0 && Readable(roots[0].value)
    ensures var text := Items(f, 0, Array, true, roots);
            if |roots| == 1 then Parse(text) == Some(roots[0].value) else Parse(text) == None
  {
    hide Text, ParseValue;
    var v, rest := roots[0].value, Items(f, 0, Array, false, roots[1..]);
    var text := Items(f, 0, Array, true, roots);
    assert Lead(f, 0, true) == [];
    assert MemberText(f, 0, Array, roots[0]) == Text(f, 0, v);
    assert text == Text(f, 0, v) + rest;
    if |roots| == 1 {
      assert rest == [];
    } else {
      assert rest[0] == ',';
      assert SkipSpace(rest) == rest;
    }
    ParseText(f, 0, v, rest);
  }

  /** The ends that close everything open, innermost first. */
  function Ends(s: State): seq<Call>
    decreases |s.open|
  {
    if s.open == [] then []
    else
      CloseTopSize(s);
      [End(Top(s.open).kind)] + Ends(CloseTop(s))
  }

  lemma CloseTopSize(s: State)
    requires s.open != []
    ensures |CloseTop(s).open| < |s.open|
  {
  }

  /** A dump in the middle shows just what ending every open container would show. */
  lemma {:induction false} DumpIsEnding(s: State)
    ensures AllSucceed(s, Ends(s)) && Run(s, Ends(s)) == CloseAll(s)
    decreases |s.open|
  {
    if s.open != [] {
      CloseTopSize(s);
      DumpIsEnding(CloseTop(s));
      assert Ends(s)[1..] == Ends(CloseTop(s));
      if Top(s.open).mark == Wrapped {
        DepthPush(Up(s.open), Frame(Auto, [], Object, [Member(Top(s.open).key, Node(Top(s.open).kind, Top(s.open).done))]));
      }
    }
  }

  // ------------------------------------------------------- whole documents

  /** A document given as a nested term: when it fits its calls are accepted, and dump as the
      text of the tree it means. */
  lemma {:induction false} TermText(f: Format, t: Term)
    requires t.NodeTerm? && t.key.None? && Fits(t, 0, Array)
    ensures AllSucceed(EMPTY, Calls(t)) && Run(EMPTY, Calls(t)) != EMPTY
    ensures CloseAll(Run(EMPTY, Calls(t))) == State([Member([], Meaning(t))], [])
    ensures Render(f, CloseAll(Run(EMPTY, Calls(t)))) == Laid(f, 0, Meaning(t))
  {
    hide Run, Calls, Meaning, AllSucceed, Laid, Text, Fits;
    assert Depth([]) == 0;
    AcceptedIffFits(EMPTY, t);
    RunDocument(t);
    RootText(f, Meaning(t));
  }

  /** A document whose root object is opened by a keyed first item. */
  lemma {:induction false} OpenTermText(f: Format, ts: seq<Term>)
    requires ts != [] && ts[0].key.Some? && FitsAll(ts, 1, Object)
    ensures AllSucceed(EMPTY, AllCalls(ts))
    ensures Render(f, CloseAll(Run(EMPTY, AllCalls(ts)))) == Laid(f, 0, Node(Object, Meanings(Object, ts)))
  {
    hide Run, AllCalls, Meanings, AllSucceed, Laid, Text, FitsAll;
    OpenAcceptedIffFits(ts);
    RunOpenDocument(ts);
    RootText(f, Node(Object, Meanings(Object, ts)));
  }

  lemma {:induction false} RootText(f: Format, v: Json)
    ensures Render(f, State([Member([], v)], [])) == Laid(f, 0, v)
  {
    hide Text, Laid;
    OneItem(f, 0, Array, Member([], v));
    TextIsLaid(f, 0, v);
    assert Lead(f, 0, true) == [];
  }

  /** From the height alone. */
  lemma DocumentText(f: Format, t: Term)
    requires t.NodeTerm? && t.key.None? && Height(t, Array) <= 21
    ensures AllSucceed(EMPTY, Calls(t))
    ensures Render(f, CloseAll(Run(EMPTY, Calls(t)))) == Laid(f, 0, Meaning(t))
  {
    HeightFits(t, 0, Array);
    TermText(f, t);
  }

  lemma OpenDocumentText(f: Format, ts: seq<Term>)
    requires ts != [] && ts[0].key.Some? && 1 + HeightAll(ts, Object) <= 21
    ensures AllSucceed(EMPTY, AllCalls(ts))
    ensures Render(f, CloseAll(Run(EMPTY, AllCalls(ts)))) == Laid(f, 0, Node(Object, Meanings(Object, ts)))
  {
    HeightFitsAll(ts, 1, Object);
    OpenTermText(f, ts);
  }

  /** A term whose keys and strings are printable, and whose values the encoder takes: booleans,
      strings, and 64-bit integers but the smallest. */
  predicate Encodable(t: Term)
    decreases t
  {
    && (t.key.Some? ==> Printable(t.key.value))
    && match t
       case LeafTerm(_, Bool(_)) => true
       case LeafTerm(_, Int(n)) => -0x8000_0000_0000_0000 < n < 0x8000_0000_0000_0000
       case LeafTerm(_, Str(s)) => Printable(s)
       case LeafTerm(_, Node(_, _)) => false
       case NodeTerm(_, _, kids) => forall kid <- kids :: Encodable(kid)
  }

  lemma {:induction false} EncodableCalls(t: Term)
    requires Encodable(t)
    ensures forall c <- Calls(t) :: PrintableCall(c) && Callable(c)
    decreases t, 0
  {
    hide Printable;
    EmptyPrintable();
    if t.NodeTerm? {
      EncodableRow(t.kids);
    }
  }

  lemma {:induction false} EncodableRow(ts: seq<Term>)
    requires forall t <- ts :: Encodable(t)
    ensures forall c <- AllCalls(ts) :: PrintableCall(c) && Callable(c)
    decreases ts, 1
  {
    if ts != [] {
      hide Encodable, PrintableCall, Callable, Calls;
      assert ts[0] in ts;
      EncodableCalls(ts[0]);
      EncodableRow(ts[1..]);
    }
  }

  /** The encoder, given a document: it writes that text, and the text reads back as the tree
      the calls mean. */
  method DumpDocument(f: Format, t: Term) returns (text: Option<string>)
    requires f.indent <= 30 && t.NodeTerm? && t.key.None? && Encodable(t) && Height(t, Array) <= 21
    ensures text == Some(Laid(f, 0, Meaning(t)))
    ensures Parse(Laid(f, 0, Meaning(t))) == Some(Meaning(t))
  {
    hide *;
    EncodableCalls(t);
    HeightFits(t, 0, Array);
    TermText(f, t);
    DumpReads(f, Calls(t));
    text := DumpAfter(f, Calls(t));
  }

  /** What keys mean: in an array a keyed item is an object of its own, and in an object an
      item without a key has the empty one. */
  lemma KeysMean(key: string, v: Json)
    ensures Contributed(Array, None, v) == Member("", v)
    ensures Contributed(Array, Some(key), v) == Member("", Node(Object, [Member(key, v)]))
    ensures Contributed(Object, Some(key), v) == Member(key, v)
    ensures Contributed(Object, None, v) == Member("", v)
  {
  }

  /** One document: a keyed value and a string with a line feed, in an array. */
  lemma {:induction false} ExampleDocument(t: Term)
    requires t == NodeTerm(None, Array, [LeafTerm(Some("a"), Bool(true)), LeafTerm(None, Str("x\ny"))])
    ensures Encodable(t) && Height(t, Array) == 2
    ensures Laid(Format(false, 0), 0, Meaning(t)) == "[{\"a\":true},\"x\\ny\"]"
  {
    var a, s := LeafTerm(Some("a"), Bool(true)), LeafTerm(None, Str("x\ny"));
    assert t.kids == [a, s] && [a, s][1..] == [s] && [s][1..] == [];
    assert HeightAll([s], Array) == 0 && HeightAll([a, s], Array) == 1;
    ExampleText(Member("", Node(Object, [Member("a", Bool(true))])), Member("", Str("x\ny")));
    assert Meanings(Array, [s]) == [Member("", Str("x\ny"))];
  }

  lemma {:induction false} ExampleText(a: Member, s: Member)
    requires a == Member("", Node(Object, [Member("a", Bool(true))])) && s == Member("", Str("x\ny"))
    ensures Laid(Format(false, 0), 0, Node(Array, [a, s])) == "[{\"a\":true},\"x\\ny\"]"
  {
    hide *;
    var f := Format(false, 0);
    var one, two := "{\"a\":true}", "\"x\\ny\"";
    ExampleObject(f, Member("a", Bool(true)));
    ExampleString(f);
    ExampleParts(f, a, s, one, two);
    ExampleJoin(one, two);
    ExampleArray(f, [a, s]);
    assert "[" + (one + "," + two) + "]" == "[{\"a\":true},\"x\\ny\"]";
  }

  lemma {:induction false} ExampleString(f: Format)
    ensures Laid(f, 1, Str("x\ny")) == "\"x\\ny\""
  {
    ExampleEscapes();
    hide Escape;
  }

  lemma {:induction false} ExampleArray(f: Format, ms: seq<Member>)
    requires f == Format(false, 0) && ms != []
    ensures Laid(f, 0, Node(Array, ms)) == "[" + Join(Parts(f, 1, Array, ms), ",") + "]"
  {
    hide Join, Parts;
  }

  lemma {:induction false} ExampleObject(f: Format, m: Member)
    requires f == Format(false, 0) && m == Member("a", Bool(true))
    ensures Laid(f, 1, Node(Object, [m])) == "{\"a\":true}"
  {
    ExampleEscapes();
    hide Escape;
    assert Laid(f, 2, m.value) == "true";
    assert Part(f, 2, Object, m) == "\"a\":true";
    assert [m][1..] == [] && Parts(f, 2, Object, [m]) == ["\"a\":true"];
    assert Join(["\"a\":true"], ",") == "\"a\":true";
  }

  lemma {:induction false} ExampleParts(f: Format, a: Member, s: Member, one: string, two: string)
    requires Laid(f, 1, a.value) == one && Laid(f, 1, s.value) == two
    ensures Parts(f, 1, Array, [a, s]) == [one, two]
  {
    hide Laid;
    assert [a, s][1..] == [s] && [s][1..] == [];
    assert Parts(f, 1, Array, [s]) == [two];
  }

  lemma ExampleJoin(one: string, two: string)
    ensures Join([one, two], ",") == one + "," + two
  {
    assert [one, two][1..] == [two];
  }

  lemma ExampleEscapes()
    ensures Escape("a") == "a" && Escape("x\ny") == "x\\ny"
  {
    assert "a"[1..] == "" && "x\ny"[1..] == "\ny" && "\ny"[1..] == "y" && "y"[1..] == "";
    assert Escape("y") == "y" && Escape("\ny") == "\\ny";
  }
}
