/** The item array that src/utilities/app_json_schema.c builds for a JSON schema, and the
    iterators over it. */
module SchemaItems {
  import opened Wrappers
  import opened Preorder
  import opened SchemaKeywords

  datatype Status = Success | ParseError

  /** An iterator's result: an item, the end, or a read past the array. */
  datatype Step = At(index: nat) | End | Overrun

  /** What an item is about: the property, and the kind its type text was taken for. */
  datatype Label = Label(property: Property, kind: Kind)

  /** struct app_json_schema_item */
  datatype Item = Item(what: Label, parent: int, lastChild: nat)

  /** (unsigned int)-1, the parent of the root */
  const NO_PARENT := 0xFFFF_FFFF

  /** The tree of a row of properties: those of recognised type, and below objects theirs. */
  function Pruned(properties: seq<Property>, top: bool): Forest<Label> {
    if properties == [] then Empty
    else
      var s := properties[0].schema;
      var rest := Pruned(properties[1..], top);
      match KindOf(s, top)
      case None => rest
      case Some(kind) =>
        Cons(Label(properties[0], kind), if kind == ObjectKind then Pruned(s.properties, false) else Empty, rest)
  }

  /** Whether parsing a row of properties succeeds, `required` being the names their parent
      requires: each has a type, and those recognised pass their checks. */
  predicate Good(properties: seq<Property>, top: bool, required: seq<Option<string>>) {
    properties == [] ||
    var p := properties[0];
    && p.schema.typeField.Text?
    && (KindOf(p.schema, top).Some? ==> Checks(p.schema, KindOf(p.schema, top).value, p.name, required))
    && (KindOf(p.schema, top) == Some(ObjectKind) ==> Good(p.schema.properties, false, p.schema.required))
    && Good(properties[1..], top, required)
  }

  /** Recognised properties, in order. */
  function Recognised(properties: seq<Property>): seq<Label> {
    if properties == [] then []
    else
      var kind := KindOf(properties[0].schema, false);
      (if kind == None then [] else [Label(properties[0], kind.value)]) + Recognised(properties[1..])
  }

  lemma {:induction false} PrunedLabels(properties: seq<Property>)
    ensures Labels(Pruned(properties, false)) == Recognised(properties)
  {
    if properties != [] {
      PrunedLabels(properties[1..]);
    }
  }

  /** Where every type is recognised nothing is left out. */
  lemma {:induction false} AllRecognised(properties: seq<Property>)
    requires forall p <- properties :: KindOf(p.schema, false) != None
    ensures |Recognised(properties)| == |properties|
    ensures forall k :: 0 <= k < |properties| ==>
              Recognised(properties)[k] == Label(properties[k], KindOf(properties[k].schema, false).value)
  {
    if properties != [] {
      AllRecognised(properties[1..]);
    }
  }

  function ItemOf(e: Entry<Label>): Item {
    Item(e.value, e.parent, if e.value.kind == ObjectKind then e.end else 0)
  }

  function ItemsOf(entries: seq<Entry<Label>>): (r: seq<Item>)
    ensures |r| == |entries|
  {
    seq(|entries|, i requires 0 <= i < |entries| => ItemOf(entries[i]))
  }

  /** The items of a row of properties from index `at`, under `parent`. */
  function Layout(properties: seq<Property>, top: bool, at: nat, parent: int): seq<Item> {
    ItemsOf(Flat(Pruned(properties, top), at, parent))
  }

  lemma ItemsJoin(a: seq<Entry<Label>>, b: seq<Entry<Label>>)
    ensures ItemsOf(a + b) == ItemsOf(a) + ItemsOf(b)
  {
  }

  /** Unfolds one property. */
  lemma {:induction false} LayoutStep(properties: seq<Property>, top: bool, at: nat, parent: int)
    requires properties != []
    ensures Layout(properties, top, at, parent) ==
            Layout(properties[..1], top, at, parent)
            + Layout(properties[1..], top, at + |Layout(properties[..1], top, at, parent)|, parent)
  {
    hide *;
    var f, rest := Pruned(properties, top), Pruned(properties[1..], top);
    PrunedStep(properties, top);
    LayoutIs(properties, top, at, parent);
    LayoutIs(properties[..1], top, at, parent);
    if KindOf(properties[0].schema, top) != None {
      FlatFirst(f, at, parent);
      LayoutIs(properties[1..], top, at + 1 + Size(f.kids), parent);
      ItemsJoin(Flat(f.(rest := Empty), at, parent), Flat(rest, at + 1 + Size(f.kids), parent));
    } else {
      LayoutIs(properties[1..], top, at, parent);
    }
  }

  lemma PrunedStep(properties: seq<Property>, top: bool)
    requires properties != []
    ensures var f, rest, p := Pruned(properties, top), Pruned(properties[1..], top), Pruned(properties[..1], top);
            if KindOf(properties[0].schema, top) == None then p == Empty && f == rest
            else f.Cons? && f.rest == rest && p == f.(rest := Empty)
  {
    var p := properties[..1];
    assert p[1..] == [] && Pruned(p[1..], top) == Empty;
  }

  lemma LayoutIs(properties: seq<Property>, top: bool, at: nat, parent: int)
    ensures var f := Pruned(properties, top);
            && Layout(properties, top, at, parent) == ItemsOf(Flat(f, at, parent))
            && |Layout(properties, top, at, parent)| == Size(f) && (f == Empty ==> Layout(properties, top, at, parent) == [])
  {
  }

  lemma NothingLaid(top: bool, required: seq<Option<string>>, at: nat, parent: int)
    ensures Good([], top, required) && Layout([], top, at, parent) == []
  {
  }

  /** Parsing a row succeeds exactly when it does for each property: there is a type, and where
      it is recognised the checks pass, and for an object its own row is parsed. */
  lemma {:induction false} GoodIs(properties: seq<Property>, top: bool, required: seq<Option<string>>)
    ensures Good(properties, top, required)
       <==> forall i :: 0 <= i < |properties| ==> GoodAlone(properties[i], top, required)
  {
    if properties != [] {
      hide Checks, KindOf;
      var rest := properties[1..];
      GoodIs(rest, top, required);
      assert forall i :: 0 < i < |properties| ==> properties[i] == rest[i - 1];
      assert forall i :: 0 <= i < |rest| ==> rest[i] == properties[i + 1];
    }
  }

  predicate GoodAlone(p: Property, top: bool, required: seq<Option<string>>) {
    var kind := KindOf(p.schema, top);
    && p.schema.typeField.Text?
    && (kind.Some? ==> Checks(p.schema, kind.value, p.name, required))
    && (kind == Some(ObjectKind) ==> Good(p.schema.properties, false, p.schema.required))
  }

  lemma GoodStep(properties: seq<Property>, top: bool, required: seq<Option<string>>)
    requires properties != []
    ensures Good(properties, top, required)
       <==> Good(properties[..1], top, required) && Good(properties[1..], top, required)
  {
  }

  lemma {:induction false} GoodOne(p: Property, top: bool, required: seq<Option<string>>, kind: Kind)
    requires KindOf(p.schema, top) == Some(kind)
    ensures Good([p], top, required)
       <==> Checks(p.schema, kind, p.name, required)
            && (kind == ObjectKind ==> Good(p.schema.properties, false, p.schema.required))
  {
    assert p.schema.typeField.Text?;
    hide KindOf, Checks;
    assert [p][1..] == [] && Good([p][1..], top, required);
  }

  /** An object: its own item, then its properties. */
  lemma LayoutObject(p: Property, top: bool, at: nat, parent: int)
    requires KindOf(p.schema, top) == Some(ObjectKind)
    ensures var kids := Layout(p.schema.properties, false, at + 1, at);
            Layout([p], top, at, parent) == [Item(Label(p, ObjectKind), parent, at + 1 + |kids|)] + kids
  {
    var kids := Pruned(p.schema.properties, false);
    assert [p][1..] == [];
    assert Pruned([p], top) == Cons(Label(p, ObjectKind), kids, Empty);
    assert Flat<Label>(Empty, at + 1 + Size(kids), parent) == [];
  }

  lemma LayoutLeaf(p: Property, top: bool, at: nat, parent: int)
    requires KindOf(p.schema, top) != Some(ObjectKind)
    ensures var kind := KindOf(p.schema, top);
            Layout([p], top, at, parent) == if kind == None then [] else [Item(Label(p, kind.value), parent, 0)]
  {
    assert [p][1..] == [];
    assert Pruned([p][1..], top) == Empty;
  }

  /** The tree of a whole schema. */
  function TreeOf(root: Schema): Forest<Label> {
    Pruned([Property([], root)], true)
  }

  /** The array is the preorder of a schema, and short enough for its indices. */
  predicate Built(items: seq<Item>, root: Schema) {
    items == Layout([Property([], root)], true, 0, NO_PARENT) && |items| < NO_PARENT
  }

  /** The properties an item has in the array. */
  function PropertiesOf(item: Item): seq<Property> {
    if item.what.kind == ObjectKind then item.what.property.schema.properties else []
  }

  lemma {:induction false} KidsPruned(properties: seq<Property>, top: bool, at: nat, parent: int, i: nat)
    requires at <= i < at + Size(Pruned(properties, top))
    ensures var f := Pruned(properties, top);
            KidsAt(f, at, i) == Pruned(PropertiesOf(ItemOf(EntryAt(f, at, parent, i))), false)
    ensures var what := EntryAt(Pruned(properties, top), at, parent, i).value;
            KindOf(what.property.schema, top && i == at) == Some(what.kind)
  {
    var s := properties[0].schema;
    if KindOf(s, top) == None {
      KidsPruned(properties[1..], top, at, parent, i);
    } else {
      var next := at + 1 + Size(Pruned(properties, top).kids);
      if at < i < next {
        KidsPruned(s.properties, false, at + 1, at, i);
      } else if i >= next {
        KidsPruned(properties[1..], top, next, parent, i);
      }
    }
  }

  /** The indices of the items directly below p. */
  ghost function Children(items: seq<Item>, root: Schema, p: nat): seq<nat>
    requires Built(items, root) && p < |items|
  {
    Starts(KidsAt(TreeOf(root), 0, p), p + 1)
  }

  /** Where the iterator starts looking for a first property. */
  predicate Iterable(item: Item) {
    var s := item.what.property.schema;
    s.typeField.Text? && Begins(s.typeField.text, "object") && s.properties != []
  }

  lemma IterableIs(item: Item)
    ensures Iterable(item)
       <==> var s := item.what.property.schema;
            && s.properties != []
            && match s.typeField
               case Missing => false
               case Text(text) => |text| <= 6 && text == "object"[..|text|]
  {
  }

  /** Which of those have none: a type text that is empty is taken for an array, and an object
      may have no property of a recognised type. */
  lemma OverrunIs(items: seq<Item>, root: Schema, p: nat)
    requires Built(items, root) && p < |items|
    ensures var s := items[p].what.property.schema;
            Iterable(items[p]) && Children(items, root, p) == []
            <==> Iterable(items[p]) && (s.typeField.text == [] || Recognised(s.properties) == [])
  {
    ItemIs(items, root, p);
    var text := items[p].what.property.schema.typeField.text;
    if Begins(text, "object") && text != [] {
      assert text[0] == "object"[0] && text[0] != "array"[0];
    }
  }

  /** Two schemas that are parsed and have such an item at their root: an object whose one
      property is of no recognised type, and an empty type text. */
  lemma OverrunExample(text: string, items: seq<Item>)
    requires text == "object" || text == ""
    ensures var p := Property("a", Schema(Text("date"), map[], [], [], []));
            var root := Schema(Text(text), map[], [], [], [p]);
            && Good([Property([], root)], true, []) && KindOf(root, true).Some?
            && (items == Layout([Property([], root)], true, 0, NO_PARENT) ==>
                  Built(items, root) && items != [] && Iterable(items[0]) && Children(items, root, 0) == [])
  {
    var p := Property("a", Schema(Text("date"), map[], [], [], []));
    var root := Schema(Text(text), map[], [], [], [p]);
    FirstLetter("date", "array");
    FirstLetter("date", "object");
    FirstLetter("date", "boolean");
    FirstLetter("date", "integer");
    FirstLetter("date", "number");
    FirstLetter("date", "string");
    assert KindOf(p.schema, false) == None;
    assert [p][1..] == [] && Pruned([p], false) == Empty;
    var r := Property([], root);
    assert [r][1..] == [];
    var kind := if text == "object" then ObjectKind else ArrayKind;
    assert KindOf(root, true) == Some(kind);
    assert Good([p], false, []);
    assert Pruned([r], true) == Cons(Label(r, kind), Empty, Empty);
    if items == Layout([r], true, 0, NO_PARENT) {
      OverrunIs(items, root, 0);
    }
  }

  /** Whether a chain of parent links leads from item i up to item p. */
  predicate Below(items: seq<Item>, i: nat, p: nat)
    requires i < |items|
    decreases i
  {
    var q := items[i].parent;
    i == p || (0 <= q < i && Below(items, q, p))
  }

  /** An object's lastChild is one past its last descendant. */
  lemma {:induction false} LastChildIs(items: seq<Item>, root: Schema, i: nat, p: nat)
    requires Built(items, root) && p < |items| && i < |items|
    ensures items[p].what.kind == ObjectKind ==> (Below(items, i, p) <==> p <= i < items[p].lastChild)
  {
    ItemAt(items, root, p);
    DescendantsAre(TreeOf(root), NO_PARENT, i, p);
    BelowDescends(items, root, i, p);
  }

  lemma {:induction false} BelowDescends(items: seq<Item>, root: Schema, i: nat, p: nat)
    requires Built(items, root) && i < |items|
    ensures |items| == Size(TreeOf(root)) && (Below(items, i, p) <==> Descends(TreeOf(root), NO_PARENT, i, p))
    decreases i
  {
    ItemAt(items, root, i);
    var q := items[i].parent;
    if 0 <= q < i {
      BelowDescends(items, root, q, p);
    }
  }

  /** What the array says of an item: the items that link to it are its recognised properties
      in order, and its kind is that of its type. */
  lemma ItemIs(items: seq<Item>, root: Schema, p: nat)
    requires Built(items, root) && p < |items|
    ensures KindOf(items[p].what.property.schema, p == 0) == Some(items[p].what.kind)
    ensures var c := Children(items, root, p);
            && |c| == |Recognised(PropertiesOf(items[p]))|
            && (forall k :: 0 <= k < |c| ==>
                  p < c[k] < |items| && items[c[k]].what == Recognised(PropertiesOf(items[p]))[k])
            && (forall a, b :: 0 <= a < b < |c| ==> c[a] < c[b])
            && (forall j :: 0 <= j < |items| ==> (items[j].parent == p <==> j in c))
            && (forall j <- c :: items[p].what.kind == ObjectKind && j < items[p].lastChild)
    ensures |items| == Size(TreeOf(root))
    ensures items[p].what.kind == ObjectKind ==> p < items[p].lastChild <= |items|
  {
    var f := TreeOf(root);
    var kids := KidsAt(f, 0, p);
    var c := Children(items, root, p);
    ItemAt(items, root, p);
    KidsPruned([Property([], root)], true, 0, NO_PARENT, p);
    PrunedLabels(PropertiesOf(items[p]));
    StartsWithin(kids, p + 1);
    BlockIs(f, 0, NO_PARENT, p, p);
    forall k | 0 <= k < |c|
      ensures p < c[k] < |items| && items[c[k]].what == Recognised(PropertiesOf(items[p]))[k]
    {
      StartLabel(kids, p + 1, p, k);
      BlockIs(f, 0, NO_PARENT, p, c[k]);
      ItemAt(items, root, c[k]);
    }
    forall j | 0 <= j < |items|
      ensures items[j].parent == p <==> j in c
    {
      ItemAt(items, root, j);
      ChildrenAre(f, NO_PARENT, p, j);
    }
  }

  lemma ChildrenWithin(items: seq<Item>, root: Schema, p: nat)
    requires Built(items, root) && p < |items|
    ensures forall k :: 0 <= k < |Children(items, root, p)| ==> Children(items, root, p)[k] < |items|
    ensures !Iterable(items[p]) ==> Children(items, root, p) == []
  {
    ItemIs(items, root, p);
  }

  lemma YieldedAre(items: seq<Item>, root: Schema, p: nat, out: seq<Item>)
    requires Built(items, root) && p < |items| && |out| == |Children(items, root, p)|
    requires forall k :: 0 <= k < |out| ==>
               var c := Children(items, root, p)[k]; c < |items| && out[k] == items[c]
    ensures |out| == |Recognised(PropertiesOf(items[p]))|
    ensures forall k :: 0 <= k < |out| ==>
              out[k].what == Recognised(PropertiesOf(items[p]))[k] && out[k].parent == p
  {
    ItemIs(items, root, p);
    forall k | 0 <= k < |out| ensures out[k].parent == p {
      assert Children(items, root, p)[k] in Children(items, root, p);
    }
  }

  lemma ItemAt(items: seq<Item>, root: Schema, i: nat)
    requires Built(items, root) && i < |items|
    ensures |items| == Size(TreeOf(root)) && items[i] == ItemOf(EntryAt(TreeOf(root), 0, NO_PARENT, i))
  {
    FlatAt(TreeOf(root), 0, NO_PARENT, i);
  }

  /** An object's item, blank at first, and its properties: with lastChild filled in they are
      its layout. */
  lemma {:induction false} ObjectLaid(p: Property, top: bool, before: seq<Item>, parent: int, items: seq<Item>)
    requires KindOf(p.schema, top) == Some(ObjectKind)
    requires var idx := |before|;
             items == before + [Item(Label(p, ObjectKind), parent, 0)]
                      + Layout(p.schema.properties, false, idx + 1, idx)
    ensures |before| < |items|
    ensures items[|before| := Item(Label(p, ObjectKind), parent, |items|)]
         == before + Layout([p], top, |before|, parent)
  {
    LayoutObject(p, top, |before|, parent);
    hide *;
    Patched(before, Item(Label(p, ObjectKind), parent, 0), Layout(p.schema.properties, false, |before| + 1, |before|), |items|);
  }

  lemma PatchKeeps(before: seq<Item>, x: Item, items: seq<Item>, y: Item)
    requires before + [x] <= items
    ensures items[|before|] == x && before <= items[|before| := y]
  {
  }

  lemma Patched(before: seq<Item>, x: Item, kids: seq<Item>, last: nat)
    ensures (before + [x] + kids)[|before|] == x
    ensures (before + [x] + kids)[|before| := x.(lastChild := last)] == before + ([x.(lastChild := last)] + kids)
  {
  }

  class Items {
    var items: seq<Item>

    constructor ()
      ensures items == []
    {
      items := [];
    }

    /** app_json_schema_parse_schema_json */
    method ParseSchema(p: Property, parent: int, required: seq<Option<string>>) returns (ok: bool)
      modifies this
      ensures ok <==> Good([p], old(items) == [], required)
      ensures ok ==> items == old(items) + Layout([p], old(items) == [], |old(items)|, parent)
      ensures old(items) <= items
      decreases p, 2
    {
      var top := items == [];
      assert [p][1..] == [];
      ok := false;
      if p.schema.typeField.Text? {
        ok := true;
        var kind := Recognise(p.schema.typeField.text, top);
        if kind.Some? {
          ok := AllocateItem(p, kind.value, parent, required);
        } else {
          LayoutLeaf(p, top, |items|, parent);
        }
      }
    }

    /** app_json_schema_allocate_item */
    method AllocateItem(p: Property, kind: Kind, parent: int, required: seq<Option<string>>) returns (ok: bool)
      requires KindOf(p.schema, items == []) == Some(kind)
      modifies this
      ensures ok <==> Good([p], old(items) == [], required)
      ensures ok ==> items == old(items) + Layout([p], old(items) == [], |old(items)|, parent)
      ensures old(items) <= items
      decreases p, 1
    {
      ghost var before := items;
      var blank := Item(Label(p, kind), parent, 0);
      items := items + [blank];
      GoodOne(p, before == [], required, kind);
      hide *;
      ok := CheckKeywords(p.schema, kind, p.name, required);
      if kind == ObjectKind {
        var idx := |items| - 1;
        ok := AddProperties(p, idx, ok);
        PatchKeeps(before, blank, items, Item(Label(p, kind), parent, |items|));
        if ok {
          ObjectLaid(p, before == [], before, parent, items);
        }
        items := items[idx := Item(Label(p, kind), parent, |items|)];
      } else {
        LayoutLeaf(p, before == [], |before|, parent);
      }
    }

    /** The loop over the properties, while all is well. */
    method AddProperties(p: Property, idx: nat, checks: bool) returns (ok: bool)
      requires items != []
      modifies this
      ensures ok <==> checks && Good(p.schema.properties, false, p.schema.required)
      ensures ok ==> items == old(items) + Layout(p.schema.properties, false, |old(items)|, idx)
      ensures old(items) <= items
      decreases p, 0
    {
      hide Layout, Good, Begins;
      var properties, required := p.schema.properties, p.schema.required;
      ok := checks;
      var k := 0;
      while ok && k < |properties|
        invariant k <= |properties|
        invariant old(items) <= items
        invariant checks && Good(properties, false, required) <==> ok && Good(properties[k..], false, required)
        invariant ok ==> items + Layout(properties[k..], false, |items|, idx)
                         == old(items) + Layout(properties, false, |old(items)|, idx)
      {
        var rest := properties[k..];
        LayoutStep(rest, false, |items|, idx);
        GoodStep(rest, false, required);
        assert rest[..1] == [properties[k]] && rest[1..] == properties[k + 1..];
        ok := ParseSchema(properties[k], idx, required);
        k := k + 1;
      }
      NothingLaid(false, required, |items|, idx);
      assert ok ==> properties[k..] == [];
    }

    /** app_json_schema_parse */
    method Parse(root: Schema) returns (status: Status)
      requires items == []
      modifies this
      ensures status == Success <==> Good([Property([], root)], true, []) && KindOf(root, true) != None
      ensures status == Success ==>
                && items == Layout([Property([], root)], true, 0, NO_PARENT)
                && items != [] && items[0].parent == 0xFFFF_FFFF
    {
      var p := Property([], root);
      var ok := ParseSchema(p, NO_PARENT, []);
      assert [p][1..] == [];
      if KindOf(root, true) == Some(ObjectKind) {
        LayoutObject(p, true, 0, NO_PARENT);
      } else {
        LayoutLeaf(p, true, 0, NO_PARENT);
      }
      status := if ok && items != [] then Success else ParseError;
    }

    /** app_json_schema_object_iterator */
    method ObjectIterator(item: nat, ghost root: Schema) returns (result: Step)
      requires Built(items, root) && item < |items|
      ensures result == if !Iterable(items[item]) then End
                        else if Children(items, root, item) == [] then Overrun
                        else At(Children(items, root, item)[0])
    {
      result := End;
      ItemIs(items, root, item);
      var s := items[item].what.property.schema;
      if Begins(s.typeField.text, "object") && |s.properties| > 0 {
        ghost var children := Children(items, root, item);
        var i := item;
        while i < |items| && items[i].parent != item
          invariant item <= i <= |items|
          invariant forall j :: item <= j < i ==> j !in children
        {
          i := i + 1;
        }
        NextStart(children, -1, item, i);
        result := if i < |items| then At(i) else Overrun;
      }
    }

    /** app_json_schema_object_iterator_next, from the k-th property to the next. */
    method ObjectIteratorNext(item: nat, iter: nat, ghost root: Schema, ghost k: nat) returns (result: Step)
      requires Built(items, root) && item < |items| && Iterable(items[item])
      requires k < |Children(items, root, item)| && iter == Children(items, root, item)[k]
      ensures result == if k + 1 < |Children(items, root, item)| then At(Children(items, root, item)[k + 1]) else End
    {
      result := End;
      ItemIs(items, root, item);
      ghost var children := Children(items, root, item);
      var s := items[item].what.property.schema;
      if Begins(s.typeField.text, "object") {
        var parent, last := items[iter].parent, items[item].lastChild;
        if iter < last {
          var c := iter + 1;
          while c < last && items[c].parent != parent
            invariant iter < c <= last
            invariant forall j :: iter < j < c ==> j !in children
          {
            c := c + 1;
          }
          NextStart(children, k, iter + 1, c);
          if c < last {
            result := At(c);
          }
        }
      }
    }

    /** The loop a caller runs over an item's properties (src/control/control_config.c). */
    method Properties(item: nat, ghost root: Schema) returns (out: seq<Item>, overrun: bool)
      requires Built(items, root) && item < |items|
      ensures overrun <==> Iterable(items[item]) && Recognised(PropertiesOf(items[item])) == []
      ensures |out| == if overrun then 0 else |Recognised(PropertiesOf(items[item]))|
      ensures forall k :: 0 <= k < |out| ==>
                out[k].what == Recognised(PropertiesOf(items[item]))[k] && out[k].parent == item
    {
      hide *;
      ChildrenWithin(items, root, item);
      ghost var children := Children(items, root, item);
      out := [];
      var iter := ObjectIterator(item, root);
      overrun := iter == Overrun;
      while iter.At?
        invariant overrun ==> iter == Overrun && out == [] && children == []
        invariant |out| <= |children|
        invariant !overrun ==> iter == if |out| < |children| then At(children[|out|]) else End
        invariant iter.At? ==> Iterable(items[item])
        invariant forall k :: 0 <= k < |out| ==> out[k] == items[children[k]]
        decreases |children| - |out|
      {
        var value := items[iter.index];
        iter := ObjectIteratorNext(item, iter.index, root, |out|);
        out := out + [value];
      }
      YieldedAre(items, root, item, out);
    }
  }
}
