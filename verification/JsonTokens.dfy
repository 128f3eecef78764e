/** Walking the tokens of a parsed document, src/utilities/app_json_decode.c with parent links
    (JSMN_PARENT_LINKS). */
module JsonTokens {
  import opened Wrappers
  import opened Preorder

  datatype TokenType = OBJECT | ARRAY | STRING | PRIMITIVE

  /** jsmntok_t without its parent link. */
  datatype Token = Token(kind: TokenType, start: int, end: int, size: nat)

  /** jsmntok_t */
  datatype Linked = Linked(token: Token, parent: int)

  datatype Status = Success | BadRequest | NotFound | NotInitialized

  const SIZE_MAX := 0xFFFF_FFFF_FFFF_FFFF

  /** The bound under which `int` and `unsigned int` hold every token index. */
  const TOKEN_MAX := 0x7FFF_FFFF

  /** What jsmn_parse promises of its tokens: the preorder layout of the document (a key holds
      its value), the number of children as size, keys in objects and no keys in arrays, and
      spans that end before whatever follows. */
  ghost predicate WellFormed(tokens: seq<Linked>, f: Forest<Token>) {
    && |tokens| == Size(f) <= TOKEN_MAX
    && (forall i :: 0 <= i < |tokens| ==> LinkedAs(tokens[i], EntryAt(f, 0, -1, i)))
    && (forall i :: 0 <= i < |tokens| ==> tokens[i].token.size == |Labels(KidsAt(f, 0, i))|)
    && (forall i, j :: 0 <= i < |tokens| && 0 <= j < |tokens| && tokens[j].parent == i ==>
          Fits(tokens[i].token, tokens[j].token))
    && (forall i, j :: 0 <= i < j < |tokens| && IsContainer(tokens[i].token) ==>
          (tokens[j].token.start < tokens[i].token.end <==> j < EntryAt(f, 0, -1, i).end))
  }

  predicate LinkedAs(t: Linked, e: Entry<Token>) {
    t.token == e.value && t.parent == e.parent
  }

  predicate IsContainer(t: Token) {
    t.kind == OBJECT || t.kind == ARRAY
  }

  predicate IsKey(t: Token) {
    t.kind == STRING && t.size == 1
  }

  /** What may be below what. */
  predicate Fits(above: Token, below: Token) {
    match above.kind
    case OBJECT => IsKey(below)
    case ARRAY => !IsKey(below)
    case STRING => !IsKey(below)
    case PRIMITIVE => false
  }

  /** The tokens directly below p, in order. */
  ghost function Children(tokens: seq<Linked>, f: Forest<Token>, p: nat): (r: seq<nat>)
    requires WellFormed(tokens, f) && p < |tokens|
    ensures |r| == tokens[p].token.size
  {
    Starts(KidsAt(f, 0, p), p + 1)
  }

  /** They are exactly the tokens with a link to p, ascending, inside p's block; the first one
      follows p at once. */
  lemma {:induction false} ChildrenByLink(tokens: seq<Linked>, f: Forest<Token>, p: nat)
    requires WellFormed(tokens, f) && p < |tokens|
    ensures forall j :: 0 <= j < |tokens| ==> (j in Children(tokens, f, p) <==> tokens[j].parent == p)
    ensures var c := Children(tokens, f, p);
            && (forall a, b :: 0 <= a < b < |c| ==> c[a] < c[b])
            && (forall a :: 0 <= a < |c| ==> p < c[a] < EntryAt(f, 0, -1, p).end <= |tokens|)
            && (|c| > 0 ==> c[0] == p + 1)
  {
    hide Flat, EntryAt;
    BlockIs(f, 0, -1, p, p);
    StartsWithin(KidsAt(f, 0, p), p + 1);
    forall j | 0 <= j < |tokens| ensures j in Children(tokens, f, p) <==> tokens[j].parent == p {
      ChildrenAre(f, -1, p, j);
    }
  }

  /** A parsed document. */
  class Decoder {
    const tokens: seq<Linked>
    const buf: string
    ghost const doc: Forest<Token>

    constructor (tokens: seq<Linked>, buf: string, ghost doc: Forest<Token>)
      requires WellFormed(tokens, doc)
      ensures Valid() && this.tokens == tokens && this.buf == buf && this.doc == doc
    {
      this.tokens, this.buf, this.doc := tokens, buf, doc;
    }

    ghost predicate Valid() {
      WellFormed(tokens, doc)
    }

    /** app_json_decode_array_iterator */
    method ArrayIterator(item: nat) returns (iter: Option<nat>)
      requires Valid() && item < |tokens|
      ensures tokens[item].token.kind == ARRAY ==>
                iter == if Children(tokens, doc, item) == [] then None else Some(Children(tokens, doc, item)[0])
      ensures tokens[item].token.kind != ARRAY ==> iter == None
    {
      ChildrenByLink(tokens, doc, item);
      iter := None;
      if tokens[item].token.kind == ARRAY && tokens[item].token.size > 0 {
        iter := Some(item + 1);
      }
    }

    /** app_json_decode_object_iterator */
    method ObjectIterator(item: nat) returns (iter: Option<nat>)
      requires Valid() && item < |tokens|
      ensures tokens[item].token.kind == OBJECT ==>
                iter == if Children(tokens, doc, item) == [] then None else Some(Children(tokens, doc, item)[0])
      ensures tokens[item].token.kind != OBJECT ==> iter == None
    {
      ChildrenByLink(tokens, doc, item);
      iter := None;
      if tokens[item].token.kind == OBJECT && tokens[item].token.size > 0 {
        iter := Some(item + 1);
      }
    }

    /** app_json_decode_array_iterator_next and app_json_decode_object_iterator_next, which
        are the same: from the k-th child to the next. */
    method IteratorNext(item: nat, iter: nat, ghost k: nat) returns (result: Option<nat>)
      requires Valid() && item < |tokens| && IsContainer(tokens[item].token)
      requires k < tokens[item].token.size && iter == Children(tokens, doc, item)[k]
      ensures result == if k + 1 < tokens[item].token.size then Some(Children(tokens, doc, item)[k + 1]) else None
    {
      ghost var children := Children(tokens, doc, item);
      ChildrenByLink(tokens, doc, item);
      var objEndPos := tokens[item].token.end;
      var idx := iter + 1;
      while idx < |tokens| && tokens[idx].token.start < objEndPos && tokens[idx].parent != item
        invariant iter < idx <= |tokens|
        invariant forall j :: iter < j < idx ==> j !in children
      {
        idx := idx + 1;
      }
      NextStart(children, k, iter + 1, idx);
      result := if idx >= |tokens| || tokens[idx].token.start >= objEndPos then None else Some(idx);
    }

    /** app_json_decode_array_iterator_value and app_json_decode_object_iterator_value: an
        element is its own value, a key's value is the one token below it. */
    method IteratorValue(item: nat, iter: nat) returns (value: nat)
      requires Valid() && item < |tokens| && iter in Children(tokens, doc, item)
      ensures value < |tokens| && iter < |tokens|
      ensures tokens[item].token.kind == ARRAY ==> value == iter
      ensures tokens[item].token.kind == OBJECT ==>
                IsKey(tokens[iter].token) && Children(tokens, doc, iter) == [value] && tokens[value].parent == iter
    {
      ChildrenByLink(tokens, doc, item);
      assert Fits(tokens[item].token, tokens[iter].token);
      value := iter;
      if tokens[iter].token.kind == STRING && tokens[iter].token.size == 1 {
        ChildrenByLink(tokens, doc, iter);
        value := iter + 1;
        assert value in Children(tokens, doc, iter);
      }
    }

    /** The loop every caller runs over an array. */
    method Elements(item: nat) returns (out: seq<nat>)
      requires Valid() && item < |tokens|
      ensures tokens[item].token.kind == ARRAY ==> out == Children(tokens, doc, item) && |out| == tokens[item].token.size
      ensures tokens[item].token.kind != ARRAY ==> out == []
    {
      out := [];
      var iter := ArrayIterator(item);
      while iter.Some?
        invariant iter.Some? ==> tokens[item].token.kind == ARRAY
        invariant tokens[item].token.kind == ARRAY ==>
                    Walked(Children(tokens, doc, item), out, iter)
        invariant tokens[item].token.kind != ARRAY ==> out == []
        decreases tokens[item].token.size - |out|
      {
        var value := IteratorValue(item, iter.value);
        iter := IteratorNext(item, iter.value, |out|);
        out := out + [value];
      }
    }

    /** The loop every caller runs over an object: its keys with their values. */
    method Pairs(item: nat) returns (keys: seq<nat>, values: seq<nat>)
      requires Valid() && item < |tokens|
      ensures tokens[item].token.kind == OBJECT ==> keys == Children(tokens, doc, item)
      ensures tokens[item].token.kind != OBJECT ==> keys == []
      ensures |values| == |keys|
      ensures forall k :: 0 <= k < |keys| ==> keys[k] < |tokens| && Children(tokens, doc, keys[k]) == [values[k]]
    {
      keys, values := [], [];
      var iter := ObjectIterator(item);
      while iter.Some?
        invariant iter.Some? ==> tokens[item].token.kind == OBJECT
        invariant tokens[item].token.kind == OBJECT ==> Walked(Children(tokens, doc, item), keys, iter)
        invariant tokens[item].token.kind != OBJECT ==> keys == []
        invariant |values| == |keys|
        invariant forall k :: 0 <= k < |keys| ==> keys[k] < |tokens| && Children(tokens, doc, keys[k]) == [values[k]]
        decreases tokens[item].token.size - |keys|
      {
        ChildrenByLink(tokens, doc, item);
        assert iter.value in Children(tokens, doc, item);
        var value := IteratorValue(item, iter.value);
        var next := IteratorNext(item, iter.value, |keys|);
        keys, values := keys + [iter.value], values + [value];
        iter := next;
      }
    }

    /** app_json_decode_array_at */
    method ArrayAt(item: nat, index: nat) returns (status: Status, obj: Option<nat>)
      requires Valid() && item < |tokens| && index <= SIZE_MAX
      ensures tokens[item].token.kind != ARRAY ==> status == BadRequest && obj == None
      ensures tokens[item].token.kind == ARRAY ==>
                && obj == At(tokens, doc, item, index)
                && status == if obj == None then NotFound else Success
    {
      status, obj := BadRequest, None;
      if tokens[item].token.kind == ARRAY {
        ghost var children := Children(tokens, doc, item);
        ChildrenByLink(tokens, doc, item);
        var arrayIdx := -1;
        var idx := item + 1;
        while obj == None && idx < |tokens|
          invariant item < idx <= |tokens|
          invariant -1 <= arrayIdx < idx && arrayIdx < |children|
          invariant arrayIdx < 0 ==> forall a :: 0 <= a < |children| ==> idx <= children[a]
          invariant arrayIdx >= 0 ==> children[arrayIdx] < idx
          invariant forall a :: arrayIdx < a < |children| ==> idx <= children[a]
          invariant obj == None ==> arrayIdx < index
          invariant obj == None && idx > item + 1 && arrayIdx < 0 ==> index != SIZE_MAX
          invariant obj != None ==> obj == At(tokens, doc, item, index)
        {
          if tokens[idx].parent == item {
            arrayIdx := arrayIdx + 1;
            assert idx in children;
          }
          if (if arrayIdx < 0 then SIZE_MAX else arrayIdx) == index {
            obj := Some(idx);
          }
          idx := idx + 1;
        }
        status := if obj == None then NotFound else Success;
      }
    }
  }

  /** What iteration has done: taken a prefix of the children, standing on the next. */
  predicate Walked(children: seq<nat>, out: seq<nat>, iter: Option<nat>) {
    && |out| <= |children| && out == children[..|out|]
    && iter == if |out| < |children| then Some(children[|out|]) else None
  }

  /** What app_json_decode_array_at finds: the element of that index, save that on an empty
      array the largest index matches the count's starting value -1 at the next token. */
  ghost function At(tokens: seq<Linked>, f: Forest<Token>, item: nat, index: nat): (r: Option<nat>)
    requires WellFormed(tokens, f) && item < |tokens|
  {
    var c := Children(tokens, f, item);
    if index < |c| then Some(c[index])
    else if index == SIZE_MAX && c == [] && item + 1 < |tokens| then Some(item + 1)
    else None
  }

  /** It is the element exactly when the index is not that one, or there is an element, or
      nothing follows the array. */
  lemma AtIsElement(tokens: seq<Linked>, f: Forest<Token>, item: nat, index: nat)
    requires WellFormed(tokens, f) && item < |tokens|
    ensures var c := Children(tokens, f, item);
            At(tokens, f, item, index) == (if index < |c| then Some(c[index]) else None)
            <==> index != 0xFFFF_FFFF_FFFF_FFFF || c != [] || item + 1 == |tokens|
  {
  }

  /** The document [[],1]: the empty array has no element, but one is found. */
  lemma AtFindsTooMuch(tokens: seq<Linked>, f: Forest<Token>)
    requires f == Cons(Token(ARRAY, 0, 6, 2),
                       Cons(Token(ARRAY, 1, 3, 0), Empty, Cons(Token(PRIMITIVE, 4, 5, 0), Empty, Empty)), Empty)
    requires |tokens| == 3 && forall i :: 0 <= i < 3 ==> LinkedAs(tokens[i], EntryAt(f, 0, -1, i))
    ensures WellFormed(tokens, f) && Children(tokens, f, 1) == [] && At(tokens, f, 1, 0xFFFF_FFFF_FFFF_FFFF) == Some(2)
  {
    assert Size(f) == 3;
    assert KidsAt(f, 0, 0) == f.kids && KidsAt(f, 0, 1) == Empty && KidsAt(f, 0, 2) == Empty;
    assert |Labels(f.kids)| == 2;
  }

  /** The tokens of {"a":[1,true]}, and what is below each. */
  lemma {:induction false} ObjectTokens(tokens: seq<Linked>, f: Forest<Token>)
    requires f == Cons(Token(OBJECT, 0, 14, 1),
                       Cons(Token(STRING, 2, 3, 1),
                            Cons(Token(ARRAY, 5, 13, 2),
                                 Cons(Token(PRIMITIVE, 6, 7, 0), Empty, Cons(Token(PRIMITIVE, 8, 12, 0), Empty, Empty)),
                                 Empty),
                            Empty),
                       Empty)
    requires tokens == [Linked(Token(OBJECT, 0, 14, 1), -1), Linked(Token(STRING, 2, 3, 1), 0),
                        Linked(Token(ARRAY, 5, 13, 2), 1), Linked(Token(PRIMITIVE, 6, 7, 0), 2),
                        Linked(Token(PRIMITIVE, 8, 12, 0), 2)]
    ensures WellFormed(tokens, f) && Children(tokens, f, 0) == [1] && Children(tokens, f, 1) == [2]
    ensures Children(tokens, f, 2) == [3, 4] && Children(tokens, f, 3) == [] && Children(tokens, f, 4) == []
  {
    hide Size, KidsAt, EntryAt, Labels, Starts;
    ObjectLayout(f, f.kids, f.kids.kids, f.kids.kids.kids, f.kids.kids.kids.rest);
  }

  lemma {:induction false} ObjectLayout(f: Forest<Token>, key: Forest<Token>, list: Forest<Token>, items: Forest<Token>, last: Forest<Token>)
    requires f.Cons? && f.kids == key && f.rest == Empty && key.Cons? && key.kids == list && key.rest == Empty
    requires list.Cons? && list.kids == items && list.rest == Empty && items.Cons? && items.kids == Empty
    requires items.rest == last && last.Cons? && last.kids == Empty && last.rest == Empty
    ensures Size(f) == 5
    ensures KidsAt(f, 0, 0) == key && KidsAt(f, 0, 1) == list && KidsAt(f, 0, 2) == items
    ensures KidsAt(f, 0, 3) == Empty && KidsAt(f, 0, 4) == Empty
    ensures EntryAt(f, 0, -1, 0) == Entry(f.value, -1, 5) && EntryAt(f, 0, -1, 1) == Entry(key.value, 0, 5)
    ensures EntryAt(f, 0, -1, 2) == Entry(list.value, 1, 5) && EntryAt(f, 0, -1, 3) == Entry(items.value, 2, 4)
    ensures EntryAt(f, 0, -1, 4) == Entry(last.value, 2, 5)
    ensures Starts(key, 1) == [1] && Starts(list, 2) == [2] && Starts(items, 3) == [3, 4]
    ensures Starts<Token>(Empty, 4) == [] && Starts<Token>(Empty, 5) == []
  {
    Sizes(f, key, list, items, last);
    hide EntryAt, KidsAt, Size;
    Head(f, 0, -1);
    Head(key, 1, 0);
    Head(list, 2, 1);
    Head(items, 3, 2);
    Head(last, 4, 2);
    Inside(f, 0, -1, 1);
    Inside(f, 0, -1, 2);
    Inside(f, 0, -1, 3);
    Inside(f, 0, -1, 4);
    Inside(key, 1, 0, 2);
    Inside(key, 1, 0, 3);
    Inside(key, 1, 0, 4);
    Inside(list, 2, 1, 3);
    Inside(list, 2, 1, 4);
    After(items, 3, 2, 4);
  }

  lemma Sizes(f: Forest<Token>, key: Forest<Token>, list: Forest<Token>, items: Forest<Token>, last: Forest<Token>)
    requires f.Cons? && f.kids == key && f.rest == Empty && key.Cons? && key.kids == list && key.rest == Empty
    requires list.Cons? && list.kids == items && list.rest == Empty && items.Cons? && items.kids == Empty
    requires items.rest == last && last.Cons? && last.kids == Empty && last.rest == Empty
    ensures Size(last) == 1 && Size(items) == 2 && Size(list) == 3 && Size(key) == 4 && Size(f) == 5
    ensures Size<Token>(Empty) == 0
    ensures Starts(key, 1) == [1] && Starts(list, 2) == [2] && Starts(items, 3) == [3, 4]
    ensures Starts<Token>(Empty, 4) == [] && Starts<Token>(Empty, 5) == []
  {
    assert Starts(last, 4) == [4];
  }

  lemma Head(f: Forest<Token>, at: nat, parent: int)
    requires f.Cons? && Size(f) > 0
    ensures EntryAt(f, at, parent, at) == Entry(f.value, parent, at + 1 + Size(f.kids)) && KidsAt(f, at, at) == f.kids
  {
  }

  lemma Inside(f: Forest<Token>, at: nat, parent: int, i: nat)
    requires f.Cons? && f.rest == Empty && at < i < at + Size(f)
    ensures i < at + 1 + Size(f.kids)
    ensures EntryAt(f, at, parent, i) == EntryAt(f.kids, at + 1, at, i) && KidsAt(f, at, i) == KidsAt(f.kids, at + 1, i)
  {
  }

  lemma After(f: Forest<Token>, at: nat, parent: int, i: nat)
    requires f.Cons? && f.kids == Empty && at < i < at + Size(f)
    ensures i < at + 1 + Size(f.rest)
    ensures EntryAt(f, at, parent, i) == EntryAt(f.rest, at + 1, parent, i) && KidsAt(f, at, i) == KidsAt(f.rest, at + 1, i)
  {
  }
}
