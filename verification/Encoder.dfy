/** The streaming encoder of src/utilities/app_json_encode.c (JSMN build, buffer owned by the
    encoder), proved against the stack of frames of EncoderStack. */
module JsonEncoder {
  import opened Wrappers
  import opened JsonText
  import opened JsonTree
  import opened EncoderStack
  import opened EncoderText
  import opened EncoderWord

  const MAX_INDENT: nat := 30

  /** size_t arithmetic. */
  function Wrap64(n: int): nat { n % 0x1_0000_0000_0000_0000 }

  /** What precedes an item's value: separator, line break, key. */
  function ItemStart(f: Format, s: State, key: string): string {
    Lead(f, Depth(s.open), TopItems(s) == []) + KeyPart(f, TopKind(s.open), key)
  }

  /** The calls there are: values are booleans, strings, and integers that can be negated. */
  predicate Callable(c: Call) {
    c.Leaf? ==> !c.value.Node? && (c.value.Int? ==> -0x8000_0000_0000_0000 < c.value.n < 0x8000_0000_0000_0000)
  }

  class Encoder {
    const f: Format
    /** The allocation; a length of zero stands for a null pointer. */
    var buf: array<char>
    /** The write position, as an index into buf. */
    var cur: nat
    var len: nat
    var structs: bv64
    /** What the calls so far describe. */
    ghost var state: State

    /** The text is the rendering of the stack, followed by `extra`; the recorded length
        covers the text and every closing bracket, and the allocation one character more. */
    ghost predicate Written(extra: string)
      reads this, buf
    {
      && WellNested(state.open)
      && cur <= buf.Length
      && buf[..cur] == Render(f, state) + extra
      && cur + Reserve(f, Depth(state.open)) <= len
      && (buf.Length == 0 ==> state == EMPTY && extra == [])
      && (buf.Length > 0 ==> cur + Reserve(f, Depth(state.open)) < buf.Length)
    }

    /** Written, and the machine word is the packed stack. */
    ghost predicate Holds(extra: string)
      reads this, buf
    {
      && Written(extra)
      && f.indent <= MAX_INDENT
      && |state.open| <= MAX_DEPTH
      && Depth(state.open) <= MAX_DEPTH + 1
      && structs == Word(state.open)
    }

    ghost predicate Valid()
      reads this, buf
    {
      Holds([]) && Stable(state) && (state == EMPTY ==> buf.Length == 0)
    }

    constructor (format: Format)
      requires format.indent <= MAX_INDENT
      ensures Valid() && state == EMPTY && f == format && fresh(buf)
    {
      f := format;
      buf := new char[0];
      cur := 0;
      len := 0;
      structs := 0;
      state := EMPTY;
    }

    // ---------------------------------------------------------- the buffer

    /** *cur++ = c */
    method Emit(c: char)
      requires cur < buf.Length
      modifies this`cur, buf
      ensures cur == old(cur) + 1 && buf[..cur] == old(buf[..cur]) + [c]
    {
      buf[cur] := c;
      cur := cur + 1;
    }

    method EmitSpaces(n: nat)
      requires cur + n <= buf.Length
      modifies this`cur, buf
      ensures cur == old(cur) + n && buf[..cur] == old(buf[..cur]) + Spaces(n)
    {
      var j := n;
      while j > 0
        invariant 0 <= j <= n && cur == old(cur) + n - j <= buf.Length
        invariant buf[..cur] == old(buf[..cur]) + Spaces(n - j)
      {
        Emit(' ');
        j := j - 1;
        assert Spaces(n - j - 1) + [' '] == Spaces(n - j);
      }
    }

    method EmitAll(s: string)
      requires cur + |s| <= buf.Length
      modifies this`cur, buf
      ensures cur == old(cur) + |s| && buf[..cur] == old(buf[..cur]) + s
    {
      for i := 0 to |s|
        invariant cur == old(cur) + i <= buf.Length
        invariant buf[..cur] == old(buf[..cur]) + s[..i]
      {
        Emit(s[i]);
        assert s[..i] + [s[i]] == s[..i + 1];
      }
      assert s[..|s|] == s;
    }

    /** Copies a string with its escapes. */
    method EmitEscaped(s: string, n: nat)
      requires n == |Escape(s)| && cur + n <= buf.Length
      modifies this`cur, buf
      ensures cur == old(cur) + n && buf[..cur] == old(buf[..cur]) + Escape(s)
    {
      FullLengthNeverSplits(s, n);
      StrNCpy(buf, cur, s, n);
      cur := cur + n;
      assert buf[..cur] == old(buf[..cur]) + Escape(s);
    }

    /** app_json_realloc: the text moves with the allocation. */
    method Reallocate(n: nat)
      requires cur <= n && cur <= buf.Length
      modifies this`buf
      ensures fresh(buf) && buf.Length == n && buf[..cur] == old(buf[..cur])
    {
      var a, b, m := new char[n], buf, cur;
      for i := 0 to m
        invariant forall k :: 0 <= k < i ==> a[k] == b[k]
      {
        a[i] := b[i];
      }
      buf := a;
    }

    // ------------------------------------------------------ items and keys

    /** The part of app_json_encode_key that writes: makes room, then the separator, the
        line break and the key. Room is left for the value and for every bracket. */
    method WriteKey(key: Option<string>, valueLen: nat) returns (result: Status)
      requires Holds([])
      requires key.Some? <==> TopKind(state.open) == Object
      modifies this`buf, this`cur, this`len, buf
      ensures fresh(buf)
      ensures result == Success
      ensures Holds(ItemStart(f, state, KeyOf(key)))
      ensures cur + Reserve(f, Depth(state.open)) + valueLen + Pad(f, Depth(state.open)) <= len < buf.Length
    {
      hide Render, Word, KeyText, Lead, KeyPart, Items, Opening, Bits, Escape, LeadLen, IsOpenChar, Reserve,
           WellNested, Depth, TopItems, TopKind, Wrap64, Pad;
      BitsAreDepth(state.open);
      var space := Wrap64(len - cur);
      var depth := CountDepth(structs);
      RenderEnd(f, state);
      var addComma := cur > 0 && !IsOpenChar(buf[cur - 1]);
      EmptyHasNoItems();
      var keyLen := 0;
      if key.Some? {
        keyLen := StrLen(key.value);
      }
      var extraSpace := ExtraSpace(key, addComma, depth);
      var newSpace := len + keyLen + valueLen + extraSpace;
      Reallocate(newSpace + 1);
      len := newSpace;
      space := newSpace;
      if keyLen + valueLen + extraSpace <= space {
        assert buf[..cur] == Render(f, state);
        PutStart(key, keyLen, addComma, depth);
        KeyPartOf(f, TopKind(state.open), key);
        assert buf[..cur] == Render(f, state) + ItemStart(f, state, KeyOf(key));
        assert Written(ItemStart(f, state, KeyOf(key)));
        result := Success;
      } else {
        result := NoMemory;
      }
    }

    /** Writes the separator, the line break and the key. */
    method PutStart(key: Option<string>, keyLen: nat, addComma: bool, depth: nat)
      requires key.Some? ==> keyLen == |Escape(key.value)|
      requires cur + LeadLen(f, depth, !addComma) + KeyLen(f, key) <= buf.Length
      modifies this`cur, buf
      ensures cur == old(cur) + LeadLen(f, depth, !addComma) + KeyLen(f, key)
      ensures buf[..cur] == old(buf[..cur])
                + (Lead(f, depth, !addComma) + KeyPart(f, if key.Some? then Object else Array, KeyOf(key)))
    {
      hide Escape, Lead, LeadLen, KeyText;
      ghost var was := buf[..cur];
      WriteLead(addComma, depth);
      if key.Some? {
        WriteKeyText(key.value, keyLen);
        Group3(was, Lead(f, depth, !addComma), KeyText(f, key.value));
      } else {
        assert Lead(f, depth, !addComma) + [] == Lead(f, depth, !addComma);
      }
    }

    /** The room asked for besides the key and the value. */
    method ExtraSpace(key: Option<string>, addComma: bool, depth: nat) returns (extraSpace: nat)
      ensures extraSpace >= LeadLen(f, depth, !addComma) + (if key.Some? then 3 else 0) + (if f.expand then 1 else 0)
                            + Pad(f, depth)
    {
      extraSpace := 0;
      if key.Some? {
        extraSpace := extraSpace + 3;
      }
      var indent := f.indent;
      if indent > 0 {
        for i := 0 to depth
          invariant extraSpace >= if key.Some? then 3 else 0
        {
          extraSpace := extraSpace + indent * i + 1;
        }
      }
      if addComma {
        extraSpace := extraSpace + 1;
        if indent == 0 && f.expand {
          extraSpace := extraSpace + 1;
        }
      }
      if f.expand {
        extraSpace := extraSpace + 1;
      }
      if indent > 0 {
        extraSpace := extraSpace + indent * 2 * depth + 1;
        assert indent * 2 * depth == indent * depth + indent * depth;
      }
    }

    method WriteLead(addComma: bool, depth: nat)
      requires cur + LeadLen(f, depth, !addComma) <= buf.Length
      modifies this`cur, buf
      ensures cur == old(cur) + LeadLen(f, depth, !addComma)
      ensures buf[..cur] == old(buf[..cur]) + Lead(f, depth, !addComma)
    {
      if addComma {
        Emit(',');
        if f.indent == 0 && f.expand {
          Emit(' ');
        }
      }
      if f.indent > 0 {
        if depth > 0 {
          Emit('\n');
        }
        EmitSpaces(Pad(f, depth));
      }
    }

    method WriteKeyText(key: string, keyLen: nat)
      requires keyLen == |Escape(key)| && cur + keyLen + 3 + (if f.expand then 1 else 0) <= buf.Length
      modifies this`cur, buf
      ensures cur == old(cur) + keyLen + 3 + (if f.expand then 1 else 0)
      ensures buf[..cur] == old(buf[..cur]) + KeyText(f, key)
    {
      hide Escape;
      ghost var was, e := buf[..cur], Escape(key);
      Emit('\"');
      EmitEscaped(key, keyLen);
      EmitAll("\":");
      Group3(was, ['\"'], e);
      Group3(was, ['\"'] + e, "\":");
      if f.expand {
        Emit(' ');
        Group3(was, ['\"'] + e + "\":", [' ']);
      } else {
        assert KeyText(f, key) == ['\"'] + e + "\":";
      }
    }

    /** app_json_encode_key: encloses the item if it must be, then writes its start. */
    method EncodeKey(key0: Option<string>, valueLen: nat) returns (result: Status, added: bool)
      requires Valid()
      modifies this, buf
      ensures fresh(buf) || buf == old(buf)
      ensures result == if Wraps(old(state).open, key0) && Depth(old(state).open) >= MAX_DEPTH then Full else Success
      ensures result == Full ==> Valid() && state == old(state)
      ensures result == Success ==>
                && state == Enclose(old(state), key0)
                && added == Wraps(old(state).open, key0)
                && Holds(ItemStart(f, state, KeyOf(key0)))
                && cur + Reserve(f, Depth(state.open)) + valueLen + Pad(f, Depth(state.open)) <= len < buf.Length
      decreases if key0.Some? then 1 else 0, 0
    {
      hide *;
      KeyFacts(key0);
      StartedIsEnclosed(state, key0);
      result := Success;
      added := false;
      var key := key0;
      if key.Some? && !Has(structs, BitAt(1)) {
        if structs != 0 {
          result := StructStart(None, 2);
          added := true;
        } else {
          result := StructStart(None, 1);
        }
      } else if key.None? && Has(structs, BitAt(1)) {
        key := Some([]);
      }
      if result == Success {
        EncloseKind(old(state), key0);
        result := WriteKey(key, valueLen);
      }
    }

    /** What the tests of the word tell about an item with a key or without. */
    lemma {:induction false} KeyFacts(key: Option<string>)
      requires Valid()
      ensures Holds([]) && Depth([]) < MAX_DEPTH && KeyOf(None) == KeyOf(Some([]))
      ensures structs == 0 <==> state.open == []
      ensures Has(structs, BitAt(1)) <==> TopKind(state.open) == Object
      ensures state.open != [] && TopKind(state.open) != Object ==> Top(state.open).kind == Array
      ensures Wraps(state.open, key) <==> key.Some? && state.open != [] && TopKind(state.open) != Object
      ensures state.open == [] ==> TopKind(state.open) != Object
    {
      hide Word, Has, BitAt, GroupHas, Render, Reserve;
      WordTest(state.open, 1);
      WordZero(state.open);
      StableTop(state);
    }

    /** app_json_encode_struct_start: `t` is the position of the type's bit, 0 for an array,
        1 for an object, 2 for an object added around a keyed item. */
    method StructStart(key: Option<string>, t: nat) returns (result: Status)
      requires Valid() && t < 3
      requires t == 2 ==> key.None? && state.open != [] && Top(state.open).kind == Array
      modifies this, buf
      ensures fresh(buf) || buf == old(buf)
      ensures result == if Depth(old(state).open) >= MAX_DEPTH then Full else Success
      ensures result == Full ==> Valid() && state == old(state)
      ensures result == Success ==>
                && Holds([])
                && state == Started(old(state), key, t)
      decreases if key.Some? then 1 else 0, 1
    {
      hide *;
      result := Full;
      DepthFacts();
      var depth := CountDepth(structs);
      if depth < MAX_DEPTH {
        var added;
        result, added := EncodeKey(key, f.indent + 2);
        if result == Success {
          StartFacts(KeyOf(key));
          EmitOpen(t);
          if !added {
            structs := Shift(structs);
          }
          structs := SetBits(structs, BitAt(t));
          state := Started(old(state), key, t);
          StartHolds(old(state), key, t);
        }
      }
    }

    lemma {:induction false} DepthFacts()
      requires Valid()
      ensures WellNested(state.open) && Depth(state.open) == Bits(structs)
    {
      hide Word, Bits, Render;
      BitsAreDepth(state.open);
    }

    lemma StartFacts(key: string)
      requires Holds(ItemStart(f, state, key))
      ensures structs == Word(state.open) && f.indent <= MAX_INDENT && cur <= buf.Length
      ensures buf[..cur] == Render(f, state) + ItemStart(f, state, key)
    {
    }

    /** The new container's state, once its bracket is written and its bits are set. */
    lemma {:induction false} StartHolds(s0: State, key: Option<string>, t: nat)
      requires t < 3 && (t == 2 ==> key.None? && s0.open != [] && Top(s0.open).kind == Array)
      requires WellNested(s0.open) && Depth(s0.open) < MAX_DEPTH && state == Started(s0, key, t)
      requires f.indent <= MAX_INDENT && cur <= buf.Length
      requires var e := Enclose(s0, key);
               && buf[..cur] == Render(f, e) + ItemStart(f, e, KeyOf(key)) + [OpenChar(if t == 0 then Array else Object)]
               && cur + Reserve(f, Depth(e.open)) + f.indent + 1 + Pad(f, Depth(e.open)) <= len < buf.Length
               && structs == SetBits(if Wraps(s0.open, key) then Word(e.open) else Shift(Word(e.open)), BitAt(t))
      ensures Holds([])
    {
      hide Render, Word, Depth, Reserve, WellNested, ItemStart, Pad, Shift, SetBits, Enclose, Started, ClosingRoom, BitAt, Wraps;
      BeginText(f, s0, key, t);
      BeginWord(s0, key, t);
      BeginNests(s0, key, t);
      ReserveStep(f, Depth(Enclose(s0, key).open));
      assert buf[..cur] == Render(f, state) + [];
    }

    /** Writes the opening bracket of the type. */
    method EmitOpen(t: nat)
      requires t < 3 && cur < buf.Length
      modifies this`cur, buf
      ensures cur == old(cur) + 1
      ensures buf[..cur] == old(buf[..cur]) + [OpenChar(if t == 0 then Array else Object)]
    {
      var i := 3;
      while i > 0
        invariant 0 <= i <= 3 && cur == old(cur) + if i <= t then 1 else 0
        invariant buf[..cur] == old(buf[..cur]) + if i <= t then [OpenChar(if t == 0 then Array else Object)] else []
      {
        OneBit(t, i - 1);
        if Has(BitAt(t), BitAt(i - 1)) {
          Emit(OpenChar(if i - 1 == 0 then Array else Object));
        }
        i := i - 1;
      }
    }

    /** The body of the loop in app_json_encode_struct_end: closes the innermost container,
        whose bit is at position i. The room was set aside when it was opened. */
    method CloseBracket(i: nat, depth: int, space: nat) returns (depth1: int, space1: nat)
      requires Written([]) && state.open != [] && i == CloseBit(Top(state.open))
      requires f.indent > 0 ==> depth == Depth(state.open) - 1
      modifies this`buf, this`cur, this`len, this`state, buf
      ensures fresh(buf) || buf == old(buf)
      ensures Written([]) && state == CloseLevel(old(state))
      ensures depth1 == if f.indent > 0 then depth - 1 else depth
    {
      hide Render, Depth, Reserve, WellNested, Pad, CloseLevel, Wrap64, TopItems, ClosingText, IsOpenChar;
      var indent := f.indent;
      depth1, space1 := depth, space;
      RenderEnd(f, state);
      DepthCloseLevel(state);
      var needed: nat := if indent > 0 then Pad(f, depth) + 2 else 2;
      if needed > space {
        Reallocate(len + needed);
        len := len + needed;
        space1 := Wrap64(space + needed);
      }
      assert buf[..cur] == Render(f, state);
      var breaks := indent > 0 && !IsOpenChar(buf[cur - 1]);
      if indent > 0 {
        if breaks {
          space1 := Wrap64(space1 - (indent + 1));
        }
        depth1 := depth - 1;
      }
      space1 := Wrap64(space1 - 1);
      NextClosing(f, state, depth, breaks);
      cur := WriteClosing(buf, cur, if breaks then Some(Pad(f, depth)) else None, if i == 0 then ']' else '}');
      state := CloseLevel(state);
      assert buf[..cur] == Render(f, state) + [];
    }

    /** app_json_encode_struct_end: refused unless the innermost frame has the type's bit;
        otherwise closes the frame, which is two containers when one was added. */
    method StructEnd(t: nat) returns (result: Status)
      requires Holds([]) && t < 3
      modifies this, buf
      ensures fresh(buf) || buf == old(buf)
      ensures var open := old(state).open;
              result == if open != [] && GroupHas(Top(open), t) then Success else BadRequest
      ensures Holds([]) && state == if result == Success then CloseTop(old(state)) else old(state)
      ensures result != Success ==> buf == old(buf)
    {
      hide Render, Word, Bits, Depth, Reserve, WellNested, Has, Shift, SetBits, TopItems, CloseTop, GroupHas, AfterBits,
           PopGroup, BitAt;
      WordTest(state.open, t);
      BitsAreDepth(state.open);
      result := BadRequest;
      if Has(structs, BitAt(t)) {
        var depth: int := CountDepth(structs);
        depth := depth - 1;
        var space := Wrap64(len - cur);
        ghost var s0 := state;
        ghost var w0 := structs;
        AfterBitsEnds(s0);
        result := Success;
        for i := 0 to 3
          invariant Written([]) && structs == w0 && (fresh(buf) || buf == old(buf))
          invariant state == AfterBits(s0, i)
          invariant f.indent > 0 ==> depth == Depth(state.open) - 1
        {
          WordTest(s0.open, i);
          AfterBitsStep(s0, i);
          if Has(structs, BitAt(i)) {
            DepthCloseLevel(state);
            depth, space := CloseBracket(i, depth, space);
          }
        }
        structs := PopGroup(structs);
        WordCloseTop(s0);
        CloseTopShrinks(s0);
      }
    }

    // ---------------------------------------------------------- the calls

    /** app_json_encode_object_start and app_json_encode_array_start */
    method ContainerStart(key: Option<string>, kind: Kind) returns (result: Status)
      requires Valid()
      modifies this, buf
      ensures Valid() && (fresh(buf) || buf == old(buf))
      ensures (state, result) == Apply(old(state), Start(key, kind))
    {
      hide Render, Word, Depth, Stable, Written, Begin;
      result := StructStart(key, if kind == Array then 0 else 1);
      ApplyStable(old(state), Start(key, kind));
    }

    /** app_json_encode_object_end and app_json_encode_array_end */
    method ContainerEnd(kind: Kind) returns (result: Status)
      requires Valid()
      modifies this, buf
      ensures Valid() && (fresh(buf) || buf == old(buf))
      ensures (state, result) == Apply(old(state), End(kind))
    {
      hide Render, Word, Depth, Written, CloseTop;
      TopHasKind(state.open);
      result := StructEnd(if kind == Array then 0 else 1);
      ApplyStable(old(state), End(kind));
    }

    /** Common end of the calls that write a value: with the value's text written, the item
        is complete, and an object added around it is closed. */
    method FinishValue(added: bool, ghost s0: State, ghost key: Option<string>, ghost v: Json)
        returns (result: Status)
      requires Stable(s0) && state == Enclose(s0, key) && added == Wraps(s0.open, key)
      requires (key.None? ==> s0.open != []) && Apply(s0, Leaf(key, v)).1 == Success
      requires Holds(ItemStart(f, state, KeyOf(key)) + Text(f, Depth(state.open), v))
      modifies this, buf
      ensures fresh(buf) || buf == old(buf)
      ensures Valid() && (state, result) == Apply(s0, Leaf(key, v))
    {
      hide Render, Word, Reserve, Written, CloseTop, ItemStart;
      result := Success;
      AddValue(KeyOf(key), v);
      if added {
        CloseAdded(s0, key, v);
        result := StructEnd(2);
      }
      ApplyStable(s0, Leaf(key, v));
      assert state == Apply(s0, Leaf(key, v)).0;
      assert Stable(state);
    }

    /** app_json_encode_bool */
    method EncodeBool(key: Option<string>, value: bool) returns (result: Status)
      requires Valid()
      modifies this, buf
      ensures Valid() && (fresh(buf) || buf == old(buf))
      ensures (state, result) == Apply(old(state), Leaf(key, Bool(value)))
    {
      hide Render, Word, Reserve, Stable, Put, Wraps, Enclose, ItemStart, WellNested, Depth;
      WordZero(state.open);
      if key.None? && structs == 0 {
        result := BadRequest;
      } else {
        var text := if value then "true" else "false";
        var added;
        result, added := EncodeKey(key, |text| + 2);
        if result == Success {
          EmitAll(text);
          Group3(Render(f, state), ItemStart(f, state, KeyOf(key)), text);
          result := FinishValue(added, old(state), key, Bool(value));
        }
      }
    }

    /** app_json_encode_string; no value at all is written as the empty string. */
    method EncodeString(key: Option<string>, value: Option<string>) returns (result: Status)
      requires Valid()
      modifies this, buf
      ensures Valid() && (fresh(buf) || buf == old(buf))
      ensures (state, result) == Apply(old(state), Leaf(key, Str(KeyOf(value))))
    {
      hide Render, Word, Reserve, Stable, Put, Wraps, Enclose, ItemStart, WellNested, Depth, Escape;
      WordZero(state.open);
      if key.None? && structs == 0 {
        result := BadRequest;
      } else {
        var str := KeyOf(value);
        var valueLen := StrLen(str);
        var added;
        result, added := EncodeKey(key, valueLen + 2);
        if result == Success {
          PutString(str, valueLen);
          Group3(Render(f, state), ItemStart(f, state, KeyOf(key)), "\"" + Escape(str) + "\"");
          result := FinishValue(added, old(state), key, Str(str));
        }
      }
    }

    method PutString(str: string, n: nat)
      requires n == |Escape(str)| && cur + n + 2 <= buf.Length
      modifies this`cur, buf
      ensures cur == old(cur) + n + 2
      ensures buf[..cur] == old(buf[..cur]) + ("\"" + Escape(str) + "\"")
    {
      hide Escape;
      ghost var was := buf[..cur];
      Emit('\"');
      EmitEscaped(str, n);
      Emit('\"');
      Group3(was, "\"", Escape(str));
      Group3(was, "\"" + Escape(str), "\"");
    }

    /** app_json_encode_integer; the minimum of int64 has no negation. */
    method EncodeInteger(key: Option<string>, value: int) returns (result: Status)
      requires Valid()
      requires -0x8000_0000_0000_0000 < value < 0x8000_0000_0000_0000
      modifies this, buf
      ensures Valid() && (fresh(buf) || buf == old(buf))
      ensures (state, result) == Apply(old(state), Leaf(key, Int(value)))
    {
      hide Render, Word, Reserve, Stable, Put, Wraps, Enclose, ItemStart, WellNested, Depth, IntText;
      WordZero(state.open);
      if key.None? && structs == 0 {
        result := BadRequest;
      } else {
        var posValue: nat := if value < 0 then value * -1 else value;
        var valueLen := IntLen(posValue, value < 0);
        IntTextLen(value);
        var added;
        result, added := EncodeKey(key, valueLen);
        if result == Success {
          PutInteger(value, posValue, valueLen);
          Group3(Render(f, state), ItemStart(f, state, KeyOf(key)), IntText(value));
          result := FinishValue(added, old(state), key, Int(value));
        }
      }
    }

    /** Writes a sign or a zero, then the digits from the last to the first. */
    method PutInteger(value: int, pos: nat, n: nat)
      requires pos == (if value < 0 then -value else value) && n == |IntText(value)|
      requires cur + n <= buf.Length
      modifies this`cur, buf
      ensures cur == old(cur) + n && buf[..cur] == old(buf[..cur]) + IntText(value)
    {
      hide Digits;
      ghost var was := buf[..cur];
      var dest: int := cur + n - 1;
      if value <= 0 {
        Emit(if value < 0 then '-' else '0');
      }
      if pos > 0 {
        PutDigits(pos, dest);
        Group3(was, if value < 0 then "-" else [], Digits(pos));
        assert was + [] == was && [] + Digits(pos) == Digits(pos);
      } else {
        ZeroDigits();
      }
    }

    /** The digit loop: fills the number from its last digit, at `last`, to its first. */
    method PutDigits(pos: nat, last: int)
      requires pos > 0 && last == cur + |Digits(pos)| - 1 && last < buf.Length
      modifies this`cur, buf
      ensures cur == old(cur) + |Digits(pos)| && buf[..cur] == old(buf[..cur]) + Digits(pos)
    {
      ghost var start := cur;
      ghost var digits := Digits(pos);
      var dest := last;
      var v := pos;
      while v > 0
        invariant 0 <= v <= pos
        invariant Left(v) <= |digits| && dest == start + Left(v) - 1 && cur == start + |digits| - Left(v)
        invariant v > 0 ==> digits[..Left(v)] == Digits(v)
        invariant forall j :: 0 <= j < start ==> buf[j] == old(buf[j])
        invariant forall j :: Left(v) <= j < |digits| ==> buf[start + j] == digits[j]
      {
        DigitsStep(v, digits);
        buf[dest] := DigitChar(v % 10);
        v := v / 10;
        dest := dest - 1;
        cur := cur + 1;
      }
    }

    // ----------------------------------------------------------- the dump

    /** app_json_encode_dump: writes the closing brackets of everything open after the text,
        and a NUL, without moving the write position; the calls may go on afterwards. */
    method Dump() returns (result: Option<string>)
      requires Valid()
      modifies buf
      ensures Valid()
      ensures result == if state == EMPTY then None else Some(Render(f, CloseAll(state)))
      ensures result.Some? ==> (var n := |result.value|;
                                n < buf.Length && buf[..n] == result.value && buf[n] == '\0')
    {
      hide Render, Word, Bits, Depth, Reserve, WellNested, Has, Stable, TopItems, AfterBits, PopGroup, BitAt;
      result := None;
      DumpGuard();
      if buf.Length > 0 && buf[0] != '\0' {
        assert buf[..cur] == Render(f, state);
        var p := cur;
        BitsAreDepth(state.open);
        WordZero(state.open);
        var depth: int := CountDepth(structs);
        var s := structs;
        ghost var st := state;
        while s != 0
          invariant Valid() && Closed(st, p) && s == Word(st.open) && (s != 0 <==> st.open != [])
          invariant f.indent > 0 ==> depth == Depth(st.open)
          decreases |st.open|
        {
          ghost var g := st;
          p, depth := DumpGroup(s, p, depth, g);
          st := CloseTop(g);
          s := PopGroup(s);
          WordCloseTop(g);
          CloseTopShrinks(g);
          WordZero(st.open);
        }
        buf[p] := '\0';
        result := Some(buf[..p]);
      }
    }

    /** The inner loop of the dump: writes the brackets of one group of the word. */
    method DumpGroup(s: bv64, p0: nat, depth0: int, ghost g: State) returns (p: nat, depth: int)
      requires Valid() && Closed(g, p0) && s == Word(g.open) && g.open != []
      requires f.indent > 0 ==> depth0 == Depth(g.open)
      modifies buf
      ensures Valid() && Closed(CloseTop(g), p)
      ensures f.indent > 0 ==> depth == Depth(CloseTop(g).open)
    {
      hide Render, Word, Bits, Depth, Reserve, WellNested, Has, Stable, TopItems, AfterBits, PopGroup, BitAt, CloseTop,
           CloseLevel, Pad;
      p, depth := p0, depth0;
      ghost var st := g;
      AfterBitsEnds(g);
      for i := 0 to 3
        invariant Valid() && Closed(st, p) && st == AfterBits(g, i)
        invariant f.indent > 0 ==> depth == Depth(st.open)
      {
        WordTest(g.open, i);
        AfterBitsStep(g, i);
        if Has(s, BitAt(i)) {
          p, depth := DumpBracket(i, p, depth, st);
          st := CloseLevel(st);
        }
      }
    }

    method DumpBracket(i: nat, p0: nat, depth0: int, ghost st: State) returns (p: nat, depth: int)
      requires Valid() && Closed(st, p0) && st.open != [] && i == CloseBit(Top(st.open))
      requires f.indent > 0 ==> depth0 == Depth(st.open)
      modifies buf
      ensures Valid() && Closed(CloseLevel(st), p)
      ensures depth == if f.indent > 0 then depth0 - 1 else depth0
      ensures f.indent > 0 ==> depth == Depth(CloseLevel(st).open)
    {
      hide Render, Word, Bits, Depth, Reserve, WellNested, Stable, TopItems, CloseLevel, Pad, ClosingText;
      depth := depth0;
      RenderEnd(f, st);
      DepthCloseLevel(st);
      CloseLevelSize(st);
      ghost var was := buf[..cur];
      assert was == buf[..p0][..cur];
      var breaks := f.indent > 0 && !IsOpenChar(buf[p0 - 1]);
      NextClosing(f, st, depth - 1, breaks);
      p := WriteClosing(buf, p0, if breaks then Some(Pad(f, depth - 1)) else None, if i == 0 then ']' else '}');
      if f.indent > 0 {
        depth := depth - 1;
      }
      assert buf[..cur] == buf[..p][..cur] == was;
    }

    /** Text up to p stands for `st`, a later stage of closing everything. */
    ghost predicate Closed(st: State, p: nat)
      reads this, buf
    {
      && cur <= p && p + Reserve(f, Depth(st.open)) < buf.Length
      && buf[..p] == Render(f, st)
      && WellNested(st.open) && |st.open| <= MAX_DEPTH
      && CloseAll(st) == CloseAll(state)
    }

    /** The first character tells whether anything was written. */
    lemma DumpGuard()
      requires Valid()
      ensures buf.Length > 0 && buf[0] != '\0' <==> state != EMPTY
    {
      if state != EMPTY {
        RenderStart(f, state);
        assert Render(f, state) + [] == Render(f, state);
        assert buf[0] == buf[..cur][0];
      }
    }

    /** Any one call. */
    method Perform(c: Call) returns (result: Status)
      requires Valid() && Callable(c)
      modifies this, buf
      ensures Valid() && (fresh(buf) || buf == old(buf))
      ensures (state, result) == Apply(old(state), c)
    {
      hide Apply, Valid;
      match c
      case Start(key, kind) =>
        result := ContainerStart(key, kind);
      case End(kind) =>
        result := ContainerEnd(kind);
      case Leaf(key, v) =>
        match v
        case Bool(b) => result := EncodeBool(key, b);
        case Int(n) => result := EncodeInteger(key, n);
        case Str(s) => result := EncodeString(key, Some(s));
    }

    /** Ghost step: the text of a value completes an item. */
    ghost method AddValue(key: string, v: Json)
      requires Holds(ItemStart(f, state, key) + Text(f, Depth(state.open), v))
      modifies this`state
      ensures Holds([]) && state == AddItem(old(state), Member(key, v))
    {
      hide Render, Word, Depth, Reserve, ItemStart, WellNested, Text, AddItem;
      var m := Member(key, v);
      TextStart(f, Depth(state.open), v);
      AddedText(f, state, key, v);
      DepthAddItem(state, m);
      WordAddItem(state, m);
      NestedAddItem(state, m);
      state := AddItem(state, m);
      assert buf[..cur] == Render(f, state) + [];
    }
  }

  lemma ZeroDigits()
    ensures Digits(0) == "0"
  {
  }

  lemma DigitsStep(v: nat, digits: string)
    requires v > 0 && Left(v) <= |digits| && digits[..Left(v)] == Digits(v)
    ensures Left(v / 10) == Left(v) - 1 && digits[Left(v) - 1] == DigitChar(v % 10)
    ensures v / 10 > 0 ==> digits[..Left(v / 10)] == Digits(v / 10)
  {
    var d := Digits(v);
    assert d[|d| - 1] == DigitChar(v % 10) && digits[|d| - 1] == d[|d| - 1];
    if v / 10 > 0 {
      assert d[..|d| - 1] == Digits(v / 10);
    }
  }

  /** The number of digits not yet written. */
  function Left(v: nat): nat { if v > 0 then |Digits(v)| else 0 }

  lemma IntTextLen(value: int)
    ensures |IntText(value)| == (if value == 0 then 1 else |Digits(if value < 0 then -value else value)| + if value < 0 then 1 else 0)
  {
  }

  lemma {:induction false} AddedText(f: Format, s: State, key: string, v: Json)
    ensures Render(f, AddItem(s, Member(key, v)))
         == Render(f, s) + (ItemStart(f, s, key) + Text(f, Depth(s.open), v))
    ensures AddItem(s, Member(key, v)) != EMPTY
  {
    hide Render, Lead, KeyText, Text;
    RenderAddItem(f, s, Member(key, v));
    Group3(Lead(f, Depth(s.open), TopItems(s) == []), KeyPart(f, TopKind(s.open), key), Text(f, Depth(s.open), v));
  }

  /** Ending the added object leaves its one property, as an element of the array. */
  lemma CloseAdded(s: State, key: Option<string>, v: Json)
    requires Wraps(s.open, key)
    ensures var t := AddItem(Enclose(s, key), Member(KeyOf(key), v));
            t.open != [] && Top(t.open).mark == Auto && CloseTop(t) == Put(s, key, v)
  {
    var m := Member(key.value, v);
    DepthPush(s.open, Frame(Auto, [], Object, []));
    DepthPush(s.open, Frame(Auto, [], Object, [m]));
    assert [] + [m] == [m];
  }

  /** The state when bits 0 to i-1 of the group on top have been handled. */
  function AfterBits(s: State, i: nat): State
    requires s.open != []
  {
    var fr := Top(s.open);
    if i <= CloseBit(fr) then s
    else if fr.mark == Wrapped && i <= 2 then CloseLevel(s)
    else CloseTop(s)
  }

  lemma AfterBitsEnds(s: State)
    requires s.open != []
    ensures AfterBits(s, 0) == s && AfterBits(s, 3) == CloseTop(s)
  {
  }

  /** A bit of the group that is set stands for the innermost open container. */
  lemma AfterBitsStep(s: State, i: nat)
    requires s.open != [] && WellNested(s.open) && i < 3
    ensures var t := AfterBits(s, i);
            if GroupHas(Top(s.open), i)
            then t.open != [] && CloseBit(Top(t.open)) == i && AfterBits(s, i + 1) == CloseLevel(t)
            else AfterBits(s, i + 1) == t
  {
  }

  lemma CloseLevelSize(s: State)
    requires s.open != []
    ensures |CloseLevel(s).open| <= |s.open|
  {
  }

  lemma CloseTopShrinks(s: State)
    requires s.open != []
    ensures |CloseTop(s).open| < |s.open| && Depth(CloseTop(s).open) < Depth(s.open)
  {
  }

  /** A closing bracket, with its line break and indentation when `pad` is given. */
  function ClosingText(pad: Option<nat>, c: char): string {
    (if pad.Some? then "\n" + Spaces(pad.value) else []) + [c]
  }

  /** What a closing bracket adds, and that room was kept for it. */
  lemma {:induction false} NextClosing(f: Format, s: State, depth: int, breaks: bool)
    requires s.open != [] && WellNested(s.open)
    requires f.indent > 0 ==> depth == Depth(s.open) - 1 && depth >= 0
    requires breaks <==> f.indent > 0 && TopItems(s) != []
    ensures var c := ClosingText(if breaks then Some(Pad(f, depth)) else None,
                                 if CloseBit(Top(s.open)) == 0 then ']' else '}');
            && Render(f, CloseLevel(s)) == Render(f, s) + c
            && |c| + Reserve(f, Depth(CloseLevel(s).open)) <= Reserve(f, Depth(s.open))
    ensures WellNested(CloseLevel(s).open)
  {
    hide Render, WellNested, Pad, CloseLevel;
    RenderCloseLevel(f, s);
    DepthCloseLevel(s);
    NestedCloseLevel(s);
    AutoIsObject(s.open);
    ClosingFits(f, Depth(s.open) - 1, Top(s.open).kind, Top(s.open).done == []);
  }

  lemma AutoIsObject(open: seq<Frame>)
    requires open != [] && WellNested(open)
    ensures Top(open).mark == Auto ==> Top(open).kind == Object
  {
  }

  /** Writes a closing bracket at position `at` and returns the position after it. */
  method WriteClosing(a: array<char>, at: nat, pad: Option<nat>, c: char) returns (p: nat)
    requires at + |ClosingText(pad, c)| <= a.Length
    modifies a
    ensures p == at + |ClosingText(pad, c)|
    ensures a[..p] == old(a[..at]) + ClosingText(pad, c)
  {
    p := at;
    ghost var was := a[..at];
    if pad.Some? {
      a[p] := '\n';
      p := p + 1;
      var j := pad.value;
      while j > 0
        invariant 0 <= j <= pad.value && p == at + 1 + pad.value - j
        invariant a[..p] == was + ("\n" + Spaces(pad.value - j))
      {
        a[p] := ' ';
        p := p + 1;
        j := j - 1;
        assert Spaces(pad.value - j - 1) + [' '] == Spaces(pad.value - j);
      }
    }
    a[p] := c;
    p := p + 1;
  }

  /** The position of the bit that stands for the innermost container of a frame. */
  function CloseBit(fr: Frame): nat {
    if fr.mark == Auto then 2 else if fr.kind == Array then 0 else 1
  }

  lemma OneBit(t: nat, i: nat)
    requires t < 3 && i < 3
    ensures Has(BitAt(t), BitAt(i)) <==> t == i
  {
  }

  lemma ReserveStep(f: Format, d: nat)
    ensures Reserve(f, d + 1) == Reserve(f, d) + ClosingRoom(f, d)
    ensures ClosingRoom(f, d) + 1 <= f.indent + 2 + Pad(f, d)
  {
  }

  /** The state after a start call: t as for StructStart. */
  function Started(s: State, key: Option<string>, t: nat): State {
    if t == 2 then Push(s, Frame(Auto, [], Object, [])) else Begin(s, key, if t == 0 then Array else Object)
  }

  /** The text of a started container: the start of the item and the opening bracket. */
  lemma {:induction false} BeginText(f: Format, s: State, key: Option<string>, t: nat)
    requires t < 3 && (t == 2 ==> key.None? && TopKind(s.open) == Array)
    ensures var e := Enclose(s, key);
            Render(f, Started(s, key, t))
            == Render(f, e) + ItemStart(f, e, KeyOf(key)) + [OpenChar(if t == 0 then Array else Object)]
  {
    hide Render, ItemStart, OpenChar, Push, Depth;
    var e, kind := Enclose(s, key), if t == 0 then Array else Object;
    if Wraps(s.open, key) {
      BeginWrapped(f, s, key.value, kind);
    } else if t == 2 {
      BeginPlain(f, e, Frame(Auto, [], Object, []));
    } else {
      BeginPlain(f, e, Frame(Plain, KeyOf(key), kind, []));
    }
  }

  lemma {:induction false} BeginPlain(f: Format, e: State, fr: Frame)
    requires fr.mark != Wrapped && fr.done == []
    ensures Render(f, Push(e, fr)) == Render(f, e) + ItemStart(f, e, fr.key) + [OpenChar(fr.kind)]
  {
    hide Render, Lead, KeyText, Push, Depth, TopItems, TopKind;
    RenderPush(f, e, fr);
    var r, i, o := Render(f, e), ItemStart(f, e, fr.key), [OpenChar(fr.kind)];
    Group3(r, i, o);
    assert r + (i + o) + [] == r + (i + o);
  }

  lemma {:induction false} BeginWrapped(f: Format, s: State, key: string, kind: Kind)
    requires Wraps(s.open, Some(key))
    ensures var e := Enclose(s, Some(key));
            Render(f, Started(s, Some(key), if kind == Array then 0 else 1))
            == Render(f, e) + ItemStart(f, e, key) + [OpenChar(kind)]
  {
    hide Render, Lead, KeyText;
    var d := Depth(Enclose(s, Some(key)).open);
    var auto := Frame(Auto, [], Object, []);
    RenderPush(f, s, auto);
    RenderPush(f, s, Frame(Wrapped, key, kind, []));
    DepthPush(s.open, auto);
    var lead, lead2, kt := Lead(f, Depth(s.open), TopItems(s) == []), Lead(f, d, true), KeyText(f, key);
    assert lead + [] + "{" == lead + "{";
    WrapGroup(Render(f, s), lead + "{", lead2, kt, [OpenChar(kind)]);
  }

  lemma WrapGroup(r: string, l: string, l2: string, k: string, o: string)
    ensures r + (l + l2 + k + o) + [] == r + l + [] + (l2 + k) + o
  {
  }

  lemma {:induction false} BeginWord(s: State, key: Option<string>, t: nat)
    requires t < 3 && (t == 2 ==> key.None?)
    ensures var w := Word(Enclose(s, key).open);
            Word(Started(s, key, t).open) == SetBits(if Wraps(s.open, key) then w else Shift(w), BitAt(t))
  {
    hide Word, SetBits, Shift;
    var e, kind := Enclose(s, key), if t == 0 then Array else Object;
    if Wraps(s.open, key) {
      WrapWord(s.open, Frame(Auto, [], Object, []), Frame(Wrapped, key.value, kind, []));
    } else {
      PushWord(e.open, if t == 2 then Frame(Auto, [], Object, []) else Frame(Plain, KeyOf(key), kind, []));
    }
  }

  lemma BeginNests(s: State, key: Option<string>, t: nat)
    requires t < 3 && (t == 2 ==> key.None? && TopKind(s.open) == Array)
    requires WellNested(s.open) && Depth(s.open) < MAX_DEPTH
    ensures var n, e := Started(s, key, t).open, Enclose(s, key).open;
            && WellNested(n) && n != [] && |n| <= MAX_DEPTH && Depth(n) <= MAX_DEPTH + 1
            && Depth(n) == Depth(e) + 1
  {
    FramesBelowDepth(s.open);
    var e, kind := Enclose(s, key), if t == 0 then Array else Object;
    var auto, root := Frame(Auto, [], Object, []), Frame(Plain, [], Object, []);
    DepthPush(s.open, auto);
    DepthPush(s.open, root);
    NestedPush(s.open, root);
    if Wraps(s.open, key) {
      DepthPush(s.open, Frame(Wrapped, key.value, kind, []));
      NestedPush(s.open, Frame(Wrapped, key.value, kind, []));
    } else {
      var fr := if t == 2 then auto else Frame(Plain, KeyOf(key), kind, []);
      DepthPush(e.open, fr);
      NestedPush(e.open, fr);
    }
  }

  lemma TopHasKind(open: seq<Frame>)
    requires forall fr <- open :: fr.mark != Auto
    ensures open != [] ==> (GroupHas(Top(open), 1) <==> Top(open).kind == Object)
    ensures open != [] ==> (GroupHas(Top(open), 0) <==> Top(open).kind == Array)
  {
  }

  lemma StableTop(s: State)
    requires Stable(s)
    ensures s.open != [] ==> (GroupHas(Top(s.open), 1) <==> Top(s.open).kind == Object)
  {
  }

  lemma StartedIsEnclosed(s: State, key: Option<string>)
    ensures Wraps(s.open, key) ==> Started(s, None, 2) == Enclose(s, key)
    ensures key.Some? && s.open == [] ==> Started(s, None, 1) == Enclose(s, key)
    ensures !Wraps(s.open, key) && (key.None? || s.open != []) ==> Enclose(s, key) == s
  {
  }

  /** The key is written exactly when the innermost container is an object. */
  lemma EncloseKind(s: State, key: Option<string>)
    ensures key.Some? ==> TopKind(Enclose(s, key).open) == Object
    ensures key.None? ==> TopKind(Enclose(s, key).open) == TopKind(s.open)
  {
  }

  lemma EmptyHasNoItems()
    ensures TopItems(EMPTY) == []
  {
  }

  lemma KeyPartOf(f: Format, parent: Kind, key: Option<string>)
    requires key.Some? <==> parent == Object
    ensures KeyPart(f, parent, KeyOf(key)) == KeyPart(f, if key.Some? then Object else Array, KeyOf(key))
  {
  }

  function KeyLen(f: Format, key: Option<string>): nat {
    if key.None? then 0 else |Escape(key.value)| + 3 + if f.expand then 1 else 0
  }

  function LeadLen(f: Format, d: nat, first: bool): nat {
    (if first then 0 else if f.indent == 0 && f.expand then 2 else 1)
    + if f.indent == 0 then 0 else (if d > 0 then 1 else 0) + Pad(f, d)
  }

  /** Any sequence of calls on a fresh encoder, refused ones included, and then a dump: the
      text is the rendering of what the accepted calls describe, everything closed. */
  method DumpAfter(f: Format, calls: seq<Call>) returns (text: Option<string>)
    requires f.indent <= 30 && forall c <- calls :: Callable(c)
    ensures var s := Run(EMPTY, calls);
            text == if s == EMPTY then None else Some(Render(f, CloseAll(s)))
  {
    hide Apply, Render, CloseAll;
    var e := new Encoder(f);
    for i := 0 to |calls|
      invariant fresh(e) && fresh(e.buf) && e.Valid() && e.f == f
      invariant e.state == Run(EMPTY, calls[..i])
    {
      var _ := e.Perform(calls[i]);
      assert calls[..i + 1] == calls[..i] + [calls[i]];
      RunAppend(EMPTY, calls[..i], [calls[i]]);
    }
    assert calls[..|calls|] == calls;
    text := e.Dump();
  }
}
