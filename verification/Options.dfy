/** The options list of src/api/iot_option.c: a sorted array used as a bounded map whose keys
    are folded, truncated names. */
module Options {
  import opened Wrappers
  import opened Names

  /** IOT_OPTION_MAX of the default build */
  const OPTION_MAX: nat := 20

  /** What an option holds; the bytes stand for the data object. */
  type Value = seq<bv8>

  /** A stored option. Clearing a name that is absent leaves an entry without a name. */
  datatype Entry = Entry(name: Option<string>, data: Value)

  datatype Status = Success | Full | NoMemory

  /** Entries with names, in strictly increasing order of their keys. */
  predicate Sorted(e: seq<Entry>) {
    && (forall i :: 0 <= i < |e| ==> e[i].name.Some? && '\0' !in e[i].name.value)
    && forall i, j :: 0 <= i < j < |e| ==> Less(Key(e[i].name.value), Key(e[j].name.value))
  }

  /** Linear search: what the entries say about a key. */
  function Lookup(e: seq<Entry>, key: string): Option<Value> {
    if e == [] then None
    else if e[0].name.Some? && Key(e[0].name.value) == key then Some(e[0].data)
    else Lookup(e[1..], key)
  }

  /** Linear search: how many entries come before a key. */
  function Position(e: seq<Entry>, key: string): (i: nat)
    requires forall i :: 0 <= i < |e| ==> e[i].name.Some?
    ensures i <= |e|
  {
    if e != [] && Less(Key(e[0].name.value), key) then 1 + Position(e[1..], key) else 0
  }

  lemma {:induction false} LookupAbsent(e: seq<Entry>, key: string)
    requires forall i :: 0 <= i < |e| ==> e[i].name.None? || Key(e[i].name.value) != key
    ensures Lookup(e, key) == None
  {
    if e != [] {
      LookupAbsent(e[1..], key);
    }
  }

  /** A point that separates the smaller keys from the rest is the linear search's position;
      the key is present exactly when it stands there. */
  lemma {:induction false} PositionIs(e: seq<Entry>, key: string, i: nat)
    requires Sorted(e) && i <= |e|
    requires forall k :: 0 <= k < i ==> Less(Key(e[k].name.value), key)
    requires i < |e| ==> !Less(Key(e[i].name.value), key)
    ensures Position(e, key) == i
    ensures Lookup(e, key) == if i < |e| && Key(e[i].name.value) == key then Some(e[i].data) else None
  {
    if i == 0 {
      if e != [] && Key(e[0].name.value) != key {
        LessTotal(Key(e[0].name.value), key);
        forall k | 0 <= k < |e| ensures Key(e[k].name.value) != key {
          if k > 0 {
            LessTransitive(key, Key(e[0].name.value), Key(e[k].name.value));
          }
          LessTotal(key, Key(e[k].name.value));
        }
        LookupAbsent(e, key);
      }
    } else {
      LessTotal(Key(e[0].name.value), key);
      PositionIs(e[1..], key, i - 1);
    }
  }

  /** Makes room at i for an entry. */
  function Inserted(e: seq<Entry>, i: nat, x: Entry): seq<Entry>
    requires i <= |e|
  {
    e[..i] + [x] + e[i..]
  }

  /** Moves the entries after i over it. */
  function Removed(e: seq<Entry>, i: nat): seq<Entry>
    requires i < |e|
  {
    e[..i] + e[i + 1..]
  }

  lemma {:induction false} PresentAt(e: seq<Entry>, key: string)
    requires Sorted(e) && Lookup(e, key).Some?
    ensures var i := Position(e, key);
            i < |e| && Key(e[i].name.value) == key && Lookup(e, key) == Some(e[i].data)
  {
    LessTotal(key, key);
    if Key(e[0].name.value) != key {
      PresentAt(e[1..], key);
      var i := Position(e[1..], key);
      assert Key(e[i + 1].name.value) == key;
    }
  }

  /** What setting a name does to the entries, and what it returns; no data clears. `copies`
      says whether there is memory for a copy of the data; without it the entry goes. */
  function Set(e: seq<Entry>, name: string, data: Option<Value>, copies: bool): (seq<Entry>, Status)
    requires Sorted(e)
  {
    var i := Position(e, Key(name));
    if Lookup(e, Key(name)).Some? then
      PresentAt(e, Key(name));
      if data.None? then (Removed(e, i), Full)
      else if !copies then (Removed(e, i), NoMemory)
      else (e[i := e[i].(data := data.value)], Success)
    else if |e| >= OPTION_MAX then (e, Full)
    else if data.None? then (Inserted(e, i, Entry(None, [])), NoMemory)
    else if !copies then (e, NoMemory)
    else (Inserted(e, i, Entry(Some(Cut(name, NAME_MAX)), data.value)), Success)
  }

  /** struct iot_options, as far as the map is concerned. */
  class OptionList {
    var option: seq<Entry>

    ghost predicate Valid()
      reads this
    {
      Sorted(option) && |option| <= OPTION_MAX
    }

    constructor ()
      ensures Valid() && option == []
    {
      option := [];
    }

    /** iot_options_find: the entry if there is one, and its index or the index where it
        belongs. The extra look at the next entry never matches. */
    method Find(name: string) returns (found: bool, foundIdx: nat)
      requires Valid() && '\0' !in name
      ensures foundIdx == Position(option, Key(name))
      ensures found <==> Lookup(option, Key(name)).Some?
      ensures found ==> foundIdx < |option| && Key(option[foundIdx].name.value) == Key(name)
    {
      ghost var key := Key(name);
      var curIdx := 0;
      var minIdx, maxIdx := 0, |option|;
      found := false;
      while !found && maxIdx - minIdx > 0
        invariant minIdx <= maxIdx <= |option|
        invariant found ==> curIdx < |option| && Key(option[curIdx].name.value) == key
        invariant !found ==> curIdx == minIdx || curIdx == maxIdx
        invariant forall k :: 0 <= k < minIdx ==> Less(Key(option[k].name.value), key)
        invariant forall k :: maxIdx <= k < |option| ==> Less(key, Key(option[k].name.value))
        decreases maxIdx - minIdx, !found
      {
        curIdx := (maxIdx - minIdx) / 2 + minIdx;
        var cmp := Compare(name, option[curIdx].name.value, NAME_MAX, true);
        OrderAround(option, curIdx, key);
        if cmp > 0 {
          curIdx := curIdx + 1;
          minIdx := curIdx;
        } else if cmp < 0 {
          maxIdx := curIdx;
        } else {
          found := true;
        }
      }
      if !found && |option| > 0 && curIdx < |option| - 1 {
        curIdx := curIdx + 1;
        var cmp := Compare(name, option[curIdx].name.value, NAME_MAX, true);
        LessTotal(key, Key(option[curIdx].name.value));
        found := cmp == 0;
        if !found {
          curIdx := curIdx - 1;
        }
      }
      foundIdx := curIdx;
      if found {
        OrderAround(option, curIdx, key);
      } else if curIdx < |option| {
        LessTotal(key, Key(option[curIdx].name.value));
      }
      EqualNotLess(key);
      PositionIs(option, key, curIdx);
    }

    /** iot_options_set_data: no data is the null type, which clears. */
    method SetData(name: string, data: Option<Value>, copies: bool) returns (result: Status)
      requires Valid() && name != [] && '\0' !in name
      modifies this
      ensures (option, result) == Set(old(option), name, data, copies)
    {
      ghost var e := option;
      var opt, curIdx := Find(name);
      NamesThere(e, curIdx);
      KeyNotEmpty(name);
      hide Key, Less, Lookup, Position, Cut, Sorted;
      if curIdx <= |e| && data.Some? {
        InsertedThenSet(e, curIdx, Entry(None, []), Entry(Some(Cut(name, NAME_MAX)), data.value));
      }
      hide Removed, Inserted;
      if opt && data.None? {
        option := Removed(option, curIdx);
        result := Success;
      }
      result := Full;
      var there := opt;
      if !opt && |option| < OPTION_MAX {
        result := NoMemory;
        option := Inserted(option, curIdx, Entry(None, []));
        there := true;
      }
      if there && data.Some? {
        result := FillIn(curIdx, name, data.value, copies);
      }
    }

    /** The end of iot_options_set_data: names the entry if it is new, and copies the data in;
        without the memory for that the entry goes. */
    method FillIn(i: nat, name: string, value: Value, copies: bool) returns (result: Status)
      requires i < |option|
      modifies this
      ensures var was := old(option)[i].name;
              var x := Entry(if was.None? || was.value == [] then Some(Cut(name, NAME_MAX)) else was, value);
              option == if copies then old(option)[i := x] else Removed(old(option), i)
      ensures result == if copies then Success else NoMemory
    {
      if option[i].name.None? || option[i].name.value == [] {
        option := option[i := option[i].(name := Some(Cut(name, NAME_MAX)))];
      }
      option := option[i := option[i].(data := value)];
      result := if copies then Success else NoMemory;
      if result != Success {
        option := Removed(option, i);
      }
    }
  }

  lemma NamesThere(e: seq<Entry>, i: nat)
    requires Sorted(e)
    ensures i < |e| ==> e[i].name.Some?
  {
  }

  lemma KeyNotEmpty(name: string)
    requires name != []
    ensures Key(name) != [] && Key([]) == []
  {
  }

  lemma InsertedThenSet(e: seq<Entry>, i: nat, x: Entry, y: Entry)
    requires i <= |e|
    ensures Inserted(e, i, x)[i := y] == Inserted(e, i, y)
    ensures |Inserted(e, i, x)| == |e| + 1 && Inserted(e, i, x)[i] == x && Removed(Inserted(e, i, y), i) == e
  {
  }

  lemma EqualNotLess(key: string)
    ensures !Less(key, key)
  {
  }

  /** Comparing with one entry decides about the entries on one side of it. */
  lemma OrderAround(e: seq<Entry>, m: nat, key: string)
    requires Sorted(e) && m < |e|
    ensures !Less(Key(e[m].name.value), key) || forall k :: 0 <= k <= m ==> Less(Key(e[k].name.value), key)
    ensures !Less(key, Key(e[m].name.value)) || forall k :: m <= k < |e| ==> Less(key, Key(e[k].name.value))
    ensures Key(e[m].name.value) == key ==> forall k :: 0 <= k < m ==> Less(Key(e[k].name.value), key)
  {
    forall k | 0 <= k < m && Less(Key(e[m].name.value), key) ensures Less(Key(e[k].name.value), key) {
      LessTransitive(Key(e[k].name.value), Key(e[m].name.value), key);
    }
    forall k | m < k < |e| && Less(key, Key(e[m].name.value)) ensures Less(key, Key(e[k].name.value)) {
      LessTransitive(key, Key(e[m].name.value), Key(e[k].name.value));
    }
  }

  // ------------------------------------------------------------------ the map

  lemma CutKey(name: string)
    ensures Key(Cut(name, NAME_MAX)) == Key(name)
  {
  }

  lemma {:induction false} LookupUpdated(e: seq<Entry>, i: nat, v: Value, key: string)
    requires Sorted(e) && i < |e|
    ensures Lookup(e[i := e[i].(data := v)], key) == if Key(e[i].name.value) == key then Some(v) else Lookup(e, key)
  {
    var t := e[i := e[i].(data := v)];
    if i > 0 {
      LessTotal(Key(e[0].name.value), Key(e[i].name.value));
      LookupUpdated(e[1..], i - 1, v, key);
      assert t[1..] == e[1..][i - 1 := e[i].(data := v)];
    } else {
      assert t[1..] == e[1..];
    }
  }

  lemma {:induction false} LookupInserted(e: seq<Entry>, i: nat, x: Entry, key: string)
    requires i <= |e| && x.name.Some?
    requires forall k :: 0 <= k < i ==> e[k].name.Some? && Key(e[k].name.value) != Key(x.name.value)
    ensures Lookup(Inserted(e, i, x), key) == if Key(x.name.value) == key then Some(x.data) else Lookup(e, key)
  {
    var t := Inserted(e, i, x);
    if i > 0 {
      LookupInserted(e[1..], i - 1, x, key);
      assert t[1..] == Inserted(e[1..], i - 1, x);
    } else {
      assert t[1..] == e;
    }
  }

  lemma {:induction false} LookupRemoved(e: seq<Entry>, i: nat, key: string)
    requires Sorted(e) && i < |e|
    ensures Lookup(Removed(e, i), key) == if Key(e[i].name.value) == key then None else Lookup(e, key)
  {
    var t := Removed(e, i);
    if i > 0 {
      LessTotal(Key(e[0].name.value), Key(e[i].name.value));
      LookupRemoved(e[1..], i - 1, key);
      assert t[1..] == Removed(e[1..], i - 1);
    } else {
      assert t == e[1..];
      if Key(e[0].name.value) == key {
        forall k | 1 <= k < |e| ensures Key(e[k].name.value) != key {
          LessTotal(Key(e[0].name.value), Key(e[k].name.value));
        }
        LookupAbsent(t, key);
      }
    }
  }

  lemma {:induction false} BeforePosition(e: seq<Entry>, key: string, k: nat)
    requires Sorted(e) && k < Position(e, key)
    ensures Less(Key(e[k].name.value), key)
  {
    if k > 0 {
      BeforePosition(e[1..], key, k - 1);
    }
  }

  lemma {:induction false} FromPosition(e: seq<Entry>, key: string, k: nat)
    requires Sorted(e) && Position(e, key) <= k < |e|
    ensures !Less(Key(e[k].name.value), key)
  {
    if Less(Key(e[0].name.value), key) {
      FromPosition(e[1..], key, k - 1);
    } else if k > 0 && Less(Key(e[k].name.value), key) {
      LessTransitive(Key(e[0].name.value), Key(e[k].name.value), key);
    }
  }

  lemma {:induction false} PresentIfEqual(e: seq<Entry>, key: string, k: nat)
    requires Sorted(e) && k < |e| && Key(e[k].name.value) == key
    ensures Lookup(e, key).Some?
  {
    if k > 0 {
      PresentIfEqual(e[1..], key, k - 1);
    }
  }

  /** Seen as a map from keys to values: a setting that succeeds is update, and one that does
      not, like the clearing of a name that is present, leaves the name without a value. */
  lemma SetIsUpdate(e: seq<Entry>, name: string, data: Option<Value>, copies: bool, key: string)
    requires Sorted(e) && (data.None? ==> Lookup(e, Key(name)).Some?)
    ensures var (t, status) := Set(e, name, data, copies);
            Lookup(t, key) == if key != Key(name) then Lookup(e, key) else if status == Success then data else None
  {
    var i := Position(e, Key(name));
    CutKey(name);
    if Lookup(e, Key(name)).Some? {
      PresentAt(e, Key(name));
      if data.None? || !copies {
        LookupRemoved(e, i, key);
      } else {
        LookupUpdated(e, i, data.value, key);
      }
    } else if |e| < OPTION_MAX && copies {
      forall k | 0 <= k < i ensures Key(e[k].name.value) != Key(name) {
        BeforePosition(e, Key(name), k);
        LessTotal(Key(e[k].name.value), Key(name));
      }
      LookupInserted(e, i, Entry(Some(Cut(name, NAME_MAX)), data.value), key);
    }
  }

  /** A setting succeeds exactly when the data can be copied and the name is present or there
      is room for another entry, of 20; a clearing never does. */
  lemma SetSucceeds(e: seq<Entry>, name: string, data: Option<Value>, copies: bool)
    requires Sorted(e)
    ensures Set(e, name, data, copies).1 == Success
       <==> data.Some? && copies && (Lookup(e, Key(name)).Some? || |e| < 20)
    ensures Set(e, name, data, copies).1 == Full
       <==> if Lookup(e, Key(name)).Some? then data.None? else |e| >= 20
  {
  }

  /** A new entry bears the name as given, as far as it counts; an old one keeps its own. */
  lemma {:induction false} SetNames(e: seq<Entry>, name: string, data: Option<Value>, copies: bool)
    requires Sorted(e) && Set(e, name, data, copies).1 == Success
    ensures var t, i := Set(e, name, data, copies).0, Position(e, Key(name));
            && i < |t|
            && (Lookup(e, Key(name)).Some? ==> i < |e| && t[i].name == e[i].name)
            && (Lookup(e, Key(name)).None? ==> t[i].name == Some(First128(name)))
  {
    if Lookup(e, Key(name)).Some? {
      PresentAt(e, Key(name));
    }
  }

  /** What the linear search finds in a sorted list: the one entry of that key. */
  lemma {:induction false} LookupIs(e: seq<Entry>, key: string, v: Value)
    requires Sorted(e)
    ensures Lookup(e, key) == Some(v) <==> exists k :: 0 <= k < |e| && Key(e[k].name.value) == key && e[k].data == v
  {
    if k :| 0 <= k < |e| && Key(e[k].name.value) == key && e[k].data == v {
      PresentIfEqual(e, key, k);
      PresentAt(e, key);
      var i := Position(e, key);
      LessTotal(key, key);
      assert i == k;
    }
    if Lookup(e, key).Some? {
      PresentAt(e, key);
    }
  }

  /** Clearing a name that is not there: a full list stays as it is; else one entry without a
      name comes in, and all others, and what is found under any key, stay. */
  lemma {:induction false} ClearAbsent(e: seq<Entry>, name: string, copies: bool, key: string)
    requires Sorted(e) && Lookup(e, Key(name)).None?
    ensures var t := Set(e, name, None, copies).0;
            && Lookup(t, key) == Lookup(e, key)
            && (|e| >= 20 ==> t == e)
            && (|e| < 20 ==> exists i :: 0 <= i < |t| && t[i].name.None? && t[..i] + t[i + 1..] == e)
  {
    var i, t := Position(e, Key(name)), Set(e, name, None, copies).0;
    if |e| < 20 {
      assert t == Inserted(e, i, Entry(None, []));
      assert t[i].name.None? && t[..i] + t[i + 1..] == e;
      BlankInserted(e, i, key);
    }
  }

  lemma {:induction false} BlankInserted(e: seq<Entry>, i: nat, key: string)
    requires i <= |e|
    ensures Lookup(Inserted(e, i, Entry(None, [])), key) == Lookup(e, key)
  {
    hide Key;
    var t := Inserted(e, i, Entry(None, []));
    if i == 0 {
      assert t[1..] == e;
    } else {
      BlankInserted(e[1..], i - 1, key);
      assert t[0] == e[0] && t[1..] == Inserted(e[1..], i - 1, Entry(None, []));
    }
  }

  lemma {:induction false} RemovedSorted(e: seq<Entry>, i: nat)
    requires Sorted(e) && i < |e|
    ensures Sorted(Removed(e, i))
  {
    hide Key, Less;
    var t := Removed(e, i);
    forall k | 0 <= k < |t| ensures t[k] == e[if k < i then k else k + 1] { }
  }

  lemma {:induction false} UpdatedSorted(e: seq<Entry>, i: nat, v: Value)
    requires Sorted(e) && i < |e|
    ensures Sorted(e[i := e[i].(data := v)])
  {
    hide Key, Less;
  }

  lemma {:induction false} InsertedSorted(e: seq<Entry>, name: string, v: Value)
    requires Sorted(e) && '\0' !in name && Lookup(e, Key(name)).None?
    ensures Sorted(Inserted(e, Position(e, Key(name)), Entry(Some(Cut(name, NAME_MAX)), v)))
  {
    var i, key := Position(e, Key(name)), Key(name);
    CutKey(name);
    hide Key, Less, Position, Lookup, Cut;
    forall k | 0 <= k < |e| ensures if k < i then Less(Key(e[k].name.value), key) else Less(key, Key(e[k].name.value)) {
      AroundPosition(e, key, k);
    }
    InsertionSorted(e, i, Entry(Some(Cut(name, NAME_MAX)), v), key);
  }

  lemma AroundPosition(e: seq<Entry>, key: string, k: nat)
    requires Sorted(e) && Lookup(e, key).None? && k < |e|
    ensures if k < Position(e, key) then Less(Key(e[k].name.value), key) else Less(key, Key(e[k].name.value))
  {
    if k < Position(e, key) {
      BeforePosition(e, key, k);
    } else {
      FromPosition(e, key, k);
      if Key(e[k].name.value) == key {
        PresentIfEqual(e, key, k);
      }
      LessTotal(key, Key(e[k].name.value));
    }
  }

  lemma {:induction false} InsertionSorted(e: seq<Entry>, i: nat, x: Entry, key: string)
    requires Sorted(e) && i <= |e| && x.name.Some? && '\0' !in x.name.value && Key(x.name.value) == key
    requires forall k :: 0 <= k < |e| ==> if k < i then Less(Key(e[k].name.value), key) else Less(key, Key(e[k].name.value))
    ensures Sorted(Inserted(e, i, x))
  {
    hide Key, Less;
    var t := Inserted(e, i, x);
    forall k | 0 <= k < |t| ensures t[k] == if k < i then e[k] else if k == i then x else e[k - 1] { }
  }

  /** The list stays a sorted list of names exactly when the call is not the clearing of an
      absent name in a list with room: that one leaves an entry without a name. */
  lemma {:induction false} SetKeepsSorted(e: seq<Entry>, name: string, data: Option<Value>, copies: bool)
    requires Sorted(e) && |e| <= OPTION_MAX && '\0' !in name
    ensures |Set(e, name, data, copies).0| <= 20
    ensures Sorted(Set(e, name, data, copies).0) <==> data.Some? || Lookup(e, Key(name)).Some? || |e| == 20
  {
    var i := Position(e, Key(name));
    var t := Set(e, name, data, copies).0;
    hide Key, Less, Lookup, Position, Cut;
    if Lookup(e, Key(name)).Some? {
      PresentAt(e, Key(name));
      if data.None? || !copies {
        RemovedSorted(e, i);
      } else {
        UpdatedSorted(e, i, data.value);
      }
    } else if |e| < OPTION_MAX {
      if data.Some? && copies {
        InsertedSorted(e, name, data.value);
      } else if data.None? {
        assert t[i].name.None?;
      }
    }
  }
}
