/** The alarm registry of src/api/iot_alarm.c: pointers to live alarms sorted by name, then
    the built-in alarms that are free. (src/api/iot_telemetry.c repeats the scheme.) */
module Alarms {
  import opened Names

  /** struct iot_alarm; `registered` says whether its library pointer is set. */
  class Alarm {
    var name: string
    var registered: bool
    var isInHeap: bool

    constructor ()
      ensures name == [] && !registered && !isInHeap
    {
      name, registered, isInHeap := [], false, false;
    }
  }

  datatype Status = Success | BadParameter | NotInitialized

  /** In order, and each a name a C string of at most NAME_MAX characters can hold. */
  predicate SortedNames(names: seq<string>) {
    && (forall i :: 0 <= i < |names| ==> 0 < |names[i]| <= NAME_MAX && '\0' !in names[i])
    && (forall i, j :: 0 <= i < j < |names| ==> !Less(names[j], names[i]))
  }

  /** The leftmost place for a name. */
  function Place(names: seq<string>, x: string): (i: nat)
    ensures i <= |names|
  {
    if names != [] && Less(names[0], x) then 1 + Place(names[1..], x) else 0
  }

  lemma {:induction false} PlaceIs(names: seq<string>, x: string, i: nat)
    requires i <= |names|
    requires forall k :: 0 <= k < i ==> Less(names[k], x)
    requires i < |names| ==> !Less(names[i], x)
    ensures Place(names, x) == i
  {
    if i > 0 {
      PlaceIs(names[1..], x, i - 1);
    }
  }

  /** Comparing only as many characters as the new name has decides as well as comparing
      whole names. */
  lemma {:induction false} PrefixDecides(a: string, x: string)
    ensures Less(Cut(a, |x|), x) <==> Less(a, x)
  {
    if a != [] && x != [] && a[0] == x[0] {
      PrefixDecides(a[1..], x[1..]);
      assert Cut(a, |x|)[1..] == Cut(a[1..], |x| - 1);
    }
  }

  lemma LessThenNotLess(a: string, b: string, x: string)
    requires Less(b, x) && !Less(b, a)
    ensures Less(a, x)
  {
  }

  function Inserted<T>(s: seq<T>, i: nat, x: T): seq<T>
    requires i <= |s|
  {
    s[..i] + [x] + s[i..]
  }

  function Removed<T>(s: seq<T>, i: nat): seq<T>
    requires i < |s|
  {
    s[..i] + s[i + 1..]
  }

  /** Each pointer is to a different alarm; the live part comes first and is full; every
      built-in alarm is pointed to, so exactly once; alarms on the heap are never in the free
      part. */
  ghost predicate PointersOk(p: seq<Alarm?>, count: nat, builtIn: seq<Alarm>) {
    && count <= |p|
    && (forall i :: 0 <= i < count ==> p[i] != null)
    && (forall i, j :: 0 <= i < j < |p| && p[i] != null ==> p[i] != p[j])
    && (forall b <- builtIn :: b in p)
    && (forall i :: count <= i < |p| ==> p[i] == null || p[i] in builtIn)
  }

  /** So each built-in alarm is pointed to from one place, and behind the live part there is no
      other alarm. */
  lemma BuiltInOnce(p: seq<Alarm?>, count: nat, builtIn: seq<Alarm>, b: Alarm)
    requires PointersOk(p, count, builtIn) && b in builtIn
    ensures exists k :: 0 <= k < |p| && p[k] == b && forall j :: 0 <= j < |p| && j != k ==> p[j] != b
    ensures forall k :: count <= k < |p| && p[k] != null ==> p[k] in builtIn
  {
    var k :| 0 <= k < |p| && p[k] == b;
  }

  /** Takes the pointer at `count`, or a new alarm where it is null, to place i. */
  function Shifted(p: seq<Alarm?>, count: nat, i: nat, a: Alarm): (q: seq<Alarm?>)
    requires i <= count < |p|
    ensures |q| == |p|
    ensures forall k :: 0 <= k < |p| ==> q[k] == if k < i || k > count then p[k] else if k == i then a else p[k - 1]
  {
    p[..i] + [a] + p[i..count] + p[count + 1..]
  }

  lemma ShiftKeeps(p: seq<Alarm?>, count: nat, i: nat, a: Alarm, builtIn: seq<Alarm>)
    requires PointersOk(p, count, builtIn) && i <= count < |p|
    requires p[count] == a || (p[count] == null && a !in p)
    ensures PointersOk(Shifted(p, count, i, a), count + 1, builtIn)
  {
    var q := Shifted(p, count, i, a);
    forall b <- builtIn ensures b in q {
      var k :| 0 <= k < |p| && p[k] == b;
      assert q[if k < i || k > count then k else if k == count then i else k + 1] == b;
    }
  }

  lemma ShiftLive(p: seq<Alarm?>, count: nat, i: nat, a: Alarm)
    requires i <= count < |p|
    ensures Shifted(p, count, i, a)[..count + 1] == Inserted(p[..count], i, a)
  {
  }

  /** Where an alarm is stored agrees with its flags; the one at `but` is not looked at. */
  ghost predicate Flags(p: seq<Alarm?>, count: nat, builtIn: seq<Alarm>, but: int)
    reads p
  {
    && (forall i :: 0 <= i < count && i < |p| && p[i] != null ==> (p[i].isInHeap <==> p[i] !in builtIn))
    && (forall i :: 0 <= i < |p| && p[i] != null && i != but ==> (p[i].registered <==> i < count))
  }

  function NameOf(a: Alarm?): string
    reads a
  {
    if a == null then [] else a.name
  }

  ghost function NamesOf(p: seq<Alarm?>): (r: seq<string>)
    reads p
    ensures |r| == |p| && forall i :: 0 <= i < |p| ==> r[i] == NameOf(p[i])
  {
    seq(|p|, i requires 0 <= i < |p| reads p => NameOf(p[i]))
  }

  lemma NamesInserted(p: seq<Alarm?>, i: nat, a: Alarm)
    requires i <= |p|
    ensures NamesOf(Inserted(p, i, a)) == Inserted(NamesOf(p), i, a.name)
  {
  }

  lemma NamesRemoved(p: seq<Alarm?>, i: nat)
    requires i < |p|
    ensures NamesOf(Removed(p, i)) == Removed(NamesOf(p), i)
  {
  }

  lemma FlagsShift(p: seq<Alarm?>, count: nat, i: nat, a: Alarm, builtIn: seq<Alarm>)
    requires i <= count < |p| && Flags(p, count, builtIn, count)
    requires a.registered && (a.isInHeap <==> a !in builtIn)
    ensures Flags(Shifted(p, count, i, a), count + 1, builtIn, -1)
  {
  }

  /** Closes the gap at i and puts `back` behind the live part. */
  function Closed(p: seq<Alarm?>, count: nat, i: nat, back: Alarm?): (q: seq<Alarm?>)
    requires i < count <= |p|
    ensures |q| == |p|
    ensures forall k :: 0 <= k < |p| ==> q[k] == if k < i || k >= count then p[k] else if k == count - 1 then back else p[k + 1]
  {
    p[..i] + p[i + 1..count] + [back] + p[count..]
  }

  lemma CloseKeeps(p: seq<Alarm?>, count: nat, i: nat, back: Alarm?, builtIn: seq<Alarm>)
    requires PointersOk(p, count, builtIn) && i < count
    requires back == if p[i] in builtIn then p[i] else null
    ensures PointersOk(Closed(p, count, i, back), count - 1, builtIn)
  {
  }

  lemma {:induction false} InsertKeeps(p: seq<Alarm?>, count: nat, i: nat, a: Alarm, builtIn: seq<Alarm>, names: seq<string>)
    requires PointersOk(p, count, builtIn) && count < |p| && NamesOf(p[..count]) == names && SortedNames(names)
    requires i == Place(names, a.name) && 0 < |a.name| <= NAME_MAX && '\0' !in a.name
    requires p[count] == a || (p[count] == null && a !in p)
    requires a.registered && (a.isInHeap <==> a !in builtIn)
    requires Flags(p, count, builtIn, count)
    ensures var q := Shifted(p, count, i, a);
            && PointersOk(q, count + 1, builtIn) && Flags(q, count + 1, builtIn, -1)
            && q[..count + 1] == Inserted(p[..count], i, a)
            && NamesOf(q[..count + 1]) == Inserted(names, i, a.name)
            && SortedNames(Inserted(names, i, a.name))
  {
    hide PointersOk, Place, SortedNames, Inserted, Flags, NamesOf, Shifted;
    ShiftKeeps(p, count, i, a, builtIn);
    FlagsShift(p, count, i, a, builtIn);
    ShiftLive(p, count, i, a);
    NamesInserted(p[..count], i, a);
    NamesSorted(names, i, a.name);
  }

  lemma FlagsClose(p: seq<Alarm?>, count: nat, i: nat, back: Alarm?, builtIn: seq<Alarm>)
    requires i < count <= |p| && Flags(p, count, builtIn, i)
    requires back != null ==> !back.registered
    ensures Flags(Closed(p, count, i, back), count - 1, builtIn, -1)
  {
  }

  lemma CloseLive(p: seq<Alarm?>, count: nat, i: nat, back: Alarm?)
    requires i < count <= |p|
    ensures Closed(p, count, i, back)[..count - 1] == Removed(p[..count], i)
  {
  }

  /** Deregistering what was registered last gives back the whole pointer array. */
  lemma CloseUndoesShift(p: seq<Alarm?>, count: nat, i: nat, a: Alarm, builtIn: seq<Alarm>)
    requires PointersOk(p, count, builtIn) && i <= count < |p|
    requires p[count] == a || (p[count] == null && a !in builtIn)
    ensures var back := if a in builtIn then a else null;
            Closed(Shifted(p, count, i, a), count + 1, i, back) == p
  {
  }

  lemma {:induction false} RemoveKeeps(p: seq<Alarm?>, count: nat, i: nat, back: Alarm?, builtIn: seq<Alarm>, names: seq<string>)
    requires PointersOk(p, count, builtIn) && i < count && NamesOf(p[..count]) == names && SortedNames(names)
    requires back == if p[i] in builtIn then p[i] else null
    requires Flags(p, count, builtIn, i) && (back != null ==> !back.registered)
    ensures var q := Closed(p, count, i, back);
            && PointersOk(q, count - 1, builtIn) && Flags(q, count - 1, builtIn, -1)
            && q[..count - 1] == Removed(p[..count], i)
            && NamesOf(q[..count - 1]) == Removed(names, i)
            && SortedNames(Removed(names, i))
  {
    RemovedSorted(names, i);
    hide PointersOk, SortedNames, Removed, Flags, NamesOf, Closed;
    CloseKeeps(p, count, i, back, builtIn);
    FlagsClose(p, count, i, back, builtIn);
    CloseLive(p, count, i, back);
    NamesRemoved(p[..count], i);
  }

  lemma RemovedSorted(names: seq<string>, i: nat)
    requires i < |names| && SortedNames(names)
    ensures SortedNames(Removed(names, i))
  {
  }

  class Registry {
    const builtIn: seq<Alarm>
    const ptr: array<Alarm?>
    var count: nat

    ghost predicate Pointers()
      reads this, ptr
    {
      PointersOk(ptr[..], count, builtIn)
    }

    ghost predicate Valid()
      reads this, ptr, ptr[..]
    {
      Pointers() && Flags(ptr[..], count, builtIn, -1) && SortedNames(LiveNames())
    }

    /** The live alarms. */
    ghost function Live(): (r: seq<Alarm?>)
      requires Pointers()
      reads this, ptr
    {
      ptr[..count]
    }

    ghost function LiveNames(): (r: seq<string>)
      requires Pointers()
      reads this, ptr, ptr[..]
      ensures |r| == count
    {
      NamesOf(Live())
    }

    /** The set-up in iot_initialize. */
    constructor (alarms: seq<Alarm>, max: nat)
      requires |alarms| <= max
      requires forall i, j :: 0 <= i < j < |alarms| ==> alarms[i] != alarms[j]
      requires forall a <- alarms :: !a.registered && !a.isInHeap
      ensures Valid() && count == 0 && builtIn == alarms && ptr.Length == max
      ensures fresh(ptr)
    {
      builtIn := alarms;
      count := 0;
      ptr := new Alarm?[max](i => null);
      new;
      for i := 0 to |alarms|
        invariant count == 0
        invariant forall k :: 0 <= k < ptr.Length ==> ptr[k] == if k < i then alarms[k] else null
      {
        ptr[i] := alarms[i];
      }
      forall b <- builtIn ensures b in ptr[..] {
        var k :| 0 <= k < |alarms| && alarms[k] == b;
        assert ptr[..][k] == b;
      }
    }

    /** iot_alarm_register */
    method Register(name: string) returns (alarm: Alarm?)
      requires Valid() && '\0' !in name
      modifies this`count, ptr, ptr[count..]
      ensures Valid()
      ensures alarm == null <==> name == [] || old(count) == ptr.Length
      ensures alarm == null ==> ptr[..] == old(ptr[..]) && count == old(count)
      ensures alarm != null ==>
                var i := Place(old(LiveNames()), Cut(name, NAME_MAX));
                && Live() == Inserted(old(Live()), i, alarm)
                && LiveNames() == Inserted(old(LiveNames()), i, Cut(name, NAME_MAX))
                && (if old(ptr[count]) != null then alarm == old(ptr[count]) else fresh(alarm))
    {
      hide Shifted, Place, Cut, SortedNames, Inserted;
      alarm := null;
      if name != [] && count < ptr.Length {
        ghost var names := LiveNames();
        var nameLen := if |name| > NAME_MAX then NAME_MAX else |name|;
        CutIs(name, nameLen);
        alarm := Take(Cut(name, nameLen));
        var i := FindPlace(name, nameLen, names);
        Insert(i, alarm, names);
      }
    }

    /** Takes the free built-in alarm behind the live ones, or a new one, and fills it in. */
    method Take(name: string) returns (alarm: Alarm)
      requires Valid() && count < ptr.Length
      modifies ptr[count..count + 1]
      ensures Pointers() && LiveNames() == old(LiveNames())
      ensures forall i :: 0 <= i < count ==> ptr[i].name == old(ptr[i].name)
      ensures ptr[count] == alarm || (ptr[count] == null && fresh(alarm))
      ensures alarm.name == name && alarm.registered && (alarm.isInHeap <==> alarm !in builtIn)
      ensures Flags(ptr[..], count, builtIn, count)
    {
      var isInHeap := false;
      var taken := ptr[count];
      if taken == null {
        taken := new Alarm();
        isInHeap := true;
      }
      alarm := taken;
      assert ptr[..][count] == ptr[count];
      assert forall i :: 0 <= i < ptr.Length && i != count && ptr[i] != null ==> ptr[..][i] != alarm;
      alarm.name := name;
      alarm.registered := true;
      alarm.isInHeap := isInHeap;
      hide PointersOk;
      assert LiveNames() == old(LiveNames());
    }

    /** Puts a filled-in alarm into its place. */
    method Insert(i: nat, alarm: Alarm, ghost names: seq<string>)
      requires Pointers() && count < ptr.Length && LiveNames() == names && SortedNames(names)
      requires i == Place(names, alarm.name) && 0 < |alarm.name| <= NAME_MAX && '\0' !in alarm.name
      requires ptr[count] == alarm || (ptr[count] == null && alarm !in ptr[..])
      requires alarm.registered && (alarm.isInHeap <==> alarm !in builtIn)
      requires Flags(ptr[..], count, builtIn, count)
      modifies this`count, ptr
      ensures Valid()
      ensures count == old(count) + 1
      ensures Live() == Inserted(old(Live()), i, alarm)
      ensures LiveNames() == Inserted(names, i, alarm.name)
    {
      ghost var p, n := ptr[..], count;
      hide *;
      ShiftUp(i, alarm);
      count := count + 1;
      InsertKeeps(p, n, i, alarm, builtIn, names);
      assert Live() == Shifted(p, n, i, alarm)[..n + 1];
    }

    /** The binary search of iot_alarm_register, by the first nameLen characters. */
    method FindPlace(name: string, nameLen: nat, ghost names: seq<string>) returns (curIdx: nat)
      requires Pointers() && LiveNames() == names && SortedNames(names)
      requires '\0' !in name && nameLen == |Cut(name, NAME_MAX)|
      ensures curIdx == Place(names, Cut(name, NAME_MAX))
    {
      ghost var x := Cut(name, NAME_MAX);
      curIdx := 0;
      var minIdx, maxIdx := 0, count;
      while maxIdx - minIdx > 0
        invariant minIdx <= maxIdx <= count
        invariant curIdx == minIdx || curIdx == maxIdx
        invariant forall k :: 0 <= k < minIdx ==> Less(names[k], x)
        invariant forall k :: maxIdx <= k < count ==> !Less(names[k], x)
      {
        curIdx := (maxIdx - minIdx) / 2 + minIdx;
        var cmp := Compare(name, ptr[curIdx].name, nameLen, false);
        assert names[curIdx] == ptr[curIdx].name;
        PrefixDecides(names[curIdx], x);
        if cmp > 0 {
          forall k | 0 <= k < curIdx ensures Less(names[k], x) {
            LessThenNotLess(names[k], names[curIdx], x);
          }
          curIdx := curIdx + 1;
          minIdx := curIdx;
        } else {
          forall k | curIdx < k < count ensures !Less(names[k], x) {
            if Less(names[k], x) {
              LessThenNotLess(names[curIdx], names[k], x);
            }
          }
          maxIdx := curIdx;
        }
      }
      PlaceIs(names, x, curIdx);
    }

    /** The move and the assignment that put the alarm into its place. */
    method ShiftUp(i: nat, alarm: Alarm)
      requires i <= count < ptr.Length
      modifies ptr
      ensures ptr[..] == Shifted(old(ptr[..]), count, i, alarm)
    {
      var k := count;
      while k > i
        invariant i <= k <= count
        invariant forall j :: 0 <= j < ptr.Length ==> ptr[j] == if k < j <= count then old(ptr[j - 1]) else old(ptr[j])
      {
        ptr[k] := ptr[k - 1];
        k := k - 1;
      }
      ptr[i] := alarm;
    }

    /** iot_alarm_deregister, for an alarm of this library. */
    method Deregister(alarm: Alarm?) returns (status: Status)
      requires Valid()
      modifies this`count, ptr, (if alarm == null then {} else {alarm})`registered
      ensures Valid()
      ensures status == if alarm == null then BadParameter
                        else if old(alarm.registered) && alarm in old(Live()) then Success
                        else NotInitialized
      ensures status != Success ==> ptr[..] == old(ptr[..]) && count == old(count)
      ensures status != Success && alarm != null ==> alarm.registered == old(alarm.registered)
      ensures status == Success ==>
                && !alarm.registered && count == old(count) - 1
                && exists i :: 0 <= i < old(count) && old(ptr[i]) == alarm
                     && Live() == Removed(old(Live()), i)
                     && LiveNames() == Removed(old(LiveNames()), i)
                     && ptr[..] == Closed(old(ptr[..]), old(count), i, if alarm in builtIn then alarm else null)
    {
      status := BadParameter;
      if alarm != null {
        status := NotInitialized;
        if alarm.registered {
          var max := count;
          var i := 0;
          while i < max && ptr[i] != alarm
            invariant i <= max
            invariant forall k :: 0 <= k < i ==> ptr[k] != alarm
          {
            i := i + 1;
          }
          if i < max {
            Remove(i, alarm);
            status := Success;
          }
        }
      }
    }

    method Remove(i: nat, alarm: Alarm)
      requires Valid() && i < count && ptr[i] == alarm
      modifies this`count, ptr, alarm`registered
      ensures Valid() && !alarm.registered && count == old(count) - 1
      ensures Live() == Removed(old(Live()), i)
      ensures LiveNames() == Removed(old(LiveNames()), i)
      ensures ptr[..] == Closed(old(ptr[..]), old(count), i, if alarm in builtIn then alarm else null)
    {
      hide *;
      Known();
      ghost var p, names := ptr[..], LiveNames();
      var n := count;
      var back := Release(i, alarm);
      count := count - 1;
      ShiftDown(i, n, back);
      RemoveKeeps(p, n, i, back, builtIn, names);
      Holds(Removed(names, i));
    }

    lemma Known()
      requires Valid()
      ensures Pointers() && Live() == ptr[..count] && LiveNames() == NamesOf(ptr[..count])
    {
    }

    /** Valid, put together again. */
    lemma Holds(names: seq<string>)
      requires PointersOk(ptr[..], count, builtIn) && Flags(ptr[..], count, builtIn, -1)
      requires count <= ptr.Length && NamesOf(ptr[..][..count]) == names && SortedNames(names)
      ensures Valid() && Live() == ptr[..][..count] && LiveNames() == names
    {
      assert ptr[..][..count] == ptr[..count];
    }

    /** Clears the library pointer, and says what goes behind the live part. */
    method Release(i: nat, alarm: Alarm) returns (back: Alarm?)
      requires Valid() && i < count && ptr[i] == alarm
      modifies alarm`registered
      ensures PointersOk(ptr[..], count, builtIn) && i < count <= ptr.Length && ptr[..][i] == alarm && !alarm.registered
      ensures Flags(ptr[..], count, builtIn, i)
      ensures NamesOf(ptr[..count]) == old(LiveNames()) && SortedNames(old(LiveNames()))
      ensures ptr[..][..count] == ptr[..count]
      ensures back == if alarm in builtIn then alarm else null
    {
      assert ptr[..][i] == alarm;
      back := if alarm.isInHeap then null else alarm;
      alarm.registered := false;
    }

    method ShiftDown(i: nat, max: nat, back: Alarm?)
      requires i < max <= ptr.Length
      modifies ptr
      ensures ptr[..] == Closed(old(ptr[..]), max, i, back)
    {
      var k := i;
      while k < max - 1
        invariant i <= k < max
        invariant forall j :: 0 <= j < ptr.Length ==> ptr[j] == if i <= j < k then old(ptr[j + 1]) else old(ptr[j])
      {
        ptr[k] := ptr[k + 1];
        k := k + 1;
      }
      ptr[max - 1] := back;
    }
  }

  lemma CutIs(name: string, n: nat)
    requires n == if |name| > NAME_MAX then NAME_MAX else |name|
    ensures Cut(name, n) == Cut(name, NAME_MAX) && |Cut(name, NAME_MAX)| == n
    ensures '\0' !in name ==> '\0' !in Cut(name, n)
  {
  }

  /** The place is behind exactly the smaller names. */
  lemma {:induction false} PlaceSplits(names: seq<string>, x: string, k: nat)
    requires SortedNames(names) && k < |names|
    ensures k < Place(names, x) <==> Less(names[k], x)
  {
    if Less(names[0], x) {
      if k > 0 {
        PlaceSplits(names[1..], x, k - 1);
      }
    } else if Less(names[k], x) {
      LessThenNotLess(names[0], names[k], x);
    }
  }

  lemma {:induction false} NamesSorted(names: seq<string>, i: nat, x: string)
    requires SortedNames(names) && i == Place(names, x) && 0 < |x| <= NAME_MAX && '\0' !in x
    ensures SortedNames(Inserted(names, i, x))
  {
    hide Less, Place;
    var t := Inserted(names, i, x);
    forall k | 0 <= k < |names| ensures if k < i then !Less(x, names[k]) else !Less(names[k], x) {
      PlaceSplits(names, x, k);
      LessTotal(x, names[k]);
    }
    forall k | 0 <= k < |t| ensures t[k] == if k < i then names[k] else if k == i then x else names[k - 1] { }
  }
}
