/** The request slots of src/api/iot_action.c: a fixed pool, a queue of waiting requests, and
    the four operations that run under the worker mutex. */
module RequestPool {
  import opened Wrappers

  /** A slot of the request_queue array, by its index. */
  type Slot = nat

  /** request_queue_free with its count of slots in use, and the live part of
      request_queue_wait. */
  datatype Pool = Pool(free: seq<Slot>, used: nat, wait: seq<Slot>)

  predicate WellFormed(p: Pool) {
    p.used <= |p.free| && |p.wait| <= |p.free|
  }

  /** The slots that can be allocated. */
  function Available(p: Pool): seq<Slot>
    requires p.used <= |p.free|
  {
    p.free[p.used..]
  }

  function Initial(n: nat): Pool {
    Pool(seq(n, i => i), 0, [])
  }

  function Taken(p: Pool): (Pool, Option<Slot>)
    requires WellFormed(p)
  {
    if p.used < |p.free| then (p.(used := p.used + 1), Some(p.free[p.used])) else (p, None)
  }

  /** Queues a request; refused when the queue is full. */
  function Queued(p: Pool, x: Slot): (Pool, bool)
    requires WellFormed(p)
  {
    if |p.wait| < |p.free| then (p.(wait := p.wait + [x]), true) else (p, false)
  }

  function Fetched(p: Pool): (Pool, Option<Slot>)
    requires WellFormed(p)
  {
    if p.wait == [] then (p, None) else (p.(wait := p.wait[1..]), Some(p.wait[0]))
  }

  function Returned(p: Pool, x: Slot): Pool
    requires WellFormed(p) && p.used > 0
  {
    p.(used := p.used - 1, free := p.free[p.used - 1 := x])
  }

  /** A slot that is returned is the next to be taken, and taking it undoes the return. */
  lemma TakeReturned(p: Pool, x: Slot)
    requires WellFormed(p) && p.used > 0
    ensures Taken(Returned(p, x)).1 == Some(x)
    ensures Taken(Returned(p, x)).0 == p.(free := p.free[p.used - 1 := x])
  {
  }

  /** A request that joins a queue with room is the last to be fetched. */
  lemma FetchQueued(p: Pool, x: Slot)
    requires WellFormed(p) && |p.wait| < |p.free|
    ensures Fetched(Queued(p, x).0).1 == Some(if p.wait == [] then x else p.wait[0])
    ensures p.wait != [] ==> Fetched(Queued(p, x).0).0 == Queued(Fetched(p).0, x).0
  {
    assert p.wait != [] ==> (p.wait + [x])[1..] == p.wait[1..] + [x];
  }

  /** The part of struct iot that the mutex protects. */
  class Requests {
    const free: array<Slot>
    var used: nat
    const wait: array<Slot>
    var waiting: nat

    ghost predicate Valid()
      reads this, free, wait
    {
      free != wait && free.Length == wait.Length && used <= free.Length && waiting <= wait.Length
    }

    ghost function View(): (p: Pool)
      requires Valid()
      reads this, free, wait
      ensures WellFormed(p)
    {
      Pool(free[..], used, wait[..waiting])
    }

    /** The set-up in iot_initialize: the i-th pointer to the i-th slot. */
    constructor (n: nat)
      ensures Valid() && View() == Initial(n)
      ensures fresh(free) && fresh(wait)
    {
      free := new Slot[n];
      wait := new Slot[n];
      used, waiting := 0, 0;
      new;
      for i := 0 to n
        invariant free.Length == n && used == 0 && waiting == 0
        invariant forall j :: 0 <= j < i ==> free[j] == j
      {
        free[i] := i;
      }
    }

    /** iot_action_request_allocate */
    method Allocate() returns (result: Option<Slot>)
      requires Valid()
      modifies this`used
      ensures Valid() && (View(), result) == Taken(old(View()))
    {
      result := None;
      if used < free.Length {
        result := Some(free[used]);
        used := used + 1;
      }
    }

    /** iot_action_request_execute, up to the full branch's notification */
    method Execute(x: Slot) returns (queued: bool)
      requires Valid()
      modifies this`waiting, wait
      ensures Valid() && (View(), queued) == Queued(old(View()), x)
    {
      queued := false;
      if waiting < wait.Length {
        wait[waiting] := x;
        waiting := waiting + 1;
        queued := true;
        assert wait[..waiting] == old(wait[..waiting]) + [x];
      }
    }

    /** The locked part of iot_action_process */
    method Process() returns (request: Option<Slot>)
      requires Valid()
      modifies this`waiting, wait
      ensures Valid() && (View(), request) == Fetched(old(View()))
    {
      request := None;
      if waiting > 0 {
        request := Some(wait[0]);
        waiting := waiting - 1;
        var i := 0;
        while i < waiting
          invariant 0 <= i <= waiting < wait.Length && waiting == old(waiting) - 1
          invariant forall j :: 0 <= j < i ==> wait[j] == old(wait[j + 1])
          invariant forall j :: i <= j < wait.Length ==> wait[j] == old(wait[j])
        {
          wait[i] := wait[i + 1];
          i := i + 1;
        }
        assert wait[..waiting] == old(wait[..waiting])[1..];
      }
    }

    /** The locked part of iot_action_request_free */
    method Free(x: Slot)
      requires Valid() && used > 0
      modifies this`used, free
      ensures Valid() && View() == Returned(old(View()), x)
    {
      used := used - 1;
      free[used] := x;
    }
  }
}
