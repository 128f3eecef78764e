/** Every interleaving of any number of clients and workers over the request pool of
    src/api/iot_action.c: where each slot is, what happens to each request, in which order
    requests leave the queue, and what an exclusive action excludes. */
module ActionRuns {
  import opened Wrappers
  import opened RequestPool

  /** A worker between two steps of iot_action_process. */
  datatype Worker =
    | Idle
    | Holding(x: Slot)                      // dequeued, action looked up, no lock yet
    | Executing(x: Slot, exclusive: bool)   // inside the read or write lock
    | Finished(x: Slot)                     // lock released, or never taken
    | Reported(x: Slot)                     // completion sent, slot not yet freed

  /** What can happen to a request; each allocation has a number of its own. */
  datatype Kind = Allocated | Enqueued | Dequeued | Completed | Released

  datatype Event = Event(kind: Kind, request: nat)

  datatype Place = Free | Client | Waiting | AtWorker(w: nat)

  /** The pool; the slots clients hold; the workers; the read-write lock. And, for the
      record, the place of each slot, the request it was last allocated for, the number of
      the next request, and everything that happened. */
  datatype State = State(
    pool: Pool,
    clients: set<Slot>,
    workers: map<nat, Worker>,
    readers: set<nat>,
    writer: Option<nat>,
    place: map<Slot, Place>,
    request: map<Slot, nat>,
    next: nat,
    log: seq<Event>)

  function WorkerAt(s: State, w: nat): Worker {
    if w in s.workers then s.workers[w] else Idle
  }

  datatype Step =
    | Allocate
    | Enqueue(x: Slot)
    | Abandon(x: Slot)              // a client frees a request it never queued
    | Dequeue(w: nat)
    | Lock(w: nat, exclusive: bool)
    | Skip(w: nat)                  // quitting, or no such action
    | Unlock(w: nat)
    | Complete(w: nat)
    | Release(w: nat)

  /** When a step can happen. A client acts on requests it holds; locks are granted as a
      read-write lock grants them; a worker that finds the queue empty leaves its loop. */
  predicate Enabled(s: State, step: Step) {
    && WellFormed(s.pool)
    && match step
       case Allocate => s.pool.used < |s.pool.free| && s.pool.free[s.pool.used] < |s.pool.free|
       case Enqueue(x) => x in s.clients && x in s.request
       case Abandon(x) => x in s.clients && x in s.request && s.pool.used > 0
       case Dequeue(w) => WorkerAt(s, w) == Idle && s.pool.wait != [] && s.pool.wait[0] in s.request
       case Lock(w, exclusive) => WorkerAt(s, w).Holding? && s.writer == None && (exclusive ==> s.readers == {})
       case Skip(w) => WorkerAt(s, w).Holding?
       case Unlock(w) => WorkerAt(s, w).Executing?
       case Complete(w) => WorkerAt(s, w).Finished? && WorkerAt(s, w).x in s.request
       case Release(w) => WorkerAt(s, w).Reported? && WorkerAt(s, w).x in s.request && s.pool.used > 0
  }

  function SetWorker(s: State, w: nat, to: Worker): State {
    s.(workers := s.workers[w := to])
  }

  function Note(s: State, kind: Kind, x: Slot): State
    requires x in s.request
  {
    s.(log := s.log + [Event(kind, s.request[x])])
  }

  function Move(s: State, x: Slot, to: Place): State {
    s.(place := s.place[x := to])
  }

  function Next(s: State, step: Step): State
    requires Enabled(s, step)
  {
    match step
    case Allocate =>
      var (pool, x) := Taken(s.pool);
      var t := s.(pool := pool, clients := s.clients + {x.value}, request := s.request[x.value := s.next],
                  next := s.next + 1);
      Note(Move(t, x.value, Client), Allocated, x.value)
    case Enqueue(x) =>
      var (pool, ok) := Queued(s.pool, x);
      if ok then Note(Move(s.(pool := pool, clients := s.clients - {x}), x, Waiting), Enqueued, x)
      else Note(s, Completed, x)
    case Abandon(x) =>
      Note(Move(s.(pool := Returned(s.pool, x), clients := s.clients - {x}), x, Free), Released, x)
    case Dequeue(w) =>
      var (pool, x) := Fetched(s.pool);
      Note(Move(SetWorker(s.(pool := pool), w, Holding(x.value)), x.value, AtWorker(w)), Dequeued, x.value)
    case Lock(w, exclusive) =>
      var t := SetWorker(s, w, Executing(WorkerAt(s, w).x, exclusive));
      if exclusive then t.(writer := Some(w)) else t.(readers := s.readers + {w})
    case Skip(w) =>
      SetWorker(s, w, Finished(WorkerAt(s, w).x))
    case Unlock(w) =>
      var t := SetWorker(s, w, Finished(WorkerAt(s, w).x));
      if WorkerAt(s, w).exclusive then t.(writer := None) else t.(readers := s.readers - {w})
    case Complete(w) =>
      Note(SetWorker(s, w, Reported(WorkerAt(s, w).x)), Completed, WorkerAt(s, w).x)
    case Release(w) =>
      var x := WorkerAt(s, w).x;
      Note(Move(SetWorker(s.(pool := Returned(s.pool, x)), w, Idle), x, Free), Released, x)
  }

  function Slots(n: nat): (r: set<Slot>)
    ensures |r| == n && forall x: Slot :: x in r <==> x < n
  {
    if n == 0 then {} else Slots(n - 1) + {n - 1}
  }

  function Start(n: nat): State {
    State(Initial(n), {}, map[], {}, None, map x | x in Slots(n) :: Free, map[], 0, [])
  }

  predicate Legal(s: State, steps: seq<Step>)
    decreases |steps|
  {
    steps == [] || (Enabled(s, steps[0]) && Legal(Next(s, steps[0]), steps[1..]))
  }

  function Run(s: State, steps: seq<Step>): State
    requires Legal(s, steps)
    decreases |steps|
  {
    if steps == [] then s else Run(Next(s, steps[0]), steps[1..])
  }

  // -------------------------------------------------- where each slot is

  /** What the state itself says about where a slot is. */
  predicate At(s: State, x: Slot, p: Place)
    requires WellFormed(s.pool)
  {
    match p
    case Free => x in Available(s.pool)
    case Client => x in s.clients
    case Waiting => x in s.pool.wait
    case AtWorker(w) => !WorkerAt(s, w).Idle? && WorkerAt(s, w).x == x
  }

  predicate Distinct(q: seq<Slot>) {
    forall i, j :: 0 <= i < j < |q| ==> q[i] != q[j]
  }

  /** Each slot is exactly where the record says, and in no list twice. */
  ghost predicate Placed(s: State) {
    && WellFormed(s.pool)
    && s.place.Keys == Slots(|s.pool.free|)
    && Distinct(Available(s.pool)) && Distinct(s.pool.wait)
    && (forall x: Slot, p :: At(s, x, p) <==> x in s.place && s.place[x] == p)
  }

  lemma PlacedStart(n: nat)
    ensures Placed(Start(n))
  {
    var s := Start(n);
    assert Available(s.pool) == s.pool.free;
    forall x: Slot, p ensures At(s, x, p) <==> x in s.place && s.place[x] == p {
      if x < n {
        assert s.pool.free[x] == x;
      }
    }
  }

  lemma PlacedAllocate(s: State)
    requires Placed(s) && Enabled(s, Allocate)
    ensures Placed(Next(s, Allocate))
  {
    var t := Next(s, Allocate);
    var x := s.pool.free[s.pool.used];
    assert Available(s.pool) == [x] + Available(t.pool);
    assert At(s, x, Free);
    forall y: Slot, p ensures At(t, y, p) <==> y in t.place && t.place[y] == p {
      assert At(s, y, p) <==> y in s.place && s.place[y] == p;
    }
  }

  lemma PlacedReturn(s: State, x: Slot, t: State)
    requires Placed(s) && x in s.place && s.place[x] != Free && s.pool.used > 0
    requires t.pool == Returned(s.pool, x) && t.place == s.place[x := Free]
    requires forall y: Slot, p :: p != Free ==> (At(t, y, p) <==> At(s, y, p) && y != x)
    ensures Placed(t)
  {
    assert Available(t.pool) == [x] + Available(s.pool);
    assert !At(s, x, Free);
    forall y: Slot, p ensures At(t, y, p) <==> y in t.place && t.place[y] == p {
      assert At(s, y, p) <==> y in s.place && s.place[y] == p;
    }
  }

  lemma {:induction false} PlacedEnqueue(s: State, x: Slot)
    requires Placed(s) && Enabled(s, Enqueue(x))
    ensures Placed(Next(s, Enqueue(x)))
  {
    hide Next, Enabled, Slots;
    EnqueueIs(s, x);
    var t := Next(s, Enqueue(x));
    assert At(s, x, Client) && !At(s, x, Waiting);
    forall y: Slot, p ensures At(t, y, p) <==> y in t.place && t.place[y] == p {
      assert At(s, y, p) <==> y in s.place && s.place[y] == p;
    }
  }

  /** What queuing changes, when there is room and when there is none. */
  lemma EnqueueIs(s: State, x: Slot)
    requires Enabled(s, Enqueue(x))
    ensures WellFormed(s.pool) && x in s.clients
    ensures var t := Next(s, Enqueue(x));
            && t.workers == s.workers && t.pool.free == s.pool.free && t.pool.used == s.pool.used
            && if |s.pool.wait| < |s.pool.free|
               then t.pool.wait == s.pool.wait + [x] && t.clients == s.clients - {x} && t.place == s.place[x := Waiting]
               else t.pool.wait == s.pool.wait && t.clients == s.clients && t.place == s.place
  {
  }

  lemma PlacedDequeue(s: State, w: nat)
    requires Placed(s) && Enabled(s, Dequeue(w))
    ensures Placed(Next(s, Dequeue(w)))
  {
    var t := Next(s, Dequeue(w));
    var x := s.pool.wait[0];
    assert s.pool.wait == [x] + t.pool.wait;
    assert At(s, x, Waiting);
    assert Available(t.pool) == Available(s.pool);
    forall y: Slot, p ensures At(t, y, p) <==> y in t.place && t.place[y] == p {
      assert At(s, y, p) <==> y in s.place && s.place[y] == p;
      assert At(s, y, AtWorker(w)) <==> y in s.place && s.place[y] == AtWorker(w);
    }
  }

  /** The steps of a worker that only change what it does with its slot. */
  lemma PlacedWorker(s: State, t: State, w: nat)
    requires Placed(s) && t.pool == s.pool && t.place == s.place && t.clients == s.clients
    requires !WorkerAt(s, w).Idle? && !WorkerAt(t, w).Idle? && WorkerAt(t, w).x == WorkerAt(s, w).x
    requires forall v :: v != w ==> WorkerAt(t, v) == WorkerAt(s, v)
    ensures Placed(t)
  {
    forall y: Slot, p ensures At(t, y, p) <==> At(s, y, p) {
      if p.AtWorker? {
        assert p.w != w ==> WorkerAt(t, p.w) == WorkerAt(s, p.w);
      }
    }
  }

  lemma PlacedAbandon(s: State, x: Slot)
    requires Placed(s) && Enabled(s, Abandon(x))
    ensures Placed(Next(s, Abandon(x)))
  {
    var t := Next(s, Abandon(x));
    assert At(s, x, Client);
    forall y: Slot, p | p != Free ensures At(t, y, p) <==> At(s, y, p) && y != x {
      assert At(s, x, p) ==> s.place[x] == p;
    }
    PlacedReturn(s, x, t);
  }

  lemma PlacedRelease(s: State, w: nat)
    requires Placed(s) && Enabled(s, Release(w))
    ensures Placed(Next(s, Release(w)))
  {
    var t := Next(s, Release(w));
    var x := WorkerAt(s, w).x;
    assert At(s, x, AtWorker(w));
    forall y: Slot, p | p != Free ensures At(t, y, p) <==> At(s, y, p) && y != x {
      assert At(s, x, p) ==> s.place[x] == p;
    }
    PlacedReturn(s, x, t);
  }

  lemma {:induction false} PlacedNext(s: State, step: Step)
    requires Placed(s) && Enabled(s, step)
    ensures Placed(Next(s, step))
  {
    hide Placed, WellFormed;
    var t := Next(s, step);
    match step
    case Allocate => hide *; PlacedAllocate(s);
    case Enqueue(x) => hide *; PlacedEnqueue(s, x);
    case Dequeue(w) => hide *; PlacedDequeue(s, w);
    case Abandon(x) => hide *; PlacedAbandon(s, x);
    case Release(w) => hide *; PlacedRelease(s, w);
    case Lock(w, _) => PlacedWorker(s, t, w);
    case Skip(w) => PlacedWorker(s, t, w);
    case Unlock(w) => PlacedWorker(s, t, w);
    case Complete(w) => PlacedWorker(s, t, w);
  }

  // ------------------------------------------------------------- counting

  lemma {:induction false} DistinctFits(q: seq<Slot>, all: set<Slot>)
    requires Distinct(q) && forall x <- q :: x in all
    ensures |q| <= |all|
    decreases |q|
  {
    if q != [] {
      var last := q[|q| - 1];
      DistinctFits(q[..|q| - 1], all - {last});
    }
  }

  /** While a slot is outside a list of distinct slots, the list is not full. */
  lemma NotFull(s: State, q: seq<Slot>, x: Slot)
    requires Placed(s) && Distinct(q) && x in s.place && x !in q
    requires forall y <- q :: y in s.place
    ensures |q| < |s.pool.free|
  {
    DistinctFits(q, s.place.Keys - {x});
  }

  /** The queue never refuses a request that is queued once: the "storage is full" branch of
      iot_action_request_execute is dead. */
  lemma QueueNeverFull(s: State, x: Slot)
    requires Placed(s) && x in s.clients
    ensures |s.pool.wait| < |s.pool.free| && Queued(s.pool, x).1
  {
    assert At(s, x, Client);
    assert !At(s, x, Waiting);
    assert forall y <- s.pool.wait :: At(s, y, Waiting);
    NotFull(s, s.pool.wait, x);
  }

  /** Freeing a slot that is in use never takes the count below zero. */
  lemma CountNeverNegative(s: State, x: Slot)
    requires Placed(s) && x in s.place && s.place[x] != Free
    ensures s.pool.used > 0
  {
    assert !At(s, x, Free);
    assert forall y <- Available(s.pool) :: At(s, y, Free);
    NotFull(s, Available(s.pool), x);
  }

  // ------------------------------------------- what happens to a request

  /** The events of one request, in order. */
  function Story(log: seq<Event>, t: nat): seq<Kind> {
    if log == [] then []
    else
      var last := log[|log| - 1];
      Story(log[..|log| - 1], t) + if last.request == t then [last.kind] else []
  }

  /** The requests an event of one kind happened to, in order. */
  function Order(log: seq<Event>, kind: Kind): seq<nat> {
    if log == [] then []
    else
      var last := log[|log| - 1];
      Order(log[..|log| - 1], kind) + if last.kind == kind then [last.request] else []
  }

  lemma StoryAppend(log: seq<Event>, e: Event, t: nat)
    ensures Story(log + [e], t) == Story(log, t) + if e.request == t then [e.kind] else []
  {
  }

  const WHOLE: seq<Kind> := [Allocated, Enqueued, Dequeued, Completed, Released]

  /** A story so far: some first part of being allocated, queued, dequeued, completed and
      freed, once each; or freed by its client without being queued. */
  predicate Proper(story: seq<Kind>) {
    story <= WHOLE || story == [Allocated, Released]
  }

  /** The story of a slot's request, told by where the slot is. */
  function SoFar(s: State, x: Slot): seq<Kind>
    requires x in s.place
  {
    match s.place[x]
    case Free => []
    case Client => WHOLE[..1]
    case Waiting => WHOLE[..2]
    case AtWorker(w) => if WorkerAt(s, w).Reported? then WHOLE[..4] else WHOLE[..3]
  }

  predicate InUse(s: State, x: Slot) { x in s.place && s.place[x] != Free }

  ghost predicate Told(s: State) {
    && (forall x: Slot :: InUse(s, x) ==>
          x in s.request && s.request[x] < s.next && Story(s.log, s.request[x]) == SoFar(s, x))
    && (forall x: Slot, y: Slot :: InUse(s, x) && InUse(s, y) && x != y ==> s.request[x] != s.request[y])
    && (forall t: nat :: t >= s.next ==> Story(s.log, t) == [])
    && (forall t: nat :: Proper(Story(s.log, t)))
  }

  /** One event on the request of a slot in use. */
  lemma {:induction false} ToldEvent(s: State, t: State, x: Slot, kind: Kind)
    requires Told(s) && InUse(s, x) && x in t.place && t.place.Keys == s.place.Keys
    requires t.request == s.request && t.next == s.next && t.log == s.log + [Event(kind, s.request[x])]
    requires forall y: Slot :: y in s.place && y != x ==> t.place[y] == s.place[y] && SoFar(t, y) == SoFar(s, y)
    requires InUse(t, x) ==> SoFar(t, x) == SoFar(s, x) + [kind]
    requires Proper(SoFar(s, x) + [kind])
    ensures Told(t)
  {
    var e := Event(kind, s.request[x]);
    forall r: nat ensures Story(t.log, r) == Story(s.log, r) + if r == e.request then [kind] else [] {
      StoryAppend(s.log, e, r);
    }
    hide Story, SoFar, Proper;
    assert forall y: Slot :: InUse(t, y) ==> InUse(s, y);
  }

  /** The first event of a new request, for a slot that was free. */
  lemma {:induction false} ToldFirst(s: State, t: State, x: Slot)
    requires Told(s) && x in s.place && s.place[x] == Free
    requires t.place == s.place[x := Client] && t.request == s.request[x := s.next] && t.next == s.next + 1
    requires t.workers == s.workers && t.log == s.log + [Event(Allocated, s.next)]
    ensures Told(t)
  {
    forall r: nat ensures Story(t.log, r) == Story(s.log, r) + if r == s.next then [Allocated] else [] {
      StoryAppend(s.log, Event(Allocated, s.next), r);
    }
    hide Story;
    forall r: nat ensures Proper(Story(t.log, r)) {
      assert Proper(Story(s.log, r));
    }
    forall y: Slot | InUse(t, y)
      ensures y in t.request && t.request[y] < t.next && Story(t.log, t.request[y]) == SoFar(t, y)
    {
      assert y != x ==> InUse(s, y) && SoFar(t, y) == SoFar(s, y);
    }
    assert forall y: Slot :: InUse(t, y) && y != x ==> InUse(s, y);
  }

  lemma {:induction false} ToldAllocate(s: State)
    requires Placed(s) && Told(s) && Enabled(s, Allocate)
    ensures Told(Next(s, Allocate))
  {
    var x := s.pool.free[s.pool.used];
    assert x == Available(s.pool)[0] && At(s, x, Free);
    hide Told, Placed;
    ToldFirst(s, Next(s, Allocate), x);
  }

  /** Steps that leave the log alone. */
  lemma ToldQuiet(s: State, t: State)
    requires Told(s) && t.place == s.place && t.request == s.request && t.next == s.next && t.log == s.log
    requires forall y: Slot :: y in s.place ==> SoFar(t, y) == SoFar(s, y)
    ensures Told(t)
  {
  }

  lemma NextChapter(k: nat, kind: Kind)
    requires k < 5 && kind == WHOLE[k]
    ensures WHOLE[..k] + [kind] == WHOLE[..k + 1] && Proper(WHOLE[..k + 1])
  {
  }

  lemma {:induction false} ToldEnqueue(s: State, x: Slot)
    requires Placed(s) && Told(s) && Enabled(s, Enqueue(x))
    ensures Told(Next(s, Enqueue(x)))
  {
    var t := Next(s, Enqueue(x));
    QueueNeverFull(s, x);
    assert At(s, x, Client);
    NextChapter(1, Enqueued);
    hide Told, Proper, Placed;
    ToldEvent(s, t, x, Enqueued);
  }

  lemma {:induction false} ToldAbandon(s: State, x: Slot)
    requires Placed(s) && Told(s) && Enabled(s, Abandon(x))
    ensures Told(Next(s, Abandon(x)))
  {
    var t := Next(s, Abandon(x));
    assert At(s, x, Client);
    assert Proper(WHOLE[..1] + [Released]);
    hide Told, Proper, Placed;
    ToldEvent(s, t, x, Released);
  }

  lemma {:induction false} ToldDequeue(s: State, w: nat)
    requires Placed(s) && Told(s) && Enabled(s, Dequeue(w))
    ensures Told(Next(s, Dequeue(w)))
  {
    var t := Next(s, Dequeue(w));
    var x := s.pool.wait[0];
    assert At(s, x, Waiting);
    NextChapter(2, Dequeued);
    forall y: Slot | y in s.place && y != x ensures SoFar(t, y) == SoFar(s, y) {
      assert s.place[y] == AtWorker(w) ==> At(s, y, AtWorker(w));
    }
    hide Told, Proper, Placed;
    ToldEvent(s, t, x, Dequeued);
  }

  lemma {:induction false} ToldComplete(s: State, w: nat)
    requires Placed(s) && Told(s) && Enabled(s, Complete(w))
    ensures Told(Next(s, Complete(w)))
  {
    var t := Next(s, Complete(w));
    ToldWorker(s, t, w);
    NextChapter(3, Completed);
    hide Told, Proper, Placed;
    ToldEvent(s, t, WorkerAt(s, w).x, Completed);
  }

  lemma {:induction false} ToldRelease(s: State, w: nat)
    requires Placed(s) && Told(s) && Enabled(s, Release(w))
    ensures Told(Next(s, Release(w)))
  {
    var t := Next(s, Release(w));
    assert At(s, WorkerAt(s, w).x, AtWorker(w));
    ToldWorker(s, t, w);
    NextChapter(4, Released);
    hide Told, Proper, Placed;
    ToldEvent(s, t, WorkerAt(s, w).x, Released);
  }

  /** Taking and giving back the lock: the slot stays with its worker, not yet reported. */
  lemma {:induction false} ToldLocking(s: State, t: State, w: nat)
    requires Placed(s) && Told(s)
    requires !WorkerAt(s, w).Idle? && !WorkerAt(s, w).Reported? && !WorkerAt(t, w).Reported?
    requires t.place == s.place && t.request == s.request && t.next == s.next && t.log == s.log
    requires forall v: nat :: v != w ==> WorkerAt(t, v) == WorkerAt(s, v)
    ensures Told(t)
  {
    ToldWorker(s, t, w);
    hide Told, Proper, Placed, WorkerAt;
    ToldQuiet(s, t);
  }

  lemma {:induction false} ToldNext(s: State, step: Step)
    requires Placed(s) && Told(s) && Enabled(s, step)
    ensures Told(Next(s, step))
  {
    hide Placed, Told;
    var t := Next(s, step);
    match step
    case Allocate => hide *; ToldAllocate(s);
    case Enqueue(x) => hide *; ToldEnqueue(s, x);
    case Abandon(x) => hide *; ToldAbandon(s, x);
    case Dequeue(w) => hide *; ToldDequeue(s, w);
    case Complete(w) => hide *; ToldComplete(s, w);
    case Release(w) => hide *; ToldRelease(s, w);
    case Lock(w, _) => ToldLocking(s, t, w);
    case Skip(w) => ToldLocking(s, t, w);
    case Unlock(w) => ToldLocking(s, t, w);
  }

  /** Only one slot is at a worker, so a worker's step leaves the other slots' stories. */
  lemma ToldWorker(s: State, t: State, w: nat)
    requires Placed(s) && !WorkerAt(s, w).Idle? && t.place.Keys == s.place.Keys
    requires forall v :: v != w ==> WorkerAt(t, v) == WorkerAt(s, v)
    requires forall y: Slot :: y in s.place && y != WorkerAt(s, w).x ==> t.place[y] == s.place[y]
    ensures var x := WorkerAt(s, w).x; x in s.place && s.place[x] == AtWorker(w)
    ensures forall y: Slot :: y in s.place && y != WorkerAt(s, w).x ==> SoFar(t, y) == SoFar(s, y)
  {
    var x := WorkerAt(s, w).x;
    assert At(s, x, AtWorker(w));
    forall y: Slot | y in s.place && y != x ensures SoFar(t, y) == SoFar(s, y) {
      if s.place[y].AtWorker? {
        assert At(s, y, s.place[y]);
      }
    }
  }

  // -------------------------------------------------------- first in, first out

  function Requests(request: map<Slot, nat>, q: seq<Slot>): seq<nat>
    requires forall x <- q :: x in request
  {
    seq(|q|, i requires 0 <= i < |q| => request[q[i]])
  }

  /** What was queued is what was dequeued, in the same order, and then what waits. */
  ghost predicate Ordered(s: State) {
    && (forall x <- s.pool.wait :: x in s.request)
    && Order(s.log, Enqueued) == Order(s.log, Dequeued) + Requests(s.request, s.pool.wait)
  }

  lemma OrderedEvent(s: State, x: Slot, kind: Kind)
    requires x in s.request
    ensures var log := Note(s, kind, x).log;
            && Order(log, Enqueued) == Order(s.log, Enqueued) + (if kind == Enqueued then [s.request[x]] else [])
            && Order(log, Dequeued) == Order(s.log, Dequeued) + (if kind == Dequeued then [s.request[x]] else [])
  {
  }

  lemma {:induction false} OrderedAllocate(s: State)
    requires Placed(s) && Ordered(s) && Enabled(s, Allocate)
    ensures Ordered(Next(s, Allocate))
  {
    var t := Next(s, Allocate);
    var x := s.pool.free[s.pool.used];
    assert x == Available(s.pool)[0] && At(s, x, Free);
    assert !At(s, x, Waiting);
    OrderedEvent(t.(log := s.log), x, Allocated);
    hide Order;
    assert Requests(t.request, t.pool.wait) == Requests(s.request, s.pool.wait);
  }

  lemma {:induction false} OrderedEnqueue(s: State, x: Slot)
    requires Placed(s) && Ordered(s) && Enabled(s, Enqueue(x))
    ensures Ordered(Next(s, Enqueue(x)))
  {
    var t := Next(s, Enqueue(x));
    QueueNeverFull(s, x);
    OrderedEvent(s, x, Enqueued);
    hide Order, Placed;
    assert Requests(t.request, t.pool.wait) == Requests(s.request, s.pool.wait) + [s.request[x]];
  }

  lemma OrderedDequeue(s: State, w: nat)
    requires Ordered(s) && Enabled(s, Dequeue(w))
    ensures Ordered(Next(s, Dequeue(w)))
  {
  }

  lemma {:induction false} OrderedNext(s: State, step: Step)
    requires Placed(s) && Ordered(s) && Enabled(s, step)
    ensures Ordered(Next(s, step))
  {
    hide Order, Placed, Requests, At;
    match step
    case Allocate => OrderedAllocate(s);
    case Enqueue(x) => OrderedEnqueue(s, x);
    case Dequeue(w) => OrderedDequeue(s, w);
    case Abandon(x) => OrderedEvent(s, x, Released);
    case Complete(w) => OrderedEvent(s, WorkerAt(s, w).x, Completed);
    case Release(w) => OrderedEvent(s, WorkerAt(s, w).x, Released);
    case Lock(_, _) =>
    case Skip(_) =>
    case Unlock(_) =>
  }

  // ------------------------------------------------------- exclusive actions

  /** The lock is held by just the workers that execute, in the way they execute. */
  ghost predicate Locked(s: State) {
    && (forall w: nat :: s.writer == Some(w) <==> WorkerAt(s, w).Executing? && WorkerAt(s, w).exclusive)
    && (forall w: nat :: w in s.readers <==> WorkerAt(s, w).Executing? && !WorkerAt(s, w).exclusive)
    && (s.writer.Some? ==> s.readers == {})
  }

  lemma LockedNext(s: State, step: Step)
    requires Locked(s) && Enabled(s, step)
    ensures Locked(Next(s, step))
  {
  }

  // ------------------------------------------------------------- every run

  ghost predicate Good(s: State) {
    Placed(s) && Told(s) && Ordered(s) && Locked(s)
  }

  lemma GoodStart(n: nat)
    ensures Good(Start(n))
  {
    PlacedStart(n);
  }

  lemma {:induction false} RunKeepsGood(s: State, steps: seq<Step>)
    requires Good(s) && Legal(s, steps)
    ensures Good(Run(s, steps))
    decreases |steps|
  {
    if steps != [] {
      hide Placed, Told, Ordered, Locked, Enabled, Next;
      PlacedNext(s, steps[0]);
      ToldNext(s, steps[0]);
      OrderedNext(s, steps[0]);
      LockedNext(s, steps[0]);
      RunKeepsGood(Next(s, steps[0]), steps[1..]);
    }
  }

  /** When a step can happen, told by the lists and by what each worker is doing: the pool's
      own conditions always hold, and the lock lets a worker in exactly when no other one
      excludes it. */
  lemma {:induction false} NothingElseBlocks(s: State, x: Slot, w: nat)
    requires Good(s)
    ensures Enabled(s, Allocate) <==> s.pool.used < |s.pool.free|
    ensures Enabled(s, Enqueue(x)) <==> x in s.clients
    ensures Enabled(s, Abandon(x)) <==> x in s.clients
    ensures Enabled(s, Dequeue(w)) <==> WorkerAt(s, w).Idle? && s.pool.wait != []
    ensures Enabled(s, Lock(w, false))
       <==> WorkerAt(s, w).Holding? && forall v: nat :: WorkerAt(s, v).Executing? ==> !WorkerAt(s, v).exclusive
    ensures Enabled(s, Lock(w, true)) <==> WorkerAt(s, w).Holding? && forall v: nat :: !WorkerAt(s, v).Executing?
    ensures Enabled(s, Skip(w)) <==> WorkerAt(s, w).Holding?
    ensures Enabled(s, Unlock(w)) <==> WorkerAt(s, w).Executing?
    ensures Enabled(s, Complete(w)) <==> WorkerAt(s, w).Finished?
    ensures Enabled(s, Release(w)) <==> WorkerAt(s, w).Reported?
  {
    hide Placed, Told, Enabled;
    ClientsFree(s, x);
    LockFree(s, w);
    WorkersFree(s, w);
  }

  lemma {:induction false} ClientsFree(s: State, x: Slot)
    requires Placed(s) && Told(s)
    ensures WellFormed(s.pool)
    ensures Enabled(s, Allocate) <==> s.pool.used < |s.pool.free|
    ensures Enabled(s, Enqueue(x)) <==> x in s.clients
    ensures Enabled(s, Abandon(x)) <==> x in s.clients
  {
    hide Story, SoFar, Proper;
    if s.pool.used < |s.pool.free| {
      assert At(s, s.pool.free[s.pool.used], Free) by {
        assert s.pool.free[s.pool.used] == Available(s.pool)[0];
      }
    }
    if x in s.clients {
      assert At(s, x, Client) && InUse(s, x);
      CountNeverNegative(s, x);
    }
  }

  lemma {:induction false} WorkersFree(s: State, w: nat)
    requires Placed(s) && Told(s)
    ensures Enabled(s, Dequeue(w)) <==> WorkerAt(s, w).Idle? && s.pool.wait != []
    ensures Enabled(s, Skip(w)) <==> WorkerAt(s, w).Holding?
    ensures Enabled(s, Unlock(w)) <==> WorkerAt(s, w).Executing?
    ensures Enabled(s, Complete(w)) <==> WorkerAt(s, w).Finished?
    ensures Enabled(s, Release(w)) <==> WorkerAt(s, w).Reported?
  {
    hide Story, SoFar, Proper;
    if !WorkerAt(s, w).Idle? {
      var y := WorkerAt(s, w).x;
      assert At(s, y, AtWorker(w)) && InUse(s, y);
      CountNeverNegative(s, y);
    }
    if s.pool.wait != [] {
      assert At(s, s.pool.wait[0], Waiting) && InUse(s, s.pool.wait[0]);
    }
  }

  lemma LockFree(s: State, w: nat)
    requires Locked(s) && WellFormed(s.pool)
    ensures Enabled(s, Lock(w, false))
       <==> WorkerAt(s, w).Holding? && forall v: nat :: WorkerAt(s, v).Executing? ==> !WorkerAt(s, v).exclusive
    ensures Enabled(s, Lock(w, true)) <==> WorkerAt(s, w).Holding? && forall v: nat :: !WorkerAt(s, v).Executing?
  {
    if s.writer.Some? {
      assert WorkerAt(s, s.writer.value).Executing?;
    }
    if s.readers != {} {
      var v :| v in s.readers;
      assert WorkerAt(s, v).Executing?;
    }
  }

  /** What a step makes of the workers: it moves its own one place on, and no other. */
  lemma WorkerMoves(s: State, step: Step, v: nat)
    requires Enabled(s, step)
    ensures var was, now := WorkerAt(s, v), WorkerAt(Next(s, step), v);
            now == match step
                   case Dequeue(w) => if v == w then Holding(s.pool.wait[0]) else was
                   case Lock(w, exclusive) => if v == w then Executing(was.x, exclusive) else was
                   case Skip(w) => if v == w then Finished(was.x) else was
                   case Unlock(w) => if v == w then Finished(was.x) else was
                   case Complete(w) => if v == w then Reported(was.x) else was
                   case Release(w) => if v == w then Idle else was
                   case _ => was
  {
  }

  /** What a step writes into the history. */
  lemma StepLogs(s: State, step: Step)
    requires Enabled(s, step) && Good(s)
    ensures Next(s, step).log == s.log +
            match step
            case Allocate => [Event(Allocated, s.next)]
            case Enqueue(x) => [Event(Enqueued, s.request[x])]
            case Abandon(x) => [Event(Released, s.request[x])]
            case Dequeue(w) => [Event(Dequeued, s.request[s.pool.wait[0]])]
            case Lock(_, _) => []
            case Skip(_) => []
            case Unlock(_) => []
            case Complete(w) => [Event(Completed, s.request[WorkerAt(s, w).x])]
            case Release(w) => [Event(Released, s.request[WorkerAt(s, w).x])]
  {
    if step.Enqueue? {
      QueueNeverFull(s, step.x);
    }
  }

  /** One life of a request for an exclusive action: every step can happen, the action
      executes, and in the end the slot is available again. */
  lemma {:induction false} ExclusiveRun(w: nat)
    ensures var first, after := [Allocate, Enqueue(0), Dequeue(w), Lock(w, true)], [Unlock(w), Complete(w), Release(w)];
            && Legal(Start(1), first) && WorkerAt(Run(Start(1), first), w) == Executing(0, true)
            && Legal(Run(Start(1), first), after)
            && var t := Run(Run(Start(1), first), after);
               && t.pool == Initial(1) && t.clients == {} && WorkerAt(t, w) == Idle && t.writer == None
               && t.log == [Event(Allocated, 0), Event(Enqueued, 0), Event(Dequeued, 0), Event(Completed, 0), Event(Released, 0)]
  {
    hide Run, Legal, Start, Initial, Next, Enabled;
    UntilLocked(w);
    AfterLocked(w);
  }

  /** The state in which the action executes. */
  function Locking(w: nat): State {
    State(Pool([0], 1, []), {}, map[w := Executing(0, true)], {}, Some(w), map[0 := AtWorker(w)], map[0 := 0], 1,
          [Event(Allocated, 0), Event(Enqueued, 0), Event(Dequeued, 0)])
  }

  lemma {:induction false} UntilLocked(w: nat)
    ensures var steps := [Allocate, Enqueue(0), Dequeue(w), Lock(w, true)];
            Legal(Start(1), steps) && Run(Start(1), steps) == Locking(w)
  {
    hide Run, Legal, Start, Next, Enabled;
    UntilQueued();
    FromQueued(w);
    RunFour(Start(1), Allocate, Enqueue(0), Dequeue(w), Lock(w, true));
  }

  /** The state in which the request waits. */
  function OneWaiting(): State {
    State(Pool([0], 1, [0]), {}, map[], {}, None, map[0 := Waiting], map[0 := 0], 1, [Event(Allocated, 0), Event(Enqueued, 0)])
  }

  lemma UntilQueued()
    ensures Enabled(Start(1), Allocate) && Enabled(Next(Start(1), Allocate), Enqueue(0))
    ensures Next(Next(Start(1), Allocate), Enqueue(0)) == OneWaiting()
  {
    assert Start(1).pool.free == [0] && Start(1).place == map[0 := Free];
  }

  lemma FromQueued(w: nat)
    ensures Enabled(OneWaiting(), Dequeue(w)) && Enabled(Next(OneWaiting(), Dequeue(w)), Lock(w, true))
    ensures Next(Next(OneWaiting(), Dequeue(w)), Lock(w, true)) == Locking(w)
  {
  }

  lemma {:induction false} AfterLocked(w: nat)
    ensures var steps := [Unlock(w), Complete(w), Release(w)];
            && Legal(Locking(w), steps)
            && var t := Run(Locking(w), steps);
               && t.pool == Initial(1) && t.clients == {} && WorkerAt(t, w) == Idle && t.writer == None
               && t.log == [Event(Allocated, 0), Event(Enqueued, 0), Event(Dequeued, 0), Event(Completed, 0), Event(Released, 0)]
  {
    hide Run, Legal;
    RunThree(Locking(w), Unlock(w), Complete(w), Release(w));
  }

  lemma RunCons(s: State, a: Step, rest: seq<Step>)
    requires Enabled(s, a) && Legal(Next(s, a), rest)
    ensures Legal(s, [a] + rest) && Run(s, [a] + rest) == Run(Next(s, a), rest)
  {
    assert ([a] + rest)[1..] == rest;
  }

  lemma {:induction false} RunThree(s: State, a: Step, b: Step, c: Step)
    requires Enabled(s, a) && Enabled(Next(s, a), b) && Enabled(Next(Next(s, a), b), c)
    ensures Legal(s, [a, b, c]) && Run(s, [a, b, c]) == Next(Next(Next(s, a), b), c)
  {
    RunNone(Next(Next(Next(s, a), b), c));
    hide *;
    RunCons(Next(Next(s, a), b), c, []);
    RunCons(Next(s, a), b, [c]);
    RunCons(s, a, [b, c]);
    assert [c] + [] == [c] && [b] + [c] == [b, c] && [a] + [b, c] == [a, b, c];
  }

  lemma RunNone(s: State)
    ensures Legal(s, []) && Run(s, []) == s
  {
  }

  lemma {:induction false} RunFour(s: State, a: Step, b: Step, c: Step, d: Step)
    requires Enabled(s, a) && Enabled(Next(s, a), b) && Enabled(Next(Next(s, a), b), c)
    requires Enabled(Next(Next(Next(s, a), b), c), d)
    ensures Legal(s, [a, b, c, d]) && Run(s, [a, b, c, d]) == Next(Next(Next(Next(s, a), b), c), d)
  {
    hide *;
    RunThree(Next(s, a), b, c, d);
    RunCons(s, a, [b, c, d]);
    assert [a] + [b, c, d] == [a, b, c, d];
  }

  /** In every interleaving each slot is in exactly one place. */
  lemma EverySlotOnce(n: nat, steps: seq<Step>, x: Slot)
    requires Legal(Start(n), steps) && x < n
    ensures var s := Run(Start(n), steps);
            WellFormed(s.pool) && exists p :: At(s, x, p) && forall q :: At(s, x, q) ==> q == p
  {
    GoodStart(n);
    RunKeepsGood(Start(n), steps);
    SameSize(Start(n), steps);
    var s := Run(Start(n), steps);
    var p := s.place[x];
    assert At(s, x, p);
  }

  lemma {:induction false} SameSize(s: State, steps: seq<Step>)
    requires Legal(s, steps)
    ensures |Run(s, steps).pool.free| == |s.pool.free|
    decreases |steps|
  {
    if steps != [] {
      SameSize(Next(s, steps[0]), steps[1..]);
    }
  }

  /** In every interleaving each request is allocated, queued, dequeued, completed and freed
      at most once each and in this order, or freed unqueued; in particular a request that
      was dequeued and freed was completed exactly once, in between. */
  lemma {:induction false} EveryRequestProper(n: nat, steps: seq<Step>, t: nat)
    requires Legal(Start(n), steps)
    ensures var story := Story(Run(Start(n), steps).log, t);
            && (story <= [Allocated, Enqueued, Dequeued, Completed, Released] || story == [Allocated, Released])
            && (Dequeued in story && Released in story ==>
                  story == [Allocated, Enqueued, Dequeued, Completed, Released])
  {
    GoodStart(n);
    RunKeepsGood(Start(n), steps);
    hide Run, Legal, Start, Placed, Ordered, Locked, Story;
    ProperEnds(Story(Run(Start(n), steps).log, t));
  }

  lemma ProperEnds(story: seq<Kind>)
    requires Proper(story)
    ensures Dequeued in story && Released in story ==> story == WHOLE
  {
  }

  /** In every interleaving requests are dequeued in the order they were queued. */
  lemma DequeuedInOrder(n: nat, steps: seq<Step>)
    requires Legal(Start(n), steps)
    ensures var log := Run(Start(n), steps).log;
            Order(log, Dequeued) <= Order(log, Enqueued)
  {
    GoodStart(n);
    RunKeepsGood(Start(n), steps);
  }

  /** In every interleaving, while an exclusive action executes, no other action does. */
  lemma ExclusiveIsAlone(n: nat, steps: seq<Step>, v: nat, w: nat)
    requires Legal(Start(n), steps) && v != w
    requires var s := Run(Start(n), steps); WorkerAt(s, v).Executing? && WorkerAt(s, v).exclusive
    ensures !WorkerAt(Run(Start(n), steps), w).Executing?
  {
    GoodStart(n);
    RunKeepsGood(Start(n), steps);
  }
}
