/** The parameter gate of iot_action_execute in src/api/iot_action.c: which requests reach the
    action, what the action then sees, and what a success promises. */
module ActionGate {
  import opened Wrappers
  import opened Names

  const IN: bv8 := 0x1
  const OUT: bv8 := 0x4
  const IN_REQUIRED: bv8 := 0x2
  const OUT_REQUIRED: bv8 := 0x8

  predicate Has(flags: bv8, bit: bv8) { flags & bit != 0 }

  datatype Status = Success | Failure | BadRequest | Other(code: int)

  /** struct iot_data: whether there is a value, its type, and the value, as bytes. */
  datatype Data = Data(hasValue: bool, dataType: nat, value: seq<bv8>)

  /** A parameter the action was registered with. */
  datatype Registered = Registered(name: string, flags: bv8, dataType: nat)

  /** A parameter of a request. */
  datatype Supplied = Supplied(name: string, flags: bv8, data: Data)

  /** iot_common_data_convert: the converted value, or None if there is no conversion. */
  type Conversion = (nat, Data) -> Option<Data>

  /** The action itself: its status, and the request's parameters as it leaves them. */
  type Effect = seq<Supplied> -> (Status, seq<Supplied>)

  predicate Same(a: string, b: string) { Key(a) == Key(b) }

  predicate DistinctRegistered(action: seq<Registered>) {
    forall i, j :: 0 <= i < j < |action| ==> !Same(action[i].name, action[j].name)
  }

  predicate DistinctSupplied(ps: seq<Supplied>) {
    forall i, j :: 0 <= i < j < |ps| ==> !Same(ps[i].name, ps[j].name)
  }

  // ------------------------------------------------------------ the promise

  /** Every required input is supplied, with a value. */
  predicate RequiredGiven(action: seq<Registered>, ps: seq<Supplied>) {
    forall r <- action :: Has(r.flags, IN_REQUIRED) ==> exists p <- ps :: Same(r.name, p.name) && p.data.hasValue
  }

  /** Every supplied parameter that is registered converts to the registered type. */
  predicate AllConvert(action: seq<Registered>, ps: seq<Supplied>, convert: Conversion) {
    forall r <- action, p <- ps :: Same(r.name, p.name) ==> convert(r.dataType, p.data).Some?
  }

  /** Every supplied parameter is registered, and not as an output only. */
  predicate AllKnown(action: seq<Registered>, ps: seq<Supplied>) {
    forall p <- ps :: exists r <- action :: Same(r.name, p.name) && r.flags != OUT
  }

  predicate Accepted(action: seq<Registered>, ps: seq<Supplied>, convert: Conversion) {
    RequiredGiven(action, ps) && AllConvert(action, ps, convert) && AllKnown(action, ps)
  }

  /** The type a parameter is registered with, given the one asked for: a required direction
      brings the direction with it (iot_action_parameter_add). */
  function Added(asked: bv8): bv8 {
    var t := if Has(asked, IN_REQUIRED) then asked | IN else asked;
    if Has(asked, OUT_REQUIRED) then t | OUT else t
  }

  predicate TakesInput(r: Registered) { Has(r.flags, IN) || Has(r.flags, IN_REQUIRED) }

  /** What AllKnown is for: every supplied parameter is registered as an input. */
  predicate AllInputs(action: seq<Registered>, ps: seq<Supplied>) {
    forall p <- ps :: exists r <- action :: Same(r.name, p.name) && TakesInput(r)
  }

  /** A parameter no action takes as an input, though its type is not the output alone. */
  predicate OddOutput(action: seq<Registered>, p: Supplied) {
    exists r <- action :: Same(r.name, p.name) && r.flags != OUT && !TakesInput(r)
  }

  /** The test of the code lets in just the inputs exactly when no supplied parameter is
      registered as neither an input nor the output alone. */
  lemma KnownAreInputs(action: seq<Registered>, ps: seq<Supplied>)
    requires DistinctRegistered(action)
    ensures AllInputs(action, ps) <==> AllKnown(action, ps) && forall p <- ps :: !OddOutput(action, p)
  {
    if AllInputs(action, ps) {
      forall p <- ps ensures (exists r <- action :: Same(r.name, p.name) && r.flags != OUT) && !OddOutput(action, p) {
        var r :| r in action && Same(r.name, p.name) && TakesInput(r);
        OutTakesNone(r);
      }
    } else if AllKnown(action, ps) {
      var p :| p in ps && forall r <- action :: !(Same(r.name, p.name) && TakesInput(r));
      assert OddOutput(action, p);
    }
  }

  lemma OutTakesNone(r: Registered)
    ensures TakesInput(r) ==> r.flags != OUT
  {
  }

  /** A parameter asked for as a required output only is let in as an input. */
  lemma RequiredOutputIsAccepted(name: string, dataType: nat, data: Data, convert: Conversion)
    requires convert(dataType, data).Some?
    ensures var r, p := Registered(name, Added(OUT_REQUIRED), dataType), Supplied(name, OUT, data);
            !TakesInput(r) && OddOutput([r], p) && Accepted([r], [p], convert)
  {
    var r, p := Registered(name, Added(OUT_REQUIRED), dataType), Supplied(name, OUT, data);
    assert r.flags == 0xC && !Has(r.flags, IN_REQUIRED) && !TakesInput(r);
    assert r in [r] && Same(r.name, p.name);
  }

  /** Every required output has a value. */
  predicate OutputsGiven(action: seq<Registered>, ps: seq<Supplied>) {
    forall r <- action :: Has(r.flags, OUT_REQUIRED) ==> exists p <- ps :: Same(r.name, p.name) && p.data.hasValue
  }

  /** A parameter after the first n registered ones have been looked at: one that matches has
      its flags and its value's type. */
  function Prepared(action: seq<Registered>, n: nat, p: Supplied, convert: Conversion): Supplied
    requires n <= |action|
  {
    if n == 0 then p
    else if Same(action[n - 1].name, p.name) then
      var c := convert(action[n - 1].dataType, p.data);
      Supplied(p.name, action[n - 1].flags, if c.Some? then c.value else p.data)
    else Prepared(action, n - 1, p, convert)
  }

  function AllPrepared(action: seq<Registered>, n: nat, ps: seq<Supplied>, convert: Conversion): (r: seq<Supplied>)
    requires n <= |action|
    ensures |r| == |ps| && forall j :: 0 <= j < |ps| ==> r[j] == Prepared(action, n, ps[j], convert)
  {
    seq(|ps|, j requires 0 <= j < |ps| => Prepared(action, n, ps[j], convert))
  }

  lemma {:induction false} PreparedNone(action: seq<Registered>, n: nat, p: Supplied, convert: Conversion)
    requires n <= |action| && forall i :: 0 <= i < n ==> !Same(action[i].name, p.name)
    ensures Prepared(action, n, p, convert) == p
  {
    if n > 0 {
      PreparedNone(action, n - 1, p, convert);
    }
  }

  lemma {:induction false} PreparedBy(action: seq<Registered>, n: nat, p: Supplied, convert: Conversion)
    returns (i: nat)
    requires n <= |action| && Prepared(action, n, p, convert).flags != p.flags
    ensures i < n && Same(action[i].name, p.name) && Prepared(action, n, p, convert).flags == action[i].flags
  {
    if Same(action[n - 1].name, p.name) {
      i := n - 1;
    } else {
      i := PreparedBy(action, n - 1, p, convert);
    }
  }

  lemma {:induction false} PreparedIs(action: seq<Registered>, n: nat, p: Supplied, convert: Conversion, i: nat)
    requires i < n <= |action| && Same(action[i].name, p.name) && DistinctRegistered(action)
    ensures Prepared(action, n, p, convert).flags == action[i].flags
  {
    if i < n - 1 {
      PreparedIs(action, n - 1, p, convert, i);
    }
  }

  lemma {:induction false} PreparedName(action: seq<Registered>, n: nat, p: Supplied, convert: Conversion)
    requires n <= |action|
    ensures Prepared(action, n, p, convert).name == p.name
  {
    if n > 0 {
      PreparedName(action, n - 1, p, convert);
    }
  }

  // --------------------------------------------------------------- the code

  /** struct iot_action_request, as far as the gate uses it. */
  class Request {
    var parameter: seq<Supplied>

    constructor (ps: seq<Supplied>)
      ensures parameter == ps
    {
      parameter := ps;
    }
  }

  predicate NulFree(action: seq<Registered>) { forall r <- action :: '\0' !in r.name }

  predicate NulFreeSupplied(ps: seq<Supplied>) { forall p <- ps :: '\0' !in p.name }

  /** The inner loop: the request's parameter of that name. */
  method FindParameter(name: string, ps: seq<Supplied>) returns (found: Option<nat>)
    requires '\0' !in name && NulFreeSupplied(ps)
    ensures found.Some? ==> found.value < |ps| && Same(name, ps[found.value].name)
    ensures found.None? ==> forall p <- ps :: !Same(name, p.name)
  {
    found := None;
    var j := 0;
    while found.None? && j < |ps|
      invariant j <= |ps|
      invariant found.Some? ==> found.value < |ps| && Same(name, ps[found.value].name)
      invariant found.None? ==> forall k :: 0 <= k < j ==> !Same(name, ps[k].name)
      decreases |ps| - j, found.None?
    {
      var cmp := Compare(name, ps[j].name, NAME_MAX, true);
      if cmp == 0 {
        found := Some(j);
      }
      j := j + 1;
    }
  }

  predicate LacksInput(r: Registered, ps: seq<Supplied>) {
    Has(r.flags, IN_REQUIRED) && forall p <- ps :: Same(r.name, p.name) ==> !p.data.hasValue
  }

  predicate CannotConvert(r: Registered, ps: seq<Supplied>, convert: Conversion) {
    exists p <- ps :: Same(r.name, p.name) && convert(r.dataType, p.data).None?
  }

  /** Which check a request fails first; Clear if none of the three does. */
  datatype Verdict = Clear | Missing(name: string) | BadType(name: string)

  /** The first loop: types each supplied parameter, and looks for a required one that is
      missing or a value that does not convert. */
  method CheckInputs(action: seq<Registered>, request: Request, convert: Conversion) returns (v: Verdict)
    requires NulFree(action) && NulFreeSupplied(request.parameter)
    requires DistinctRegistered(action) && DistinctSupplied(request.parameter)
    modifies request
    ensures v.Clear? <==> RequiredGiven(action, old(request.parameter)) && AllConvert(action, old(request.parameter), convert)
    ensures v.Clear? ==> request.parameter == AllPrepared(action, |action|, old(request.parameter), convert)
    ensures v.Missing? ==> exists r <- action :: r.name == v.name && LacksInput(r, old(request.parameter))
    ensures v.BadType? ==> exists r <- action :: r.name == v.name && CannotConvert(r, old(request.parameter), convert)
  {
    hide Same, Has, Prepared;
    ghost var ps := request.parameter;
    v := Clear;
    var i := 0;
    StartPrepared(action, ps, convert);
    while i < |action| && v.Clear?
      invariant i <= |action|
      invariant v.Clear? ==> request.parameter == AllPrepared(action, i, ps, convert)
      invariant v.Clear? ==> RequiredGiven(action[..i], ps) && AllConvert(action[..i], ps, convert)
      invariant !v.Clear? ==> !RequiredGiven(action, ps) || !AllConvert(action, ps, convert)
      invariant v.Missing? ==> exists r <- action :: r.name == v.name && LacksInput(r, ps)
      invariant v.BadType? ==> exists r <- action :: r.name == v.name && CannotConvert(r, ps, convert)
    {
      var reg := action[i];
      PreparedKeepsNames(action, i, ps, convert);
      var found := FindParameter(reg.name, request.parameter);
      Untouched(action, i, ps, convert);
      if found.Some? {
        var j := found.value;
        request.parameter := request.parameter[j := request.parameter[j].(flags := reg.flags)];
      }
      if Has(reg.flags, IN_REQUIRED) && (found.None? || !request.parameter[found.value].data.hasValue) {
        v := Missing(reg.name);
        MissingIs(action, i, ps, found);
      } else if found.Some? {
        var j := found.value;
        var c := convert(reg.dataType, request.parameter[j].data);
        if c.None? {
          v := BadType(reg.name);
          assert reg in action && ps[j] in ps;
        } else {
          request.parameter := request.parameter[j := request.parameter[j].(data := c.value)];
        }
      }
      if v.Clear? {
        OneMore(action, i, ps, convert, found);
      }
      i := i + 1;
    }
    assert v.Clear? ==> action[..i] == action;
  }

  lemma StartPrepared(action: seq<Registered>, ps: seq<Supplied>, convert: Conversion)
    ensures AllPrepared(action, 0, ps, convert) == ps
  {
  }

  lemma PreparedKeepsNames(action: seq<Registered>, n: nat, ps: seq<Supplied>, convert: Conversion)
    requires n <= |action|
    ensures var r := AllPrepared(action, n, ps, convert);
            forall j :: 0 <= j < |ps| ==> r[j].name == ps[j].name
    ensures NulFreeSupplied(ps) ==> NulFreeSupplied(AllPrepared(action, n, ps, convert))
  {
    forall j | 0 <= j < |ps| ensures AllPrepared(action, n, ps, convert)[j].name == ps[j].name {
      PreparedName(action, n, ps[j], convert);
    }
  }

  /** A parameter with the i-th name has not been touched before. */
  lemma Untouched(action: seq<Registered>, i: nat, ps: seq<Supplied>, convert: Conversion)
    requires i < |action| && DistinctRegistered(action)
    ensures var r := AllPrepared(action, i, ps, convert);
            forall j :: 0 <= j < |ps| && Same(action[i].name, ps[j].name) ==> r[j] == ps[j]
  {
    forall j | 0 <= j < |ps| && Same(action[i].name, ps[j].name)
      ensures AllPrepared(action, i, ps, convert)[j] == ps[j]
    {
      PreparedNone(action, i, ps[j], convert);
    }
  }

  lemma MissingIs(action: seq<Registered>, i: nat, ps: seq<Supplied>, found: Option<nat>)
    requires i < |action| && Has(action[i].flags, IN_REQUIRED) && DistinctSupplied(ps)
    requires found.Some? ==> found.value < |ps| && Same(action[i].name, ps[found.value].name) && !ps[found.value].data.hasValue
    requires found.None? ==> forall p <- ps :: !Same(action[i].name, p.name)
    ensures !RequiredGiven(action, ps) && LacksInput(action[i], ps) && action[i] in action
  {
  }

  /** The i-th registered parameter passed: the specification moves on by one. */
  lemma OneMore(action: seq<Registered>, i: nat, ps: seq<Supplied>, convert: Conversion, found: Option<nat>)
    requires i < |action| && DistinctSupplied(ps)
    requires RequiredGiven(action[..i], ps) && AllConvert(action[..i], ps, convert)
    requires found.Some? ==> found.value < |ps| && Same(action[i].name, ps[found.value].name)
                             && convert(action[i].dataType, ps[found.value].data).Some?
    requires found.None? ==> forall p <- ps :: !Same(action[i].name, p.name)
    requires Has(action[i].flags, IN_REQUIRED) ==> found.Some? && ps[found.value].data.hasValue
    ensures RequiredGiven(action[..i + 1], ps) && AllConvert(action[..i + 1], ps, convert)
    ensures found.None? ==> AllPrepared(action, i + 1, ps, convert) == AllPrepared(action, i, ps, convert)
    ensures found.Some? ==>
              var p := ps[found.value];
              AllPrepared(action, i + 1, ps, convert)
              == AllPrepared(action, i, ps, convert)[found.value :=
                   Supplied(p.name, action[i].flags, convert(action[i].dataType, p.data).value)]
  {
  }

  /** The second loop: a parameter still marked as output only is unknown. */
  method FindUnknown(ps: seq<Supplied>) returns (unknown: bool)
    ensures unknown <==> exists p <- ps :: p.flags == OUT
  {
    unknown := false;
    for i := 0 to |ps|
      invariant unknown <==> exists k :: 0 <= k < i && ps[k].flags == OUT
    {
      if ps[i].flags == OUT {
        unknown := true;
      }
    }
  }

  /** What the marks mean once every registered parameter has been looked at. */
  lemma MarksTellUnknown(action: seq<Registered>, ps: seq<Supplied>, convert: Conversion)
    requires DistinctRegistered(action) && forall p <- ps :: p.flags == OUT
    ensures var r := AllPrepared(action, |action|, ps, convert);
            (forall p <- r :: p.flags != OUT) <==> AllKnown(action, ps)
  {
    var n := |action|;
    var r := AllPrepared(action, n, ps, convert);
    if forall p <- r :: p.flags != OUT {
      forall p <- ps ensures exists g <- action :: Same(g.name, p.name) && g.flags != OUT {
        var j :| 0 <= j < |ps| && ps[j] == p;
        assert r[j] in r;
        var i := PreparedBy(action, n, p, convert);
        assert action[i] in action;
      }
    }
    if AllKnown(action, ps) {
      forall p <- r ensures p.flags != OUT {
        var j :| 0 <= j < |r| && r[j] == p;
        assert ps[j] in ps;
        var g :| g in action && Same(g.name, ps[j].name) && g.flags != OUT;
        var i :| 0 <= i < n && action[i] == g;
        PreparedIs(action, n, ps[j], convert, i);
      }
    }
  }

  /** The last loop: whether every required output has a value. */
  method CheckOutputs(action: seq<Registered>, ps: seq<Supplied>) returns (given: bool)
    requires NulFree(action) && NulFreeSupplied(ps) && DistinctSupplied(ps)
    ensures given <==> OutputsGiven(action, ps)
  {
    given := true;
    var i := 0;
    while given && i < |action|
      invariant i <= |action|
      invariant given ==> OutputsGiven(action[..i], ps)
      invariant !given ==> !OutputsGiven(action, ps)
      decreases |action| - i, given
    {
      assert action[..i + 1] == action[..i] + [action[i]];
      if Has(action[i].flags, OUT_REQUIRED) {
        var found := FindParameter(action[i].name, ps);
        if found.None? || !ps[found.value].data.hasValue {
          given := false;
          OutputMissing(action, i, ps, found);
        }
      }
      i := i + 1;
    }
    assert given ==> action[..i] == action;
  }

  lemma OutputMissing(action: seq<Registered>, i: nat, ps: seq<Supplied>, found: Option<nat>)
    requires i < |action| && Has(action[i].flags, OUT_REQUIRED) && DistinctSupplied(ps)
    requires found.Some? ==> found.value < |ps| && Same(action[i].name, ps[found.value].name) && !ps[found.value].data.hasValue
    requires found.None? ==> forall p <- ps :: !Same(action[i].name, p.name)
    ensures !OutputsGiven(action, ps)
  {
  }

  /** What the action leaves must still be a list of parameters of different names, which
      iot_action_request_parameter_set keeps. */
  predicate Keeps(run: Effect, ps: seq<Supplied>) {
    DistinctSupplied(run(ps).1) && NulFreeSupplied(run(ps).1)
  }

  /** iot_action_execute. The action runs exactly on the accepted requests, and is then given
      the typed parameters; a request not accepted is a bad request; and the status is the
      action's own unless it succeeded without a required output. */
  method Execute(action: seq<Registered>, request: Request, convert: Conversion, run: Effect)
    returns (status: Status, ran: bool)
    requires NulFree(action) && NulFreeSupplied(request.parameter)
    requires DistinctRegistered(action) && DistinctSupplied(request.parameter)
    requires forall p <- request.parameter :: p.flags == OUT
    requires Keeps(run, AllPrepared(action, |action|, request.parameter, convert))
    modifies request
    ensures ran <==> Accepted(action, old(request.parameter), convert)
    ensures !ran ==> status == BadRequest
    ensures var (own, left) := run(AllPrepared(action, |action|, old(request.parameter), convert));
            ran ==> request.parameter == left
                    && status == if own == Success && !OutputsGiven(action, left) then BadRequest else own
    ensures ran && status == Success ==> OutputsGiven(action, request.parameter)
  {
    ghost var ps := request.parameter;
    var v := CheckInputs(action, request, convert);
    var unknown := FindUnknown(request.parameter);
    MarksTellUnknown(action, ps, convert);
    ran := v.Clear? && !unknown;
    if ran {
      var (own, left) := run(request.parameter);
      status, request.parameter := own, left;
    } else {
      status := BadRequest;
    }
    if status == Success {
      var given := CheckOutputs(action, request.parameter);
      if !given {
        status := BadRequest;
      }
    }
  }

  // --------------------------------------------------- the terms, literally

  /** The bits of a parameter's type: 1 and 2 an input and a required one, 4 and 8 an output
      and a required one. */
  lemma FlagsAre(r: Registered)
    ensures TakesInput(r) <==> r.flags & 1 != 0 || r.flags & 2 != 0
    ensures Has(r.flags, IN_REQUIRED) <==> r.flags & 2 != 0
    ensures Has(r.flags, OUT_REQUIRED) <==> r.flags & 8 != 0
    ensures OUT == 4 && Added(1) == 1 && Added(2) == 3 && Added(4) == 4 && Added(8) == 12 && Added(10) == 15
  {
    assert r.flags & 1 != 0 || r.flags & 2 != 0 <==> TakesInput(r);
  }

  predicate EachRequiredGiven(action: seq<Registered>, ps: seq<Supplied>) {
    forall i :: 0 <= i < |action| && action[i].flags & 2 != 0 ==>
      exists j :: 0 <= j < |ps| && Key(action[i].name) == Key(ps[j].name) && ps[j].data.hasValue
  }

  predicate EachConverts(action: seq<Registered>, ps: seq<Supplied>, convert: Conversion) {
    forall i, j :: 0 <= i < |action| && 0 <= j < |ps| && Key(action[i].name) == Key(ps[j].name) ==>
      convert(action[i].dataType, ps[j].data).Some?
  }

  predicate EachKnown(action: seq<Registered>, ps: seq<Supplied>) {
    forall j :: 0 <= j < |ps| ==>
      exists i :: 0 <= i < |action| && Key(action[i].name) == Key(ps[j].name) && action[i].flags != 4
  }

  /** Which requests reach the action, by position and by the bits of the types. */
  lemma {:induction false} AcceptedIs(action: seq<Registered>, ps: seq<Supplied>, convert: Conversion)
    ensures Accepted(action, ps, convert)
       <==> EachRequiredGiven(action, ps) && EachConverts(action, ps, convert) && EachKnown(action, ps)
  {
    hide RequiredGiven, AllConvert, AllKnown, EachRequiredGiven, EachConverts, EachKnown;
    GivenIs(action, ps);
    ConvertIs(action, ps, convert);
    KnownIs(action, ps);
  }

  lemma {:induction false} GivenIs(action: seq<Registered>, ps: seq<Supplied>)
    ensures RequiredGiven(action, ps) <==> EachRequiredGiven(action, ps)
  {
    hide Key;
    forall i | 0 <= i < |action|
      ensures (exists p <- ps :: Same(action[i].name, p.name) && p.data.hasValue)
         <==> exists j :: 0 <= j < |ps| && Key(action[i].name) == Key(ps[j].name) && ps[j].data.hasValue
    {
      if p :| p in ps && Same(action[i].name, p.name) && p.data.hasValue {
        var j :| 0 <= j < |ps| && ps[j] == p;
        assert Key(action[i].name) == Key(ps[j].name);
      }
      if j :| 0 <= j < |ps| && Key(action[i].name) == Key(ps[j].name) && ps[j].data.hasValue {
        assert ps[j] in ps && Same(action[i].name, ps[j].name);
      }
    }
    assert forall i :: 0 <= i < |action| ==> action[i] in action;
    assert forall f: bv8 :: Has(f, IN_REQUIRED) <==> f & 2 != 0;
  }

  lemma {:induction false} KnownIs(action: seq<Registered>, ps: seq<Supplied>)
    ensures AllKnown(action, ps) <==> EachKnown(action, ps)
  {
    hide Key;
    forall j | 0 <= j < |ps|
      ensures (exists r <- action :: Same(r.name, ps[j].name) && r.flags != OUT)
         <==> exists i :: 0 <= i < |action| && Key(action[i].name) == Key(ps[j].name) && action[i].flags != 4
    {
      if r :| r in action && Same(r.name, ps[j].name) && r.flags != OUT {
        var i :| 0 <= i < |action| && action[i] == r;
        assert Key(action[i].name) == Key(ps[j].name) && action[i].flags != 4;
      }
      if i :| 0 <= i < |action| && Key(action[i].name) == Key(ps[j].name) && action[i].flags != 4 {
        assert action[i] in action && Same(action[i].name, ps[j].name);
      }
    }
    assert forall j :: 0 <= j < |ps| ==> ps[j] in ps;
  }

  lemma {:induction false} ConvertIs(action: seq<Registered>, ps: seq<Supplied>, convert: Conversion)
    ensures AllConvert(action, ps, convert) <==> EachConverts(action, ps, convert)
  {
    hide Key;
    if AllConvert(action, ps, convert) {
      assert forall i, j :: 0 <= i < |action| && 0 <= j < |ps| && Key(action[i].name) == Key(ps[j].name) ==>
          action[i] in action && ps[j] in ps && Same(action[i].name, ps[j].name);
    }
  }

  /** Every required output has a value, by position. */
  lemma {:induction false} OutputsAre(action: seq<Registered>, ps: seq<Supplied>)
    ensures OutputsGiven(action, ps)
       <==> forall i :: 0 <= i < |action| && action[i].flags & 8 != 0 ==>
              exists j :: 0 <= j < |ps| && Key(action[i].name) == Key(ps[j].name) && ps[j].data.hasValue
  {
    hide Key;
    if OutputsGiven(action, ps) {
      forall i | 0 <= i < |action| && action[i].flags & 8 != 0
        ensures exists j :: 0 <= j < |ps| && Key(action[i].name) == Key(ps[j].name) && ps[j].data.hasValue
      {
        var p :| p in ps && Same(action[i].name, p.name) && p.data.hasValue;
        var j :| 0 <= j < |ps| && ps[j] == p;
      }
    }
  }

  /** What the action sees of a supplied parameter: its name, the registered type, and the
      value converted to it; an unregistered one would be as supplied. */
  lemma {:induction false} PreparedMeans(action: seq<Registered>, n: nat, p: Supplied, convert: Conversion, i: nat)
    requires i < n <= |action| && DistinctRegistered(action) && Key(action[i].name) == Key(p.name)
    requires convert(action[i].dataType, p.data).Some?
    ensures Prepared(action, n, p, convert)
         == Supplied(p.name, action[i].flags, convert(action[i].dataType, p.data).value)
    decreases n
  {
    hide Key;
    if i < n - 1 {
      assert !Same(action[i].name, action[n - 1].name);
      PreparedMeans(action, n - 1, p, convert, i);
    }
  }
}
