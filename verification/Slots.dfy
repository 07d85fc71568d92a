/** The nested semaphores of one run: in-flight around everything, then HTTP, host and
    browser for an acquisition, or the model slot for a completion. */
module Slots {
  import opened Models
  import opened Policy

  datatype Slot = InFlight | Http | Host(name: string) | Browser | Model

  /** `async with` entered, left, or something awaited inside it. */
  datatype Instr = Acquire(slot: Slot) | Await | Release(slot: Slot)

  /** The ways an acquisition can go: `Rendered` when the last error was empty content, and
      once more with the browser when plain HTTP finds too little. */
  datatype Trip = Plain | Rendered | PlainThenRendered

  /** How far a job gets; an exception leaves every `async with` on its way out. */
  datatype Errand =
    | Skips
    | Fetches(host: string, trip: Trip, judged: bool)
    | CallsModel

  // ---- what each errand acquires ----

  /** `async with slot: inner`. */
  function Within(slot: Slot, inner: seq<Instr>): seq<Instr> {
    [Acquire(slot)] + inner + [Release(slot)]
  }

  function PlainFetch(host: string): seq<Instr> {
    Within(Http, Within(Host(host), [Await]))
  }

  function RenderedFetch(host: string): seq<Instr> {
    Within(Http, Within(Host(host), Within(Browser, [Await])))
  }

  function ModelCall(): seq<Instr> {
    Within(Model, [Await])
  }

  function Fetching(host: string, trip: Trip): seq<Instr> {
    match trip
    case Plain => PlainFetch(host)
    case Rendered => RenderedFetch(host)
    case PlainThenRendered => PlainFetch(host) + RenderedFetch(host)
  }

  function Inside(errand: Errand): seq<Instr> {
    match errand
    case Skips => []
    case Fetches(host, trip, judged) => Fetching(host, trip) + if judged then ModelCall() else []
    case CallsModel => ModelCall()
  }

  function Program(errand: Errand): seq<Instr> {
    Within(InFlight, Inside(errand))
  }

  // ---- nesting ----

  /** The order in which slots nest. */
  function Depth(slot: Slot): nat {
    match slot
    case InFlight => 0
    case Http => 1
    case Host(_) => 2
    case Browser => 3
    case Model => 4
  }

  function End(held: set<Slot>, program: seq<Instr>): set<Slot>
    decreases |program|
  {
    if |program| == 0 then held
    else
      match program[0]
      case Acquire(slot) => End(held + {slot}, program[1..])
      case Await => End(held, program[1..])
      case Release(slot) => End(held - {slot}, program[1..])
  }

  /** Whoever asks for a slot holds only shallower ones, and only held slots are released. */
  predicate Nests(held: set<Slot>, program: seq<Instr>)
    decreases |program|
  {
    |program| > 0 ==>
      match program[0]
      case Acquire(slot) => (forall s :: s in held ==> Depth(s) < Depth(slot)) && Nests(held + {slot}, program[1..])
      case Await => Nests(held, program[1..])
      case Release(slot) => slot in held && Nests(held - {slot}, program[1..])
  }

  lemma {:induction false} NestsThen(held: set<Slot>, first: seq<Instr>, rest: seq<Instr>)
    requires Nests(held, first) && Nests(End(held, first), rest)
    ensures Nests(held, first + rest) && End(held, first + rest) == End(End(held, first), rest)
    decreases |first|
  {
    if |first| == 0 {
      assert first + rest == rest;
    } else {
      assert (first + rest)[0] == first[0] && (first + rest)[1..] == first[1..] + rest;
      var next := match first[0]
        case Acquire(slot) => held + {slot}
        case Await => held
        case Release(slot) => held - {slot};
      NestsThen(next, first[1..], rest);
    }
  }

  /** The program runs with `held` in hand and ends with just that. */
  predicate Balanced(held: set<Slot>, program: seq<Instr>) {
    Nests(held, program) && End(held, program) == held
  }

  /** One `async with` inside shallower ones. */
  lemma WithinNests(held: set<Slot>, slot: Slot, inner: seq<Instr>)
    requires slot !in held && forall s :: s in held ==> Depth(s) < Depth(slot)
    requires Balanced(held + {slot}, inner)
    ensures Balanced(held, Within(slot, inner))
  {
    var last := [Release(slot)];
    assert last[1..] == [] && held + {slot} - {slot} == held;
    NestsThen(held + {slot}, inner, last);
    assert Within(slot, inner)[0] == Acquire(slot) && Within(slot, inner)[1..] == inner + last;
  }

  lemma AwaitIsBalanced(held: set<Slot>)
    ensures Balanced(held, [Await])
  {
    assert [Await][1..] == [];
  }

  lemma FetchesNest(host: string)
    ensures Balanced({InFlight}, PlainFetch(host)) && Balanced({InFlight}, RenderedFetch(host))
  {
    hide Balanced, Within;
    var inHttp, inHost := {InFlight} + {Http}, {InFlight} + {Http} + {Host(host)};
    AwaitIsBalanced(inHost);
    WithinNests(inHttp, Host(host), [Await]);
    WithinNests({InFlight}, Http, Within(Host(host), [Await]));
    AwaitIsBalanced(inHost + {Browser});
    WithinNests(inHost, Browser, [Await]);
    WithinNests(inHttp, Host(host), Within(Browser, [Await]));
    WithinNests({InFlight}, Http, Within(Host(host), Within(Browser, [Await])));
  }

  lemma ModelCallNests()
    ensures Balanced({InFlight}, ModelCall())
  {
    hide Balanced, Within;
    AwaitIsBalanced({InFlight} + {Model});
    WithinNests({InFlight}, Model, [Await]);
  }

  lemma BalancedThen(held: set<Slot>, first: seq<Instr>, rest: seq<Instr>)
    requires Balanced(held, first) && Balanced(held, rest)
    ensures Balanced(held, first + rest)
  {
    NestsThen(held, first, rest);
  }

  lemma InsideNests(errand: Errand)
    ensures Balanced({InFlight}, Inside(errand))
  {
    hide PlainFetch, RenderedFetch, ModelCall;
    ModelCallNests();
    if errand.Fetches? {
      FetchesNest(errand.host);
      if errand.trip.PlainThenRendered? {
        BalancedThen({InFlight}, PlainFetch(errand.host), RenderedFetch(errand.host));
      }
      if errand.judged {
        BalancedThen({InFlight}, Fetching(errand.host, errand.trip), ModelCall());
      } else {
        assert Inside(errand) == Fetching(errand.host, errand.trip);
      }
    }
  }

  /** Every job's program nests, starts with nothing and gives everything back. */
  lemma ProgramsNest(errand: Errand)
    ensures Balanced({}, Program(errand))
  {
    hide Balanced, Within, Inside;
    InsideNests(errand);
    assert {} + {InFlight} == {InFlight};
    WithinNests({}, InFlight, Inside(errand));
  }

  // ---- under what is awaited ----

  /** What is held at each await, in order. */
  function Awaits(held: set<Slot>, program: seq<Instr>): seq<set<Slot>>
    decreases |program|
  {
    if |program| == 0 then []
    else
      match program[0]
      case Acquire(slot) => Awaits(held + {slot}, program[1..])
      case Await => [held] + Awaits(held, program[1..])
      case Release(slot) => Awaits(held - {slot}, program[1..])
  }

  lemma {:induction false} AwaitsThen(held: set<Slot>, first: seq<Instr>, rest: seq<Instr>)
    ensures Awaits(held, first + rest) == Awaits(held, first) + Awaits(End(held, first), rest)
    decreases |first|
  {
    if |first| == 0 {
      assert first + rest == rest;
    } else {
      assert (first + rest)[0] == first[0] && (first + rest)[1..] == first[1..] + rest;
      var next := match first[0]
        case Acquire(slot) => held + {slot}
        case Await => held
        case Release(slot) => held - {slot};
      AwaitsThen(next, first[1..], rest);
    }
  }

  lemma AwaitsWithin(held: set<Slot>, slot: Slot, inner: seq<Instr>)
    ensures Awaits(held, Within(slot, inner)) == Awaits(held + {slot}, inner)
  {
    var last := [Release(slot)];
    assert last[1..] == [];
    AwaitsThen(held + {slot}, inner, last);
    assert Within(slot, inner)[0] == Acquire(slot) && Within(slot, inner)[1..] == inner + last;
  }

  lemma AwaitsOnce(held: set<Slot>)
    ensures Awaits(held, [Await]) == [held] && Awaits(held, []) == []
  {
    assert [Await][1..] == [];
  }

  lemma FetchesAwait(host: string)
    ensures Awaits({InFlight}, PlainFetch(host)) == [{InFlight, Http, Host(host)}]
    ensures Awaits({InFlight}, RenderedFetch(host)) == [{InFlight, Http, Host(host), Browser}]
  {
    hide Awaits, Within;
    var inHttp, inHost := {InFlight} + {Http}, {InFlight} + {Http} + {Host(host)};
    AwaitsOnce(inHost);
    AwaitsWithin(inHttp, Host(host), [Await]);
    AwaitsWithin({InFlight}, Http, Within(Host(host), [Await]));
    AwaitsOnce(inHost + {Browser});
    AwaitsWithin(inHost, Browser, [Await]);
    AwaitsWithin(inHttp, Host(host), Within(Browser, [Await]));
    AwaitsWithin({InFlight}, Http, Within(Host(host), Within(Browser, [Await])));
    assert inHost == {InFlight, Http, Host(host)} && inHost + {Browser} == {InFlight, Http, Host(host), Browser};
  }

  lemma ModelCallAwaits()
    ensures Awaits({InFlight}, ModelCall()) == [{InFlight, Model}]
  {
    hide Awaits, Within;
    AwaitsOnce({InFlight} + {Model});
    AwaitsWithin({InFlight}, Model, [Await]);
    assert {InFlight} + {Model} == {InFlight, Model};
  }

  /** The slots a posting is fetched under. */
  function FetchSlots(host: string, trip: Trip): seq<set<Slot>> {
    match trip
    case Plain => [{InFlight, Http, Host(host)}]
    case Rendered => [{InFlight, Http, Host(host), Browser}]
    case PlainThenRendered => [{InFlight, Http, Host(host)}, {InFlight, Http, Host(host), Browser}]
  }

  /** The slots an errand's awaits need, one after the other. */
  function NeededSlots(errand: Errand): seq<set<Slot>> {
    match errand
    case Skips => []
    case Fetches(host, trip, judged) => FetchSlots(host, trip) + if judged then [{InFlight, Model}] else []
    case CallsModel => [{InFlight, Model}]
  }

  lemma FetchingAwaits(host: string, trip: Trip)
    ensures Awaits({InFlight}, Fetching(host, trip)) == FetchSlots(host, trip)
  {
    hide Awaits, Balanced, PlainFetch, RenderedFetch;
    FetchesAwait(host);
    FetchesEnd(host, trip);
    if trip.PlainThenRendered? {
      AwaitsThen({InFlight}, PlainFetch(host), RenderedFetch(host));
    }
  }

  lemma FetchesEnd(host: string, trip: Trip)
    ensures End({InFlight}, PlainFetch(host)) == End({InFlight}, Fetching(host, trip)) == {InFlight}
  {
    hide PlainFetch, RenderedFetch, End, Nests;
    FetchesNest(host);
    if trip.PlainThenRendered? {
      BalancedThen({InFlight}, PlainFetch(host), RenderedFetch(host));
    }
  }

  /** An acquisition is awaited with the HTTP slot and its host's slot in hand, and the browser's
      too when it renders; a completion with the model slot and no other but the job's own. */
  lemma AwaitsAreGuarded(errand: Errand)
    ensures Awaits({}, Program(errand)) == NeededSlots(errand)
  {
    hide Awaits, Within, Fetching, FetchSlots, ModelCall;
    AwaitsWithin({}, InFlight, Inside(errand));
    assert {} + {InFlight} == {InFlight};
    AwaitsOnce({InFlight});
    ModelCallAwaits();
    if errand.Fetches? {
      FetchingAwaits(errand.host, errand.trip);
      FetchesEnd(errand.host, errand.trip);
      AwaitsThen({InFlight}, Fetching(errand.host, errand.trip), if errand.judged then ModelCall() else []);
    }
  }

  // ---- the run ----

  /** A job's slots and what it still has to do. */
  datatype Holder = Holder(held: set<Slot>, rest: seq<Instr>)

  function Capacity(policy: PipelinePolicy, stage: Stage, slot: Slot): nat {
    match slot
    case InFlight => policy.ClaimCeiling(stage)
    case Http => policy.httpConcurrency
    case Host(_) => policy.perHostConcurrency
    case Browser => policy.browserConcurrency
    case Model => policy.modelConcurrency
  }

  /** Permits of `slot` handed out. */
  function InUse(holders: seq<Holder>, slot: Slot): nat {
    if |holders| == 0 then 0
    else InUse(holders[..|holders| - 1], slot) + if slot in holders[|holders| - 1].held then 1 else 0
  }

  predicate CanStep(holders: seq<Holder>, i: nat, policy: PipelinePolicy, stage: Stage) {
    i < |holders| && |holders[i].rest| > 0
    && (holders[i].rest[0].Acquire? ==>
          InUse(holders, holders[i].rest[0].slot) < Capacity(policy, stage, holders[i].rest[0].slot))
  }

  function Stepped(holder: Holder): Holder
    requires |holder.rest| > 0
  {
    match holder.rest[0]
    case Acquire(slot) => Holder(holder.held + {slot}, holder.rest[1..])
    case Await => Holder(holder.held, holder.rest[1..])
    case Release(slot) => Holder(holder.held - {slot}, holder.rest[1..])
  }

  function StartOf(errands: seq<Errand>): (holders: seq<Holder>)
    ensures |holders| == |errands| && forall i :: 0 <= i < |errands| ==> holders[i] == Holder({}, Program(errands[i]))
  {
    seq(|errands|, i requires 0 <= i < |errands| => Holder({}, Program(errands[i])))
  }

  /** A schedule names, step by step, a job that can go on. */
  predicate Follows(holders: seq<Holder>, schedule: seq<nat>, policy: PipelinePolicy, stage: Stage)
    decreases |schedule|
  {
    |schedule| > 0 ==>
      CanStep(holders, schedule[0], policy, stage)
      && Follows(holders[schedule[0] := Stepped(holders[schedule[0]])], schedule[1..], policy, stage)
  }

  function Played(holders: seq<Holder>, schedule: seq<nat>, policy: PipelinePolicy, stage: Stage): seq<Holder>
    requires Follows(holders, schedule, policy, stage)
    decreases |schedule|
  {
    if |schedule| == 0 then holders
    else Played(holders[schedule[0] := Stepped(holders[schedule[0]])], schedule[1..], policy, stage)
  }

  function Left(holders: seq<Holder>): nat {
    if |holders| == 0 then 0 else Left(holders[..|holders| - 1]) + |holders[|holders| - 1].rest|
  }

  ghost predicate Orderly(holders: seq<Holder>, policy: PipelinePolicy, stage: Stage) {
    && (forall i :: 0 <= i < |holders| ==>
      Nests(holders[i].held, holders[i].rest) && End(holders[i].held, holders[i].rest) == {})
    && (forall slot :: InUse(holders, slot) <= Capacity(policy, stage, slot))
  }

  // ---- counting permits ----

  lemma {:induction false} InUseUpdated(holders: seq<Holder>, i: nat, holder: Holder, slot: Slot)
    requires i < |holders|
    ensures InUse(holders[i := holder], slot) + (if slot in holders[i].held then 1 else 0)
         == InUse(holders, slot) + if slot in holder.held then 1 else 0
  {
    var n := |holders| - 1;
    if i < n {
      InUseUpdated(holders[..n], i, holder, slot);
      assert holders[i := holder][..n] == holders[..n][i := holder];
    } else {
      assert holders[i := holder][..n] == holders[..n];
    }
  }

  lemma {:induction false} LeftUpdated(holders: seq<Holder>, i: nat, holder: Holder)
    requires i < |holders|
    ensures Left(holders[i := holder]) + |holders[i].rest| == Left(holders) + |holder.rest|
  {
    var n := |holders| - 1;
    if i < n {
      LeftUpdated(holders[..n], i, holder);
      assert holders[i := holder][..n] == holders[..n][i := holder];
    } else {
      assert holders[i := holder][..n] == holders[..n];
    }
  }

  lemma {:induction false} SomebodyHolds(holders: seq<Holder>, slot: Slot) returns (k: nat)
    requires InUse(holders, slot) > 0
    ensures k < |holders| && slot in holders[k].held
  {
    k := |holders| - 1;
    if slot !in holders[k].held {
      k := SomebodyHolds(holders[..k], slot);
    }
  }

  lemma {:induction false} NobodyHolds(holders: seq<Holder>, slot: Slot)
    requires forall i :: 0 <= i < |holders| ==> slot !in holders[i].held
    ensures InUse(holders, slot) == 0
  {
    if |holders| > 0 {
      NobodyHolds(holders[..|holders| - 1], slot);
    }
  }

  // ---- the theorems ----

  lemma StepKeepsOrder(holders: seq<Holder>, i: nat, policy: PipelinePolicy, stage: Stage)
    requires Orderly(holders, policy, stage) && CanStep(holders, i, policy, stage)
    ensures Orderly(holders[i := Stepped(holders[i])], policy, stage)
    ensures Left(holders[i := Stepped(holders[i])]) + 1 == Left(holders)
  {
    var after := holders[i := Stepped(holders[i])];
    LeftUpdated(holders, i, Stepped(holders[i]));
    forall slot ensures InUse(after, slot) <= Capacity(policy, stage, slot) {
      InUseUpdated(holders, i, Stepped(holders[i]), slot);
      assert InUse(holders, slot) <= Capacity(policy, stage, slot);
    }
  }

  /** From any unfinished job, following who holds what it waits for leads, deeper and deeper,
      to a job that can go on. */
  lemma {:induction false} SomebodyCanStep(holders: seq<Holder>, i: nat, policy: PipelinePolicy, stage: Stage)
    returns (k: nat)
    requires Orderly(holders, policy, stage) && i < |holders| && |holders[i].rest| > 0
    requires forall slot :: Capacity(policy, stage, slot) > 0
    ensures CanStep(holders, k, policy, stage)
    decreases if holders[i].rest[0].Acquire? then 5 - Depth(holders[i].rest[0].slot) else 0
  {
    k := i;
    if !CanStep(holders, i, policy, stage) {
      var slot := holders[i].rest[0].slot;
      assert Capacity(policy, stage, slot) > 0;
      k := SomebodyHolds(holders, slot);
      assert Nests(holders[k].held, holders[k].rest) && End(holders[k].held, holders[k].rest) == {};
      k := SomebodyCanStep(holders, k, policy, stage);
    }
  }

  lemma StartIsOrderly(errands: seq<Errand>, policy: PipelinePolicy, stage: Stage)
    ensures Orderly(StartOf(errands), policy, stage)
  {
    hide Program;
    var holders := StartOf(errands);
    forall i | 0 <= i < |holders|
      ensures Nests(holders[i].held, holders[i].rest) && End(holders[i].held, holders[i].rest) == {}
    {
      ProgramsNest(errands[i]);
    }
    forall slot ensures InUse(holders, slot) <= Capacity(policy, stage, slot) {
      NobodyHolds(holders, slot);
    }
  }

  lemma {:induction false} PlayedIsOrderly(holders: seq<Holder>, schedule: seq<nat>, policy: PipelinePolicy,
                                           stage: Stage)
    requires Orderly(holders, policy, stage) && Follows(holders, schedule, policy, stage)
    ensures Orderly(Played(holders, schedule, policy, stage), policy, stage)
    ensures Left(Played(holders, schedule, policy, stage)) + |schedule| == Left(holders)
    ensures |Played(holders, schedule, policy, stage)| == |holders|
    decreases |schedule|
  {
    hide Orderly, Left;
    if |schedule| > 0 {
      StepKeepsOrder(holders, schedule[0], policy, stage);
      PlayedIsOrderly(holders[schedule[0] := Stepped(holders[schedule[0]])], schedule[1..], policy, stage);
    }
  }

  /** The jobs that hold a permit of `slot`. */
  function Users(holders: seq<Holder>, slot: Slot): set<nat> {
    set i: nat | i < |holders| && slot in holders[i].held
  }

  lemma {:induction false} InUseCounts(holders: seq<Holder>, slot: Slot)
    ensures InUse(holders, slot) == |Users(holders, slot)|
  {
    if |holders| == 0 {
      assert Users(holders, slot) == {};
    } else {
      var n := |holders| - 1;
      InUseCounts(holders[..n], slot);
      assert Users(holders, slot) == Users(holders[..n], slot) + if slot in holders[n].held then {n} else {};
    }
  }

  predicate IsTail(part: seq<set<Slot>>, all: seq<set<Slot>>) {
    |part| <= |all| && part == all[|all| - |part|..]
  }

  /** What each job still has to await is the rest of what its errand needs. */
  predicate OnErrand(holders: seq<Holder>, errands: seq<Errand>) {
    |holders| == |errands|
    && forall i :: 0 <= i < |holders| ==> IsTail(Awaits(holders[i].held, holders[i].rest), NeededSlots(errands[i]))
  }

  lemma StartIsOnErrand(errands: seq<Errand>)
    ensures OnErrand(StartOf(errands), errands)
  {
    hide Awaits, Program, NeededSlots;
    forall i | 0 <= i < |errands|
      ensures Awaits(StartOf(errands)[i].held, StartOf(errands)[i].rest) == NeededSlots(errands[i])
    {
      AwaitsAreGuarded(errands[i]);
    }
  }

  lemma {:induction false} PlayedIsOnErrand(holders: seq<Holder>, errands: seq<Errand>, schedule: seq<nat>,
                                            policy: PipelinePolicy, stage: Stage)
    requires OnErrand(holders, errands) && Follows(holders, schedule, policy, stage)
    ensures OnErrand(Played(holders, schedule, policy, stage), errands)
    decreases |schedule|
  {
    hide NeededSlots;
    if |schedule| > 0 {
      PlayedIsOnErrand(holders[schedule[0] := Stepped(holders[schedule[0]])], errands, schedule[1..], policy, stage);
    }
  }

  predicate Awaiting(holder: Holder) {
    |holder.rest| > 0 && holder.rest[0].Await?
  }

  /** At any point of any schedule, a job that awaits something holds just the slots its errand
      needs for that. */
  lemma EveryAwaitIsGuarded(errands: seq<Errand>, schedule: seq<nat>, policy: PipelinePolicy, stage: Stage)
    requires Follows(StartOf(errands), schedule, policy, stage)
    ensures var holders := Played(StartOf(errands), schedule, policy, stage);
      |holders| == |errands|
      && forall i :: 0 <= i < |holders| && Awaiting(holders[i]) ==> holders[i].held in NeededSlots(errands[i])
  {
    hide Played, Follows, NeededSlots;
    StartIsOnErrand(errands);
    PlayedIsOnErrand(StartOf(errands), errands, schedule, policy, stage);
    var holders := Played(StartOf(errands), schedule, policy, stage);
    forall i | 0 <= i < |holders| && Awaiting(holders[i]) ensures holders[i].held in NeededSlots(errands[i]) {
      var part, all := Awaits(holders[i].held, holders[i].rest), NeededSlots(errands[i]);
      assert part[0] == holders[i].held && part[0] == all[|all| - |part|];
    }
  }

  /** However the jobs are scheduled: never more jobs hold a slot than its policy allows, so never
      more are claimed than the claim ceiling; no schedule is longer than the work there is; and
      where none of them can go on, all of them are done and every permit is back. */
  lemma NoScheduleGetsStuck(errands: seq<Errand>, schedule: seq<nat>, policy: PipelinePolicy, stage: Stage)
    requires policy.httpConcurrency > 0 && policy.perHostConcurrency > 0
    requires policy.browserConcurrency > 0 && policy.modelConcurrency > 0
    requires Follows(StartOf(errands), schedule, policy, stage)
    ensures var holders := Played(StartOf(errands), schedule, policy, stage);
      && |Users(holders, InFlight)| <= policy.modelConcurrency
                                       + (if stage == EligibilityStage then policy.httpConcurrency else 0)
      && |Users(holders, Http)| <= policy.httpConcurrency
      && (forall name :: |Users(holders, Host(name))| <= policy.perHostConcurrency)
      && |Users(holders, Browser)| <= policy.browserConcurrency
      && |Users(holders, Model)| <= policy.modelConcurrency
      && |schedule| + Left(holders) == Left(StartOf(errands))
      && ((forall i: nat :: !CanStep(holders, i, policy, stage)) ==>
            forall i :: 0 <= i < |holders| ==> holders[i] == Holder({}, []))
  {
    hide CanStep, InUse, Nests, Played, Follows, Left, Users;
    StartIsOrderly(errands, policy, stage);
    PlayedIsOrderly(StartOf(errands), schedule, policy, stage);
    var holders := Played(StartOf(errands), schedule, policy, stage);
    forall slot ensures |Users(holders, slot)| <= Capacity(policy, stage, slot) {
      InUseCounts(holders, slot);
      assert InUse(holders, slot) <= Capacity(policy, stage, slot);
    }
    if forall i: nat :: !CanStep(holders, i, policy, stage) {
      forall i | 0 <= i < |holders| ensures holders[i] == Holder({}, []) {
        if |holders[i].rest| > 0 {
          var k := SomebodyCanStep(holders, i, policy, stage);
          assert false;
        }
      }
    }
  }
}
