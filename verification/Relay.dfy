/** The bounded loopback relay as a shared object and a step machine over its handler
    threads (scripts/consistency_tls_relay.py). */
module Relay {
  import opened Text

  type Port = nat

  const PATHS := {"/v1/fixture-kv/data/sdk-lag", "/v1/fixture-kv/data/sdk-cancel", "/v1/fixture-kv/data/sdk-timeout"}
  const HEALTH := "/v1/sys/health"
  const MAX_EVENTS := 128
  const PERMITS := 4

  datatype Event = Event(verb: string, path: string)

  datatype Request = Request(verb: string, path: string, hasIndex: bool)

  /** The pair of upstream ports that one switch installs. */
  datatype Ports = Ports(leader: Port, follower: Port)

  datatype Shared = Shared(events: seq<Event>, accepted: nat, ports: Ports, permits: nat)

  /** What `forward` lets through its path check; only do_GET and do_POST call it. */
  predicate Forwardable(r: Request) {
    && r.verb in {"GET", "POST"}
    && (r.path in PATHS || (r.verb == "GET" && r.path == HEALTH))
  }

  /** The first check of `record`. */
  predicate Recordable(e: Event) {
    && (e.verb == "GET" || e.verb == "POST")
    && (e.path in PATHS || e == Event("GET", HEALTH))
  }

  /** Index-free writes go to the leader, everything else to the follower. */
  function Choose(ports: Ports, r: Request): Port {
    if r.verb == "POST" && !r.hasIndex then ports.leader else ports.follower
  }

  // ----- The critical sections, as functions of the shared state

  function AcceptResult(s: Shared): (bool, Shared) {
    if s.accepted >= MAX_EVENTS then (false, s) else (true, s.(accepted := s.accepted + 1))
  }

  function RecordResult(s: Shared, e: Event): (bool, Shared) {
    if !Recordable(e) || |s.events| >= MAX_EVENTS then (false, s)
    else (true, s.(events := s.events + [e]))
  }

  function AcquireResult(s: Shared): (bool, Shared) {
    if s.permits == 0 then (false, s) else (true, s.(permits := s.permits - 1))
  }

  /** A bounded semaphore refuses a release beyond its initial value. */
  function ReleaseResult(s: Shared): (bool, Shared) {
    if s.permits >= PERMITS then (false, s) else (true, s.(permits := s.permits + 1))
  }

  class RelayObject {
    var events: seq<Event>
    var accepted: nat
    var leaderPort: Port
    var followerPort: Port
    var permits: nat

    function View(): Shared
      reads this
    {
      Shared(events, accepted, Ports(leaderPort, followerPort), permits)
    }

    constructor (leader: Port, follower: Port)
      ensures View() == Shared([], 0, Ports(leader, follower), PERMITS)
    {
      events, accepted, permits := [], 0, PERMITS;
      leaderPort, followerPort := leader, follower;
    }

    method Record(verb: string, path: string) returns (ok: bool)
      modifies `events
      ensures (ok, View()) == RecordResult(old(View()), Event(verb, path))
      ensures ok <==>
                && |old(events)| < 128
                && (|| ((verb == "GET" || verb == "POST")
                        && (path == "/v1/fixture-kv/data/sdk-lag" || path == "/v1/fixture-kv/data/sdk-cancel"
                            || path == "/v1/fixture-kv/data/sdk-timeout"))
                    || (verb == "GET" && path == "/v1/sys/health"))
      ensures events == old(events) + (if ok then [Event(verb, path)] else [])
    {
      if verb !in {"GET", "POST"} || (path !in PATHS && !(verb == "GET" && path == HEALTH)) {
        return false;
      }
      if |events| >= MAX_EVENTS {
        return false;
      }
      events := events + [Event(verb, path)];
      ok := true;
    }

    method Snapshot() returns (copy: seq<Event>)
      ensures copy == View().events
    {
      copy := events;
    }

    method SwitchCluster(port: Port)
      modifies `leaderPort, `followerPort
      ensures View() == old(View()).(ports := Ports(port, port))
    {
      leaderPort := port;
      followerPort := port;
    }

    /** `wait_for`, at the moment its wait ends: a refusal of its arguments, or whether the
        log by then holds the event often enough (false after a timeout). */
    method WaitFor(verb: string, path: string, count: int, seconds: real) returns (r: Option<bool>)
      ensures r.None? <==>
        !((verb == "GET" || verb == "POST") && path in PATHS && 1 <= count <= MAX_EVENTS && 0.0 < seconds <= 20.0)
      ensures r.Some? ==> (r.value <==> multiset(View().events)[Event(verb, path)] >= count)
    {
      if verb !in {"GET", "POST"} || path !in PATHS || !(1 <= count <= MAX_EVENTS) || !(0.0 < seconds <= 20.0) {
        return None;
      }
      var seen, k := 0, 0;
      while k < |events|
        invariant 0 <= k <= |events|
        invariant seen == multiset(events[..k])[Event(verb, path)]
      {
        assert events[..k + 1] == events[..k] + [events[k]];
        if events[k] == Event(verb, path) {
          seen := seen + 1;
        }
        k := k + 1;
      }
      assert events[..k] == events;
      r := Some(seen >= count);
    }

    method Accept() returns (ok: bool)
      modifies `accepted
      ensures (ok, View()) == AcceptResult(old(View()))
      ensures (ok <==> old(accepted) < 128) && accepted == old(accepted) + (if ok then 1 else 0)
    {
      if accepted >= MAX_EVENTS {
        return false;
      }
      accepted := accepted + 1;
      ok := true;
    }

    method Route(r: Request) returns (port: Port)
      ensures port == Choose(View().ports, r)
      ensures port == if r.verb == "POST" && !r.hasIndex then leaderPort else followerPort
    {
      if r.verb == "POST" && !r.hasIndex {
        port := leaderPort;
      } else {
        port := followerPort;
      }
    }

    method Acquire() returns (ok: bool)
      modifies `permits
      ensures (ok, View()) == AcquireResult(old(View()))
      ensures (ok <==> old(permits) > 0) && permits == old(permits) - (if ok then 1 else 0)
    {
      ok := permits > 0;
      if ok {
        permits := permits - 1;
      }
    }

    method Release() returns (ok: bool)
      modifies `permits
      ensures (ok, View()) == ReleaseResult(old(View()))
      ensures (ok <==> old(permits) < 4) && permits == old(permits) + (if ok then 1 else 0)
    {
      ok := permits < PERMITS;
      if ok {
        permits := permits + 1;
      }
    }
  }

  // ----- The handler threads

  /** Where a connection's thread stands. Everything but Closed holds a permit. */
  datatype Phase =
    | Admitted                                          // permit taken, thread not yet serving
    | Serving                                           // deadline timer started, request being read
    | Counted(request: Request)                         // inside the accept limit
    | Routed(request: Request, port: Port, epoch: nat)  // port chosen
    | Logged(request: Request)                          // event recorded, response pending
    | Ending                                            // in the finally clause
    | Leaked                                            // the timer did not start: no finally clause runs
    | Closed                                            // permit returned

  /** The shared state, the threads, and the history the claims speak about: who was
      counted and who recorded, in order, and the port pairs installed so far. */
  datatype World = World(
    shared: Shared, threads: map<nat, Phase>, counted: seq<nat>, recorded: seq<nat>, epochs: seq<Ports>)

  /** One critical section or local event of one thread, or a cluster switch. */
  datatype Step =
    | Connect(id: nat)
    | SpawnFails(id: nat)
    | TimerStarts(id: nat)
    | TimerFails(id: nat)
    | TakeRequest(id: nat, request: Request)
    | RouteRequest(id: nat)
    | RecordRequest(id: nat)
    | Finish(id: nat)
    | ReturnPermit(id: nat)
    | Switch(port: Port)

  function Init(ports: Ports): World {
    World(Shared([], 0, ports, PERMITS), map[], [], [], [ports])
  }

  function At(w: World, id: nat): Option<Phase> {
    if id in w.threads then Some(w.threads[id]) else None
  }

  function Move(w: World, id: nat, phase: Phase): World {
    w.(threads := w.threads[id := phase])
  }

  /** The world after a step, or None when the step cannot happen now. */
  function Apply(w: World, step: Step): Option<World> {
    match step
    case Connect(id) =>
      if id in w.threads then None
      else
        var (ok, shared) := AcquireResult(w.shared);
        Some(if ok then Move(w.(shared := shared), id, Admitted) else w)
    case SpawnFails(id) =>
      if At(w, id) != Some(Admitted) then None
      else Some(Move(w.(shared := ReleaseResult(w.shared).1), id, Closed))
    case TimerStarts(id) =>
      if At(w, id) != Some(Admitted) then None else Some(Move(w, id, Serving))
    case TimerFails(id) =>
      if At(w, id) != Some(Admitted) then None else Some(Move(w, id, Leaked))
    case TakeRequest(id, r) =>
      if At(w, id) != Some(Serving) || !Forwardable(r) then None
      else
        var (ok, shared) := AcceptResult(w.shared);
        if ok then Some(Move(w.(shared := shared, counted := w.counted + [id]), id, Counted(r)))
        else Some(Move(w, id, Ending))
    case RouteRequest(id) =>
      var at := At(w, id);
      if at.None? || !at.value.Counted? || w.epochs == [] then None
      else
        var r := at.value.request;
        Some(Move(w, id, Routed(r, Choose(w.shared.ports, r), |w.epochs| - 1)))
    case RecordRequest(id) =>
      var at := At(w, id);
      if at.None? || !at.value.Routed? then None
      else
        var r := at.value.request;
        var (ok, shared) := RecordResult(w.shared, Event(r.verb, r.path));
        if ok then Some(Move(w.(shared := shared, recorded := w.recorded + [id]), id, Logged(r)))
        else Some(Move(w, id, Ending))
    case Finish(id) =>
      var at := At(w, id);
      if at.None? || at.value in {Admitted, Ending, Leaked, Closed} then None else Some(Move(w, id, Ending))
    case ReturnPermit(id) =>
      if At(w, id) != Some(Ending) then None
      else Some(Move(w.(shared := ReleaseResult(w.shared).1), id, Closed))
    case Switch(port) =>
      var ports := Ports(port, port);
      Some(w.(shared := w.shared.(ports := ports), epochs := w.epochs + [ports]))
  }

  /** An interleaving: any sequence of possible steps. */
  function Run(w: World, steps: seq<Step>): Option<World> {
    if steps == [] then Some(w)
    else
      var before := Run(w, steps[..|steps| - 1]);
      if before.None? then None else Apply(before.value, steps[|steps| - 1])
  }

  // ----- Invariants

  /** The threads that hold a permit. */
  function Holders(threads: map<nat, Phase>): set<nat> {
    set id | id in threads && !threads[id].Closed?
  }

  ghost predicate PermitInv(w: World) {
    w.shared.permits + |Holders(w.threads)| == PERMITS
  }

  ghost predicate LogInv(w: World) {
    && Distinct(w.counted) && Distinct(w.recorded)
    && |w.counted| == w.shared.accepted <= MAX_EVENTS
    && |w.recorded| == |w.shared.events|
    && (forall id :: id in w.recorded ==> id in w.counted)
    && (forall id :: id in w.counted ==> id in w.threads)
  }

  ghost predicate PhaseOk(w: World, id: nat, phase: Phase) {
    match phase
    case Admitted => id !in w.counted
    case Serving => id !in w.counted
    case Counted(r) => id in w.counted && id !in w.recorded && Forwardable(r)
    case Routed(r, port, epoch) =>
      && id in w.counted && id !in w.recorded && Forwardable(r)
      && epoch < |w.epochs| && port == Choose(w.epochs[epoch], r)
    case _ => true
  }

  ghost predicate ThreadInv(w: World) {
    forall id :: id in w.threads ==> PhaseOk(w, id, w.threads[id])
  }

  ghost predicate EpochInv(w: World) {
    && w.epochs != [] && w.epochs[|w.epochs| - 1] == w.shared.ports
    && (forall e :: 0 < e < |w.epochs| ==> w.epochs[e].leader == w.epochs[e].follower)
  }

  ghost predicate EventInv(w: World) {
    forall e :: e in w.shared.events ==> Recordable(e)
  }

  ghost predicate Inv(w: World) {
    PermitInv(w) && LogInv(w) && ThreadInv(w) && EpochInv(w) && EventInv(w)
  }

  predicate Holds(threads: map<nat, Phase>, id: nat) {
    id in threads && !threads[id].Closed?
  }

  /** How a thread's move changes the number of held permits. */
  lemma {:induction false} HoldersMove(threads: map<nat, Phase>, id: nat, phase: Phase)
    ensures |Holders(threads[id := phase])|
              == |Holders(threads)| + (if phase.Closed? then 0 else 1) - (if Holds(threads, id) then 1 else 0)
    ensures Holds(threads, id) ==> |Holders(threads)| >= 1
  {
    HoldersAre(threads, id, phase);
    hide Holders;
    var before := Holders(threads);
    assert !phase.Closed? ==> |before - {id} + {id}| == |before - {id}| + 1;
  }

  lemma {:induction false} HoldersAre(threads: map<nat, Phase>, id: nat, phase: Phase)
    ensures Holders(threads[id := phase]) == Holders(threads) - {id} + (if phase.Closed? then {} else {id})
    ensures Holds(threads, id) <==> id in Holders(threads)
  {
  }

  lemma {:induction false} PushDistinct(log: seq<nat>, id: nat)
    requires Distinct(log) && id !in log
    ensures Distinct(log + [id])
  {
  }

  /** Fewer events than accepted requests while some counted thread has not recorded. */
  lemma {:induction false} RoomToRecord(w: World, id: nat)
    requires LogInv(w) && id in w.counted && id !in w.recorded
    ensures |w.shared.events| < w.shared.accepted
  {
    DistinctSize(w.counted);
    DistinctSize(w.recorded);
    SubsetSize(ToSet(w.recorded) + {id}, ToSet(w.counted));
  }

  lemma {:induction false} PermitStep(w: World, step: Step)
    requires PermitInv(w) && Apply(w, step).Some?
    ensures PermitInv(Apply(w, step).value)
  {
    hide Holders, Choose, Forwardable, Recordable;
    match step
    case Connect(id) => HoldersMove(w.threads, id, Admitted);
    case SpawnFails(id) => HoldersMove(w.threads, id, Closed);
    case TimerStarts(id) => HoldersMove(w.threads, id, Serving);
    case TimerFails(id) => HoldersMove(w.threads, id, Leaked);
    case TakeRequest(id, r) =>
      HoldersMove(w.threads, id, Counted(r));
      HoldersMove(w.threads, id, Ending);
    case RouteRequest(id) => HoldersMove(w.threads, id, Apply(w, step).value.threads[id]);
    case RecordRequest(id) => HoldersMove(w.threads, id, Apply(w, step).value.threads[id]);
    case Finish(id) => HoldersMove(w.threads, id, Ending);
    case ReturnPermit(id) => HoldersMove(w.threads, id, Closed);
    case Switch(_) =>
  }

  lemma {:induction false} LogStep(w: World, step: Step)
    requires LogInv(w) && ThreadInv(w) && Apply(w, step).Some?
    ensures LogInv(Apply(w, step).value)
  {
    hide Holders, Choose, Forwardable, Recordable;
    match step
    case TakeRequest(id, r) =>
      if AcceptResult(w.shared).0 { PushDistinct(w.counted, id); }
    case RecordRequest(id) =>
      if RecordResult(w.shared, Event(w.threads[id].request.verb, w.threads[id].request.path)).0 {
        PushDistinct(w.recorded, id);
      }
    case _ =>
  }

  lemma {:induction false} ThreadStep(w: World, step: Step)
    requires LogInv(w) && ThreadInv(w) && EpochInv(w) && Apply(w, step).Some?
    ensures ThreadInv(Apply(w, step).value)
  {
    hide Holders, Choose, Forwardable, Recordable;
    var after := Apply(w, step).value;
    forall id | id in after.threads ensures PhaseOk(after, id, after.threads[id]) {
      assert id in w.threads ==> PhaseOk(w, id, w.threads[id]);
    }
  }

  lemma {:induction false} EpochStep(w: World, step: Step)
    requires EpochInv(w) && EventInv(w) && Apply(w, step).Some?
    ensures EpochInv(Apply(w, step).value) && EventInv(Apply(w, step).value)
  {
    hide Holders, Choose, Forwardable, Recordable;
  }

  lemma {:induction false} InvStep(w: World, step: Step)
    requires Inv(w) && Apply(w, step).Some?
    ensures Inv(Apply(w, step).value)
  {
    hide Apply, PermitInv, LogInv, ThreadInv, EpochInv, EventInv;
    PermitStep(w, step);
    LogStep(w, step);
    ThreadStep(w, step);
    EpochStep(w, step);
  }

  lemma {:induction false} InitInv(ports: Ports)
    ensures Inv(Init(ports))
  {
    assert Holders(Init(ports).threads) == {};
  }

  /** Every interleaving keeps the bounds: at most 128 requests accepted, no more events
      than accepted requests, each accepted request recorded at most once, at most four
      permits held, only allowed events in the log. */
  lemma {:induction false} EveryRun(ports: Ports, steps: seq<Step>)
    requires Run(Init(ports), steps).Some?
    ensures var w := Run(Init(ports), steps).value;
            && Inv(w)
            && |w.shared.events| <= w.shared.accepted <= MAX_EVENTS
            && |Holders(w.threads)| <= PERMITS
  {
    if steps == [] {
      InitInv(ports);
    } else {
      EveryRun(ports, steps[..|steps| - 1]);
      InvStep(Run(Init(ports), steps[..|steps| - 1]).value, steps[|steps| - 1]);
    }
    var w := Run(Init(ports), steps).value;
    DistinctSize(w.counted);
    DistinctSize(w.recorded);
    SubsetSize(ToSet(w.recorded), ToSet(w.counted));
  }

  /** Neither refusal inside `record`, nor the semaphore's over-release, can happen. */
  lemma {:induction false} NoRefusal(w: World, id: nat)
    requires Inv(w) && id in w.threads
    ensures w.threads[id].Routed? ==>
              RecordResult(w.shared, Event(w.threads[id].request.verb, w.threads[id].request.path)).0
    ensures w.threads[id].Admitted? || w.threads[id].Ending? ==> ReleaseResult(w.shared).0
  {
    assert PhaseOk(w, id, w.threads[id]);
    if w.threads[id].Routed? {
      RoomToRecord(w, id);
    }
    HoldersMove(w.threads, id, Closed);
  }

  /** A routed request uses the pair of one switch epoch, index-free writes its leader; and
      every pair but the first sends both kinds to the same port. */
  lemma {:induction false} RoutedPorts(w: World, id: nat)
    requires Inv(w) && id in w.threads && w.threads[id].Routed?
    ensures var Routed(r, port, epoch) := w.threads[id];
            && epoch < |w.epochs|
            && port == (if r.verb == "POST" && !r.hasIndex then w.epochs[epoch].leader else w.epochs[epoch].follower)
            && (epoch > 0 ==> port == w.epochs[epoch].leader == w.epochs[epoch].follower)
  {
    assert PhaseOk(w, id, w.threads[id]);
  }

  // ----- History over a run

  ghost predicate Extends(before: World, after: World) {
    && before.shared.events <= after.shared.events
    && before.counted <= after.counted && before.recorded <= after.recorded
    && before.epochs <= after.epochs
  }

  lemma {:induction false} StepExtends(w: World, step: Step)
    requires Apply(w, step).Some?
    ensures Extends(w, Apply(w, step).value)
  {
  }

  /** A snapshot is a prefix of every later one, so what `wait_for` has seen stays seen, and
      the events after a snapshot are the later ones. */
  lemma {:induction false} SnapshotPrefix(w: World, steps: seq<Step>, e: Event)
    requires Run(w, steps).Some?
    ensures Extends(w, Run(w, steps).value)
    ensures multiset(w.shared.events)[e] <= multiset(Run(w, steps).value.shared.events)[e]
  {
    var after := Run(w, steps).value;
    if steps != [] {
      SnapshotPrefix(w, steps[..|steps| - 1], e);
      StepExtends(Run(w, steps[..|steps| - 1]).value, steps[|steps| - 1]);
    }
    var early, late := w.shared.events, after.shared.events;
    assert late == early + late[|early|..];
  }

  /** After a switch, a request routed in that epoch or later, with no further switch, goes
      to the new port. */
  lemma {:induction false} SwitchedPort(w: World, port: Port, steps: seq<Step>, id: nat)
    requires Inv(w) && Run(w, [Switch(port)] + steps).Some?
    requires forall step :: step in steps ==> !step.Switch?
    ensures var after := Run(w, [Switch(port)] + steps).value;
            && Inv(after) && after.epochs == w.epochs + [Ports(port, port)]
            && (id in after.threads && after.threads[id].Routed? && after.threads[id].epoch == |w.epochs| ==>
                  after.threads[id].port == port)
  {
    var all := [Switch(port)] + steps;
    var front := all[..|all| - 1];
    if steps == [] {
      assert front == [];
      assert Run(w, front) == Some(w);
      InvStep(w, Switch(port));
    } else {
      assert front == [Switch(port)] + steps[..|steps| - 1];
      SwitchedPort(w, port, steps[..|steps| - 1], id);
      InvStep(Run(w, front).value, all[|all| - 1]);
      assert all[|all| - 1] in steps;
    }
    var after := Run(w, all).value;
    if id in after.threads && after.threads[id].Routed? {
      RoutedPorts(after, id);
    }
  }

  // ----- Permits: returned exactly once, unless the deadline timer fails to start

  predicate Returns(step: Step, id: nat) {
    step == SpawnFails(id) || step == ReturnPermit(id)
  }

  function Returned(steps: seq<Step>, id: nat): nat {
    if steps == [] then 0
    else Returned(steps[..|steps| - 1], id) + (if Returns(steps[|steps| - 1], id) then 1 else 0)
  }

  /** A thread returns its permit once when it closes, and never otherwise. */
  lemma {:induction false} ReturnedOnce(ports: Ports, steps: seq<Step>, id: nat)
    requires Run(Init(ports), steps).Some?
    ensures Returned(steps, id) == (if At(Run(Init(ports), steps).value, id) == Some(Closed) then 1 else 0)
  {
    if steps != [] {
      ReturnedOnce(ports, steps[..|steps| - 1], id);
      CloseStep(Run(Init(ports), steps[..|steps| - 1]).value, steps[|steps| - 1], id);
    }
  }

  /** A thread closes exactly by returning its permit, and stays closed. */
  lemma {:induction false} CloseStep(w: World, step: Step, id: nat)
    requires Apply(w, step).Some?
    ensures At(Apply(w, step).value, id) == Some(Closed) <==> At(w, id) == Some(Closed) || Returns(step, id)
    ensures Returns(step, id) ==> At(w, id) != Some(Closed)
  {
  }

  /** A thread leaks exactly by a timer failure, and stays leaked. */
  lemma {:induction false} LeakStep(w: World, step: Step, id: nat)
    requires Apply(w, step).Some?
    ensures At(Apply(w, step).value, id) == Some(Leaked) <==> At(w, id) == Some(Leaked) || step == TimerFails(id)
  {
  }

  lemma {:induction false} LeakedExactly(ports: Ports, steps: seq<Step>, id: nat)
    requires Run(Init(ports), steps).Some?
    ensures At(Run(Init(ports), steps).value, id) == Some(Leaked) <==> TimerFails(id) in steps
  {
    if steps != [] {
      var n := |steps| - 1;
      LeakedExactly(ports, steps[..n], id);
      LeakStep(Run(Init(ports), steps[..n]).value, steps[n], id);
      assert steps == steps[..n] + [steps[n]];
    }
  }

  /** All connections are over: no thread can take another step. */
  ghost predicate Quiescent(w: World) {
    forall id :: id in w.threads ==> w.threads[id].Closed? || w.threads[id].Leaked?
  }

  /** Once every connection is over, all four permits are back if and only if every
      handler's deadline timer started. */
  lemma {:induction false} PermitsBackIff(ports: Ports, steps: seq<Step>)
    requires Run(Init(ports), steps).Some? && Quiescent(Run(Init(ports), steps).value)
    ensures var w := Run(Init(ports), steps).value;
            w.shared.permits == PERMITS <==> forall id :: TimerFails(id) !in steps
  {
    var w := Run(Init(ports), steps).value;
    EveryRun(ports, steps);
    forall id ensures id in Holders(w.threads) <==> TimerFails(id) in steps {
      LeakedExactly(ports, steps, id);
    }
    if Holders(w.threads) != {} {
      var id :| id in Holders(w.threads);
      assert TimerFails(id) in steps;
    }
  }

  /** The shortest way to the end of a thread, without a timer failure. */
  function EndSteps(id: nat, phase: Phase): seq<Step> {
    match phase
    case Admitted => [TimerStarts(id), Finish(id), ReturnPermit(id)]
    case Ending => [ReturnPermit(id)]
    case Leaked => []
    case Closed => []
    case _ => [Finish(id), ReturnPermit(id)]
  }

  predicate Open(w: World, id: nat) {
    id in w.threads && !w.threads[id].Closed? && !w.threads[id].Leaked?
  }

  function OpenThreads(w: World): set<nat> {
    set id | id in w.threads && !w.threads[id].Closed? && !w.threads[id].Leaked?
  }

  function LeakedThreads(w: World): set<nat> {
    set id | id in w.threads && w.threads[id].Leaked?
  }

  lemma {:induction false} RunOne(w: World, step: Step)
    ensures Run(w, [step]) == Apply(w, step)
  {
    assert [step][..0] == [];
    assert Run(w, []) == Some(w);
    hide Apply;
  }

  lemma {:induction false} RunAppend(w: World, a: seq<Step>, b: seq<Step>)
    requires Run(w, a).Some?
    ensures Run(w, a + b) == Run(Run(w, a).value, b)
  {
    hide Apply;
    if b == [] {
      assert a + b == a;
    } else {
      RunAppend(w, a, b[..|b| - 1]);
      DropLast(a, b);
    }
  }

  lemma {:induction false} RunThen(w: World, step: Step, rest: seq<Step>)
    requires Apply(w, step).Some?
    ensures Run(w, [step] + rest) == Run(Apply(w, step).value, rest)
  {
    hide Apply;
    RunOne(w, step);
    RunAppend(w, [step], rest);
  }

  /** The way out of an open thread can be walked: it ends closed, its permit comes back,
      and no other thread is touched. */
  lemma {:induction false} ThreadEnds(w: World, id: nat)
    requires Inv(w) && Open(w, id)
    ensures var after := Run(w, EndSteps(id, w.threads[id]));
            && after.Some? && Inv(after.value) && after.value.threads == w.threads[id := Closed]
  {
    var phase := w.threads[id];
    match phase
    case Ending =>
      ReturnEnds(w, id);
    case Admitted =>
      var serving := Apply(w, TimerStarts(id)).value;
      InvStep(w, TimerStarts(id));
      FinishEnds(serving, id);
      RunThen(w, TimerStarts(id), [Finish(id), ReturnPermit(id)]);
      assert [TimerStarts(id)] + [Finish(id), ReturnPermit(id)] == EndSteps(id, phase);
      assert serving.threads[id := Closed] == w.threads[id := Closed];
    case _ =>
      FinishEnds(w, id);
  }

  lemma {:induction false} ReturnEnds(w: World, id: nat)
    requires Inv(w) && At(w, id) == Some(Ending)
    ensures var after := Run(w, [ReturnPermit(id)]);
            && after.Some? && Inv(after.value) && after.value.threads == w.threads[id := Closed]
  {
    InvStep(w, ReturnPermit(id));
    RunOne(w, ReturnPermit(id));
    hide Inv;
  }

  lemma {:induction false} FinishEnds(w: World, id: nat)
    requires Inv(w) && Open(w, id) && !w.threads[id].Admitted? && !w.threads[id].Ending?
    ensures var after := Run(w, [Finish(id), ReturnPermit(id)]);
            && after.Some? && Inv(after.value) && after.value.threads == w.threads[id := Closed]
  {
    var ending := Apply(w, Finish(id)).value;
    InvStep(w, Finish(id));
    ReturnEnds(ending, id);
    RunThen(w, Finish(id), [ReturnPermit(id)]);
    hide Inv;
    assert [Finish(id)] + [ReturnPermit(id)] == [Finish(id), ReturnPermit(id)];
    assert ending.threads[id := Closed] == w.threads[id := Closed];
  }

  /** From every reachable state the relay can be drained without a further timer failure:
      then all connections are over and exactly the leaked permits are missing. */
  lemma {:induction false} Drains(w: World) returns (steps: seq<Step>)
    requires Inv(w)
    ensures var after := Run(w, steps);
            && after.Some? && Quiescent(after.value) && LeakedThreads(after.value) == LeakedThreads(w)
            && after.value.shared.permits == PERMITS - |LeakedThreads(w)|
    ensures forall id :: TimerFails(id) !in steps
    decreases |OpenThreads(w)|
  {
    if OpenThreads(w) == {} {
      steps := [];
      NothingOpen(w);
    } else {
      var id :| id in OpenThreads(w);
      ThreadEnds(w, id);
      var first := EndSteps(id, w.threads[id]);
      var next := Run(w, first).value;
      assert OpenThreads(next) == OpenThreads(w) - {id};
      assert LeakedThreads(next) == LeakedThreads(w);
      var rest := Drains(next);
      RunAppend(w, first, rest);
      steps := first + rest;
    }
  }

  lemma {:induction false} NothingOpen(w: World)
    requires OpenThreads(w) == {}
    ensures Quiescent(w) && Holders(w.threads) == LeakedThreads(w)
  {
    forall id | id in w.threads ensures w.threads[id].Closed? || w.threads[id].Leaked? {
      assert id !in OpenThreads(w);
    }
  }

  lemma {:induction false} EveryRunDrains(ports: Ports, before: seq<Step>) returns (steps: seq<Step>)
    requires Run(Init(ports), before).Some?
    ensures var after := Run(Init(ports), before + steps);
            && after.Some? && Quiescent(after.value)
            && after.value.shared.permits == PERMITS - |LeakedThreads(Run(Init(ports), before).value)|
    ensures forall id :: TimerFails(id) !in steps
  {
    EveryRun(ports, before);
    steps := Drains(Run(Init(ports), before).value);
    RunAppend(Init(ports), before, steps);
  }

  // ----- Leaks do happen

  /** `k` connections whose timers do not start. */
  function LeakRun(k: nat): seq<Step> {
    if k == 0 then [] else LeakRun(k - 1) + [Connect(k - 1), TimerFails(k - 1)]
  }

  function LeakMap(k: nat): map<nat, Phase> {
    if k == 0 then map[] else LeakMap(k - 1)[k - 1 := Leaked]
  }

  lemma {:induction false} LeakMapIs(k: nat)
    ensures forall id: nat :: id in LeakMap(k) <==> id < k
    ensures forall id: nat :: id in LeakMap(k) ==> LeakMap(k)[id] == Leaked
  {
    if k > 0 {
      LeakMapIs(k - 1);
    }
  }

  function LeakWorld(ports: Ports, k: nat): World
    requires k <= PERMITS
  {
    World(Shared([], 0, ports, PERMITS - k), LeakMap(k), [], [], [ports])
  }

  lemma {:induction false} OneLeak(ports: Ports, k: nat)
    requires k < PERMITS
    ensures Run(LeakWorld(ports, k), [Connect(k), TimerFails(k)]) == Some(LeakWorld(ports, k + 1))
  {
    LeakMapIs(k);
    var before := LeakWorld(ports, k);
    var admitted := Move(before.(shared := before.shared.(permits := PERMITS - k - 1)), k, Admitted);
    assert Apply(before, Connect(k)) == Some(admitted);
    assert Apply(admitted, TimerFails(k)) == Some(Move(admitted, k, Leaked));
    assert Move(admitted, k, Leaked) == LeakWorld(ports, k + 1);
    hide Apply;
    RunThen(before, Connect(k), [TimerFails(k)]);
    RunOne(admitted, TimerFails(k));
    assert [Connect(k)] + [TimerFails(k)] == [Connect(k), TimerFails(k)];
  }

  lemma {:induction false} InitLeaks(ports: Ports)
    ensures Run(Init(ports), LeakRun(0)) == Some(LeakWorld(ports, 0))
  {
  }

  /** Up to four such connections are admitted, each keeps its permit, and all are over. */
  lemma {:induction false} LeaksHappen(ports: Ports, k: nat)
    requires k <= PERMITS
    ensures Run(Init(ports), LeakRun(k)) == Some(LeakWorld(ports, k)) && Quiescent(LeakWorld(ports, k))
    ensures forall id :: 0 <= id < k ==> TimerFails(id) in LeakRun(k)
  {
    hide Apply, LeakMap, Run;
    LeakMapIs(k);
    InitLeaks(ports);
    if k > 0 {
      LeaksHappen(ports, k - 1);
      OneLeak(ports, k - 1);
      RunAppend(Init(ports), LeakRun(k - 1), [Connect(k - 1), TimerFails(k - 1)]);
    }
  }

  /** So the relay can be over with three permits, and it can be shut for good. */
  lemma {:induction false} LeakAndExhaustion(ports: Ports, steps: seq<Step>, id: nat)
    ensures var once := Run(Init(ports), LeakRun(1));
            once.Some? && Quiescent(once.value) && once.value.shared.permits == PERMITS - 1
    ensures Run(Init(ports), LeakRun(PERMITS)).Some?
    ensures var later := Run(Init(ports), LeakRun(PERMITS) + steps);
            later.Some? ==> later.value.shared.permits == 0
                            && (id !in later.value.threads ==> Apply(later.value, Connect(id)) == later)
  {
    hide Run, Apply, Quiescent, LeakRun, LeakMap;
    LeaksHappen(ports, 1);
    LeaksHappen(ports, PERMITS);
    if Run(Init(ports), LeakRun(PERMITS) + steps).Some? {
      Exhausted(ports, LeakRun(PERMITS), steps, {0, 1, 2, 3});
    }
  }

  /** Four timer failures leave the relay refusing every later connection, for good. */
  lemma {:induction false} Exhausted(ports: Ports, before: seq<Step>, steps: seq<Step>, ids: set<nat>)
    requires |ids| == PERMITS && forall id :: id in ids ==> TimerFails(id) in before
    requires Run(Init(ports), before + steps).Some?
    ensures var w := Run(Init(ports), before + steps).value;
            && w.shared.permits == 0
            && forall id :: id !in w.threads ==> Apply(w, Connect(id)) == Some(w)
  {
    var all := before + steps;
    var w := Run(Init(ports), all).value;
    EveryRun(ports, all);
    forall id | id in ids ensures id in Holders(w.threads) {
      assert TimerFails(id) in all;
      LeakedExactly(ports, all, id);
    }
    SubsetSize(ids, Holders(w.threads));
  }

  // ----- What the log says

  /** The requests the relay forwards, and the events it logs. */
  predicate Known(verb: string, path: string) {
    || (verb == "GET" && path == "/v1/sys/health")
    || ((verb == "GET" || verb == "POST")
        && (path == "/v1/fixture-kv/data/sdk-lag" || path == "/v1/fixture-kv/data/sdk-cancel"
            || path == "/v1/fixture-kv/data/sdk-timeout"))
  }

  /** The thread took a known request, and the event names it. */
  ghost predicate Tells(steps: seq<Step>, id: nat, event: Event) {
    exists r :: TakeRequest(id, r) in steps && event == Event(r.verb, r.path) && Known(event.verb, event.path)
  }

  /** The request a thread is working on, before it is logged. */
  ghost predicate Pending(w: World, id: nat, r: Request) {
    id in w.threads && (w.threads[id].Counted? || w.threads[id].Routed?) && w.threads[id].request == r
  }

  ghost predicate Took(w: World, steps: seq<Step>) {
    forall id, r :: Pending(w, id, r) ==> TakeRequest(id, r) in steps && Known(r.verb, r.path)
  }

  ghost predicate LogTells(w: World, steps: seq<Step>) {
    |w.recorded| == |w.shared.events|
    && forall i :: 0 <= i < |w.recorded| ==> Tells(steps, w.recorded[i], w.shared.events[i])
  }

  lemma {:induction false} TookStep(w: World, steps: seq<Step>, step: Step)
    requires Took(w, steps) && Apply(w, step).Some?
    ensures Took(Apply(w, step).value, steps + [step])
  {
    var after := Apply(w, step).value;
    forall id, r | Pending(after, id, r) ensures TakeRequest(id, r) in steps + [step] && Known(r.verb, r.path) {
      if Pending(w, id, r) {
        assert TakeRequest(id, r) in steps;
      } else {
        assert step == TakeRequest(id, r);
      }
    }
  }

  lemma {:induction false} TellsMore(steps: seq<Step>, step: Step, id: nat, event: Event)
    requires Tells(steps, id, event)
    ensures Tells(steps + [step], id, event)
  {
    var r :| TakeRequest(id, r) in steps && event == Event(r.verb, r.path) && Known(event.verb, event.path);
    assert TakeRequest(id, r) in steps + [step];
  }

  /** Only a recording step changes the log. */
  lemma {:induction false} LogChange(w: World, step: Step)
    requires Apply(w, step).Some?
    ensures var after := Apply(w, step).value;
            || (after.shared.events == w.shared.events && after.recorded == w.recorded)
            || (step.RecordRequest? && exists r ::
                  && Pending(w, step.id, r) && after.recorded == w.recorded + [step.id]
                  && after.shared.events == w.shared.events + [Event(r.verb, r.path)])
  {
    if step.RecordRequest? {
      assert Pending(w, step.id, w.threads[step.id].request);
    }
  }

  lemma {:induction false} LogTellsStep(w: World, steps: seq<Step>, step: Step)
    requires Took(w, steps) && LogTells(w, steps) && Apply(w, step).Some?
    ensures LogTells(Apply(w, step).value, steps + [step])
  {
    var after := Apply(w, step).value;
    LogChange(w, step);
    hide Apply, Known, Pending;
    forall i | 0 <= i < |w.recorded| ensures Tells(steps + [step], w.recorded[i], w.shared.events[i]) {
      TellsMore(steps, step, w.recorded[i], w.shared.events[i]);
    }
    if after.recorded != w.recorded {
      var r :| Pending(w, step.id, r) && after.recorded == w.recorded + [step.id]
               && after.shared.events == w.shared.events + [Event(r.verb, r.path)];
      assert TakeRequest(step.id, r) in steps + [step];
      assert Tells(steps + [step], step.id, Event(r.verb, r.path));
    }
  }

  /** In every run the log names, event by event, the known request that the thread which
      recorded it had taken; no thread recorded twice; the bounds are 128 and four. */
  lemma {:induction false} LogIsRequests(ports: Ports, steps: seq<Step>)
    requires Run(Init(ports), steps).Some?
    ensures var w := Run(Init(ports), steps).value;
            && Took(w, steps) && LogTells(w, steps) && Distinct(w.recorded)
            && |w.shared.events| <= w.shared.accepted <= 128
            && w.shared.permits + |Holders(w.threads)| == 4
  {
    if steps != [] {
      var n := |steps| - 1;
      LogIsRequests(ports, steps[..n]);
      var before := Run(Init(ports), steps[..n]).value;
      TookStep(before, steps[..n], steps[n]);
      LogTellsStep(before, steps[..n], steps[n]);
      assert steps == steps[..n] + [steps[n]];
    }
    EveryRun(ports, steps);
    hide Apply, Took, LogTells, ThreadInv, Holders;
  }
}
