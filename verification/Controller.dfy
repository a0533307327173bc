/**
 The controller (controller/controller_client.go, controller/units.go, controller/run.go):
 unit changes from the agent drive the map of units, the gRPC server (grpcserver/inputhandler.go)
 and the runner of queue and output. What the outside world answers comes with each change.
 */
module Controller {
  import opened Basics
  import opened Lifecycle

  datatype UnitType = InputUnit | OutputUnit
  datatype Expected = Healthy | StoppedState | OtherState

  /** A unit: `config` stands for its configuration map, `level` for the zap log level. */
  datatype Unit = Unit(id: string, kind: UnitType, config: nat, level: nat, expected: Expected)

  /** UnitMap: the stored configuration of each input unit and of the output unit. */
  datatype Units = Units(inputs: map<string, nat>, output: Option<nat>)

  function AddUnit(m: Units, u: Unit): Units {
    if u.kind.OutputUnit? then m.(output := Some(u.config)) else m.(inputs := m.inputs[u.id := u.config])
  }

  function UpdateUnit(m: Units, u: Unit): Units {
    if u.kind.InputUnit? then
      if u.id in m.inputs then m.(inputs := m.inputs[u.id := u.config]) else m
    else m.(output := Some(u.config))
  }

  function DeleteUnit(m: Units, u: Unit): Units {
    if u.kind.OutputUnit? then m.(output := None) else m.(inputs := m.inputs - {u.id})
  }

  function StoredConfig(m: Units, u: Unit): Option<nat> {
    if u.kind.OutputUnit? then m.output
    else if u.id in m.inputs then Some(m.inputs[u.id]) else None
  }

  // ---------------------------------------------------------------- the gRPC endpoint

  datatype GrpcOutcome = ShipperFails | DirectoryFails | RemoveFails | ListenFails | DialFails | Serves

  /** The handle, and whether startMutex was left locked. */
  datatype Grpc = Grpc(server: bool, locked: bool)

  /** InputHandler.Start sets the handle before it takes the mutex. */
  function StartGrpc(g: Grpc, o: GrpcOutcome): Grpc {
    if g.server then g
    else Grpc(true, g.locked || o.RemoveFails?)
  }

  /** It hangs if it comes to take a mutex that was left locked. */
  predicate StartHangs(g: Grpc, o: GrpcOutcome) { !g.server && g.locked && !o.ShipperFails? }

  function StopGrpc(g: Grpc): Grpc { g.(server := false) }

  // ---------------------------------------------------------------- handlers

  /** `blocked`: a handler waits for startMutex, or for the output that it closes, and never returns. */
  datatype Handler = Handler(units: Units, grpc: Grpc, runner: Runner, level: nat, blocked: bool)

  const NEW_HANDLER: Handler := Handler(Units(map[], None), Grpc(false, false), NEW_RUNNER, 0, false)

  /** What happens outside: whether the unit's configuration can be read, how Start of the runner
      and of the gRPC server go, and whether the wait for an output that is closed returns. */
  datatype World = World(configOk: bool, start: Attempt, grpc: GrpcOutcome, waitReturns: bool)

  datatype Change = Added(u: Unit, world: World) | Modified(u: Unit, world: World) | Removed(u: Unit, world: World)

  /** Reading the configuration sets the log level even if it fails afterwards. */
  function StartShipper(h: Handler, u: Unit, w: World): Handler {
    var h1 := h.(level := u.level);
    if !w.configOk then h1 else h1.(runner := Start(h1.runner, w.start))
  }

  function AddInput(h: Handler, w: World): Handler {
    if !w.configOk then h
    else h.(grpc := StartGrpc(h.grpc, w.grpc), blocked := StartHangs(h.grpc, w.grpc))
  }

  predicate OnlyLevelUpdated(h: Handler, u: Unit) {
    u.kind.OutputUnit? && StoredConfig(h.units, u) == Some(u.config) && u.level != h.level
  }

  function StopShipper(h: Handler, waitReturns: bool): Handler {
    if h.runner.out && !waitReturns then h.(runner := CloseWaiting(h.runner), blocked := true)
    else h.(runner := Close(h.runner))
  }

  function UpdateOutput(h: Handler, u: Unit, w: World): Handler {
    var h1 := h.(units := UpdateUnit(h.units, u));
    match u.expected
    case Healthy =>
      var h2 := StopShipper(h1, w.waitReturns);
      if h2.blocked then h2 else StartShipper(h2, u, w)
    case StoppedState => StopShipper(h1, w.waitReturns)
    case OtherState => h1
  }

  function StopEndpoint(h: Handler): Handler {
    if h.grpc.locked then h.(blocked := true) else h.(grpc := StopGrpc(h.grpc))
  }

  function Handle(h: Handler, c: Change): Handler {
    var u, w := c.u, c.world;
    match c
    case Added(_, _) =>
      var h1 := h.(units := AddUnit(h.units, u));
      if u.kind.OutputUnit? then StartShipper(h1, u, w) else AddInput(h1, w)
    case Modified(_, _) =>
      if OnlyLevelUpdated(h, u) then h.(level := u.level)
      else if u.kind.OutputUnit? then UpdateOutput(h, u, w)
      else h.(units := UpdateUnit(h.units, u))
    case Removed(_, _) =>
      var h1 := h.(units := DeleteUnit(h.units, u));
      if |h1.units.inputs| == 0 then StopEndpoint(h1) else h1
  }

  /** The dispatch loop: a change is handled after the previous handler has returned. */
  function Run(changes: seq<Change>): Handler {
    if changes == [] then NEW_HANDLER
    else
      var h := Run(changes[..|changes| - 1]);
      if h.blocked then h else Handle(h, changes[|changes| - 1])
  }

  /** On a signal or a cancelled context the endpoint is stopped first, then the pipeline. */
  function ShutDown(h: Handler, waitReturns: bool): Handler {
    var h1 := StopEndpoint(h);
    if h1.blocked then h1 else StopShipper(h1, waitReturns)
  }

  // ---------------------------------------------------------------- units and endpoint

  /** Added, and not removed since. */
  ghost predicate Live(changes: seq<Change>, id: string) {
    exists i :: && 0 <= i < |changes| && IsAdd(changes[i], id)
                && forall j :: i < j < |changes| ==> !IsRemove(changes[j], id)
  }

  predicate IsAdd(c: Change, id: string) { c.Added? && c.u.kind.InputUnit? && c.u.id == id }
  predicate IsRemove(c: Change, id: string) { c.Removed? && c.u.kind.InputUnit? && c.u.id == id }

  lemma LiveStep(changes: seq<Change>, id: string)
    requires changes != []
    ensures var last := changes[|changes| - 1];
            Live(changes, id) <==> IsAdd(last, id) || (Live(changes[..|changes| - 1], id) && !IsRemove(last, id))
  {
    var n := |changes| - 1;
    var front := changes[..n];
    if IsAdd(changes[n], id) {
      assert Live(changes, id);
    } else {
      if Live(front, id) && !IsRemove(changes[n], id) {
        var i :| && 0 <= i < |front| && IsAdd(front[i], id)
                 && forall j :: i < j < |front| ==> !IsRemove(front[j], id);
        assert IsAdd(changes[i], id);
        assert forall j :: i < j < |changes| ==> !IsRemove(changes[j], id);
      }
      if Live(changes, id) {
        var i :| && 0 <= i < |changes| && IsAdd(changes[i], id)
                 && forall j :: i < j < |changes| ==> !IsRemove(changes[j], id);
        assert IsAdd(front[i], id);
        assert forall j :: i < j < |front| ==> !IsRemove(front[j], id);
      }
    }
  }

  lemma HandleUnits(h: Handler, c: Change)
    ensures c.Added? ==> Handle(h, c).units == AddUnit(h.units, c.u)
    ensures c.Modified? ==> Handle(h, c).units == if OnlyLevelUpdated(h, c.u) then h.units else UpdateUnit(h.units, c.u)
    ensures c.Removed? ==> Handle(h, c).units == DeleteUnit(h.units, c.u)
  {
    hide Start, Close, AddUnit, DeleteUnit, UpdateUnit, OnlyLevelUpdated;
  }

  lemma HandleInputs(h: Handler, c: Change, id: string)
    ensures id in Handle(h, c).units.inputs <==> IsAdd(c, id) || (id in h.units.inputs && !IsRemove(c, id))
  {
    hide Handle, OnlyLevelUpdated;
    HandleUnits(h, c);
  }

  /** The endpoint is down whenever no input unit is left, unless a handler hangs. */
  predicate EndpointOk(h: Handler) {
    && (h.grpc.locked ==> h.grpc.server)
    && (!h.blocked && h.units.inputs == map[] ==> !h.grpc.server)
  }

  lemma HandleKeepsEndpoint(h: Handler, c: Change)
    requires EndpointOk(h) && !h.blocked
    ensures EndpointOk(Handle(h, c))
  {
    var h' := Handle(h, c);
    match c
    case Added(u, _) =>
      if u.kind.InputUnit? {
        assert u.id in h'.units.inputs;
      }
    case Modified(u, _) =>
      assert h'.units.inputs.Keys == h.units.inputs.Keys;
    case Removed(u, _) =>
  }

  /** After every sequence of changes: unless a handler hangs, the input map holds exactly the
      units added and not removed since, and if there are none the gRPC server is down. When a
      handler hangs is said by MutexIsLeftIff and HangsIff. */
  lemma {:induction false} Controls(changes: seq<Change>)
    ensures EndpointOk(Run(changes))
    ensures !Run(changes).blocked ==> forall id :: id in Run(changes).units.inputs <==> Live(changes, id)
    decreases |changes|
  {
    if changes != [] {
      var front, last := changes[..|changes| - 1], changes[|changes| - 1];
      Controls(front);
      var h := Run(front);
      if !h.blocked {
        HandleKeepsEndpoint(h, last);
        forall id
          ensures id in Handle(h, last).units.inputs <==> Live(changes, id)
        {
          HandleInputs(h, last, id);
          LiveStep(changes, id);
        }
        hide Live, Handle, EndpointOk;
      }
    }
  }

  /** The change that leaves startMutex locked: the first start of the endpoint finds a stale socket
      that it cannot remove. */
  predicate LeavesMutex(h: Handler, c: Change) {
    !h.blocked && !h.grpc.server && c.Added? && c.u.kind.InputUnit? && c.world.configOk && c.world.grpc.RemoveFails?
  }

  /** The change whose handler then hangs: a removal after which there are no inputs. */
  predicate RemovesLast(h: Handler, c: Change) { c.Removed? && DeleteUnit(h.units, c.u).inputs == map[] }

  /** A change that closes an output whose Wait does not return. */
  predicate ClosesForEver(h: Handler, c: Change) {
    && c.Modified? && c.u.kind.OutputUnit? && !LevelAlone(h, c.u)
    && !c.u.expected.OtherState? && h.runner.out && !c.world.waitReturns
  }

  predicate Hangs(h: Handler, c: Change) { (h.grpc.locked && RemovesLast(h, c)) || ClosesForEver(h, c) }

  lemma HandleMutex(h: Handler, c: Change)
    requires EndpointOk(h) && !h.blocked
    ensures Handle(h, c).grpc.locked <==> h.grpc.locked || LeavesMutex(h, c)
    ensures Handle(h, c).blocked <==> Hangs(h, c)
  {
    hide Start, Close;
  }

  /** A change of kind p meets the state it is handled in. */
  ghost predicate Sometime(changes: seq<Change>, p: (Handler, Change) -> bool) {
    exists i :: 0 <= i < |changes| && p(Run(changes[..i]), changes[i])
  }

  lemma SometimeStep(changes: seq<Change>, p: (Handler, Change) -> bool)
    requires changes != []
    ensures var n := |changes| - 1;
            Sometime(changes, p) <==> Sometime(changes[..n], p) || p(Run(changes[..n]), changes[n])
  {
    hide Run;
    var n := |changes| - 1;
    var front := changes[..n];
    assert forall i :: 0 <= i < n ==> changes[..i] == front[..i] && changes[i] == front[i];
    if Sometime(changes, p) {
      var i :| 0 <= i < |changes| && p(Run(changes[..i]), changes[i]);
      assert i < n ==> p(Run(front[..i]), front[i]);
    }
    if Sometime(front, p) {
      var i :| 0 <= i < |front| && p(Run(front[..i]), front[i]);
      assert p(Run(changes[..i]), changes[i]);
    }
  }

  /** In every sequence of changes: the mutex is left locked if and only if one of them starts the
      endpoint in vain as described. */
  lemma {:induction false} MutexIsLeftIff(changes: seq<Change>)
    ensures Run(changes).grpc.locked <==> Sometime(changes, LeavesMutex)
    decreases |changes|
  {
    if changes != [] {
      var n := |changes| - 1;
      Controls(changes[..n]);
      MutexIsLeftIff(changes[..n]);
      SometimeStep(changes, LeavesMutex);
      hide Handle, EndpointOk, Live, Sometime;
      if !Run(changes[..n]).blocked {
        HandleMutex(Run(changes[..n]), changes[n]);
      }
    }
  }

  /** A handler hangs if and only if the mutex was left locked and afterwards a removal left no
      input units, or a changed output unit closed an output whose Wait does not return. */
  lemma {:induction false} HangsIff(changes: seq<Change>)
    ensures Run(changes).blocked <==> Sometime(changes, Hangs)
    decreases |changes|
  {
    if changes != [] {
      var n := |changes| - 1;
      Controls(changes[..n]);
      HangsIff(changes[..n]);
      SometimeStep(changes, Hangs);
      hide Handle, EndpointOk, Live, Sometime, RemovesLast;
      if !Run(changes[..n]).blocked {
        HandleMutex(Run(changes[..n]), changes[n]);
      }
    }
  }

  /** The change brings the endpoint up, whether or not it then serves; or takes it down. */
  predicate StartsEndpoint(c: Change) { c.Added? && c.u.kind.InputUnit? && c.world.configOk }
  ghost predicate EndpointUp(changes: seq<Change>) { exists i: nat :: UpSince(changes, i) }

  lemma HandleServer(h: Handler, c: Change)
    requires EndpointOk(h) && !h.blocked && !Handle(h, c).blocked
    ensures Handle(h, c).grpc.server <==> StartsEndpoint(c) || (h.grpc.server && !RemovesLast(h, c))
  {
    hide Start, Close, OnlyLevelUpdated;
  }

  /** The endpoint was brought up by change i. */
  ghost predicate UpSince(changes: seq<Change>, i: nat) {
    && i < |changes| && StartsEndpoint(changes[i])
    && forall j :: i < j < |changes| ==> !RemovesLast(Run(changes[..j]), changes[j])
  }

  lemma UpSinceStep(changes: seq<Change>, i: nat)
    requires changes != []
    ensures var n := |changes| - 1;
            UpSince(changes, i) <==>
              if i == n then StartsEndpoint(changes[n])
              else UpSince(changes[..n], i) && !RemovesLast(Run(changes[..n]), changes[n])
  {
    hide Run, RemovesLast, StartsEndpoint;
    var n := |changes| - 1;
    var front := changes[..n];
    assert forall j :: 0 <= j < n ==> changes[..j] == front[..j] && changes[j] == front[j];
  }

  lemma EndpointUpStep(changes: seq<Change>)
    requires changes != []
    ensures var n := |changes| - 1;
            EndpointUp(changes) <==>
              StartsEndpoint(changes[n]) || (EndpointUp(changes[..n]) && !RemovesLast(Run(changes[..n]), changes[n]))
  {
    hide UpSince, Run, RemovesLast, StartsEndpoint;
    var n := |changes| - 1;
    forall i: nat
      ensures UpSince(changes, i) <==>
              if i == n then StartsEndpoint(changes[n])
              else UpSince(changes[..n], i) && !RemovesLast(Run(changes[..n]), changes[n])
    {
      UpSinceStep(changes, i);
    }
    assert StartsEndpoint(changes[n]) ==> UpSince(changes, n);
    if EndpointUp(changes[..n]) && !RemovesLast(Run(changes[..n]), changes[n]) {
      var i: nat :| UpSince(changes[..n], i);
      NotLast(changes[..n], i);
      assert UpSince(changes, i);
    }
  }

  lemma NotLast(changes: seq<Change>, i: nat)
    requires UpSince(changes, i)
    ensures i < |changes|
  {
  }

  /** After every sequence of changes in which no handler hung, the gRPC handle is set if and only if an
      input unit was added whose configuration could be read, and no removal since has left no inputs. */
  lemma {:induction false} ServerIff(changes: seq<Change>)
    requires !Run(changes).blocked
    ensures Run(changes).grpc.server <==> EndpointUp(changes)
    decreases |changes|
  {
    if changes != [] {
      var n := |changes| - 1;
      Controls(changes[..n]);
      HandleServer(Run(changes[..n]), changes[n]);
      EndpointUpStep(changes);
      hide Handle, EndpointOk, Live, EndpointUp, RemovesLast, StartsEndpoint;
      ServerIff(changes[..n]);
    }
  }

  /** An input unit that finds a socket it cannot remove, and goes away again: its removal hangs. */
  lemma StaleSocketHangs(u: Unit, w: World)
    requires u.kind.InputUnit? && w.configOk && w.grpc.RemoveFails?
    ensures Run([Added(u, w), Removed(u, w)]).blocked
  {
    var cs := [Added(u, w), Removed(u, w)];
    assert cs[..1] == [Added(u, w)] && cs[..1][..0] == [];
    assert Run(cs[..1]) == Handle(NEW_HANDLER, Added(u, w));
    assert Run(cs) == Handle(Run(cs[..1]), Removed(u, w));
    assert DeleteUnit(Run(cs[..1]).units, u).inputs == map[];
  }

  /** Changes of the output unit never touch the gRPC server, except that a removal stops it
      when there are no input units. */
  lemma OutputChangesSpareEndpoint(h: Handler, c: Change)
    requires c.u.kind.OutputUnit? && (c.Removed? ==> h.units.inputs != map[])
    ensures Handle(h, c).grpc == h.grpc
  {
  }

  /** The configuration is the stored one, and only the level is new. */
  predicate LevelAlone(h: Handler, u: Unit) { h.units.output == Some(u.config) && u.level != h.level }

  /** A change of the log level alone touches neither server nor queue nor output. */
  lemma LevelChangesTouchNothing(h: Handler, u: Unit, w: World)
    requires u.kind.OutputUnit? && h.units.output == Some(u.config) && u.level != h.level
    ensures Handle(h, Modified(u, w)) == h.(level := u.level)
  {
  }

  /** Every other change of the output unit: the configuration is stored; a healthy unit is closed and
      started anew, with its level, and a stopped one is closed; and if the output's Wait does not
      return, the handler hangs there. */
  lemma OutputChanges(h: Handler, u: Unit, w: World)
    requires u.kind.OutputUnit? && !LevelAlone(h, u) && !h.blocked
    ensures var h', hangs := Handle(h, Modified(u, w)), h.runner.out && !w.waitReturns;
            && h'.units == h.units.(output := Some(u.config)) && h'.grpc == h.grpc
            && match u.expected
               case Healthy =>
                 && h'.blocked == hangs
                 && h'.level == (if hangs then h.level else u.level)
                 && h'.runner == (if hangs then CloseWaiting(h.runner)
                                  else if w.configOk then Start(Close(h.runner), w.start) else Close(h.runner))
               case StoppedState =>
                 && h'.blocked == hangs && h'.level == h.level
                 && h'.runner == (if hangs then CloseWaiting(h.runner) else Close(h.runner))
               case OtherState => h' == h.(units := h'.units)
  {
    hide Start, Close;
  }

  /** So a changed configuration is never swallowed. */
  lemma ChangedConfigRestarts(h: Handler, u: Unit, w: World)
    requires u.kind.OutputUnit? && !h.blocked && h.units.output != Some(u.config)
    requires u.expected.Healthy? && w.configOk && (w.waitReturns || !h.runner.out)
    ensures var h' := Handle(h, Modified(u, w));
            h'.units.output == Some(u.config) && h'.runner == Start(Close(h.runner), w.start) && h'.level == u.level
  {
    hide Start, Close;
  }

  /** Adding an output unit starts it, with its level; removing it leaves queue and output running. */
  lemma OutputComesAndGoes(h: Handler, u: Unit, w: World)
    requires u.kind.OutputUnit?
    ensures var h' := Handle(h, Added(u, w));
            && h'.units == h.units.(output := Some(u.config)) && h'.level == u.level && h'.grpc == h.grpc
            && h'.runner == if w.configOk then Start(h.runner, w.start) else h.runner
    ensures Handle(h, Removed(u, w)).runner == h.runner && Handle(h, Removed(u, w)).units == h.units.(output := None)
  {
    hide Start, Close;
  }

  /** What a unit's configuration should be: that of its last change, if it was added and not removed
      since; for the output unit a change counts as well. */
  function LastConfig(changes: seq<Change>, kind: UnitType, id: string): Option<nat> {
    if changes == [] then None
    else
      var c, before := changes[|changes| - 1], LastConfig(changes[..|changes| - 1], kind, id);
      if c.u.kind != kind || (kind.InputUnit? && c.u.id != id) then before
      else
        match c
        case Added(_, _) => Some(c.u.config)
        case Modified(_, _) => if kind.OutputUnit? || before.Some? then Some(c.u.config) else None
        case Removed(_, _) => None
  }

  function Stored(m: Units, kind: UnitType, id: string): Option<nat> {
    if kind.OutputUnit? then m.output else if id in m.inputs then Some(m.inputs[id]) else None
  }

  lemma HandleStores(h: Handler, c: Change, kind: UnitType, id: string)
    requires !h.blocked
    ensures var before, after := Stored(h.units, kind, id), Stored(Handle(h, c).units, kind, id);
            after ==
              if c.u.kind != kind || (kind.InputUnit? && c.u.id != id) then before
              else match c
                   case Added(_, _) => Some(c.u.config)
                   case Modified(_, _) => if kind.OutputUnit? || before.Some? then Some(c.u.config) else None
                   case Removed(_, _) => None
  {
    hide Handle;
    HandleUnits(h, c);
  }

  /** After every sequence of changes in which no handler hung, each unit's stored configuration is that
      of its last change. */
  lemma {:induction false} StoredIsLast(changes: seq<Change>, kind: UnitType, id: string)
    requires !Run(changes).blocked
    ensures Stored(Run(changes).units, kind, id) == LastConfig(changes, kind, id)
    decreases |changes|
  {
    if changes != [] {
      var n := |changes| - 1;
      HandleStores(Run(changes[..n]), changes[n], kind, id);
      hide Handle, Stored;
      StoredIsLast(changes[..n], kind, id);
    }
  }

  /** Shutting down gives everything up, unless it hangs: on the endpoint's mutex, or on the output. */
  lemma ShutDownIsComplete(changes: seq<Change>, waitReturns: bool)
    requires !Run(changes).blocked
    ensures var h, h' := Run(changes), ShutDown(Run(changes), waitReturns);
            && (h'.blocked <==> h.grpc.locked || (h.runner.out && !waitReturns))
            && (!h'.blocked ==>
                  !h'.grpc.server && h'.runner.queue.None? && !h'.runner.monitoring && !h'.runner.out)
            && (!h.grpc.locked ==> !h'.grpc.server && h'.runner.queue.None?)
  {
    Controls(changes);
    CloseIsFinal(Run(changes).runner);
  }

  // ---------------------------------------------------------------- queues

  /** The change that must not happen: an output unit added while a queue is in hand. */
  predicate AddsOverQueue(h: Handler, c: Change) {
    !h.blocked && c.Added? && c.u.kind.OutputUnit? && c.world.configOk && h.runner.queue.Some?
  }

  /** No such change in the whole sequence. */
  ghost predicate Orderly(changes: seq<Change>) {
    forall i :: 0 <= i < |changes| ==> !AddsOverQueue(Run(changes[..i]), changes[i])
  }

  ghost predicate NeverLeaks(changes: seq<Change>) {
    forall i :: 0 <= i <= |changes| ==> NoLeak(Run(changes[..i]).runner)
  }

  lemma HandleLeaks(h: Handler, c: Change)
    requires NoLeak(h.runner) && !h.blocked
    ensures NoLeak(Handle(h, c).runner) <==> !AddsOverQueue(h, c)
  {
    hide NoLeak, Close, Start;
    StartLeaksIffQueueInHand(h.runner, c.world.start);
    CloseIsFinal(h.runner);
    StartLeaksIffQueueInHand(Close(h.runner), c.world.start);
  }

  lemma RunPrefix(changes: seq<Change>, i: nat)
    requires i < |changes|
    ensures var h := Run(changes[..i]);
            Run(changes[..i + 1]) == if h.blocked then h else Handle(h, changes[i])
  {
    assert changes[..i + 1][..i] == changes[..i];
  }

  lemma {:induction false} OrderlyKeeps(changes: seq<Change>, i: nat)
    requires Orderly(changes) && i <= |changes|
    ensures NoLeak(Run(changes[..i]).runner)
  {
    if i > 0 {
      OrderlyKeeps(changes, i - 1);
      RunPrefix(changes, i - 1);
      NextLeaks(Run(changes[..i - 1]), changes[i - 1]);
      hide NoLeak, Handle, AddsOverQueue;
    }
  }

  lemma NextLeaks(h: Handler, c: Change)
    requires NoLeak(h.runner)
    ensures !AddsOverQueue(h, c) ==> NoLeak((if h.blocked then h else Handle(h, c)).runner)
    ensures AddsOverQueue(h, c) ==> !h.blocked && !NoLeak(Handle(h, c).runner)
  {
    hide NoLeak, Handle;
    if !h.blocked {
      HandleLeaks(h, c);
    }
  }

  /** In every sequence of changes: exactly the queue in hand is open, all the way, if and only
      if no output unit is ever added while a queue is in hand. */
  lemma NeverLeaksIffOrderly(changes: seq<Change>)
    ensures NeverLeaks(changes) <==> Orderly(changes)
  {
    hide Run, Handle, NoLeak;
    if Orderly(changes) {
      forall i | 0 <= i <= |changes|
        ensures NoLeak(Run(changes[..i]).runner)
      {
        OrderlyKeeps(changes, i);
      }
    } else {
      var i :| 0 <= i < |changes| && AddsOverQueue(Run(changes[..i]), changes[i]);
      RunPrefix(changes, i);
      if NoLeak(Run(changes[..i]).runner) {
        NextLeaks(Run(changes[..i]), changes[i]);
        assert !NoLeak(Run(changes[..i + 1]).runner);
      }
    }
  }

  /** The runner on which a change calls Start, if it does. */
  function StartsOn(h: Handler, c: Change): Option<Runner> {
    if h.blocked || !c.u.kind.OutputUnit? || !c.world.configOk then None
    else if c.Added? then Some(h.runner)
    else if c.Modified? && !LevelAlone(h, c.u) && c.u.expected.Healthy? && !Hangs(h, c) then Some(Close(h.runner))
    else None
  }

  /** An output is in hand only together with a queue, unless Close hangs. */
  predicate OutputHasQueue(h: Handler) { !h.blocked && h.runner.out ==> h.runner.queue.Some? }

  lemma HandleKeepsOutputHasQueue(h: Handler, c: Change)
    requires OutputHasQueue(h) && !h.blocked && !AddsOverQueue(h, c)
    ensures OutputHasQueue(Handle(h, c))
  {
  }

  lemma {:induction false} OrderlyOutputHasQueue(changes: seq<Change>, i: nat)
    requires Orderly(changes) && i <= |changes|
    ensures OutputHasQueue(Run(changes[..i]))
  {
    if i > 0 {
      OrderlyOutputHasQueue(changes, i - 1);
      RunPrefix(changes, i - 1);
      if !Run(changes[..i - 1]).blocked {
        HandleKeepsOutputHasQueue(Run(changes[..i - 1]), changes[i - 1]);
      }
      hide Handle, AddsOverQueue;
    }
  }

  lemma StartIsClean(h: Handler, c: Change)
    requires OutputHasQueue(h) && !AddsOverQueue(h, c)
    ensures var h' := if h.blocked then h else Handle(h, c);
            match StartsOn(h, c)
            case Some(r) => r.queue.None? && !r.out && h'.runner == Start(r, c.world.start)
            case None => h'.runner.created == h.runner.created
  {
  }

  /** As long as no output unit is added while a queue is in hand, Start is always called with neither
      queue nor output in hand. */
  lemma StartComesAfterClose(changes: seq<Change>, i: nat)
    requires Orderly(changes) && i < |changes|
    ensures var h, h' := Run(changes[..i]), Run(changes[..i + 1]);
            match StartsOn(h, changes[i])
            case Some(r) => r.queue.None? && !r.out && h'.runner == Start(r, changes[i].world.start)
            case None => h'.runner.created == h.runner.created
  {
    hide Run, Handle, StartsOn, OutputHasQueue, AddsOverQueue, Start;
    RunPrefix(changes, i);
    OrderlyOutputHasQueue(changes, i);
    StartIsClean(Run(changes[..i]), changes[i]);
  }

  predicate AddsOutput(c: Change) { c.Added? && c.u.kind.OutputUnit? }

  /** At most one output unit is added, and before it nothing happens to output units. */
  ghost predicate OneOutput(changes: seq<Change>) {
    forall i, j :: 0 <= i < j < |changes| && AddsOutput(changes[j]) ==> changes[i].u.kind.InputUnit?
  }

  lemma InputKeepsRunner(h: Handler, c: Change)
    requires c.u.kind.InputUnit?
    ensures Handle(h, c).runner == h.runner
  {
  }

  /** Changes of input units alone leave the runner untouched. */
  lemma {:induction false} InputsKeepRunner(changes: seq<Change>)
    requires forall i :: 0 <= i < |changes| ==> changes[i].u.kind.InputUnit?
    ensures Run(changes).runner == NEW_RUNNER
    decreases |changes|
  {
    if changes != [] {
      var n := |changes| - 1;
      InputsKeepRunner(changes[..n]);
      InputKeepsRunner(Run(changes[..n]), changes[n]);
      hide Handle;
    }
  }

  /** Any changes of input units, then one output unit added, then any changes that add no other. */
  lemma OneAddIsOrderly(changes: seq<Change>)
    requires OneOutput(changes)
    ensures Orderly(changes)
  {
    forall i | 0 <= i < |changes|
      ensures !AddsOverQueue(Run(changes[..i]), changes[i])
    {
      if AddsOutput(changes[i]) {
        InputsKeepRunner(changes[..i]);
      }
      hide Run;
    }
  }

  /** Then at most one queue is ever open, however Start fares. */
  lemma AtMostOneQueue(changes: seq<Change>)
    requires OneOutput(changes)
    ensures |Run(changes).runner.open| <= 1
  {
    OneAddIsOrderly(changes);
    NeverLeaksIffOrderly(changes);
    assert changes[..|changes|] == changes;
    assert NoLeak(Run(changes[..|changes|]).runner);
  }

  /** Two output units added one after the other leave two queues open. */
  lemma TwoAddsLeak(u: Unit, v: Unit, w: World)
    requires u.kind.OutputUnit? && v.kind.OutputUnit? && w.configOk && w.start.outcome.Started?
    ensures Run([Added(u, w), Added(v, w)]).runner.open == {0, 1}
  {
    var cs := [Added(u, w), Added(v, w)];
    assert cs[..1] == [Added(u, w)] && cs[..1][..0] == [];
    assert Run(cs[..1]) == Handle(NEW_HANDLER, Added(u, w));
    assert Run(cs) == Handle(Run(cs[..1]), Added(v, w));
    assert {} + {0} == {0} && {0} + {1} == {0, 1};
  }

  // ---------------------------------------------------------------- the Go objects

  /** controller.UnitMap. */
  class UnitMap {
    var inputs: map<string, nat>
    var output: Option<nat>

    ghost function View(): Units
      reads this
    {
      Units(inputs, output)
    }

    constructor ()
      ensures View() == Units(map[], None)
    {
      inputs, output := map[], None;
    }

    method Add(u: Unit)
      modifies this
      ensures View() == AddUnit(old(View()), u)
    {
      if u.kind.OutputUnit? {
        output := Some(u.config);
      } else {
        inputs := inputs[u.id := u.config];
      }
    }

    method Update(u: Unit)
      modifies this
      ensures View() == UpdateUnit(old(View()), u)
    {
      if u.kind.InputUnit? {
        if u.id !in inputs {
          return;
        }
        inputs := inputs[u.id := u.config];
      } else {
        output := Some(u.config);
      }
    }

    method Delete(u: Unit)
      modifies this
      ensures View() == DeleteUnit(old(View()), u)
    {
      if u.kind.OutputUnit? {
        output := None;
      } else {
        inputs := inputs - {u.id};
      }
    }

    method GetConfig(u: Unit) returns (c: Option<nat>)
      ensures c == StoredConfig(View(), u)
    {
      if u.kind.OutputUnit? {
        return output;
      }
      if u.id !in inputs {
        return None;
      }
      return Some(inputs[u.id]);
    }
  }

  /** grpcserver.InputHandler, without its sockets. */
  class InputHandler {
    var server: bool
    var locked: bool

    ghost function View(): Grpc
      reads this
    {
      Grpc(server, locked)
    }

    constructor ()
      ensures View() == Grpc(false, false)
    {
      server, locked := false, false;
    }

    /** Every way in which Start fails leaves the handle set; one of them keeps the mutex. */
    method StartEndpoint(o: GrpcOutcome) returns (ok: bool, hangs: bool)
      modifies this
      ensures View() == StartGrpc(old(View()), o)
      ensures hangs == StartHangs(old(View()), o)
      ensures ok == (!hangs && (old(server) || o.Serves?))
    {
      if server {
        return true, false;
      }
      server := true;
      if o.ShipperFails? {
        return false, false;
      }
      if locked {
        return false, true;
      }
      locked := o.RemoveFails?;
      return o.Serves?, false;
    }

    /** A mutex that was left locked keeps Stop from returning. */
    method Stop() returns (hangs: bool)
      modifies this
      ensures hangs == old(locked)
      ensures View() == if hangs then old(View()) else StopGrpc(old(View()))
    {
      if locked {
        return true;
      }
      server := false;
      return false;
    }
  }

  /** controller.clientHandler. */
  class ClientHandler {
    const units: UnitMap
    const grpc: InputHandler
    const runner: ServerRunner
    var level: nat
    var blocked: bool

    ghost function View(): Handler
      reads this, units, grpc, runner
    {
      Handler(units.View(), grpc.View(), runner.View(), level, blocked)
    }

    constructor ()
      ensures fresh(units) && fresh(grpc) && fresh(runner)
      ensures View() == NEW_HANDLER
    {
      units := new UnitMap();
      grpc := new InputHandler();
      runner := new ServerRunner();
      level, blocked := 0, false;
    }

    method StartShipperFor(u: Unit, w: World)
      modifies this, runner
      ensures View() == StartShipper(old(View()), u, w)
    {
      level := u.level;
      if !w.configOk {
        return;
      }
      var ok := runner.StartServer(w.start);
    }

    method HandleAdded(u: Unit, w: World)
      requires !blocked
      modifies this, units, grpc, runner
      ensures View() == Handle(old(View()), Added(u, w))
    {
      units.Add(u);
      if u.kind.OutputUnit? {
        StartShipperFor(u, w);
      } else if w.configOk {
        var ok;
        ok, blocked := grpc.StartEndpoint(w.grpc);
      }
    }

    method HandleUpdated(u: Unit, w: World)
      requires !blocked
      modifies this, units, grpc, runner
      ensures View() == Handle(old(View()), Modified(u, w))
    {
      var stored := units.GetConfig(u);
      if stored == Some(u.config) && u.level != level && u.kind.OutputUnit? {
        level := u.level;
        return;
      }
      units.Update(u);
      if u.kind.OutputUnit? {
        if u.expected.Healthy? {
          blocked := runner.CloseServer(w.waitReturns);
          if !blocked {
            StartShipperFor(u, w);
          }
        } else if u.expected.StoppedState? {
          blocked := runner.CloseServer(w.waitReturns);
        }
      }
    }

    method HandleRemoved(u: Unit, w: World)
      requires !blocked
      modifies this, units, grpc, runner
      ensures View() == Handle(old(View()), Removed(u, w))
    {
      units.Delete(u);
      if |units.inputs| == 0 {
        blocked := grpc.Stop();
      }
    }

    /** The dispatch loop of runController, from a fresh handler. */
    method Dispatch(changes: seq<Change>)
      requires View() == NEW_HANDLER
      modifies this, units, grpc, runner
      ensures View() == Run(changes)
    {
      hide Handle;
      assert changes[..0] == [];
      for i := 0 to |changes|
        invariant View() == Run(changes[..i])
      {
        assert changes[..i + 1][..i] == changes[..i];
        if !blocked {
          var c := changes[i];
          match c {
            case Added(u, w) => HandleAdded(u, w);
            case Modified(u, w) => HandleUpdated(u, w);
            case Removed(u, w) => HandleRemoved(u, w);
          }
        }
      }
      assert changes[..|changes|] == changes;
    }
  }
}
