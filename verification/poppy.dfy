/**
 * The robot aggregate of lib/poppy/Poppy.js: one motor handle per descriptor
 * motor, the `'all'` keyword, and the multi-motor moves (`move`, `rotate`,
 * `goto`) and register query. `Promise.all` over motors is taken motor by
 * motor, in selection order.
 */
module Poppy {
  import opened Wrappers
  import opened Js
  import opened Effects
  import opened Selections
  import Misc
  import Settings
  import Request
  import Motor

  /** A group of motors of the descriptor. */
  datatype Alias = Alias(name: string, motors: seq<string>)

  /** A robot descriptor: its name, an optional description, its aliases and its motors. */
  datatype Descriptor = Descriptor(name: string, description: Option<string>, aliases: seq<Alias>,
                                   motors: seq<Motor.MotorDescriptor>)

  /** A robot: its descriptor, its request handler, and the motor handles it holds by name. */
  datatype Robot = Robot(descriptor: Descriptor, handler: Request.Handler, motors: map<string, Motor.Handle>)

  /** The names of the motors, in descriptor order. */
  function NamesOf(ms: seq<Motor.MotorDescriptor>): (ns: seq<string>)
    ensures |ns| == |ms| && forall i :: 0 <= i < |ms| ==> ns[i] == ms[i].name
  {
    seq(|ms|, i requires 0 <= i < |ms| => ms[i].name)
  }

  /** One handle per motor, keyed by name; for a repeated name the later motor wins. */
  function Handles(ms: seq<Motor.MotorDescriptor>, h: Request.Handler): (hs: map<string, Motor.Handle>)
    ensures hs.Keys == set i | 0 <= i < |ms| :: ms[i].name
    ensures forall k :: k in hs ==> hs[k].descriptor.name == k && hs[k].handler == h && hs[k].descriptor in ms
    decreases |ms|
  {
    if |ms| == 0 then map[]
    else
      var last := ms[|ms| - 1];
      var init := ms[..|ms| - 1];
      assert forall x :: x in init ==> x in ms;
      assert (set i | 0 <= i < |ms| :: ms[i].name) == (set i | 0 <= i < |init| :: init[i].name) + {last.name};
      Handles(init, h)[last.name := Motor.NewHandle(last, h)]
  }

  /**
   * `new Poppy(descriptor, config)`: a request handler built from `config`
   * and, for every motor of the descriptor, a handle sharing it, under the
   * motor's name.
   */
  function NewRobot(d: Descriptor, config: Settings.Config): (p: Robot)
    ensures p.descriptor == d && p.handler == Request.NewHandler(config)
    ensures p.motors.Keys == set i | 0 <= i < |d.motors| :: d.motors[i].name
    ensures forall k :: k in p.motors ==>
      p.motors[k].descriptor.name == k && p.motors[k].descriptor in d.motors && p.motors[k].handler == p.handler
    ensures WellFormed(p)
  {
    var handler := Request.NewHandler(config);
    Robot(d, handler, Handles(d.motors, handler))
  }

  /** `motorNames`: the descriptor's motor names, in order, read from the descriptor on every access. */
  function MotorNames(p: Robot): seq<string> {
    NamesOf(p.descriptor.motors)
  }

  /** Every name `motorNames` lists has a handle in a robot built from the descriptor. */
  lemma MotorNamesHaveHandles(d: Descriptor, config: Settings.Config)
    ensures var p := NewRobot(d, config);
      |MotorNames(p)| == |d.motors| && forall n :: n in MotorNames(p) ==> n in p.motors
  {
    var p := NewRobot(d, config);
    forall n | n in MotorNames(p)
      ensures n in p.motors
    {
      var i :| 0 <= i < |d.motors| && MotorNames(p)[i] == n;
    }
  }

  /** Whether a selection means every motor: `'all'` itself, or a list holding `'all'`. */
  predicate SelectsAll(s: Selection) {
    s.All? || "all" in s.names
  }

  /** `toMotorNames(names)`: every motor name for a selection holding `'all'`, the list itself otherwise. */
  function ToMotorNames(p: Robot, s: Selection): (ns: seq<string>)
    ensures SelectsAll(s) ==> ns == MotorNames(p)
    ensures !SelectsAll(s) ==> ns == s.names && "all" !in ns
  {
    if SelectsAll(s) then MotorNames(p) else s.names
  }

  /** Resolving a resolved selection again changes nothing. */
  lemma ToMotorNamesIdempotent(p: Robot, s: Selection)
    ensures ToMotorNames(p, Names(ToMotorNames(p, s))) == ToMotorNames(p, s)
  {
  }

  /** `getMotor(name)`: the handle under that name, if the robot has one. */
  function GetMotor(p: Robot, name: string): (m: Option<Motor.Handle>)
    ensures m.Some? <==> name in p.motors
    ensures m.Some? ==> m.value == p.motors[name]
  {
    if name in p.motors then Some(p.motors[name]) else None
  }

  /** `_toArray(value, length)`: an array unchanged, a scalar repeated `length` times. */
  function ToArray(v: Arg, length: nat): (vs: seq<Value>)
    ensures v.List? ==> vs == v.items
    ensures v.Scalar? ==> |vs| == length && forall i :: 0 <= i < length ==> vs[i] == v.v
  {
    match v
    case List(items) => items
    case Scalar(x) => seq(length, _ => x)
  }

  /** The `{motors, positions | angles, duration, wait}` argument of `move`, `rotate` and `goto`. */
  datatype Motion = Motion(motors: Selection, targets: Arg, duration: Value, wait: Value)


  /** Every handle sits under its own motor's name, as the constructor places them. */
  predicate WellFormed(p: Robot) {
    forall k :: k in p.motors ==> p.motors[k].descriptor.name == k
  }

  /** Every motor of the list has a handle. */
  predicate AllKnown(p: Robot, names: seq<string>) {
    forall i :: 0 <= i < |names| ==> names[i] in p.motors
  }

  /** A resolved list of names stands for itself when passed back as a selection. */
  lemma ResolvedStaysResolved(p: Robot, s: Selection)
    ensures ToMotorNames(p, Names(ToMotorNames(p, s))) == ToMotorNames(p, s)
  {
    ToMotorNamesIdempotent(p, s);
  }

  // ---------------------------------------------------------------------------
  // goto
  // ---------------------------------------------------------------------------

  function JsonNames(names: seq<string>): Json {
    JList(seq(|names|, i requires 0 <= i < |names| => JScalar(Str(names[i]))))
  }

  function JsonValues(vs: seq<Value>): Json {
    JList(seq(|vs|, i requires 0 <= i < |vs| => JScalar(vs[i])))
  }

  /** The body posted to `/motors/goto.json`: the robot is never asked to wait, and a falsy duration becomes 0.001 s. */
  function GotoBody(names: seq<string>, positions: seq<Value>, duration: Value): (b: Json)
    ensures b.JObject? && b.fields.Keys == {"motors", "positions", "duration", "wait"}
    ensures b.fields["motors"] == JsonNames(names) && b.fields["positions"] == JsonValues(positions)
    ensures b.fields["wait"] == JScalar(Bool(false))
    ensures b.fields["duration"] == JScalar(if Truthy(duration) then duration else Real(0.001))
  {
    JObject(map["motors" := JsonNames(names), "positions" := JsonValues(positions),
                "duration" := JScalar(Or(duration, Real(0.001))), "wait" := JScalar(Bool(false))])
  }

  function GotoEvent(names: seq<string>, positions: seq<Value>, duration: Value): Event {
    Request(Post, "/motors/goto.json", GotoBody(names, positions, duration))
  }

  /** Whether the robot accepts the goto post. */
  predicate Posted(net: Net, names: seq<string>, positions: seq<Value>, duration: Value) {
    net(Post, "/motors/goto.json", GotoBody(names, positions, duration)).Respond?
  }

  function PostGoto(net: Net, names: seq<string>, positions: seq<Value>, duration: Value): (p: () -> Run<()>)
    ensures p().trace == [GotoEvent(names, positions, duration)]
    ensures p().outcome.Ok? <==> Posted(net, names, positions, duration)
  {
    () => Misc.Settle(Request.HttpPost(net, "/motors/goto.json", GotoBody(names, positions, duration), None))
  }

  /** The client-side wait after a goto: `duration` seconds when `wait` is truthy, nothing otherwise. */
  function Pause(duration: Value, wait: Value): (p: () -> Run<()>)
    ensures p() == Run(if Truthy(wait) then [Motor.Timer(duration)] else [], Ok(()))
  {
    () => if Truthy(wait) then Misc.WaitFor(duration, ()) else Pure(())
  }

  /** The goto of resolved names and positions: the post, then the client-side wait if the post succeeded. */
  function GotoNames(net: Net, names: seq<string>, positions: seq<Value>, duration: Value, wait: Value): (r: Run<()>)
    ensures r.trace == [GotoEvent(names, positions, duration)]
                       + (if Posted(net, names, positions, duration) && Truthy(wait) then [Motor.Timer(duration)] else [])
    ensures r.outcome.Ok? <==> Posted(net, names, positions, duration)
  {
    Misc.ChainTwo(PostGoto(net, names, positions, duration), Pause(duration, wait))
  }

  /**
   * `goto({motors, positions, duration, wait})`: one post to `/motors/goto.json`
   * naming the selected motors with one position each, never asking the robot
   * to wait; when `wait` is truthy the client then waits `duration` seconds
   * itself. A failed post rejects and skips the wait.
   */
  function Goto(net: Net, p: Robot, a: Motion): (r: Run<()>)
    ensures var names := ToMotorNames(p, a.motors);
      var positions := ToArray(a.targets, |names|);
      && (a.targets.Scalar? ==> |positions| == |names|)
      && r.trace == [GotoEvent(names, positions, a.duration)]
                    + (if Posted(net, names, positions, a.duration) && Truthy(a.wait) then [Motor.Timer(a.duration)] else [])
      && (r.outcome.Ok? <==> Posted(net, names, positions, a.duration))
  {
    var names := ToMotorNames(p, a.motors);
    GotoNames(net, names, ToArray(a.targets, |names|), a.duration, a.wait)
  }

  /** `goto` of names already resolved and positions already spread is the goto of exactly those. */
  lemma GotoResolved(net: Net, p: Robot, s: Selection, positions: seq<Value>, duration: Value, wait: Value)
    ensures var names := ToMotorNames(p, s);
      Goto(net, p, Motion(Names(names), List(positions), duration, wait)) == GotoNames(net, names, positions, duration, wait)
  {
    ResolvedStaysResolved(p, s);
  }

  // ---------------------------------------------------------------------------
  // move
  // ---------------------------------------------------------------------------

  /** `getMotor(name).computeDuration({ end })`, as a provider; an unknown motor raises a TypeError. */
  function DurationTo(net: Net, p: Robot, name: string, end: Value): () -> Run<Num> {
    () => match GetMotor(p, name)
          case None => Reject(TypeError)
          case Some(m) => Motor.ComputeDuration(net, m, Undefined, end, Undefined)
  }

  function DurationProviders(net: Net, p: Robot, names: seq<string>, ends: seq<Value>): (ps: seq<() -> Run<Num>>)
    ensures |ps| == |names|
    ensures forall i :: 0 <= i < |names| ==> ps[i] == DurationTo(net, p, names[i], At(ends, i))
  {
    seq(|names|, i requires 0 <= i < |names| => DurationTo(net, p, names[i], At(ends, i)))
  }

  /** The duration of each motor's move to its end, from its present position at its present speed. */
  function DurationsRead(net: Net, names: seq<string>, ends: seq<Value>): (ds: seq<Num>)
    ensures |ds| == |names|
    ensures forall i :: 0 <= i < |names| ==> ds[i] == Motor.Duration(Motor.Reading(net, names[i], "present_position"), At(ends, i),
                                                                     Motor.Reading(net, names[i], "moving_speed"))
  {
    seq(|names|, i requires 0 <= i < |names| =>
      Motor.Duration(Motor.Reading(net, names[i], "present_position"), At(ends, i), Motor.Reading(net, names[i], "moving_speed")))
  }

  /** The two reads `computeDuration({ end })` issues on each motor, motor by motor. */
  function DurationReads(names: seq<string>): (ts: seq<seq<Event>>)
    ensures |ts| == |names|
    ensures forall i :: 0 <= i < |names| ==>
      ts[i] == [Motor.ReadEvent(names[i], "present_position"), Motor.ReadEvent(names[i], "moving_speed")]
  {
    seq(|names|, i requires 0 <= i < |names| =>
      [Motor.ReadEvent(names[i], "present_position"), Motor.ReadEvent(names[i], "moving_speed")])
  }

  /** With every motor known, the durations are computed one motor after the other, two reads each. */
  lemma {:induction false} DurationsAllRead(net: Net, p: Robot, names: seq<string>, ends: seq<Value>)
    requires WellFormed(p) && AllKnown(p, names)
    ensures Misc.Chain(DurationProviders(net, p, names, ends), Misc.Append, [])
            == Run(Misc.Flatten(DurationReads(names)), Ok(DurationsRead(net, names, ends)))
  {
    var ps := DurationProviders(net, p, names, ends);
    var ds := DurationsRead(net, names, ends);
    var ts := DurationReads(names);
    forall i | 0 <= i < |ps|
      ensures ps[i]() == Run(ts[i], Ok(ds[i]))
    {
      DurationToReads(net, p, names[i], At(ends, i));
    }
    Misc.CollectRuns(ps, ts, ds);
  }

  /** A known motor's duration costs a position read and a speed read. */
  lemma DurationToReads(net: Net, p: Robot, name: string, end: Value)
    requires WellFormed(p) && name in p.motors
    ensures DurationTo(net, p, name, end)() ==
      Run([Motor.ReadEvent(name, "present_position"), Motor.ReadEvent(name, "moving_speed")],
          Ok(Motor.Duration(Motor.Reading(net, name, "present_position"), end, Motor.Reading(net, name, "moving_speed"))))
  {
    var m := p.motors[name];
    assert DurationTo(net, p, name, end)() == Motor.ComputeDuration(net, m, Undefined, end, Undefined);
    Misc.Concat2(Motor.ReadEvent(name, "present_position"), Motor.ReadEvent(name, "moving_speed"));
  }

  /** `setPosition(position, false)` on the named motor, as a provider; an unknown motor raises a TypeError. */
  function PlaceOne(net: Net, p: Robot, name: string, position: Value): () -> Run<()> {
    () => match GetMotor(p, name)
          case None => Reject(TypeError)
          case Some(m) => Motor.SetPosition(net, m, position, Bool(false))
  }

  function PlaceProviders(net: Net, p: Robot, names: seq<string>, positions: seq<Value>): (ps: seq<() -> Run<()>>)
    ensures |ps| == |names|
    ensures forall i :: 0 <= i < |names| ==> ps[i] == PlaceOne(net, p, names[i], At(positions, i))
  {
    seq(|names|, i requires 0 <= i < |names| => PlaceOne(net, p, names[i], At(positions, i)))
  }

  /** The `goal_position` writes of a fire-and-forget move, one per motor, as singleton traces. */
  function Placements(names: seq<string>, positions: seq<Value>): (ts: seq<seq<Event>>)
    ensures |ts| == |names|
    ensures forall i :: 0 <= i < |names| ==> ts[i] == [Motor.WriteEvent(names[i], "goal_position", At(positions, i))]
  {
    seq(|names|, i requires 0 <= i < |names| => [Motor.WriteEvent(names[i], "goal_position", At(positions, i))])
  }

  /** Whether the robot accepts the first `n` of the `goal_position` writes. */
  predicate AcceptsPlacements(net: Net, names: seq<string>, positions: seq<Value>, n: nat) {
    forall i :: 0 <= i < n && i < |names| ==>
      net(Post, Request.RegisterUrl(names[i], "goal_position"), Request.RegisterBody(At(positions, i))).Respond?
  }

  /** The goto `move` issues once the durations `ds` are known: over the slowest of them. */
  function GotoSlowest(net: Net, p: Robot, names: seq<string>, positions: seq<Value>, wait: Value): seq<Num> -> Run<()> {
    (ds: seq<Num>) => Goto(net, p, Motion(Names(names), List(positions), Number(Max(ds)), wait))
  }

  /**
   * `move({motors, positions, duration, wait})`:
   *  - a duration given: one `goto` with it;
   *  - no duration but `wait`: the duration each motor needs from where it
   *    is, then one `goto` with the largest;
   *  - neither: `setPosition(position, false)` on each motor in turn.
   */
  function Move(net: Net, p: Robot, a: Motion): Run<()> {
    var names := ToMotorNames(p, a.motors);
    var positions := ToArray(a.targets, |names|);
    var wait := DefaultArg(a.wait, Bool(false));
    if !a.duration.Undefined? then
      Goto(net, p, Motion(Names(names), List(positions), a.duration, wait))
    else if Truthy(wait) then MoveSlowest(net, p, names, positions, wait)
    else MovePlacing(net, p, names, positions)
  }

  /** The durations of every motor, then one goto over the largest. */
  function MoveSlowest(net: Net, p: Robot, names: seq<string>, positions: seq<Value>, wait: Value): Run<()> {
    Then(Misc.Chain(DurationProviders(net, p, names, positions), Misc.Append, []),
         GotoSlowest(net, p, names, positions, wait))
  }

  /** `setPosition(position, false)` on every motor in turn. */
  function MovePlacing(net: Net, p: Robot, names: seq<string>, positions: seq<Value>): Run<()> {
    Misc.Chain(PlaceProviders(net, p, names, positions), Misc.Ignore, ())
  }

  /** With a duration, `move` is a single `goto` of the selected motors over that duration. */
  lemma MoveWithDuration(net: Net, p: Robot, a: Motion)
    requires !a.duration.Undefined?
    ensures var names := ToMotorNames(p, a.motors);
      var positions := ToArray(a.targets, |names|);
      var posted := Posted(net, names, positions, a.duration);
      && Move(net, p, a).trace == [GotoEvent(names, positions, a.duration)]
                                  + (if posted && Truthy(a.wait) then [Motor.Timer(a.duration)] else [])
      && (Move(net, p, a).outcome.Ok? <==> posted)
  {
    var names := ToMotorNames(p, a.motors);
    var positions := ToArray(a.targets, |names|);
    var wait := DefaultArg(a.wait, Bool(false));
    MoveIsGoto(net, p, a);
    assert Truthy(wait) == Truthy(a.wait);
    var r := GotoNames(net, names, positions, a.duration, wait);
    assert r.trace == [GotoEvent(names, positions, a.duration)]
                       + (if Posted(net, names, positions, a.duration) && Truthy(wait) then [Motor.Timer(a.duration)] else []);
  }

  /** With a duration, `move` hands the resolved names and spread positions to `goto`. */
  lemma MoveIsGoto(net: Net, p: Robot, a: Motion)
    requires !a.duration.Undefined?
    ensures var names := ToMotorNames(p, a.motors);
      Move(net, p, a) == GotoNames(net, names, ToArray(a.targets, |names|), a.duration, DefaultArg(a.wait, Bool(false)))
  {
    var names := ToMotorNames(p, a.motors);
    var positions := ToArray(a.targets, |names|);
    var wait := DefaultArg(a.wait, Bool(false));
    assert Move(net, p, a) == Goto(net, p, Motion(Names(names), List(positions), a.duration, wait));
    GotoResolved(net, p, a.motors, positions, a.duration, wait);
  }

  /**
   * Without duration but with `wait`, and every motor known, `move` reads each
   * motor's position and speed in turn, then issues one `goto` over the
   * largest of the motors' durations, and waits it out.
   */
  lemma MoveComputesDuration(net: Net, p: Robot, a: Motion)
    requires WellFormed(p)
    requires a.duration.Undefined? && Truthy(a.wait)
    requires AllKnown(p, ToMotorNames(p, a.motors))
    ensures var names := ToMotorNames(p, a.motors);
      var positions := ToArray(a.targets, |names|);
      var slowest := Number(Max(DurationsRead(net, names, positions)));
      var posted := Posted(net, names, positions, slowest);
      && Move(net, p, a).trace == Misc.Flatten(DurationReads(names)) + [GotoEvent(names, positions, slowest)]
                                  + (if posted then [Motor.Timer(slowest)] else [])
      && (Move(net, p, a).outcome.Ok? <==> posted)
  {
    var names := ToMotorNames(p, a.motors);
    var positions := ToArray(a.targets, |names|);
    var slowest := Number(Max(DurationsRead(net, names, positions)));
    var before := Misc.Flatten(DurationReads(names));
    var g := GotoNames(net, names, positions, slowest, a.wait);
    var r := Move(net, p, a);
    MoveWaits(net, p, a);
    SlowestRun(net, p, a.motors, positions, a.wait);
    assert r == Run(before + g.trace, g.outcome);
    Misc.Assoc(before, [GotoEvent(names, positions, slowest)],
               if Posted(net, names, positions, slowest) then [Motor.Timer(slowest)] else []);
  }

  /** Without duration but with `wait`, `move` goes over the slowest motor's duration. */
  lemma MoveWaits(net: Net, p: Robot, a: Motion)
    requires a.duration.Undefined? && Truthy(a.wait)
    ensures var names := ToMotorNames(p, a.motors);
      Move(net, p, a) == MoveSlowest(net, p, names, ToArray(a.targets, |names|), a.wait)
  {
    assert DefaultArg(a.wait, Bool(false)) == a.wait;
  }

  /** With every motor known, the durations are read, then the resolved motors go over the largest. */
  lemma SlowestRun(net: Net, p: Robot, s: Selection, positions: seq<Value>, wait: Value)
    requires WellFormed(p) && AllKnown(p, ToMotorNames(p, s))
    ensures var names := ToMotorNames(p, s);
      var g := GotoNames(net, names, positions, Number(Max(DurationsRead(net, names, positions))), wait);
      MoveSlowest(net, p, names, positions, wait) == Run(Misc.Flatten(DurationReads(names)) + g.trace, g.outcome)
  {
    var names := ToMotorNames(p, s);
    var ds := DurationsRead(net, names, positions);
    DurationsAllRead(net, p, names, positions);
    GotoResolved(net, p, s, positions, Number(Max(ds)), wait);
    assert GotoSlowest(net, p, names, positions, wait)(ds) == GotoNames(net, names, positions, Number(Max(ds)), wait);
  }

  /** With every motor known and every write accepted, each motor's `goal_position` is written in turn. */
  lemma {:induction false} PlacementsAllWritten(net: Net, p: Robot, names: seq<string>, positions: seq<Value>)
    requires WellFormed(p) && AllKnown(p, names)
    requires AcceptsPlacements(net, names, positions, |names|)
    ensures MovePlacing(net, p, names, positions) == Run(Misc.Flatten(Placements(names, positions)), Ok(()))
  {
    var ps := PlaceProviders(net, p, names, positions);
    var ws := Placements(names, positions);
    forall i | 0 <= i < |ps|
      ensures ps[i]().trace == ws[i] && ps[i]().outcome.Ok?
    {
      var m := p.motors[names[i]];
      assert ps[i]() == Motor.SetPosition(net, m, At(positions, i), Bool(false));
    }
    Misc.ChainAllFulfil(ps, Misc.Ignore, ());
    Misc.TracesFlatten(ps);
    assert Misc.TraceList(ps) == ws;
    var c := Misc.Chain(ps, Misc.Ignore, ());
    assert c.trace == Misc.Flatten(ws);
    assert c.outcome.Ok?;
    var u: () := c.outcome.value;
    assert u == ();
    assert c.outcome == Ok(());
  }

  /**
   * Without duration or wait, and every motor known, `move` writes each motor's
   * `goal_position` in turn, one write per motor and nothing else.
   */
  lemma MoveDelegatesToMotors(net: Net, p: Robot, a: Motion)
    requires WellFormed(p)
    requires a.duration.Undefined? && !Truthy(a.wait)
    requires AllKnown(p, ToMotorNames(p, a.motors))
    requires var names := ToMotorNames(p, a.motors);
      AcceptsPlacements(net, names, ToArray(a.targets, |names|), |names|)
    ensures var names := ToMotorNames(p, a.motors);
      var positions := ToArray(a.targets, |names|);
      var writes := Move(net, p, a).trace;
      && Move(net, p, a).outcome == Ok(())
      && |writes| == |names|
      && forall i :: 0 <= i < |names| ==> writes[i] == Motor.WriteEvent(names[i], "goal_position", At(positions, i))
  {
    var names := ToMotorNames(p, a.motors);
    var positions := ToArray(a.targets, |names|);
    assert Move(net, p, a) == MovePlacing(net, p, names, positions);
    PlacementsAllWritten(net, p, names, positions);
    Misc.FlattenSingletons(Placements(names, positions));
  }

  /**
   * A move without duration rejects with a TypeError at the first motor the
   * robot does not know, provided the moves before it went through.
   */
  lemma MoveUnknownMotor(net: Net, p: Robot, a: Motion, k: nat)
    requires WellFormed(p)
    requires a.duration.Undefined?
    requires var names := ToMotorNames(p, a.motors);
      && k < |names| && names[k] !in p.motors && AllKnown(p, names[..k])
      && (Truthy(a.wait) || AcceptsPlacements(net, names, ToArray(a.targets, |names|), k))
    ensures Move(net, p, a).outcome == Err(TypeError)
  {
    var names := ToMotorNames(p, a.motors);
    var positions := ToArray(a.targets, |names|);
    if Truthy(DefaultArg(a.wait, Bool(false))) {
      var ps := DurationProviders(net, p, names, positions);
      assert Misc.AllFulfil(ps[..k]) by {
        forall i | 0 <= i < k
          ensures ps[..k][i]().outcome.Ok?
        {
          assert names[..k][i] == names[i];
          assert ps[..k][i] == ps[i];
        }
      }
      Misc.ChainFirstRejection(ps, Misc.Append, [], k);
    } else {
      var ps := PlaceProviders(net, p, names, positions);
      assert Misc.AllFulfil(ps[..k]) by {
        forall i | 0 <= i < k
          ensures ps[..k][i]().outcome.Ok?
        {
          assert names[..k][i] == names[i];
          assert ps[..k][i] == ps[i];
          var m := p.motors[names[i]];
          assert ps[i]() == Motor.SetPosition(net, m, At(positions, i), Bool(false));
        }
      }
      Misc.ChainFirstRejection(ps, Misc.Ignore, (), k);
    }
  }

  // ---------------------------------------------------------------------------
  // query
  // ---------------------------------------------------------------------------

  /** `{ [name]: await getMotor(name).get(...registers) }`, as a provider; an unknown motor raises a TypeError. */
  function QueryOne(net: Net, p: Robot, name: string, registers: seq<string>): () -> Run<map<string, Json>> {
    () => match GetMotor(p, name)
          case None => Reject(TypeError)
          case Some(m) => MapRun(Motor.Get(net, m, registers), (d: map<string, Json>) => map[name := JObject(d)])
  }

  function QueryProviders(net: Net, p: Robot, names: seq<string>, registers: seq<string>): (ps: seq<() -> Run<map<string, Json>>>)
    ensures |ps| == |names|
    ensures forall i :: 0 <= i < |names| ==> ps[i] == QueryOne(net, p, names[i], registers)
  {
    seq(|names|, i requires 0 <= i < |names| => QueryOne(net, p, names[i], registers))
  }

  /** `(p, n) => ({ ...p, ...n })` on objects: the later fields win. */
  function MergeObjects(a: map<string, Json>, b: map<string, Json>): (m: map<string, Json>)
    ensures m.Keys == a.Keys + b.Keys
    ensures forall k :: k in b ==> m[k] == b[k]
    ensures forall k :: k in a && k !in b ==> m[k] == a[k]
  {
    a + b
  }

  /**
   * `query({motors = 'all', registers})`: each selected motor's registers, read
   * motor after motor and merged into one object keyed by motor name.
   */
  function Query(net: Net, p: Robot, motors: Selection, registers: seq<string>): Run<map<string, Json>> {
    Misc.Chain(QueryProviders(net, p, ToMotorNames(p, motors), registers), MergeObjects, map[])
  }

  /** What a motor answers to a query of `registers`: its reads, merged in order. */
  function Answer(net: Net, name: string, registers: seq<string>): Json {
    JObject(Request.MergeReads(net, name, registers, map[]))
  }

  /** The reads a query issues, motor by motor. */
  function QueryReads(names: seq<string>, registers: seq<string>): (ts: seq<seq<Event>>)
    ensures |ts| == |names|
    ensures forall i :: 0 <= i < |names| ==> ts[i] == Request.ReadTrace(names[i], registers)
  {
    seq(|names|, i requires 0 <= i < |names| => Request.ReadTrace(names[i], registers))
  }

  /** A motor's register reads yield its merged reads. */
  lemma RegistersRead(net: Net, name: string, registers: seq<string>)
    ensures Request.GetRegister(net, name, registers) == Run(Request.ReadTrace(name, registers), Ok(Answer(net, name, registers).fields))
  {
    Request.ReadAllFulfil(net, name, registers);
    Misc.ChainAllFulfil(Request.ReadProviders(net, name, registers), Request.Merge, map[]);
    Request.FoldIsMergeReads(net, name, registers, map[]);
  }

  /** Merging one single-key object per motor yields every motor's answer under its name. */
  lemma MergeAnswers(net: Net, names: seq<string>, registers: seq<string>, acc: map<string, Json>,
                     rs: seq<map<string, Json>>)
    requires |rs| == |names|
    requires forall i :: 0 <= i < |names| ==> rs[i] == map[names[i] := Answer(net, names[i], registers)]
    ensures var m := Misc.FoldLeft(MergeObjects, acc, rs);
      && m.Keys == acc.Keys + (set n | n in names)
      && (forall n :: n in names ==> m[n] == Answer(net, n, registers))
      && (forall k :: k in acc && k !in names ==> m[k] == acc[k])
  {
    MergeSingletons(names, (n: string) => Answer(net, n, registers), acc, rs);
  }

  /** Merging one single-key object per name, each holding `answer` of its name. */
  lemma MergeSingletons(names: seq<string>, answer: string -> Json, acc: map<string, Json>, rs: seq<map<string, Json>>)
    requires |rs| == |names|
    requires forall i :: 0 <= i < |names| ==> rs[i] == map[names[i] := answer(names[i])]
    ensures var m := Misc.FoldLeft(MergeObjects, acc, rs);
      && m.Keys == acc.Keys + (set n | n in names)
      && (forall n :: n in names ==> m[n] == answer(n))
      && (forall k :: k in acc && k !in names ==> m[k] == acc[k])
  {
    SingletonKeys(names, answer, acc, rs);
    SingletonValues(names, answer, acc, rs);
    SingletonKeeps(names, answer, acc, rs);
  }

  lemma {:induction false} SingletonKeys(names: seq<string>, answer: string -> Json, acc: map<string, Json>,
                                         rs: seq<map<string, Json>>)
    requires |rs| == |names|
    requires forall i :: 0 <= i < |names| ==> rs[i] == map[names[i] := answer(names[i])]
    ensures forall k :: k in Misc.FoldLeft(MergeObjects, acc, rs) <==> k in acc || k in names
    decreases |names|
  {
    if |names| > 0 {
      assert forall i :: 0 <= i < |names[1..]| ==> rs[1..][i] == map[names[1..][i] := answer(names[1..][i])];
      SingletonKeys(names[1..], answer, MergeObjects(acc, rs[0]), rs[1..]);
    }
  }

  lemma {:induction false} SingletonKeeps(names: seq<string>, answer: string -> Json, acc: map<string, Json>,
                                          rs: seq<map<string, Json>>)
    requires |rs| == |names|
    requires forall i :: 0 <= i < |names| ==> rs[i] == map[names[i] := answer(names[i])]
    ensures forall k :: k in acc && k !in names ==>
      k in Misc.FoldLeft(MergeObjects, acc, rs) && Misc.FoldLeft(MergeObjects, acc, rs)[k] == acc[k]
    decreases |names|
  {
    if |names| > 0 {
      assert forall i :: 0 <= i < |names[1..]| ==> rs[1..][i] == map[names[1..][i] := answer(names[1..][i])];
      SingletonKeeps(names[1..], answer, MergeObjects(acc, rs[0]), rs[1..]);
    }
  }

  lemma {:induction false} SingletonValues(names: seq<string>, answer: string -> Json, acc: map<string, Json>,
                                           rs: seq<map<string, Json>>)
    requires |rs| == |names|
    requires forall i :: 0 <= i < |names| ==> rs[i] == map[names[i] := answer(names[i])]
    ensures forall n :: n in names ==>
      n in Misc.FoldLeft(MergeObjects, acc, rs) && Misc.FoldLeft(MergeObjects, acc, rs)[n] == answer(n)
    decreases |names|
  {
    if |names| > 0 {
      var acc' := MergeObjects(acc, rs[0]);
      assert forall i :: 0 <= i < |names[1..]| ==> rs[1..][i] == map[names[1..][i] := answer(names[1..][i])];
      SingletonValues(names[1..], answer, acc', rs[1..]);
      if names[0] !in names[1..] {
        SingletonKeeps(names[1..], answer, acc', rs[1..]);
      }
    }
  }

  /**
   * With every selected motor known, `query` reads each motor's registers in
   * turn and yields an object whose keys are exactly the selected names, each
   * holding that motor's merged reads.
   */
  lemma {:induction false} QueryAllKnown(net: Net, p: Robot, motors: Selection, registers: seq<string>)
    requires WellFormed(p) && AllKnown(p, ToMotorNames(p, motors))
    ensures var names := ToMotorNames(p, motors);
      var r := Query(net, p, motors, registers);
      && r.trace == Misc.Flatten(QueryReads(names, registers))
      && r.outcome.Ok?
      && r.outcome.value.Keys == (set n | n in names)
      && forall n :: n in names ==> r.outcome.value[n] == Answer(net, n, registers)
  {
    var names := ToMotorNames(p, motors);
    var ps := QueryProviders(net, p, names, registers);
    var ts := QueryReads(names, registers);
    forall i | 0 <= i < |ps|
      ensures ps[i]() == Run(ts[i], Ok(map[names[i] := Answer(net, names[i], registers)]))
    {
      var m := p.motors[names[i]];
      RegistersRead(net, names[i], registers);
      assert Motor.Get(net, m, registers) == Request.GetRegister(net, names[i], registers);
    }
    assert Misc.AllFulfil(ps);
    Misc.ChainAllFulfil(ps, MergeObjects, map[]);
    Misc.ResultsAt(ps);
    MergeAnswers(net, names, registers, map[], Misc.Results(ps));
    Misc.TracesFlatten(ps);
    assert Misc.TraceList(ps) == ts;
  }

  /** A query of a motor that answers with an object holds, under each register, the value read. */
  lemma QueryAnswersRegisters(net: Net, name: string, registers: seq<string>)
    requires Request.AnswersRegisters(net, name)
    ensures Answer(net, name, registers).fields.Keys == (set r | r in registers)
    ensures forall r :: r in registers ==> Answer(net, name, registers).fields[r] == Request.ValueRead(net, name, r)
  {
    Request.MergeReadsValues(net, name, registers, map[]);
  }

  // ---------------------------------------------------------------------------
  // rotate
  // ---------------------------------------------------------------------------

  /** `data[motor][register]`: what a query reported for one register of one motor. */
  function Reported(data: map<string, Json>, name: string, register: string): Value {
    Motor.AsValue(Request.FieldOf(if name in data then data[name] else Request.NoData, register))
  }

  /** The start of each motor, as reported. */
  function Starts(data: map<string, Json>, names: seq<string>): (ss: seq<Value>)
    ensures |ss| == |names|
    ensures forall i :: 0 <= i < |names| ==> ss[i] == Reported(data, names[i], "present_position")
  {
    seq(|names|, i requires 0 <= i < |names| => Reported(data, names[i], "present_position"))
  }

  /** `data[motor][register] + angles_[i]`, motor by motor. */
  function Targets(starts: seq<Value>, angles: seq<Value>): (ts: seq<Value>)
    ensures |ts| == |starts|
    ensures forall i :: 0 <= i < |starts| ==> ts[i] == Plus(starts[i], At(angles, i))
  {
    seq(|starts|, i requires 0 <= i < |starts| => Plus(starts[i], At(angles, i)))
  }

  /** `getMotor(name).computeDuration({ start, end })`, as a provider; an unknown motor raises a TypeError. */
  function DurationFrom(net: Net, p: Robot, name: string, start: Value, end: Value): () -> Run<Num> {
    () => match GetMotor(p, name)
          case None => Reject(TypeError)
          case Some(m) => Motor.ComputeDuration(net, m, start, end, Undefined)
  }

  function DurationFromProviders(net: Net, p: Robot, names: seq<string>, starts: seq<Value>, ends: seq<Value>)
    : (ps: seq<() -> Run<Num>>)
    ensures |ps| == |names|
    ensures forall i :: 0 <= i < |names| ==> ps[i] == DurationFrom(net, p, names[i], At(starts, i), At(ends, i))
  {
    seq(|names|, i requires 0 <= i < |names| => DurationFrom(net, p, names[i], At(starts, i), At(ends, i)))
  }

  /** The `move` `rotate` ends with once the durations `ds` are known: over the slowest of them. */
  function MoveSlowestOf(net: Net, p: Robot, names: seq<string>, positions: seq<Value>, wait: Value): seq<Num> -> Run<()> {
    (ds: seq<Num>) => Move(net, p, Motion(Names(names), List(positions), Number(Max(ds)), wait))
  }

  /** What `rotate` does once the present positions are known. */
  function RotateFrom(net: Net, p: Robot, names: seq<string>, angles: seq<Value>, duration: Value, wait: Value)
    : map<string, Json> -> Run<()>
  {
    (data: map<string, Json>) =>
      var starts := Starts(data, names);
      var positions := Targets(starts, angles);
      if duration.Undefined? && Truthy(wait) then
        Then(Misc.Chain(DurationFromProviders(net, p, names, starts, positions), Misc.Append, []),
             MoveSlowestOf(net, p, names, positions, wait))
      else
        Move(net, p, Motion(Names(names), List(positions), duration, wait))
  }

  /**
   * `rotate({motors, angles, duration, wait})`: query every motor's
   * `present_position`, aim each at its present position plus its angle, and,
   * waiting without a duration, take the slowest motor's duration from those
   * starts; then `move` there.
   */
  function Rotate(net: Net, p: Robot, a: Motion): Run<()> {
    var names := ToMotorNames(p, a.motors);
    var angles := ToArray(a.targets, |names|);
    Then(Query(net, p, Names(names), ["present_position"]),
         RotateFrom(net, p, names, angles, a.duration, DefaultArg(a.wait, Bool(false))))
  }

  /** The present position of each motor, as the robot reports it, plus its angle. */
  function PresentPlus(net: Net, names: seq<string>, angles: seq<Value>): (ts: seq<Value>)
    ensures |ts| == |names|
    ensures forall i :: 0 <= i < |names| ==>
      ts[i] == Plus(Motor.Reading(net, names[i], "present_position"), At(angles, i))
  {
    seq(|names|, i requires 0 <= i < |names| => Plus(Motor.Reading(net, names[i], "present_position"), At(angles, i)))
  }

  /** The present position of each motor, as the robot reports it. */
  function Presents(net: Net, names: seq<string>): (ps: seq<Value>)
    ensures |ps| == |names|
    ensures forall i :: 0 <= i < |names| ==> ps[i] == Motor.Reading(net, names[i], "present_position")
  {
    seq(|names|, i requires 0 <= i < |names| => Motor.Reading(net, names[i], "present_position"))
  }

  /** A single-register answer holds the value read for that register. */
  lemma AnswerOfOne(net: Net, name: string, register: string)
    ensures Request.FieldOf(Answer(net, name, [register]), register) == Request.ValueRead(net, name, register)
  {
    RegistersRead(net, name, [register]);
    Motor.SingleRead(net, name, register);
  }

  /** The query `rotate` makes, and the targets it derives from it. */
  lemma {:induction false} RotateQuery(net: Net, p: Robot, names: seq<string>, angles: seq<Value>)
    requires WellFormed(p) && AllKnown(p, names) && ToMotorNames(p, Names(names)) == names
    ensures var q := Query(net, p, Names(names), ["present_position"]);
      && q.outcome.Ok?
      && q.trace == Misc.Flatten(QueryReads(names, ["present_position"]))
      && Starts(q.outcome.value, names) == Presents(net, names)
      && Targets(Starts(q.outcome.value, names), angles) == PresentPlus(net, names, angles)
  {
    QueryStarts(net, p, names);
    TargetsOfPresents(net, names, angles);
  }

  lemma QueryStarts(net: Net, p: Robot, names: seq<string>)
    requires WellFormed(p) && AllKnown(p, names) && ToMotorNames(p, Names(names)) == names
    ensures var q := Query(net, p, Names(names), ["present_position"]);
      && q.outcome.Ok?
      && q.trace == Misc.Flatten(QueryReads(names, ["present_position"]))
      && Starts(q.outcome.value, names) == Presents(net, names)
  {
    QueryAllKnown(net, p, Names(names), ["present_position"]);
    var data := Query(net, p, Names(names), ["present_position"]).outcome.value;
    forall i | 0 <= i < |names|
      ensures Reported(data, names[i], "present_position") == Motor.Reading(net, names[i], "present_position")
    {
      AnswerOfOne(net, names[i], "present_position");
    }
  }

  lemma TargetsOfPresents(net: Net, names: seq<string>, angles: seq<Value>)
    ensures Targets(Presents(net, names), angles) == PresentPlus(net, names, angles)
  {
  }

  /**
   * Given a duration, or not waiting, and with every motor known, `rotate`
   * queries each motor's present position, then moves each motor to that
   * position plus its angle.
   */
  lemma RotateTargetsPresentPlusAngle(net: Net, p: Robot, a: Motion)
    requires WellFormed(p) && AllKnown(p, ToMotorNames(p, a.motors))
    requires !(a.duration.Undefined? && Truthy(a.wait))
    ensures var names := ToMotorNames(p, a.motors);
      var move := Move(net, p, Motion(Names(names), List(PresentPlus(net, names, ToArray(a.targets, |names|))),
                                      a.duration, DefaultArg(a.wait, Bool(false))));
      Rotate(net, p, a) == Run(Misc.Flatten(QueryReads(names, ["present_position"])) + move.trace, move.outcome)
  {
    var names := ToMotorNames(p, a.motors);
    var angles := ToArray(a.targets, |names|);
    var wait := DefaultArg(a.wait, Bool(false));
    ResolvedStaysResolved(p, a.motors);
    RotateQuery(net, p, names, angles);
    var q := Query(net, p, Names(names), ["present_position"]);
    var move := Move(net, p, Motion(Names(names), List(PresentPlus(net, names, angles)), a.duration, wait));
    assert RotateFrom(net, p, names, angles, a.duration, wait)(q.outcome.value) == move;
  }

  /** The speed read `computeDuration({ start, end })` issues on each motor. */
  function SpeedReads(names: seq<string>): (ts: seq<seq<Event>>)
    ensures |ts| == |names|
    ensures forall i :: 0 <= i < |names| ==> ts[i] == [Motor.ReadEvent(names[i], "moving_speed")]
  {
    seq(|names|, i requires 0 <= i < |names| => [Motor.ReadEvent(names[i], "moving_speed")])
  }

  /** The duration of each motor's move from its start to its end at its present speed. */
  function DurationsFrom(net: Net, names: seq<string>, starts: seq<Value>, ends: seq<Value>): (ds: seq<Num>)
    ensures |ds| == |names|
    ensures forall i :: 0 <= i < |names| ==>
      ds[i] == Motor.Duration(At(starts, i), At(ends, i), Motor.Reading(net, names[i], "moving_speed"))
  {
    seq(|names|, i requires 0 <= i < |names| =>
      Motor.Duration(At(starts, i), At(ends, i), Motor.Reading(net, names[i], "moving_speed")))
  }

  /** With every motor known and every start given, the durations cost one speed read per motor. */
  lemma {:induction false} DurationsFromStarts(net: Net, p: Robot, names: seq<string>, starts: seq<Value>, ends: seq<Value>)
    requires WellFormed(p) && AllKnown(p, names)
    requires forall i :: 0 <= i < |names| ==> !IsNullish(At(starts, i))
    ensures Misc.Chain(DurationFromProviders(net, p, names, starts, ends), Misc.Append, [])
            == Run(Misc.Flatten(SpeedReads(names)), Ok(DurationsFrom(net, names, starts, ends)))
  {
    var ps := DurationFromProviders(net, p, names, starts, ends);
    var ds := DurationsFrom(net, names, starts, ends);
    var ts := SpeedReads(names);
    forall i | 0 <= i < |ps|
      ensures ps[i]() == Run(ts[i], Ok(ds[i]))
    {
      DurationFromRead(net, p, names[i], At(starts, i), At(ends, i));
    }
    Misc.CollectRuns(ps, ts, ds);
  }

  /** A known motor's duration from a given start costs a speed read. */
  lemma DurationFromRead(net: Net, p: Robot, name: string, start: Value, end: Value)
    requires WellFormed(p) && name in p.motors && !IsNullish(start)
    ensures DurationFrom(net, p, name, start, end)() ==
      Run([Motor.ReadEvent(name, "moving_speed")], Ok(Motor.Duration(start, end, Motor.Reading(net, name, "moving_speed"))))
  {
    var m := p.motors[name];
    assert DurationFrom(net, p, name, start, end)() == Motor.ComputeDuration(net, m, start, end, Undefined);
  }

  /**
   * Waiting without a duration, with every motor known and reporting its
   * position, `rotate` queries the positions, reads each motor's speed, and
   * moves each motor to its position plus its angle over the slowest motor's
   * duration from there.
   */
  lemma RotateComputesDuration(net: Net, p: Robot, a: Motion)
    requires WellFormed(p) && AllKnown(p, ToMotorNames(p, a.motors))
    requires a.duration.Undefined? && Truthy(a.wait)
    requires forall n :: n in ToMotorNames(p, a.motors) ==> !IsNullish(Motor.Reading(net, n, "present_position"))
    ensures var names := ToMotorNames(p, a.motors);
      var targets := PresentPlus(net, names, ToArray(a.targets, |names|));
      var slowest := Max(DurationsFrom(net, names, Presents(net, names), targets));
      var move := Move(net, p, Motion(Names(names), List(targets), Number(slowest), a.wait));
      Rotate(net, p, a) == Run(Misc.Flatten(QueryReads(names, ["present_position"])) + Misc.Flatten(SpeedReads(names))
                               + move.trace, move.outcome)
  {
    var names := ToMotorNames(p, a.motors);
    var angles := ToArray(a.targets, |names|);
    var wait := DefaultArg(a.wait, Bool(false));
    assert wait == a.wait;
    ResolvedStaysResolved(p, a.motors);
    RotateQuery(net, p, names, angles);
    var q := Query(net, p, Names(names), ["present_position"]);
    var starts := Presents(net, names);
    var targets := PresentPlus(net, names, angles);
    DurationsFromStarts(net, p, names, starts, targets);
    var ds := DurationsFrom(net, names, starts, targets);
    var move := Move(net, p, Motion(Names(names), List(targets), Number(Max(ds)), wait));
    assert MoveSlowestOf(net, p, names, targets, wait)(ds) == move;
    var rest := RotateFrom(net, p, names, angles, a.duration, wait)(q.outcome.value);
    assert rest == Run(Misc.Flatten(SpeedReads(names)) + move.trace, move.outcome);
    var r := Rotate(net, p, a);
    assert r == Then(q, RotateFrom(net, p, names, angles, a.duration, wait));
    assert r.trace == q.trace + rest.trace && r.outcome == move.outcome;
    var qs := Misc.Flatten(QueryReads(names, ["present_position"]));
    var ss := Misc.Flatten(SpeedReads(names));
    Misc.Assoc(qs, ss, move.trace);
  }
}
