/**
 * Motor handles: the raw register access of lib/motor/RawMotorRequest.js and
 * the higher-level moves of lib/motor/ExtMotorRequest.js. A handle issues its
 * requests through the current request layer; register reads come from the
 * robot oracle `net`.
 */
module Motor {
  import opened Wrappers
  import opened Js
  import opened Effects
  import Misc
  import Request

  /** A motor as the robot descriptor lists it. Only the name reaches the requests. */
  datatype MotorDescriptor = MotorDescriptor(name: string, model: string, lowerLimit: int, upperLimit: int)

  /** A motor handle: its descriptor and the request handler it shares with the robot. */
  datatype Handle = Handle(descriptor: MotorDescriptor, handler: Request.Handler)

  /** `new RawMotorRequest(motor, requestHandler)` */
  function NewHandle(motor: MotorDescriptor, handler: Request.Handler): (m: Handle)
    ensures m.descriptor == motor && m.handler == handler
    ensures Name(m) == motor.name
  {
    Handle(motor, handler)
  }

  /** `name` */
  function Name(m: Handle): string {
    m.descriptor.name
  }

  /** The scalar a register holds; a register holding an array or an object reads as `undefined`. */
  function AsValue(j: Json): Value {
    if j.JScalar? then j.v else Undefined
  }

  // ---------------------------------------------------------------------------
  // The requests a handle issues
  // ---------------------------------------------------------------------------

  function ReadEvent(motor: string, register: string): Event {
    Effects.Request(Effects.Get, Request.RegisterUrl(motor, register), Request.NoData)
  }

  function WriteEvent(motor: string, register: string, v: Value): Event {
    Effects.Request(Post, Request.RegisterUrl(motor, register), Request.RegisterBody(v))
  }

  /** The value a read of `register` yields: what the robot answered, `undefined` if the read failed. */
  function Reading(net: Net, motor: string, register: string): Value {
    AsValue(Request.ValueRead(net, motor, register))
  }

  /** The timer `wait(delay)` sets: 1000 * delay milliseconds. */
  function Timer(delay: Value): Event {
    Wait(Mul(Finite(1000.0), ToNumber(delay)))
  }

  // ---------------------------------------------------------------------------
  // RawMotorRequest
  // ---------------------------------------------------------------------------

  /** `set(register, data)`: one register write on this motor, failing when the post fails. */
  function Set(net: Net, m: Handle, register: string, data: Value): (r: Run<Json>)
    ensures r.trace == [WriteEvent(m.descriptor.name, register, data)]
    ensures r.outcome.Ok? <==> net(Post, Request.RegisterUrl(m.descriptor.name, register), Request.RegisterBody(data)).Respond?
  {
    Request.SetRegister(net, Name(m), register, data)
  }

  /**
   * `get(...registers)`: one read per register on this motor, in order; never
   * rejects, and against a robot answering `{ r: value }` yields exactly the
   * registers asked for with the values read.
   */
  function Get(net: Net, m: Handle, registers: seq<string>): (r: Run<map<string, Json>>)
    ensures r.outcome.Ok?
    ensures r.trace == Request.ReadTrace(m.descriptor.name, registers)
    ensures Request.AnswersRegisters(net, m.descriptor.name) ==>
      && r.outcome.value.Keys == (set x | x in registers)
      && forall x :: x in registers ==> x in r.outcome.value && r.outcome.value[x] == Request.ValueRead(net, m.descriptor.name, x)
  {
    Request.GetRegisterIsolatesFaults(net, Name(m), registers);
    Request.GetRegister(net, Name(m), registers)
  }

  /** Field `register` of a merged read, `undefined` when absent. */
  function FieldOfRead(d: map<string, Json>, register: string): Json {
    if register in d then d[register] else Request.NoData
  }

  /**
   * `getRegisterValue(register)`: field `register` of `get(register)`. It issues
   * one read and yields the robot's answer for that register, `undefined` when
   * the read failed; it never rejects.
   */
  function GetRegisterValue(net: Net, m: Handle, register: string): (r: Run<Json>)
    ensures r.trace == [ReadEvent(m.descriptor.name, register)]
    ensures r.outcome == Ok(Request.ValueRead(net, m.descriptor.name, register))
  {
    SingleRead(net, Name(m), register);
    MapRun(Get(net, m, [register]), (d: map<string, Json>) => FieldOfRead(d, register))
  }

  /** A read of one register merges that one response into the empty object. */
  lemma SingleRead(net: Net, motor: string, register: string)
    ensures Request.GetRegister(net, motor, [register]).outcome
            == Ok(Request.Spread(Request.ReadOne(net, motor, register).outcome.value))
    ensures FieldOfRead(Request.GetRegister(net, motor, [register]).outcome.value, register)
            == Request.ValueRead(net, motor, register)
  {
    var ps := Request.ReadProviders(net, motor, [register]);
    Misc.ChainCons(ps[0], [], Request.Merge, map[]);
    assert ps == [ps[0]] + [];
    var v := Request.ReadOne(net, motor, register).outcome.value;
    assert Request.Merge(map[], v) == Request.Spread(v);
  }

  // ---------------------------------------------------------------------------
  // ExtMotorRequest: register writers
  // ---------------------------------------------------------------------------

  /** `setSpeed(speed)`: writes `moving_speed`. */
  function SetSpeed(net: Net, m: Handle, speed: Value): (r: Run<Json>)
    ensures r.trace == [WriteEvent(m.descriptor.name, "moving_speed", speed)]
  {
    Set(net, m, "moving_speed", speed)
  }

  /** `setCompliant(value)`: writes `compliant`. */
  function SetCompliant(net: Net, m: Handle, value: Value): (r: Run<Json>)
    ensures r.trace == [WriteEvent(m.descriptor.name, "compliant", value)]
  {
    Set(net, m, "compliant", value)
  }

  /** `setLed(color)`: writes `led`. */
  function SetLed(net: Net, m: Handle, color: Value): (r: Run<Json>)
    ensures r.trace == [WriteEvent(m.descriptor.name, "led", color)]
  {
    Set(net, m, "led", color)
  }

  // ---------------------------------------------------------------------------
  // ExtMotorRequest: moves
  // ---------------------------------------------------------------------------

  /** `/motors/<name>/goto.json` */
  function GotoUrl(motor: string): string {
    "/motors/" + motor + "/goto.json"
  }

  /** The body of a goto post: the robot is never asked to wait, and a zero or missing duration becomes 0.001 s. */
  function GotoBody(position: Json, duration: Value): (b: Json)
    ensures b.JObject? && b.fields.Keys == {"position", "duration", "wait"}
    ensures b.fields["position"] == position
    ensures b.fields["wait"] == JScalar(Bool(false))
    ensures Truthy(duration) ==> b.fields["duration"] == JScalar(duration)
    ensures !Truthy(duration) ==> b.fields["duration"] == JScalar(Real(0.001))
  {
    JObject(map["position" := position, "duration" := JScalar(Or(duration, Real(0.001))),
                "wait" := JScalar(Bool(false))])
  }

  function GotoEvent(motor: string, position: Value, duration: Value): Event {
    Effects.Request(Post, GotoUrl(motor), GotoBody(JScalar(position), duration))
  }

  /** `wait(value)`: a timer of `value` seconds. */
  function WaitSeconds(value: Value): (r: Run<()>)
    ensures r == Run([Timer(value)], Ok(()))
  {
    Misc.WaitFor(value, ())
  }

  /**
   * `goto(position, duration, wait)`. The post never asks the robot to wait.
   * When `wait` is truthy, the handle first reads `moving_speed`, then posts,
   * then waits `duration` seconds, then writes the speed it read back (the robot
   * changes the speed to meet the duration); a failed post skips the rest.
   */
  function Goto(net: Net, m: Handle, position: Value, duration: Value, wait: Value): (r: Run<()>)
    ensures !Truthy(wait) ==>
      && r.trace == [GotoEvent(m.descriptor.name, position, duration)]
      && (r.outcome.Ok? <==> net(Post, GotoUrl(m.descriptor.name), GotoBody(JScalar(position), duration)).Respond?)
    ensures Truthy(wait) && net(Post, GotoUrl(m.descriptor.name), GotoBody(JScalar(position), duration)).Fail? ==>
      && r.trace == [ReadEvent(m.descriptor.name, "moving_speed"), GotoEvent(m.descriptor.name, position, duration)]
      && r.outcome.Err?
    ensures Truthy(wait) && net(Post, GotoUrl(m.descriptor.name), GotoBody(JScalar(position), duration)).Respond? ==>
      r.trace == [ReadEvent(m.descriptor.name, "moving_speed"), GotoEvent(m.descriptor.name, position, duration),
                  Timer(duration), WriteEvent(m.descriptor.name, "moving_speed", Reading(net, m.descriptor.name, "moving_speed"))]
  {
    if Truthy(wait) then WaitedGoto(net, m, position, duration) else UnwaitedGoto(net, m, position, duration)
  }

  /** The branch of `goto` that does not wait: the post alone. */
  function UnwaitedGoto(net: Net, m: Handle, position: Value, duration: Value): (r: Run<()>)
    ensures r.trace == [GotoEvent(m.descriptor.name, position, duration)]
    ensures r.outcome.Ok? <==> net(Post, GotoUrl(m.descriptor.name), GotoBody(JScalar(position), duration)).Respond?
  {
    Misc.ChainOne(PostGoto(net, m, position, duration))
  }

  /**
   * The waited branch of `goto`: read `moving_speed`, then chain the post, the
   * timer and the write-back of the speed read.
   */
  function WaitedGoto(net: Net, m: Handle, position: Value, duration: Value): (r: Run<()>)
    ensures net(Post, GotoUrl(m.descriptor.name), GotoBody(JScalar(position), duration)).Fail? ==>
      && r.trace == [ReadEvent(m.descriptor.name, "moving_speed"), GotoEvent(m.descriptor.name, position, duration)]
      && r.outcome.Err?
    ensures net(Post, GotoUrl(m.descriptor.name), GotoBody(JScalar(position), duration)).Respond? ==>
      r.trace == [ReadEvent(m.descriptor.name, "moving_speed"), GotoEvent(m.descriptor.name, position, duration),
                  Timer(duration), WriteEvent(m.descriptor.name, "moving_speed", Reading(net, m.descriptor.name, "moving_speed"))]
  {
    var post := PostGoto(net, m, position, duration);
    var speed := GetRegisterValue(net, m, "moving_speed");
    var timer := () => WaitSeconds(duration);
    var k := (v: Json) => Misc.ChainThree(post, timer, RestoreSpeed(net, m, v));
    var restore := RestoreSpeed(net, m, speed.outcome.value);
    assert k(speed.outcome.value) == Misc.ChainThree(post, timer, restore);
    ThenChainThree(speed, k, post, timer, restore);
    assert timer() == Run([Timer(duration)], Ok(()));
    assert restore().trace == [WriteEvent(m.descriptor.name, "moving_speed", Reading(net, m.descriptor.name, "moving_speed"))];
    Misc.Concat4(ReadEvent(m.descriptor.name, "moving_speed"), GotoEvent(m.descriptor.name, position, duration),
            Timer(duration), WriteEvent(m.descriptor.name, "moving_speed", Reading(net, m.descriptor.name, "moving_speed")));
    Then(speed, k)
  }

  /** The write-back of the speed read, as a provider for the chain. */
  function RestoreSpeed(net: Net, m: Handle, speed: Json): (p: () -> Run<()>)
    ensures p().trace == [WriteEvent(m.descriptor.name, "moving_speed", AsValue(speed))]
  {
    () => Misc.Settle(SetSpeed(net, m, AsValue(speed)))
  }

  lemma ThenChainThree(first: Run<Json>, k: Json -> Run<()>, p: () -> Run<()>, q: () -> Run<()>, s: () -> Run<()>)
    requires first.outcome.Ok? && k(first.outcome.value) == Misc.ChainThree(p, q, s)
    ensures p().outcome.Err? ==> Then(first, k) == Run(first.trace + p().trace, Err(p().outcome.error))
    ensures p().outcome.Ok? && q().outcome.Ok? ==> Then(first, k).trace == first.trace + p().trace + q().trace + s().trace
  {
  }

  /** The goto post, as a provider for the chain. */
  function PostGoto(net: Net, m: Handle, position: Value, duration: Value): (p: () -> Run<()>)
    ensures p().trace == [GotoEvent(m.descriptor.name, position, duration)]
    ensures p().outcome.Ok? <==> net(Post, GotoUrl(m.descriptor.name), GotoBody(JScalar(position), duration)).Respond?
  {
    () => Misc.Settle(Request.HttpPost(net, GotoUrl(Name(m)), GotoBody(JScalar(position), duration), None))
  }

  /**
   * The duration of a move from `start` to `end` at `speed`, in seconds:
   * |start - end| / (speed * 0.666), a falsy speed (0, missing) standing for 1023.
   */
  function Duration(start: Value, end: Value, speed: Value): Num {
    Seconds(ToNumber(start), ToNumber(end), ToNumber(Or(speed, Int(1023))))
  }

  /** |start - end| / (speed * 0.666) on numbers. */
  function Seconds(start: Num, end: Num, speed: Num): Num {
    Div(Abs(Sub(start, end)), Mul(speed, Finite(0.666)))
  }

  /**
   * `computeDuration({start, end, speed})`: a missing start reads
   * `present_position`, then a missing speed reads `moving_speed`; never rejects.
   */
  function ComputeDuration(net: Net, m: Handle, start: Value, end: Value, speed: Value): (r: Run<Num>)
    ensures r.trace == (if IsNullish(start) then [ReadEvent(m.descriptor.name, "present_position")] else [])
                     + (if IsNullish(speed) then [ReadEvent(m.descriptor.name, "moving_speed")] else [])
    ensures r.outcome == Ok(Duration(Coalesce(start, Reading(net, m.descriptor.name, "present_position")), end,
                                     Coalesce(speed, Reading(net, m.descriptor.name, "moving_speed"))))
  {
    var startRun := if IsNullish(start) then MapRun(GetRegisterValue(net, m, "present_position"), AsValue) else Pure(start);
    Then(startRun, (s: Value) =>
      var speedRun := if IsNullish(speed) then MapRun(GetRegisterValue(net, m, "moving_speed"), AsValue) else Pure(speed);
      MapRun(speedRun, (sp: Value) => Duration(s, end, sp)))
  }

  /**
   * `setPosition(value, wait)`: without `wait`, one write of `goal_position`;
   * with it, the duration from the present position at the present speed, then a
   * waited goto over that duration.
   */
  function SetPosition(net: Net, m: Handle, value: Value, wait: Value): (r: Run<()>)
    ensures !Truthy(wait) ==> r.trace == [WriteEvent(m.descriptor.name, "goal_position", value)]
    ensures !Truthy(wait) ==>
      (r.outcome.Ok? <==> net(Post, Request.RegisterUrl(m.descriptor.name, "goal_position"), Request.RegisterBody(value)).Respond?)
    ensures Truthy(wait) ==>
      var d := Duration(Reading(net, m.descriptor.name, "present_position"), value,
                        Reading(net, m.descriptor.name, "moving_speed"));
      var move := Goto(net, m, value, Number(d), Bool(true));
      && r.trace == [ReadEvent(m.descriptor.name, "present_position"), ReadEvent(m.descriptor.name, "moving_speed")] + move.trace
      && r.outcome == move.outcome
  {
    if Truthy(wait) then
      var duration := ComputeDuration(net, m, Undefined, value, Undefined);
      var k := (d: Num) => Goto(net, m, value, Number(d), Bool(true));
      Misc.Concat2(ReadEvent(m.descriptor.name, "present_position"), ReadEvent(m.descriptor.name, "moving_speed"));
      assert duration.outcome.Ok?;
      Then(duration, k)
    else
      Misc.Settle(Set(net, m, "goal_position", value))
  }

  /** `rotate`'s reading of its optional arguments: a non-NaN number is a duration, anything else is the wait flag. */
  predicate HasDuration(duration: Value) {
    duration.Number? && !duration.n.NaN?
  }

  /** The target of a rotation: the goal position read `+` the angle parsed as a number (a concatenation if the robot answered a string). */
  function RotateGoal(current: Value, angle: Value): Value {
    Plus(current, Number(ParseFloat(angle)))
  }

  /**
   * `rotate(value, duration, wait)`: reads `goal_position` (not the present
   * position), targets it plus `value`, and moves there with `goto` when a
   * duration is given and with `setPosition` otherwise.
   */
  function Rotate(net: Net, m: Handle, value: Value, duration: Value, wait: Value): (r: Run<()>)
    ensures |r.trace| > 0 && r.trace[0] == ReadEvent(m.descriptor.name, "goal_position")
    ensures var goal := RotateGoal(Reading(net, m.descriptor.name, "goal_position"), value);
      var move := if HasDuration(duration) then Goto(net, m, goal, duration, wait) else SetPosition(net, m, goal, duration);
      r == Run([ReadEvent(m.descriptor.name, "goal_position")] + move.trace, move.outcome)
  {
    RotateSteps(net, m, value, duration, wait);
    Then(GetRegisterValue(net, m, "goal_position"), RotateFrom(net, m, value, duration, wait))
  }

  /**
   * What `rotate` does once the goal position is read: without a duration,
   * the second argument is the wait flag of `setPosition`.
   */
  function RotateFrom(net: Net, m: Handle, value: Value, duration: Value, wait: Value): Json -> Run<()> {
    var hasDuration := HasDuration(duration);
    var wait' := if hasDuration then wait else duration;
    (current: Json) =>
      var goal := RotateGoal(AsValue(current), value);
      if hasDuration then Goto(net, m, goal, duration, wait') else SetPosition(net, m, goal, wait')
  }

  lemma RotateSteps(net: Net, m: Handle, value: Value, duration: Value, wait: Value)
    ensures var goal := RotateGoal(Reading(net, m.descriptor.name, "goal_position"), value);
      var move := if HasDuration(duration) then Goto(net, m, goal, duration, wait) else SetPosition(net, m, goal, duration);
      Then(GetRegisterValue(net, m, "goal_position"), RotateFrom(net, m, value, duration, wait))
        == Run([ReadEvent(m.descriptor.name, "goal_position")] + move.trace, move.outcome)
  {
    var read := GetRegisterValue(net, m, "goal_position");
    var goal := RotateGoal(Reading(net, m.descriptor.name, "goal_position"), value);
    assert RotateFrom(net, m, value, duration, wait)(read.outcome.value)
        == if HasDuration(duration) then Goto(net, m, goal, duration, wait) else SetPosition(net, m, goal, duration);
  }

  // ---------------------------------------------------------------------------
  // Properties
  // ---------------------------------------------------------------------------

  /** For finite positions and a positive finite speed, the duration is |start - end| / (0.666 * speed), and not negative. */
  lemma DurationFormula(start: real, end: real, speed: real)
    requires speed > 0.0
    ensures var d := Duration(Real(start), Real(end), Real(speed));
      && d.Finite?
      && d.r * (speed * 0.666) == (if start < end then end - start else start - end)
      && d.r >= 0.0
  {
  }

  /** The duration does not depend on the direction of the move. */
  lemma DurationSymmetric(start: Value, end: Value, speed: Value)
    ensures Duration(start, end, speed) == Duration(end, start, speed)
  {
    DistanceSymmetric(ToNumber(start), ToNumber(end));
  }

  lemma DistanceSymmetric(a: Num, b: Num)
    ensures Abs(Sub(a, b)) == Abs(Sub(b, a))
  {
  }

  /** A move to where the motor already is takes no time, whatever number the speed register holds. */
  lemma DurationZeroWhenEqual(position: real, speed: Value)
    requires speed.Number?
    ensures Duration(Real(position), Real(position), speed) == Finite(0.0)
  {
    var s := ToNumber(Or(speed, Int(1023)));
    assert s != NaN && s != Finite(0.0);
    assert Sub(Finite(position), Finite(position)) == Finite(0.0);
  }

  /** A zero, NaN or missing speed counts as the full speed 1023. */
  lemma DurationDefaultSpeed(start: Value, end: Value, speed: Value)
    requires !Truthy(speed)
    ensures Duration(start, end, speed) == Duration(start, end, Int(1023))
  {
  }

  /** Start and speed given: `computeDuration` issues no request. */
  lemma ComputeDurationReadsOnlyWhatIsMissing(net: Net, m: Handle, start: Value, end: Value, speed: Value)
    requires !IsNullish(start) && !IsNullish(speed)
    ensures ComputeDuration(net, m, start, end, speed) == Run([], Ok(Duration(start, end, speed)))
  {
  }

  /** A rotation with neither duration nor wait writes `goal_position` to the goal read plus the angle. */
  lemma RotateWithoutWait(net: Net, m: Handle, value: Value, duration: Value)
    requires !HasDuration(duration) && !Truthy(duration)
    ensures Rotate(net, m, value, duration, Bool(false)).trace ==
      [ReadEvent(m.descriptor.name, "goal_position"),
       WriteEvent(m.descriptor.name, "goal_position", RotateGoal(Reading(net, m.descriptor.name, "goal_position"), value))]
  {
  }
}
