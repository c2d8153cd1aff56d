/**
 * The script engine of lib/script/ScriptEngine.js, which `Poppy.exec` hands
 * its scripts to: every action of a script becomes one or more steps, and
 * the steps run one after the other against the robot.
 */
module Engine {
  import opened Wrappers
  import opened Js
  import opened Effects
  import opened Selections
  import Misc
  import Motor
  import Poppy
  import Scripts

  // ---------------------------------------------------------------------------
  // Steps
  // ---------------------------------------------------------------------------

  /** Where a step is dispatched: the robot itself (`motor: undefined`), or the named motor. */
  datatype Target = ToRobot | ToMotor(name: string)

  /** The per-motor commands, each a method of the motor handle taking the action's one parameter. */
  datatype Command = Led(color: Value) | Speed(speed: Value) | Compliance(compliant: bool) | Pause(seconds: Value)

  /**
   * One `{ motor, id, values }` element: a batched `move` or `rotate` of the
   * robot, whose single argument is `{ motors, ...param }`, or a command sent
   * to one target with the parameter values as arguments.
   */
  datatype Step =
    | MoveAll(motors: seq<string>, positions: Arg, timing: Scripts.Timing)
    | RotateAll(motors: seq<string>, angles: Arg, timing: Scripts.Timing)
    | OnMotor(target: Target, command: Command)

  /** `motor: elt === 'poppy' ? undefined : elt`, where `elt` is itself `undefined` past the selection's end. */
  function TargetOf(elt: Option<string>): (t: Target)
    ensures t.ToMotor? <==> elt.Some? && elt.value != "poppy"
    ensures t.ToMotor? ==> t.name == elt.value
  {
    if elt.Some? && elt.value != "poppy" then ToMotor(elt.value) else ToRobot
  }

  /** `motors[0]` */
  function First(motors: seq<string>): Option<string> {
    if |motors| > 0 then Some(motors[0]) else None
  }

  /** The same command, once per motor, in selection order. */
  function PerMotor(motors: seq<string>, c: Command): (steps: seq<Step>)
    ensures |steps| == |motors|
    ensures forall i :: 0 <= i < |motors| ==> steps[i] == OnMotor(TargetOf(Some(motors[i])), c)
  {
    seq(|motors|, i requires 0 <= i < |motors| => OnMotor(TargetOf(Some(motors[i])), c))
  }

  /** How many steps an action makes over `n` selected motors: one for `wait`, `move` and `rotate`, `n` otherwise. */
  function Weight(a: Scripts.Action, n: nat): nat {
    if a.Wait? || a.Move? || a.Rotate? then 1 else n
  }

  /** The step performs the action: same kind, same parameters. */
  predicate Performs(st: Step, a: Scripts.Action, motors: seq<string>) {
    match a
    case Move(positions, timing) => st == MoveAll(motors, positions, timing)
    case Rotate(angles, timing) => st == RotateAll(motors, angles, timing)
    case SetLed(v) => st.OnMotor? && st.command == Led(v)
    case SetSpeed(v) => st.OnMotor? && st.command == Speed(v)
    case SetCompliant(b) => st.OnMotor? && st.command == Compliance(b)
    case Wait(v) => st.OnMotor? && st.command == Pause(v)
  }

  /**
   * `_mapAction(motors, action)`: `wait` makes one step on the first selected
   * motor (on the robot when there is none), `move` and `rotate` one batched
   * step of the robot carrying the whole selection, and every other action
   * one step per selected motor, in order.
   */
  function MapAction(motors: seq<string>, a: Scripts.Action): (steps: seq<Step>)
    ensures |steps| == Weight(a, |motors|)
    ensures forall i :: 0 <= i < |steps| ==> Performs(steps[i], a, motors)
    ensures a.Wait? ==> steps[0].OnMotor? && steps[0].target == TargetOf(First(motors))
    ensures !a.Wait? && !a.Move? && !a.Rotate? ==>
      forall i :: 0 <= i < |motors| ==> steps[i].OnMotor? && steps[i].target == TargetOf(Some(motors[i]))
  {
    match a
    case Wait(v) => [OnMotor(TargetOf(First(motors)), Pause(v))]
    case Move(positions, timing) => [MoveAll(motors, positions, timing)]
    case Rotate(angles, timing) => [RotateAll(motors, angles, timing)]
    case SetLed(v) => PerMotor(motors, Led(v))
    case SetSpeed(v) => PerMotor(motors, Speed(v))
    case SetCompliant(b) => PerMotor(motors, Compliance(b))
  }

  function ActionStepLists(motors: seq<string>, actions: seq<Scripts.Action>): (ls: seq<seq<Step>>)
    ensures |ls| == |actions|
    ensures forall i :: 0 <= i < |actions| ==> ls[i] == MapAction(motors, actions[i])
  {
    seq(|actions|, i requires 0 <= i < |actions| => MapAction(motors, actions[i]))
  }

  /** A handler's steps: its selection resolved on the robot now, then its actions mapped in order. */
  function HandlerSteps(p: Poppy.Robot, h: Scripts.ActionHandler): seq<Step> {
    Misc.Flatten(ActionStepLists(Poppy.ToMotorNames(p, h.motors), h.actions))
  }

  function HandlerStepLists(p: Poppy.Robot, hs: seq<Scripts.ActionHandler>): (ls: seq<seq<Step>>)
    ensures |ls| == |hs|
    ensures forall i :: 0 <= i < |hs| ==> ls[i] == HandlerSteps(p, hs[i])
  {
    seq(|hs|, i requires 0 <= i < |hs| => HandlerSteps(p, hs[i]))
  }

  /** The steps `_exec(script)` runs: handler after handler, action after action. */
  function Steps(p: Poppy.Robot, s: Scripts.Script): seq<Step> {
    Misc.Flatten(HandlerStepLists(p, s.handlers))
  }

  // ---------------------------------------------------------------------------
  // Running the steps
  // ---------------------------------------------------------------------------

  /** The engine's `.catch`: the failure is logged (not modelled) and the step settles. */
  function Logged(message: string): () {
    ()
  }

  /** The argument `{ motors, ...param }`: `duration` is present only when the script recorded one. */
  function DurationArg(t: Scripts.Timing): Value {
    match t.duration
    case Some(n) => Number(n)
    case None => Undefined
  }

  /** A command on a motor handle. */
  function Perform(net: Net, m: Motor.Handle, c: Command): Run<()> {
    match c
    case Led(v) => Misc.Settle(Motor.SetLed(net, m, v))
    case Speed(v) => Misc.Settle(Motor.SetSpeed(net, m, v))
    case Compliance(b) => Misc.Settle(Motor.SetCompliant(net, m, Bool(b)))
    case Pause(v) => Motor.WaitSeconds(v)
  }

  /** Whether the step's method exists: the robot has `move` and `rotate` but none of the motor commands. */
  predicate Dispatchable(p: Poppy.Robot, st: Step) {
    st.OnMotor? ==> st.target.ToMotor? && st.target.name in p.motors
  }

  /**
   * One step: the method is looked up and called, and its rejection is caught.
   * A method that does not exist (a command sent to the robot, or to a motor the
   * robot does not have) throws a TypeError before any `.catch` is attached.
   */
  function RunStep(net: Net, p: Poppy.Robot, st: Step): (r: Run<()>)
    ensures r.outcome.Err? <==> !Dispatchable(p, st)
    ensures !Dispatchable(p, st) ==> r == Reject(TypeError)
  {
    match st
    case MoveAll(motors, positions, timing) =>
      Catch(Poppy.Move(net, p, Poppy.Motion(Names(motors), positions, DurationArg(timing), timing.wait)), Logged)
    case RotateAll(motors, angles, timing) =>
      Catch(Poppy.Rotate(net, p, Poppy.Motion(Names(motors), angles, DurationArg(timing), timing.wait)), Logged)
    case OnMotor(ToRobot, _) => Reject(TypeError)
    case OnMotor(ToMotor(name), c) =>
      match Poppy.GetMotor(p, name)
      case None => Reject(TypeError)
      case Some(m) => Catch(Perform(net, m, c), Logged)
  }

  function StepProviders(net: Net, p: Poppy.Robot, steps: seq<Step>): (ps: seq<() -> Run<()>>)
    ensures |ps| == |steps|
    ensures forall i :: 0 <= i < |steps| ==> ps[i]() == RunStep(net, p, steps[i])
  {
    seq(|steps|, i requires 0 <= i < |steps| => () => RunStep(net, p, steps[i]))
  }

  /** `_exec(script)`: the script's steps chained. */
  function ExecScript(net: Net, p: Poppy.Robot, s: Scripts.Script): Run<()> {
    Misc.Chain(StepProviders(net, p, Steps(p, s)), Misc.Ignore, ())
  }

  /** The effects of each step run on its own. */
  function StepTraces(net: Net, p: Poppy.Robot, steps: seq<Step>): (ts: seq<seq<Event>>)
    ensures |ts| == |steps|
    ensures forall i :: 0 <= i < |steps| ==> ts[i] == RunStep(net, p, steps[i]).trace
  {
    seq(|steps|, i requires 0 <= i < |steps| => RunStep(net, p, steps[i]).trace)
  }

  // ---------------------------------------------------------------------------
  // exec
  // ---------------------------------------------------------------------------

  /** An argument of `exec`: a script, or an array of them, nested to any depth. */
  datatype ScriptTree = Leaf(script: Scripts.Script) | Nested(items: seq<ScriptTree>)

  /** `scripts.flat(Infinity)`: the scripts, depth first, in argument order. */
  function Flat(ts: seq<ScriptTree>): seq<Scripts.Script>
    decreases ts
  {
    if |ts| == 0 then []
    else
      match ts[0]
      case Leaf(s) => [s] + Flat(ts[1..])
      case Nested(items) => Flat(items) + Flat(ts[1..])
  }

  function ScriptProviders(net: Net, p: Poppy.Robot, scripts: seq<Scripts.Script>): (ps: seq<() -> Run<()>>)
    ensures |ps| == |scripts|
    ensures forall i :: 0 <= i < |scripts| ==> ps[i]() == ExecScript(net, p, scripts[i])
  {
    seq(|scripts|, i requires 0 <= i < |scripts| => () => ExecScript(net, p, scripts[i]))
  }

  /** `exec(...scripts)`, and `Poppy.exec` which delegates to it: the flattened scripts, chained. */
  function Exec(net: Net, p: Poppy.Robot, args: seq<ScriptTree>): Run<()> {
    Misc.Chain(ScriptProviders(net, p, Flat(args)), Misc.Ignore, ())
  }

  // ---------------------------------------------------------------------------
  // Step lists
  // ---------------------------------------------------------------------------

  /** How many steps a handler's actions make over `n` selected motors. */
  function ActionsWeight(actions: seq<Scripts.Action>, n: nat): nat
    decreases |actions|
  {
    if |actions| == 0 then 0 else Weight(actions[0], n) + ActionsWeight(actions[1..], n)
  }

  /** How many steps a script's handlers make on the robot. */
  function HandlersWeight(p: Poppy.Robot, hs: seq<Scripts.ActionHandler>): nat
    decreases |hs|
  {
    if |hs| == 0 then 0
    else ActionsWeight(hs[0].actions, |Poppy.ToMotorNames(p, hs[0].motors)|) + HandlersWeight(p, hs[1..])
  }

  lemma {:induction false} ActionStepCount(motors: seq<string>, actions: seq<Scripts.Action>)
    ensures |Misc.Flatten(ActionStepLists(motors, actions))| == ActionsWeight(actions, |motors|)
    decreases |actions|
  {
    if |actions| > 0 {
      assert ActionStepLists(motors, actions)[1..] == ActionStepLists(motors, actions[1..]);
      ActionStepCount(motors, actions[1..]);
    }
  }

  /**
   * A script makes, per handler and per action, one step for `wait`, `move`
   * and `rotate`, and one per motor of the handler's resolved selection for
   * any other action.
   */
  lemma {:induction false} StepCount(p: Poppy.Robot, hs: seq<Scripts.ActionHandler>)
    ensures |Steps(p, Scripts.Script(hs))| == HandlersWeight(p, hs)
    decreases |hs|
  {
    if |hs| > 0 {
      assert HandlerStepLists(p, hs)[1..] == HandlerStepLists(p, hs[1..]);
      StepCount(p, hs[1..]);
      ActionStepCount(Poppy.ToMotorNames(p, hs[0].motors), hs[0].actions);
    }
  }

  /** The steps of a list ending with `last`: those of the list before it, then its own. */
  lemma StepListsSnoc(p: Poppy.Robot, init: seq<Scripts.ActionHandler>, last: Scripts.ActionHandler)
    ensures Misc.Flatten(HandlerStepLists(p, init + [last])) == Misc.Flatten(HandlerStepLists(p, init)) + HandlerSteps(p, last)
  {
    assert HandlerStepLists(p, init + [last]) == HandlerStepLists(p, init) + [HandlerSteps(p, last)];
    Misc.FlattenConcat(HandlerStepLists(p, init), [HandlerSteps(p, last)]);
    assert Misc.Flatten([HandlerSteps(p, last)]) == HandlerSteps(p, last) + Misc.Flatten<Step>([]);
  }

  lemma ActionListsSnoc(motors: seq<string>, actions: seq<Scripts.Action>, a: Scripts.Action)
    ensures Misc.Flatten(ActionStepLists(motors, actions + [a]))
            == Misc.Flatten(ActionStepLists(motors, actions)) + MapAction(motors, a)
  {
    assert ActionStepLists(motors, actions + [a]) == ActionStepLists(motors, actions) + [MapAction(motors, a)];
    Misc.FlattenConcat(ActionStepLists(motors, actions), [MapAction(motors, a)]);
    assert Misc.Flatten([MapAction(motors, a)]) == MapAction(motors, a) + Misc.Flatten<Step>([]);
  }

  /**
   * Build order is execution order: recording an action appends exactly its
   * mapped steps, over the current handler's selection, to the script's steps.
   */
  lemma StepsOfAddAction(p: Poppy.Robot, s: Scripts.Script, a: Scripts.Action)
    requires Scripts.Valid(s)
    ensures Steps(p, Scripts.AddAction(s, a))
            == Steps(p, s) + MapAction(Poppy.ToMotorNames(p, Scripts.Current(s).motors), a)
  {
    var t := Scripts.AddAction(s, a);
    var n := |s.handlers| - 1;
    var init := s.handlers[..n];
    var c := Scripts.Current(s);
    var motors := Poppy.ToMotorNames(p, c.motors);
    assert s.handlers == init + [c];
    assert t.handlers == init + [Scripts.Current(t)];
    StepListsSnoc(p, init, c);
    StepListsSnoc(p, init, Scripts.Current(t));
    ActionListsSnoc(motors, c.actions, a);
    Misc.Assoc(Misc.Flatten(HandlerStepLists(p, init)), HandlerSteps(p, c), MapAction(motors, a));
  }

  /** A selection that pushes a handler, or that fills one with no action yet, adds no step. */
  lemma StepsOfSelect(p: Poppy.Robot, s: Scripts.Script, names: seq<string>)
    requires Scripts.Valid(s)
    requires Scripts.HasMotorSet(Scripts.Current(s)) || Scripts.Current(s).actions == []
    ensures Steps(p, Scripts.Select(s, names)) == Steps(p, s)
  {
    var t := Scripts.Select(s, names);
    var n := |s.handlers| - 1;
    var c := Scripts.Current(s);
    assert s.handlers == s.handlers[..n] + [c];
    if Scripts.HasMotorSet(c) {
      assert t.handlers == s.handlers + [Scripts.NewHandler(names)];
      StepListsSnoc(p, s.handlers, Scripts.NewHandler(names));
      assert HandlerSteps(p, Scripts.NewHandler(names)) == [];
    } else {
      assert t.handlers == s.handlers[..n] + [Scripts.Current(t)];
      StepListsSnoc(p, s.handlers[..n], c);
      StepListsSnoc(p, s.handlers[..n], Scripts.Current(t));
      assert HandlerSteps(p, c) == [] && HandlerSteps(p, Scripts.Current(t)) == [];
    }
  }

  /** A handler selecting `'all'` is resolved when the script runs, to the robot's motors in descriptor order. */
  lemma AllResolvedAtExec(p: Poppy.Robot, a: Scripts.Action)
    ensures Steps(p, Scripts.Script([Scripts.ActionHandler(All, [a])])) == MapAction(Poppy.MotorNames(p), a)
  {
    var h := Scripts.ActionHandler(All, [a]);
    assert HandlerStepLists(p, [h]) == [HandlerSteps(p, h)];
    assert ActionStepLists(Poppy.MotorNames(p), [a]) == [MapAction(Poppy.MotorNames(p), a)];
    assert Misc.Flatten([MapAction(Poppy.MotorNames(p), a)]) == MapAction(Poppy.MotorNames(p), a) + Misc.Flatten<Step>([]);
    assert Misc.Flatten([HandlerSteps(p, h)]) == HandlerSteps(p, h) + Misc.Flatten<Step>([]);
  }

  // ---------------------------------------------------------------------------
  // Running a script
  // ---------------------------------------------------------------------------

  /**
   * A step's failure is caught: when every step's method exists, the script
   * runs every step, one after the other, each leaving its own effects
   * whether it failed or not, and settles.
   */
  lemma ExecScriptIsolatesFaults(net: Net, p: Poppy.Robot, s: Scripts.Script)
    requires forall i :: 0 <= i < |Steps(p, s)| ==> Dispatchable(p, Steps(p, s)[i])
    ensures ExecScript(net, p, s) == Run(Misc.Flatten(StepTraces(net, p, Steps(p, s))), Ok(()))
  {
    var steps := Steps(p, s);
    var ps := StepProviders(net, p, steps);
    assert Misc.AllFulfil(ps);
    Misc.ChainAllFulfil(ps, Misc.Ignore, ());
    Misc.TracesFlatten(ps);
    assert Misc.TraceList(ps) == StepTraces(net, p, steps);
    var c := Misc.Chain(ps, Misc.Ignore, ());
    var u: () := c.outcome.value;
    assert u == ();
  }

  /**
   * A step whose method does not exist aborts the script with a TypeError:
   * the steps before it have run, no later step runs.
   */
  lemma ExecScriptAborts(net: Net, p: Poppy.Robot, s: Scripts.Script, k: nat)
    requires k < |Steps(p, s)| && !Dispatchable(p, Steps(p, s)[k])
    requires forall i :: 0 <= i < k ==> Dispatchable(p, Steps(p, s)[i])
    ensures ExecScript(net, p, s) == Run(Misc.Flatten(StepTraces(net, p, Steps(p, s)[..k])), Err(TypeError))
  {
    var steps := Steps(p, s);
    ChainAbortsAt(net, p, steps, k);
  }

  lemma ChainAbortsAt(net: Net, p: Poppy.Robot, steps: seq<Step>, k: nat)
    requires k < |steps| && !Dispatchable(p, steps[k])
    requires forall i :: 0 <= i < k ==> Dispatchable(p, steps[i])
    ensures Misc.Chain(StepProviders(net, p, steps), Misc.Ignore, ())
            == Run(Misc.Flatten(StepTraces(net, p, steps[..k])), Err(TypeError))
  {
    var ps := StepProviders(net, p, steps);
    assert Misc.AllFulfil(ps[..k]) by {
      forall i | 0 <= i < k
        ensures ps[..k][i]().outcome.Ok?
      {
        assert ps[..k][i] == ps[i];
      }
    }
    assert ps[k]() == Reject(TypeError);
    Misc.ChainFirstRejection(ps, Misc.Ignore, (), k);
    TracesUpToAbort(net, p, steps, k);
  }

  lemma TracesUpToAbort(net: Net, p: Poppy.Robot, steps: seq<Step>, k: nat)
    requires k < |steps| && !Dispatchable(p, steps[k])
    ensures Misc.Traces(StepProviders(net, p, steps)[..k + 1]) == Misc.Flatten(StepTraces(net, p, steps[..k]))
  {
    var ps := StepProviders(net, p, steps);
    Misc.TracesFlatten(ps[..k + 1]);
    var before := StepTraces(net, p, steps[..k]);
    assert Misc.TraceList(ps[..k + 1]) == before + [[]];
    Misc.FlattenConcat(before, [[]]);
    assert Misc.Flatten<Event>([[]]) == [];
  }

  /** `wait` with no motor selected goes to the robot, which has no `wait`: the script aborts at once. */
  lemma WaitWithoutMotorAborts(net: Net, p: Poppy.Robot, v: Value)
    ensures var s := Scripts.WaitFor(Scripts.NewScript([]), v);
      && Steps(p, s) == [OnMotor(ToRobot, Pause(v))]
      && ExecScript(net, p, s) == Run([], Err(TypeError))
  {
    var s0 := Scripts.NewScript([]);
    var s := Scripts.WaitFor(s0, v);
    assert Steps(p, s0) == [] by {
      assert HandlerStepLists(p, s0.handlers) == [[]];
      assert Misc.Flatten<Step>([[]]) == [];
    }
    assert Scripts.Current(s0).motors == Names([]);
    assert Poppy.ToMotorNames(p, Names([])) == [];
    StepsOfAddAction(p, s0, Scripts.Wait(v));
    assert Steps(p, s) == [OnMotor(ToRobot, Pause(v))];
    ExecScriptAborts(net, p, s, 0);
    assert Steps(p, s)[..0] == [];
  }

  /**
   * `new Script('m1', 'm2').led('on').wait(1)`: the led is set on m1 then m2,
   * then one wait on m1, the first motor.
   */
  lemma LedThenWait(p: Poppy.Robot, color: Value, delay: Value)
    ensures var s := Scripts.WaitFor(Scripts.Led(Scripts.NewScript(["m1", "m2"]), color), delay);
      Steps(p, s) == [OnMotor(ToMotor("m1"), Led(color)), OnMotor(ToMotor("m2"), Led(color)), OnMotor(ToMotor("m1"), Pause(delay))]
  {
    var s0 := Scripts.NewScript(["m1", "m2"]);
    var s1 := Scripts.Led(s0, color);
    var s := Scripts.WaitFor(s1, delay);
    var sel := Names(["m1", "m2"]);
    assert "all" !in ["m1", "m2"];
    assert Scripts.Current(s0).motors == sel;
    assert Poppy.ToMotorNames(p, sel) == ["m1", "m2"];
    assert Steps(p, s0) == [] by {
      assert HandlerStepLists(p, s0.handlers) == [[]];
      assert Misc.Flatten<Step>([[]]) == [];
    }
    StepsOfAddAction(p, s0, Scripts.SetLed(color));
    StepsOfAddAction(p, s1, Scripts.Wait(delay));
    assert MapAction(["m1", "m2"], Scripts.SetLed(color)) == [OnMotor(ToMotor("m1"), Led(color)), OnMotor(ToMotor("m2"), Led(color))];
  }

  // ---------------------------------------------------------------------------
  // exec
  // ---------------------------------------------------------------------------

  /** Flattening is compositional: the scripts of consecutive arguments, one after the other. */
  lemma {:induction false} FlatConcat(ts: seq<ScriptTree>, us: seq<ScriptTree>)
    ensures Flat(ts + us) == Flat(ts) + Flat(us)
    decreases ts
  {
    if |ts| > 0 {
      assert (ts + us)[0] == ts[0];
      assert (ts + us)[1..] == ts[1..] + us;
      FlatConcat(ts[1..], us);
      match ts[0]
      case Leaf(s) =>
        Misc.Assoc([s], Flat(ts[1..]), Flat(us));
      case Nested(items) =>
        Misc.Assoc(Flat(items), Flat(ts[1..]), Flat(us));
    } else {
      assert ts + us == us;
    }
  }

  /** Nesting makes no difference: an array of scripts passed as one argument runs as its scripts would. */
  lemma FlatNested(ts: seq<ScriptTree>)
    ensures Flat([Nested(ts)]) == Flat(ts)
    ensures forall s :: Flat([Leaf(s)]) == [s]
  {
    assert [Nested(ts)][1..] == [];
  }

  /** The effects of each script run on its own. */
  function ScriptTraces(net: Net, p: Poppy.Robot, scripts: seq<Scripts.Script>): (ts: seq<seq<Event>>)
    ensures |ts| == |scripts|
    ensures forall i :: 0 <= i < |scripts| ==> ts[i] == ExecScript(net, p, scripts[i]).trace
  {
    seq(|scripts|, i requires 0 <= i < |scripts| => ExecScript(net, p, scripts[i]).trace)
  }

  /**
   * `exec` runs the flattened scripts in argument order, each once the one
   * before it has settled; when none aborts, it runs them all and settles.
   */
  lemma ExecRunsInOrder(net: Net, p: Poppy.Robot, args: seq<ScriptTree>)
    requires forall s :: s in Flat(args) ==> ExecScript(net, p, s).outcome.Ok?
    ensures Exec(net, p, args) == Run(Misc.Flatten(ScriptTraces(net, p, Flat(args))), Ok(()))
  {
    var scripts := Flat(args);
    var ps := ScriptProviders(net, p, scripts);
    assert Misc.AllFulfil(ps) by {
      forall i | 0 <= i < |ps|
        ensures ps[i]().outcome.Ok?
      {
        assert scripts[i] in scripts;
      }
    }
    Misc.ChainAllFulfil(ps, Misc.Ignore, ());
    Misc.TracesFlatten(ps);
    assert Misc.TraceList(ps) == ScriptTraces(net, p, scripts);
    var c := Misc.Chain(ps, Misc.Ignore, ());
    var u: () := c.outcome.value;
    assert u == ();
  }

  /** A script that aborts stops `exec`: the scripts after it never run. */
  lemma ExecStopsAtAbort(net: Net, p: Poppy.Robot, args: seq<ScriptTree>, k: nat)
    requires k < |Flat(args)| && ExecScript(net, p, Flat(args)[k]).outcome.Err?
    requires forall i :: 0 <= i < k ==> ExecScript(net, p, Flat(args)[i]).outcome.Ok?
    ensures Exec(net, p, args).outcome == ExecScript(net, p, Flat(args)[k]).outcome
    ensures Exec(net, p, args).trace == Misc.Flatten(ScriptTraces(net, p, Flat(args)[..k + 1]))
  {
    var scripts := Flat(args);
    var ps := ScriptProviders(net, p, scripts);
    assert Misc.AllFulfil(ps[..k]) by {
      forall i | 0 <= i < k
        ensures ps[..k][i]().outcome.Ok?
      {
        assert ps[..k][i] == ps[i];
      }
    }
    Misc.ChainFirstRejection(ps, Misc.Ignore, (), k);
    Misc.TracesFlatten(ps[..k + 1]);
    assert Misc.TraceList(ps[..k + 1]) == ScriptTraces(net, p, scripts[..k + 1]);
  }
}
