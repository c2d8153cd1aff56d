/**
 * The script execution of the earlier revision, lib/Poppy.js: no batching,
 * every action but `wait` fans out over the selected motors, and every step
 * is caught, whatever it fails on.
 */
module LegacyPoppy {
  import opened Wrappers
  import opened Js
  import opened Effects
  import opened LegacyScripts
  import Misc
  import Motor

  /** The robot as `_init` leaves it: `_all`, the motor names in descriptor order, each a property holding its handle. */
  datatype Robot = Robot(all: seq<string>)

  /** `_init`: one name in `_all`, and one handle, per descriptor motor. */
  function Init(motors: seq<Motor.MotorDescriptor>): (p: Robot)
    ensures |p.all| == |motors|
    ensures forall i :: 0 <= i < |motors| ==> p.all[i] == motors[i].name
  {
    Robot(seq(|motors|, i requires 0 <= i < |motors| => motors[i].name))
  }

  /** A property name reaches a motor handle when it is one of the motor names. */
  predicate HasMotor(p: Robot, key: string) {
    key in p.all
  }

  /**
   * `getAllMotorIds()`: a copy of `_all`. Every motor of the descriptor is
   * listed, and only those, in order.
   */
  lemma AllMotorIds(motors: seq<Motor.MotorDescriptor>, name: string)
    ensures HasMotor(Init(motors), name) <==> exists i :: 0 <= i < |motors| && motors[i].name == name
  {
    var p := Init(motors);
    if HasMotor(p, name) {
      var i :| 0 <= i < |p.all| && p.all[i] == name;
      assert motors[i].name == name;
    }
  }

  // ---------------------------------------------------------------------------
  // Expansion
  // ---------------------------------------------------------------------------

  /** `{ motor, id, values }`, where `motor` is `undefined` when the robot has no motor. */
  datatype Step = Step(motor: Option<MotorId>, id: string, values: seq<Value>)

  /** The selection is all motors only when its first element is exactly `'all'`. */
  predicate FirstIsAll(motors: seq<MotorId>) {
    |motors| > 0 && motors[0] == One("all")
  }

  /** The handler's target motors: `_all` when its first element is `'all'`, its selection as stored otherwise. */
  function Targets(p: Robot, h: ActionHandler): (ms: seq<MotorId>)
    ensures FirstIsAll(h.motors) ==> ms == Ones(p.all)
    ensures !FirstIsAll(h.motors) ==> ms == h.motors
  {
    if FirstIsAll(h.motors) then Ones(p.all) else h.motors
  }

  /** `_all[0]` */
  function FirstMotor(p: Robot): Option<MotorId> {
    if |p.all| > 0 then Some(One(p.all[0])) else None
  }

  /** How many steps an action makes over `n` targets: one for `wait`, `n` otherwise. */
  function Weight(a: Action, n: nat): nat {
    if a.id == "wait" then 1 else n
  }

  /**
   * One action's steps: a `wait` once, on the robot's first motor, whatever
   * the selection; any other action once per target motor, in order, with
   * the recorded values as arguments.
   */
  function ActionSteps(p: Robot, targets: seq<MotorId>, a: Action): (steps: seq<Step>)
    ensures |steps| == Weight(a, |targets|)
    ensures forall i :: 0 <= i < |steps| ==> steps[i].id == a.id && steps[i].values == a.values
    ensures a.id == "wait" ==> steps[0].motor == FirstMotor(p)
    ensures a.id != "wait" ==> forall i :: 0 <= i < |targets| ==> steps[i].motor == Some(targets[i])
  {
    if a.id == "wait" then [Step(FirstMotor(p), a.id, a.values)]
    else seq(|targets|, i requires 0 <= i < |targets| => Step(Some(targets[i]), a.id, a.values))
  }

  function ActionStepLists(p: Robot, targets: seq<MotorId>, actions: seq<Action>): (ls: seq<seq<Step>>)
    ensures |ls| == |actions|
    ensures forall i :: 0 <= i < |actions| ==> ls[i] == ActionSteps(p, targets, actions[i])
  {
    seq(|actions|, i requires 0 <= i < |actions| => ActionSteps(p, targets, actions[i]))
  }

  function HandlerSteps(p: Robot, h: ActionHandler): seq<Step> {
    Misc.Flatten(ActionStepLists(p, Targets(p, h), h.actions))
  }

  function HandlerStepLists(p: Robot, hs: seq<ActionHandler>): (ls: seq<seq<Step>>)
    ensures |ls| == |hs|
    ensures forall i :: 0 <= i < |hs| ==> ls[i] == HandlerSteps(p, hs[i])
  {
    seq(|hs|, i requires 0 <= i < |hs| => HandlerSteps(p, hs[i]))
  }

  /** The elements `_exec(script)` runs: handler after handler, action after action, motor after motor. */
  function Steps(p: Robot, s: Script): seq<Step> {
    Misc.Flatten(HandlerStepLists(p, s.handlers))
  }

  function ActionsWeight(actions: seq<Action>, n: nat): nat
    decreases |actions|
  {
    if |actions| == 0 then 0 else Weight(actions[0], n) + ActionsWeight(actions[1..], n)
  }

  function HandlersWeight(p: Robot, hs: seq<ActionHandler>): nat
    decreases |hs|
  {
    if |hs| == 0 then 0 else ActionsWeight(hs[0].actions, |Targets(p, hs[0])|) + HandlersWeight(p, hs[1..])
  }

  lemma {:induction false} ActionStepCount(p: Robot, targets: seq<MotorId>, actions: seq<Action>)
    ensures |Misc.Flatten(ActionStepLists(p, targets, actions))| == ActionsWeight(actions, |targets|)
    decreases |actions|
  {
    if |actions| > 0 {
      assert ActionStepLists(p, targets, actions)[1..] == ActionStepLists(p, targets, actions[1..]);
      ActionStepCount(p, targets, actions[1..]);
    }
  }

  /** A script makes one step per `wait` and one per target motor for every other action, `position` and `rotate` included. */
  lemma {:induction false} StepCount(p: Robot, hs: seq<ActionHandler>)
    ensures |Steps(p, Script(hs))| == HandlersWeight(p, hs)
    decreases |hs|
  {
    if |hs| > 0 {
      assert HandlerStepLists(p, hs)[1..] == HandlerStepLists(p, hs[1..]);
      StepCount(p, hs[1..]);
      ActionStepCount(p, Targets(p, hs[0]), hs[0].actions);
    }
  }

  // ---------------------------------------------------------------------------
  // Execution
  // ---------------------------------------------------------------------------

  /** `names.join(',')`, the property name an array of names converts to. */
  function Join(names: seq<string>): string
    decreases |names|
  {
    if |names| == 0 then ""
    else if |names| == 1 then names[0]
    else names[0] + "," + Join(names[1..])
  }

  /** The property name `this[motor]` looks up: `'undefined'` for an absent motor. */
  function Key(motor: Option<MotorId>): string {
    match motor
    case None => "undefined"
    case Some(One(n)) => n
    case Some(Many(ns)) => Join(ns)
  }

  /**
   * The effect of calling method `id` of the named motor's handle with the
   * given arguments. The handle class the earlier revision called is not part
   * of this model, so its methods are a parameter; one that does not exist
   * rejects.
   */
  type Invoke = (string, string, seq<Value>) -> Run<()>

  function Logged(message: string): () {
    ()
  }

  /**
   * `acc.then(_ => this[motor][id](...values)).catch(log)`: a motor that is
   * not there is a TypeError, and it is caught and logged like any other failure.
   */
  function RunStep(invoke: Invoke, p: Robot, st: Step): (r: Run<()>)
    ensures r.outcome.Ok?
    ensures !HasMotor(p, Key(st.motor)) ==> r.trace == []
    ensures HasMotor(p, Key(st.motor)) ==> r.trace == invoke(Key(st.motor), st.id, st.values).trace
  {
    var key := Key(st.motor);
    Catch(if HasMotor(p, key) then invoke(key, st.id, st.values) else Reject(TypeError), Logged)
  }

  function StepProviders(invoke: Invoke, p: Robot, steps: seq<Step>): (ps: seq<() -> Run<()>>)
    ensures |ps| == |steps|
    ensures forall i :: 0 <= i < |steps| ==> ps[i]() == RunStep(invoke, p, steps[i])
  {
    seq(|steps|, i requires 0 <= i < |steps| => () => RunStep(invoke, p, steps[i]))
  }

  /** `_exec(script)`: the steps chained, each caught. */
  function ExecScript(invoke: Invoke, p: Robot, s: Script): Run<()> {
    Misc.Chain(StepProviders(invoke, p, Steps(p, s)), Misc.Ignore, ())
  }

  function StepTraces(invoke: Invoke, p: Robot, steps: seq<Step>): (ts: seq<seq<Event>>)
    ensures |ts| == |steps|
    ensures forall i :: 0 <= i < |steps| ==> ts[i] == RunStep(invoke, p, steps[i]).trace
  {
    seq(|steps|, i requires 0 <= i < |steps| => RunStep(invoke, p, steps[i]).trace)
  }

  function ScriptProviders(invoke: Invoke, p: Robot, scripts: seq<Script>): (ps: seq<() -> Run<()>>)
    ensures |ps| == |scripts|
    ensures forall i :: 0 <= i < |scripts| ==> ps[i]() == ExecScript(invoke, p, scripts[i])
  {
    seq(|scripts|, i requires 0 <= i < |scripts| => () => ExecScript(invoke, p, scripts[i]))
  }

  /** `exec(...scripts)`: the scripts one after the other, then the robot itself. */
  function Exec(invoke: Invoke, p: Robot, scripts: seq<Script>): Run<Robot> {
    MapRun(Misc.Chain(ScriptProviders(invoke, p, scripts), Misc.Ignore, ()), (_: ()) => p)
  }

  /** Every step runs, whatever failed before it: a script never rejects. */
  lemma ExecScriptRunsEveryStep(invoke: Invoke, p: Robot, s: Script)
    ensures ExecScript(invoke, p, s) == Run(Misc.Flatten(StepTraces(invoke, p, Steps(p, s))), Ok(()))
  {
    var steps := Steps(p, s);
    var ps := StepProviders(invoke, p, steps);
    assert Misc.AllFulfil(ps);
    Misc.ChainAllFulfil(ps, Misc.Ignore, ());
    Misc.TracesFlatten(ps);
    assert Misc.TraceList(ps) == StepTraces(invoke, p, steps);
    var c := Misc.Chain(ps, Misc.Ignore, ());
    var u: () := c.outcome.value;
    assert u == ();
  }

  function ScriptTraces(invoke: Invoke, p: Robot, scripts: seq<Script>): (ts: seq<seq<Event>>)
    ensures |ts| == |scripts|
    ensures forall i :: 0 <= i < |scripts| ==> ts[i] == ExecScript(invoke, p, scripts[i]).trace
  {
    seq(|scripts|, i requires 0 <= i < |scripts| => ExecScript(invoke, p, scripts[i]).trace)
  }

  /** `exec` runs every script, in argument order, and resolves to the robot. */
  lemma ExecRunsEveryScript(invoke: Invoke, p: Robot, scripts: seq<Script>)
    ensures Exec(invoke, p, scripts) == Run(Misc.Flatten(ScriptTraces(invoke, p, scripts)), Ok(p))
  {
    var ps := ScriptProviders(invoke, p, scripts);
    assert Misc.AllFulfil(ps) by {
      forall i | 0 <= i < |ps|
        ensures ps[i]().outcome.Ok?
      {
        ExecScriptRunsEveryStep(invoke, p, scripts[i]);
      }
    }
    Misc.ChainAllFulfil(ps, Misc.Ignore, ());
    Misc.TracesFlatten(ps);
    assert Misc.TraceList(ps) == ScriptTraces(invoke, p, scripts);
  }

  // ---------------------------------------------------------------------------
  // Scenarios
  // ---------------------------------------------------------------------------

  /** A `wait` goes to the robot's first motor, not to the first selected one. */
  lemma WaitOnRobotFirstMotor(first: string, names: seq<string>, delay: Value)
    ensures var p := Robot([first] + names);
      var s := WaitFor(NewScript(Ones(names)), delay);
      Steps(p, s) == [Step(Some(One(first)), "wait", [delay])]
  {
    var p := Robot([first] + names);
    var s := WaitFor(NewScript(Ones(names)), delay);
    var h := s.handlers[0];
    assert s.handlers == [h];
    assert HandlerStepLists(p, s.handlers) == [HandlerSteps(p, h)];
    var ls := ActionStepLists(p, Targets(p, h), h.actions);
    assert ls == [[Step(Some(One(first)), "wait", [delay])]];
    assert Misc.Flatten(ls) == [Step(Some(One(first)), "wait", [delay])] + Misc.Flatten<Step>([]);
    assert Misc.Flatten([HandlerSteps(p, h)]) == HandlerSteps(p, h) + Misc.Flatten<Step>([]);
  }

  /**
   * `'all'` anywhere but first is an ordinary name: the handler targets what
   * it stores, and the step for `'all'` finds no motor of that name and is
   * dropped with nothing sent.
   */
  lemma AllOnlyFirst(invoke: Invoke, p: Robot, name: string, a: Action)
    requires "all" !in p.all
    ensures name == "all" ==> Targets(p, ActionHandler([One(name), One("all")], [a])) == Ones(p.all)
    ensures name != "all" ==> Targets(p, ActionHandler([One(name), One("all")], [a])) == [One(name), One("all")]
    ensures a.id != "wait" ==>
      var st := ActionSteps(p, [One(name), One("all")], a)[1];
      st.motor == Some(One("all")) && RunStep(invoke, p, st) == Run([], Ok(()))
  {
  }

  /** A `position` fans out: one `setPosition` step per selected motor, carrying the default `wait` of `true`. */
  lemma PositionFansOut(p: Robot, names: seq<string>, v: Value)
    requires |names| > 0 && names[0] != "all"
    ensures var s := Position(NewScript(Ones(names)), v, Undefined);
      && |Steps(p, s)| == |names|
      && forall i :: 0 <= i < |names| ==> Steps(p, s)[i] == Step(Some(One(names[i])), "setPosition", [v, Bool(true)])
  {
    var s := Position(NewScript(Ones(names)), v, Undefined);
    NamesOfOnes(names);
    var h := s.handlers[0];
    assert s.handlers == [h];
    assert h.motors == Ones(names);
    assert Targets(p, h) == Ones(names);
    var a := Action("setPosition", [v, Bool(true)]);
    assert h.actions == [a];
    assert HandlerStepLists(p, s.handlers) == [HandlerSteps(p, h)];
    assert ActionStepLists(p, Ones(names), h.actions) == [ActionSteps(p, Ones(names), a)];
    assert Misc.Flatten([ActionSteps(p, Ones(names), a)]) == ActionSteps(p, Ones(names), a) + Misc.Flatten<Step>([]);
    assert Misc.Flatten([HandlerSteps(p, h)]) == HandlerSteps(p, h) + Misc.Flatten<Step>([]);
  }
}
