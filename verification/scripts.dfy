/**
 * The fluent script builder of lib/script/Script.js: a script is a list of
 * action handlers, each a motor selection and the actions recorded for it, in
 * call order. Every builder call returns the updated script.
 */
module Scripts {
  import opened Wrappers
  import opened Js
  import opened Selections
  import Misc

  /** The optional timing of `goto` and `rotate`: `{ duration? , wait }`. */
  datatype Timing = Timing(duration: Option<Num>, wait: Value)

  /** One recorded action: its id and its parameters. */
  datatype Action =
    | SetLed(led: Value)
    | Move(positions: Arg, timing: Timing)
    | Rotate(angles: Arg, timing: Timing)
    | SetSpeed(speed: Value)
    | SetCompliant(compliant: bool)
    | Wait(wait: Value)

  /** The action's id, the name of the method the engine dispatches it to. */
  function Id(a: Action): string {
    match a
    case SetLed(_) => "setLed"
    case Move(_, _) => "move"
    case Rotate(_, _) => "rotate"
    case SetSpeed(_) => "setSpeed"
    case SetCompliant(_) => "setCompliant"
    case Wait(_) => "wait"
  }

  /** A motor selection and the actions recorded for it. */
  datatype ActionHandler = ActionHandler(motors: Selection, actions: seq<Action>)

  /** A script: never without a handler, the last one being the current one. */
  datatype Script = Script(handlers: seq<ActionHandler>)

  predicate Valid(s: Script) {
    |s.handlers| > 0
  }

  /** The `motors` setter: a list holding `'all'` is stored as `'all'`, any other list as it is. */
  function Normalise(names: seq<string>): (sel: Selection)
    ensures sel.All? <==> "all" in names
    ensures sel.Names? ==> sel.names == names
  {
    if "all" in names then All else Names(names)
  }

  /** `new ActionHandler(motorNames)` */
  function NewHandler(names: seq<string>): (h: ActionHandler)
    ensures h.motors == Normalise(names) && h.actions == []
  {
    ActionHandler(Normalise(names), [])
  }

  /** `hasMotorSet()`: a selection of length other than 0 (the string `'all'` has length 3). */
  predicate HasMotorSet(h: ActionHandler) {
    h.motors.All? || |h.motors.names| != 0
  }

  /** `new Script(...motorNames)`: one handler, selecting `motorNames`, with no action. */
  function NewScript(names: seq<string>): (s: Script)
    ensures Valid(s) && |s.handlers| == 1
    ensures s.handlers[0].motors == Normalise(names) && s.handlers[0].actions == []
  {
    Script([NewHandler(names)])
  }

  /** `_getCurrentActionHandler()`: the last handler. */
  function Current(s: Script): ActionHandler
    requires Valid(s)
  {
    s.handlers[|s.handlers| - 1]
  }

  /**
   * `select(...motorNames)`: a current handler without motors is given this
   * selection in place (its actions are kept); otherwise a new handler with
   * this selection and no action is pushed.
   */
  function Select(s: Script, names: seq<string>): (t: Script)
    requires Valid(s)
    ensures Valid(t)
    ensures !HasMotorSet(Current(s)) ==>
      && |t.handlers| == |s.handlers|
      && Current(t) == ActionHandler(Normalise(names), Current(s).actions)
    ensures HasMotorSet(Current(s)) ==>
      && |t.handlers| == |s.handlers| + 1
      && Current(t) == NewHandler(names)
    ensures forall i :: 0 <= i < |s.handlers| - 1 ==> t.handlers[i] == s.handlers[i]
    ensures HasMotorSet(Current(s)) ==> t.handlers[|s.handlers| - 1] == Current(s)
  {
    var current := Current(s);
    if !HasMotorSet(current) then
      Script(s.handlers[|s.handlers| - 1 := ActionHandler(Normalise(names), current.actions)])
    else
      Script(s.handlers + [NewHandler(names)])
  }

  /** `_addAction(id, param)`: the action is appended to the current handler; nothing else changes. */
  function AddAction(s: Script, a: Action): (t: Script)
    requires Valid(s)
    ensures Valid(t) && |t.handlers| == |s.handlers|
    ensures Current(t).motors == Current(s).motors
    ensures Current(t).actions == Current(s).actions + [a]
    ensures forall i :: 0 <= i < |s.handlers| - 1 ==> t.handlers[i] == s.handlers[i]
  {
    var current := Current(s);
    Script(s.handlers[|s.handlers| - 1 := ActionHandler(current.motors, current.actions + [a])])
  }

  /**
   * `_toParameters(value, duration, wait)`: a number (NaN included) in second
   * position is the duration, and then the third argument is the wait flag;
   * anything else in second position is itself the wait flag.
   */
  function ToParameters(duration: Value, wait: Value): (t: Timing)
    ensures duration.Number? ==> t == Timing(Some(duration.n), wait)
    ensures !duration.Number? ==> t == Timing(None, duration)
  {
    if duration.Number? then Timing(Some(duration.n), wait) else Timing(None, duration)
  }

  /** `t` is `s` with `a` appended to its current handler, and nothing else changed. */
  predicate Appended(s: Script, t: Script, a: Action)
    requires Valid(s)
  {
    && Valid(t) && |t.handlers| == |s.handlers|
    && Current(t) == ActionHandler(Current(s).motors, Current(s).actions + [a])
    && forall i :: 0 <= i < |s.handlers| - 1 ==> t.handlers[i] == s.handlers[i]
  }

  /** `led(value)`: records `setLed { led: value }`. */
  function Led(s: Script, value: Value): (t: Script)
    requires Valid(s)
    ensures Appended(s, t, SetLed(value)) && Id(SetLed(value)) == "setLed"
  {
    AddAction(s, SetLed(value))
  }

  /**
   * `goto(value, duration, wait = false)`: records `move`; a numeric duration
   * comes with the wait flag (false when omitted), anything else in its place
   * is the wait flag, without duration.
   */
  function Goto(s: Script, value: Arg, duration: Value, wait: Value): (t: Script)
    requires Valid(s)
    ensures duration.Number? ==> Appended(s, t, Move(value, Timing(Some(duration.n), DefaultArg(wait, Bool(false)))))
    ensures !duration.Number? ==> Appended(s, t, Move(value, Timing(None, duration)))
  {
    AddAction(s, Move(value, ToParameters(duration, DefaultArg(wait, Bool(false)))))
  }

  /**
   * `position(value, wait = false)`: `goto(value, wait)`. Its flag thus lands
   * in `goto`'s duration slot: omitted, it records `wait: false`; a number
   * there is taken as a duration.
   */
  function Position(s: Script, value: Arg, wait: Value): (t: Script)
    requires Valid(s)
    ensures wait.Number? ==> Appended(s, t, Move(value, Timing(Some(wait.n), Bool(false))))
    ensures !wait.Number? ==> Appended(s, t, Move(value, Timing(None, DefaultArg(wait, Bool(false)))))
  {
    Goto(s, value, DefaultArg(wait, Bool(false)), Undefined)
  }

  /** `rotate(value, duration, wait = false)`: records `rotate`, with `goto`'s reading of the optional arguments. */
  function RotateBy(s: Script, value: Arg, duration: Value, wait: Value): (t: Script)
    requires Valid(s)
    ensures duration.Number? ==> Appended(s, t, Rotate(value, Timing(Some(duration.n), DefaultArg(wait, Bool(false)))))
    ensures !duration.Number? ==> Appended(s, t, Rotate(value, Timing(None, duration)))
  {
    AddAction(s, Rotate(value, ToParameters(duration, DefaultArg(wait, Bool(false)))))
  }

  /** `speed(value)`: records `setSpeed { speed: value }`. */
  function Speed(s: Script, value: Value): (t: Script)
    requires Valid(s)
    ensures Appended(s, t, SetSpeed(value))
  {
    AddAction(s, SetSpeed(value))
  }

  /** `compliant()`: records `setCompliant { compliant: true }`. */
  function Compliant(s: Script): (t: Script)
    requires Valid(s)
    ensures Appended(s, t, SetCompliant(true))
  {
    SetCompliantTo(s, true)
  }

  /** `stiff()`: records `setCompliant { compliant: false }`. */
  function Stiff(s: Script): (t: Script)
    requires Valid(s)
    ensures Appended(s, t, SetCompliant(false))
  {
    SetCompliantTo(s, false)
  }

  /** `_compliant(value)` */
  function SetCompliantTo(s: Script, value: bool): Script
    requires Valid(s)
  {
    AddAction(s, SetCompliant(value))
  }

  /** `wait(value)`: records `wait { wait: value }`. */
  function WaitFor(s: Script, value: Value): (t: Script)
    requires Valid(s)
    ensures Appended(s, t, Wait(value))
  {
    AddAction(s, Wait(value))
  }

  // ---------------------------------------------------------------------------
  // A script as the sequence of calls that built it
  // ---------------------------------------------------------------------------

  /** A builder call: a selection, or the recording of one action. */
  datatype Call = Choose(names: seq<string>) | Record(action: Action)

  function Apply(s: Script, c: Call): (t: Script)
    requires Valid(s)
    ensures Valid(t)
  {
    match c
    case Choose(names) => Select(s, names)
    case Record(a) => AddAction(s, a)
  }

  /** The script the calls build, one after the other, from `s`. */
  function Build(s: Script, calls: seq<Call>): (t: Script)
    requires Valid(s)
    ensures Valid(t)
    decreases |calls|
  {
    if |calls| == 0 then s else Build(Apply(s, calls[0]), calls[1..])
  }

  /** The actions the calls record, in call order. */
  function Recorded(calls: seq<Call>): seq<Action>
    decreases |calls|
  {
    if |calls| == 0 then []
    else (if calls[0].Record? then [calls[0].action] else []) + Recorded(calls[1..])
  }

  /** The number of selections among the calls. */
  function SelectCount(calls: seq<Call>): nat
    decreases |calls|
  {
    if |calls| == 0 then 0 else (if calls[0].Choose? then 1 else 0) + SelectCount(calls[1..])
  }

  function ActionLists(hs: seq<ActionHandler>): (ls: seq<seq<Action>>)
    ensures |ls| == |hs| && forall i :: 0 <= i < |hs| ==> ls[i] == hs[i].actions
  {
    seq(|hs|, i requires 0 <= i < |hs| => hs[i].actions)
  }

  /** Every action of the script, handler after handler. */
  function AllActions(s: Script): seq<Action> {
    Misc.Flatten(ActionLists(s.handlers))
  }

  /** A script split at its current handler: the handlers before it, then its actions. */
  lemma AllActionsSplit(s: Script)
    requires Valid(s)
    ensures AllActions(s) == Misc.Flatten(ActionLists(s.handlers[..|s.handlers| - 1])) + Current(s).actions
  {
    var n := |s.handlers| - 1;
    assert ActionLists(s.handlers) == ActionLists(s.handlers[..n]) + [Current(s).actions];
    Misc.FlattenConcat(ActionLists(s.handlers[..n]), [Current(s).actions]);
    assert Misc.Flatten([Current(s).actions]) == Current(s).actions + Misc.Flatten<Action>([]);
  }

  /** A selection moves no action: the in-place one keeps them, the pushed handler has none. */
  lemma SelectKeepsActions(s: Script, names: seq<string>)
    requires Valid(s)
    ensures AllActions(Select(s, names)) == AllActions(s)
  {
    var t := Select(s, names);
    var n := |s.handlers| - 1;
    AllActionsSplit(s);
    AllActionsSplit(t);
    if HasMotorSet(Current(s)) {
      assert t.handlers[..|t.handlers| - 1] == s.handlers;
      assert s.handlers == s.handlers[..n] + [Current(s)];
      assert ActionLists(s.handlers) == ActionLists(s.handlers[..n]) + [Current(s).actions];
      assert Current(t).actions == [];
    } else {
      assert t.handlers[..n] == s.handlers[..n];
    }
  }

  /** Recording an action appends it to the script's actions. */
  lemma AddActionAppends(s: Script, a: Action)
    requires Valid(s)
    ensures AllActions(AddAction(s, a)) == AllActions(s) + [a]
  {
    var t := AddAction(s, a);
    var n := |s.handlers| - 1;
    AllActionsSplit(s);
    AllActionsSplit(t);
    assert t.handlers[..n] == s.handlers[..n];
    Misc.Assoc(Misc.Flatten(ActionLists(s.handlers[..n])), Current(s).actions, [a]);
  }

  /**
   * Build order is kept: the actions of the script the calls build are the
   * script's own, then the recorded ones in call order; and each selection
   * adds at most one handler, no call removes one.
   */
  lemma BuildKeepsOrder(s: Script, calls: seq<Call>)
    requires Valid(s)
    ensures AllActions(Build(s, calls)) == AllActions(s) + Recorded(calls)
    ensures |s.handlers| <= |Build(s, calls).handlers| <= |s.handlers| + SelectCount(calls)
  {
    BuildKeepsActions(s, calls);
    BuildHandlerCount(s, calls);
  }

  lemma {:induction false} BuildKeepsActions(s: Script, calls: seq<Call>)
    requires Valid(s)
    ensures AllActions(Build(s, calls)) == AllActions(s) + Recorded(calls)
    decreases |calls|
  {
    if |calls| > 0 {
      BuildKeepsActions(Apply(s, calls[0]), calls[1..]);
      match calls[0]
      case Choose(names) =>
        SelectKeepsActions(s, names);
      case Record(a) =>
        AddActionAppends(s, a);
        Misc.Assoc(AllActions(s), [a], Recorded(calls[1..]));
    }
  }

  lemma {:induction false} BuildHandlerCount(s: Script, calls: seq<Call>)
    requires Valid(s)
    ensures |s.handlers| <= |Build(s, calls).handlers| <= |s.handlers| + SelectCount(calls)
    decreases |calls|
  {
    if |calls| > 0 {
      BuildHandlerCount(Apply(s, calls[0]), calls[1..]);
    }
  }

  /**
   * Actions recorded while no motor is selected belong to the selection made
   * next: a script started without motors and given actions, then a
   * selection, is still one handler holding those actions for that selection.
   */
  lemma ActionsBeforeFirstSelect(actions: seq<Action>, names: seq<string>)
    ensures var s := Build(NewScript([]), RecordAll(actions) + [Choose(names)]);
      s.handlers == [ActionHandler(Normalise(names), actions)]
  {
    BuildUnselected(actions);
    BuildAppend(NewScript([]), RecordAll(actions), [Choose(names)]);
  }

  function RecordAll(actions: seq<Action>): (cs: seq<Call>)
    ensures |cs| == |actions| && forall i :: 0 <= i < |actions| ==> cs[i] == Record(actions[i])
  {
    seq(|actions|, i requires 0 <= i < |actions| => Record(actions[i]))
  }

  lemma {:induction false} BuildUnselected(actions: seq<Action>)
    ensures Build(NewScript([]), RecordAll(actions)) == Script([ActionHandler(Names([]), actions)])
    decreases |actions|
  {
    if |actions| > 0 {
      var init := actions[..|actions| - 1];
      var last := actions[|actions| - 1];
      BuildUnselected(init);
      assert RecordAll(actions) == RecordAll(init) + [Record(last)];
      BuildAppend(NewScript([]), RecordAll(init), [Record(last)]);
      assert init + [last] == actions;
    }
  }

  lemma {:induction false} BuildAppend(s: Script, a: seq<Call>, b: seq<Call>)
    requires Valid(s)
    ensures Build(s, a + b) == Build(Build(s, a), b)
    decreases |a|
  {
    if |a| > 0 {
      assert (a + b)[1..] == a[1..] + b;
      BuildAppend(Apply(s, a[0]), a[1..], b);
    } else {
      assert a + b == b;
    }
  }
}
