/**
 * The builder of the earlier revision, lib/Script.js: each call records an
 * `{ id, values }` action, where `values` is the call's argument list, and
 * the selection is stored as given, with no `'all'` normalisation.
 */
module LegacyScripts {
  import opened Js

  /** A motor-id argument: a name, or an array of names. */
  datatype MotorId = One(name: string) | Many(names: seq<string>)

  /** `{ id, values }` */
  datatype Action = Action(id: string, values: seq<Value>)

  datatype ActionHandler = ActionHandler(motors: seq<MotorId>, actions: seq<Action>)

  datatype Script = Script(handlers: seq<ActionHandler>)

  predicate Valid(s: Script) {
    |s.handlers| > 0
  }

  /** The names the arguments carry, arrays read element by element. */
  function NamesIn(ids: seq<MotorId>): seq<string>
    decreases |ids|
  {
    if |ids| == 0 then []
    else
      (match ids[0]
       case One(n) => [n]
       case Many(ns) => ns) + NamesIn(ids[1..])
  }

  /** Each name as an argument on its own. */
  function Ones(names: seq<string>): (ids: seq<MotorId>)
    ensures |ids| == |names|
    ensures forall i :: 0 <= i < |names| ==> ids[i] == One(names[i])
  {
    seq(|names|, i requires 0 <= i < |names| => One(names[i]))
  }

  /** `[].concat(...motorIds)`: arrays among the arguments are spliced in, one level deep. */
  function Spread(ids: seq<MotorId>): (r: seq<MotorId>)
    ensures |r| == |NamesIn(ids)|
    ensures forall i :: 0 <= i < |r| ==> r[i] == One(NamesIn(ids)[i])
    decreases |ids|
  {
    if |ids| == 0 then []
    else
      var head := match ids[0] case One(n) => [One(n)] case Many(ns) => Ones(ns);
      var rest := Spread(ids[1..]);
      assert NamesIn(ids) == (match ids[0] case One(n) => [n] case Many(ns) => ns) + NamesIn(ids[1..]);
      head + rest
  }

  /** `new ActionHandler(motorIds)`: the spread selection, no action yet. */
  function NewHandler(ids: seq<MotorId>): ActionHandler {
    ActionHandler(Spread(ids), [])
  }

  /** `hasMotorSet()`: the selection is not empty. */
  predicate HasMotorSet(h: ActionHandler) {
    |h.motors| != 0
  }

  /** `new Script(...motorIds)`: one handler, selecting the spread arguments. */
  function NewScript(ids: seq<MotorId>): (s: Script)
    ensures Valid(s) && |s.handlers| == 1
    ensures s.handlers[0].actions == []
    ensures |s.handlers[0].motors| == |NamesIn(ids)|
    ensures forall i :: 0 <= i < |NamesIn(ids)| ==> s.handlers[0].motors[i] == One(NamesIn(ids)[i])
  {
    Script([NewHandler(ids)])
  }

  /** `_getCurrentActionHandler()`: the last handler. */
  function Current(s: Script): ActionHandler
    requires Valid(s)
  {
    s.handlers[|s.handlers| - 1]
  }

  /**
   * `select(...motorIds)`: a current handler with no selection takes the
   * arguments in place, as given and not spread, and keeps its actions;
   * otherwise a new handler, with the spread arguments, is pushed.
   */
  function Select(s: Script, ids: seq<MotorId>): (t: Script)
    requires Valid(s)
    ensures Valid(t)
    ensures !HasMotorSet(Current(s)) ==>
      && |t.handlers| == |s.handlers|
      && Current(t) == ActionHandler(ids, Current(s).actions)
    ensures HasMotorSet(Current(s)) ==>
      && |t.handlers| == |s.handlers| + 1
      && Current(t).actions == []
      && Current(t).motors == Ones(NamesIn(ids))
    ensures forall i :: 0 <= i < |s.handlers| - 1 ==> t.handlers[i] == s.handlers[i]
    ensures HasMotorSet(Current(s)) ==> t.handlers[|s.handlers| - 1] == Current(s)
  {
    var n := |s.handlers| - 1;
    var current := Current(s);
    if !HasMotorSet(current) then Script(s.handlers[n := ActionHandler(ids, current.actions)])
    else Script(s.handlers + [NewHandler(ids)])
  }

  /** The builder call recorded `a` on the last handler and changed nothing else. */
  predicate Appended(s: Script, t: Script, a: Action)
    requires Valid(s)
  {
    && Valid(t) && |t.handlers| == |s.handlers|
    && Current(t).motors == Current(s).motors
    && Current(t).actions == Current(s).actions + [a]
    && forall i :: 0 <= i < |s.handlers| - 1 ==> t.handlers[i] == s.handlers[i]
  }

  /** `_addAction(id, ...values)` */
  function AddAction(s: Script, id: string, values: seq<Value>): (t: Script)
    requires Valid(s)
    ensures Appended(s, t, Action(id, values))
  {
    var current := Current(s);
    Script(s.handlers[|s.handlers| - 1 := ActionHandler(current.motors, current.actions + [Action(id, values)])])
  }

  /** `led(value)` records id `led`. */
  function Led(s: Script, value: Value): (t: Script)
    requires Valid(s)
    ensures Appended(s, t, Action("led", [value]))
  {
    AddAction(s, "led", [value])
  }

  /** `position(value, wait = true)`: an omitted `wait` is recorded as `true`. */
  function Position(s: Script, value: Value, wait: Value): (t: Script)
    requires Valid(s)
    ensures wait.Undefined? ==> Appended(s, t, Action("setPosition", [value, Bool(true)]))
    ensures !wait.Undefined? ==> Appended(s, t, Action("setPosition", [value, wait]))
  {
    AddAction(s, "setPosition", [value, DefaultArg(wait, Bool(true))])
  }

  /** `rotate(value, wait = true)`: an omitted `wait` is recorded as `true`. */
  function Rotate(s: Script, value: Value, wait: Value): (t: Script)
    requires Valid(s)
    ensures wait.Undefined? ==> Appended(s, t, Action("rotate", [value, Bool(true)]))
    ensures !wait.Undefined? ==> Appended(s, t, Action("rotate", [value, wait]))
  {
    AddAction(s, "rotate", [value, DefaultArg(wait, Bool(true))])
  }

  /** `speed(value)` records id `setSpeed`. */
  function Speed(s: Script, value: Value): (t: Script)
    requires Valid(s)
    ensures Appended(s, t, Action("setSpeed", [value]))
  {
    AddAction(s, "setSpeed", [value])
  }

  /** `compliant(value)` records id `setCompliant` with the value as given. */
  function Compliant(s: Script, value: Value): (t: Script)
    requires Valid(s)
    ensures Appended(s, t, Action("setCompliant", [value]))
  {
    AddAction(s, "setCompliant", [value])
  }

  /** `wait(value)` records id `wait`. */
  function WaitFor(s: Script, value: Value): (t: Script)
    requires Valid(s)
    ensures Appended(s, t, Action("wait", [value]))
  {
    AddAction(s, "wait", [value])
  }

  /**
   * The constructor spreads its arguments but `select` filling an empty
   * handler does not: an array given to `select` stays one element.
   */
  lemma SelectDoesNotSpread(names: seq<string>)
    requires |names| > 0
    ensures var s := Select(NewScript([]), [Many(names)]);
      Current(s).motors == [Many(names)] && Current(NewScript([Many(names)])).motors == Ones(names)
  {
    assert NamesIn([]) == [];
    assert NamesIn([Many(names)]) == names + NamesIn([]);
  }

  /** `'all'` is kept as an ordinary name: the selection is stored as given. */
  lemma AllKeptAsGiven(names: seq<string>)
    ensures Current(NewScript(Ones(names))).motors == Ones(names)
  {
    NamesOfOnes(names);
  }

  lemma {:induction false} NamesOfOnes(names: seq<string>)
    ensures NamesIn(Ones(names)) == names
    decreases |names|
  {
    if |names| > 0 {
      assert Ones(names)[1..] == Ones(names[1..]);
      NamesOfOnes(names[1..]);
    }
  }
}
