/**
 * The two revisions side by side: the same builder calls, expanded by the
 * engine of lib/script/ScriptEngine.js and by lib/Poppy.js of the earlier
 * revision.
 */
module Revisions {
  import opened Js
  import Wrappers
  import opened Selections
  import Misc
  import Poppy
  import Scripts
  import Engine
  import LegacyScripts
  import LegacyPoppy

  /**
   * A `position` over n motors: the current engine batches it into one
   * `move` of the robot, the earlier one sends n `setPosition` steps.
   */
  lemma PositionStepCounts(lp: LegacyPoppy.Robot, cp: Poppy.Robot, names: seq<string>, v: Value)
    requires |names| > 0 && "all" !in names
    ensures |LegacyPoppy.Steps(lp, LegacyScripts.Position(LegacyScripts.NewScript(LegacyScripts.Ones(names)), v, Undefined))| == |names|
    ensures |Engine.Steps(cp, Scripts.Position(Scripts.NewScript(names), Scalar(v), Undefined))| == 1
  {
    LegacyPoppy.PositionFansOut(lp, names, v);
    var s0 := Scripts.NewScript(names);
    CurrentStartsEmpty(cp, names);
    var a := Scripts.Move(Scalar(v), Scripts.Timing(Wrappers.None, Bool(false)));
    assert Scripts.Position(s0, Scalar(v), Undefined) == Scripts.AddAction(s0, a);
    Engine.StepsOfAddAction(cp, s0, a);
  }

  /**
   * The robot's motors m1, m2, m3 and the selection m2, m3: the current
   * engine waits on m2, the first selected motor, the earlier one on m1,
   * the robot's first motor.
   */
  lemma WaitTargets(cp: Poppy.Robot, delay: Value)
    ensures Engine.Steps(cp, Scripts.WaitFor(Scripts.NewScript(["m2", "m3"]), delay))
            == [Engine.OnMotor(Engine.ToMotor("m2"), Engine.Pause(delay))]
    ensures LegacyPoppy.Steps(LegacyPoppy.Robot(["m1", "m2", "m3"]),
                              LegacyScripts.WaitFor(LegacyScripts.NewScript(LegacyScripts.Ones(["m2", "m3"])), delay))
            == [LegacyPoppy.Step(Wrappers.Some(LegacyScripts.One("m1")), "wait", [delay])]
  {
    LegacyPoppy.WaitOnRobotFirstMotor("m1", ["m2", "m3"], delay);
    assert ["m1"] + ["m2", "m3"] == ["m1", "m2", "m3"];
    var s0 := Scripts.NewScript(["m2", "m3"]);
    assert "all" !in ["m2", "m3"];
    CurrentStartsEmpty(cp, ["m2", "m3"]);
    Engine.StepsOfAddAction(cp, s0, Scripts.Wait(delay));
    assert Poppy.ToMotorNames(cp, Scripts.Current(s0).motors) == ["m2", "m3"];
  }

  /** A fresh script of the current builder has no step yet. */
  lemma CurrentStartsEmpty(p: Poppy.Robot, names: seq<string>)
    ensures Engine.Steps(p, Scripts.NewScript(names)) == []
  {
    var s := Scripts.NewScript(names);
    assert Engine.HandlerStepLists(p, s.handlers) == [[]];
    assert Misc.Flatten<Engine.Step>([[]]) == [];
  }
}
