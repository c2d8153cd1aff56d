/**
 * The status report of the command line tools, tools/status.js: a level,
 * messages, and child statuses whose levels a parent is meant to summarise.
 */
module Statuses {
  import opened Wrappers
  import opened Js

  /** `StatusEnum` */
  const LevelOk := 0
  const LevelWarning := 1
  const LevelError := 2

  /** A level is one of `StatusEnum`'s; `createStatus` itself accepts any. */
  predicate Known(level: int) {
    LevelOk <= level <= LevelError
  }

  datatype Status = Status(level: int, messages: seq<string>, children: seq<Status>)

  /** `createStatus(level, ...messages)`: the messages in order, no child. */
  function CreateStatus(level: int, messages: seq<string>): (s: Status)
    ensures s.level == level && s.messages == messages && s.children == []
  {
    Status(level, messages, [])
  }

  /** `addChild(status)`: appended last, the rest unchanged. */
  function AddChild(s: Status, child: Status): (t: Status)
    ensures t.level == s.level && t.messages == s.messages
    ensures |t.children| == |s.children| + 1 && t.children[|s.children|] == child
    ensures t.children[..|s.children|] == s.children
  {
    Status(s.level, s.messages, s.children + [child])
  }

  // ---------------------------------------------------------------------------
  // The level, as written
  // ---------------------------------------------------------------------------

  /** `hasChildren()` evaluates a comparison and returns nothing: `undefined`. */
  function HasChildrenAsWritten(s: Status): (v: Value)
    ensures !Truthy(v)
  {
    Undefined
  }

  /**
   * `getLevel()` as written: since `hasChildren()` is falsy, it takes the
   * else branch and returns the status's own level (`None` would stand for
   * the `undefined` the other branch, which has no `return`, would yield).
   */
  function GetLevelAsWritten(s: Status): (l: Option<int>)
    ensures l == Some(s.level)
  {
    if Truthy(HasChildrenAsWritten(s)) then None else Some(s.level)
  }

  /** `isOk()` as written. */
  predicate IsOkAsWritten(s: Status) {
    GetLevelAsWritten(s) == Some(LevelOk)
  }

  /** A status whose own level is ok is reported ok even when a child failed. */
  lemma ChildErrorIgnored(message: string)
    ensures var s := AddChild(CreateStatus(LevelOk, []), CreateStatus(LevelError, [message]));
      IsOkAsWritten(s) && !IsOk(s)
  {
    var s := AddChild(CreateStatus(LevelOk, []), CreateStatus(LevelError, [message]));
    assert s.children == [Status(LevelError, [message], [])];
    assert GetLevel(s.children[0]) == LevelError;
    assert Worst(s, 0, LevelOk) == LevelError;
  }

  // ---------------------------------------------------------------------------
  // The level, as intended
  // ---------------------------------------------------------------------------

  /** `hasChildren()` returning `0 < children.length`. */
  predicate HasChildren(s: Status) {
    |s.children| > 0
  }

  /**
   * `getLevel()` returning what it computes: with children, the worst of
   * their levels, the scan stopping at the first error; without, the own
   * level.
   */
  function GetLevel(s: Status): int
    decreases s, 1
  {
    if HasChildren(s) then Worst(s, 0, LevelOk) else s.level
  }

  /** The loop over the children from `i` on, `level` the worst so far. */
  function Worst(s: Status, i: nat, level: int): int
    requires i <= |s.children|
    decreases s, 0, |s.children| - i
  {
    if i == |s.children| then level
    else
      var current := GetLevel(s.children[i]);
      var level' := if level < current then current else level;
      if current == LevelError then level' else Worst(s, i + 1, level')
  }

  /** `isOk()` */
  predicate IsOk(s: Status) {
    GetLevel(s) == LevelOk
  }

  /** Every level in the status tree is one of `StatusEnum`'s. */
  predicate AllKnown(s: Status)
    decreases s
  {
    Known(s.level) && forall i :: 0 <= i < |s.children| ==> AllKnown(s.children[i])
  }

  /** The larger of `level` and every `levels[k]`. */
  function MaxFrom(level: int, levels: seq<int>): (m: int)
    ensures m >= level && forall k :: 0 <= k < |levels| ==> m >= levels[k]
    ensures m == level || exists k :: 0 <= k < |levels| && m == levels[k]
    decreases |levels|
  {
    if |levels| == 0 then level
    else
      var m := MaxFrom(if level < levels[0] then levels[0] else level, levels[1..]);
      assert forall k :: 1 <= k < |levels| ==> levels[k] == levels[1..][k - 1];
      m
  }

  /** The children's levels. */
  function ChildLevels(s: Status): (ls: seq<int>)
    ensures |ls| == |s.children|
    ensures forall k :: 0 <= k < |ls| ==> ls[k] == GetLevel(s.children[k])
  {
    seq(|s.children|, k requires 0 <= k < |s.children| => GetLevel(s.children[k]))
  }

  /** With known levels, the level is known and a parent's is the worst of its children's. */
  lemma {:induction false} LevelIsWorst(s: Status)
    requires AllKnown(s)
    ensures Known(GetLevel(s))
    ensures HasChildren(s) ==> GetLevel(s) == MaxFrom(LevelOk, ChildLevels(s))
    ensures !HasChildren(s) ==> GetLevel(s) == s.level
    decreases s, 1
  {
    if HasChildren(s) {
      WorstIsMax(s, 0, LevelOk);
      assert ChildLevels(s)[0..] == ChildLevels(s);
    }
  }

  /** The scan from `i` on, with the early stop, is the maximum of the remaining levels. */
  lemma {:induction false} WorstIsMax(s: Status, i: nat, level: int)
    requires AllKnown(s) && i <= |s.children| && Known(level)
    ensures Known(Worst(s, i, level))
    ensures Worst(s, i, level) == MaxFrom(level, ChildLevels(s)[i..])
    decreases s, 0, |s.children| - i
  {
    if i < |s.children| {
      var levels := ChildLevels(s)[i..];
      LevelIsWorst(s.children[i]);
      var current := GetLevel(s.children[i]);
      var level' := if level < current then current else level;
      assert levels[0] == current && levels[1..] == ChildLevels(s)[i + 1..];
      if current == LevelError {
        forall k | 0 <= k < |levels| - 1
          ensures Known(levels[1..][k])
        {
          LevelIsWorst(s.children[i + 1 + k]);
        }
        MaxAtError(level', levels[1..]);
      } else {
        WorstIsMax(s, i + 1, level');
      }
    }
  }

  /** Nothing known exceeds an error. */
  lemma {:induction false} MaxAtError(level: int, levels: seq<int>)
    requires level == LevelError
    requires forall k :: 0 <= k < |levels| ==> Known(levels[k])
    ensures MaxFrom(level, levels) == LevelError
    decreases |levels|
  {
    if |levels| > 0 {
      assert Known(levels[0]);
      assert forall k :: 0 <= k < |levels| - 1 ==> levels[1..][k] == levels[k + 1];
      MaxAtError(level, levels[1..]);
    }
  }

  /** With known levels, a parent is ok exactly when all its children are. */
  lemma OkIffChildrenOk(s: Status)
    requires AllKnown(s) && HasChildren(s)
    ensures IsOk(s) <==> forall k :: 0 <= k < |s.children| ==> IsOk(s.children[k])
  {
    LevelIsWorst(s);
    var ls := ChildLevels(s);
    forall k | 0 <= k < |s.children|
      ensures Known(ls[k])
    {
      LevelIsWorst(s.children[k]);
    }
  }

  // ---------------------------------------------------------------------------
  // Display
  // ---------------------------------------------------------------------------

  /** The tag `display` shows for the own level. */
  function Tag(level: int): (t: string)
    ensures level == LevelOk <==> t == "OK"
    ensures level == LevelWarning <==> t == "WARNING"
    ensures level == LevelError <==> t == "KO"
    ensures !Known(level) <==> t == "??"
  {
    if level == LevelOk then "OK"
    else if level == LevelWarning then "WARNING"
    else if level == LevelError then "KO"
    else "??"
  }

  /**
   * `display()` without its colours: the tag of the own level, then the
   * first message when `getLevel()`, as written, reports a level that is not
   * ok. Since that is the own level, the children play no part.
   */
  function Display(s: Status): (d: string)
    ensures s.level == LevelOk || |s.messages| == 0 ==> d == Tag(s.level)
    ensures s.level != LevelOk && |s.messages| > 0 ==> d == Tag(s.level) + " " + s.messages[0]
  {
    Tag(s.level) + (if GetLevelAsWritten(s) != Some(LevelOk) && |s.messages| > 0 then " " + s.messages[0] else "")
  }

  /** `display()` with the corrected `getLevel()`: the message follows the children's worst level. */
  function DisplayIntended(s: Status): (d: string)
    ensures |s.messages| == 0 || GetLevel(s) == LevelOk ==> d == Tag(s.level)
    ensures |s.messages| > 0 && GetLevel(s) != LevelOk ==> d == Tag(s.level) + " " + s.messages[0]
  {
    Tag(s.level) + (if GetLevel(s) != LevelOk && |s.messages| > 0 then " " + s.messages[0] else "")
  }

  /** The two displays differ only for a status with children. */
  lemma DisplayAgreesWithoutChildren(s: Status)
    ensures !HasChildren(s) ==> Display(s) == DisplayIntended(s)
  {
  }

  /** A warning with an ok child: as written its message is shown, corrected it is not. */
  lemma DisplayWarningOverOkChild(message: string)
    ensures var s := AddChild(CreateStatus(LevelWarning, [message]), CreateStatus(LevelOk, []));
      Display(s) == "WARNING " + message && DisplayIntended(s) == "WARNING"
  {
    var s := AddChild(CreateStatus(LevelWarning, [message]), CreateStatus(LevelOk, []));
    assert s.children == [Status(LevelOk, [], [])];
    assert GetLevel(s.children[0]) == LevelOk;
    assert Worst(s, 1, LevelOk) == LevelOk;
    assert Worst(s, 0, LevelOk) == LevelOk;
  }

  /** A failed check with a reason shows `KO` and the reason. */
  lemma DisplayError(reason: string, more: seq<string>)
    ensures Display(CreateStatus(LevelError, [reason] + more)) == "KO " + reason
  {
  }
}
