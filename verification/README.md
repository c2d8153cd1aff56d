# poppy-robot-core: the script pipeline, in Dafny

A model of the core of poppy-robot-core, a JavaScript library that drives
Poppy robots (Dynamixel motors behind a REST server). It covers five parts.

- **The fluent script builder.** `new Script('m1').speed(100).goto(0)`
  records action handlers: a motor selection plus the actions recorded for it.
  Both the current revision (`lib/script/Script.js`) and the earlier one
  (`lib/Script.js`) are modelled.
- **The engine that runs scripts.** `lib/script/ScriptEngine.js` turns every
  action into `{ motor, id, values }` steps and chains them against the
  robot. The earlier revision's `_exec` in `lib/Poppy.js` is modelled too,
  and `revisions.dfy` compares the two.
- **The robot and its motors.** This covers `lib/poppy/Poppy.js`: the
  `'all'` keyword, `move`, `rotate`, `goto` and `query`. It also covers the
  motor handles of `lib/motor/*.js` and the request layer of `lib/request/*.js`:
  register writes with value normalisation, fault-isolated register reads and
  alias queries. `util/misc.js` supplies the `chainPromises` sequencing they
  all rely on.
- **The earlier request handler.** `lib/utils/PoppyRequestHandler.js` fills
  REST path templates (`:motor_name` placeholders).
- **Descriptors and command-line helpers.** Descriptor locators
  (`desc://…`, `file://…`) and live discovery come from
  `lib/utils/descriptor.js` and `lib/utils/descriptorFactory.js`. The status
  report and tree rendering come from `tools/status.js` and `tools/tree.js`.

**How effects are modelled.** Every asynchronous operation is a pure
function returning a `Run<T>`. A `Run` holds the ordered list of requests and
timers the operation issued (its trace) and how its promise settled. The
robot is an oracle `Net` from a request to a reply. The file system is
likewise an oracle from a file name to its parsed JSON. JavaScript scalars
are modelled as `Js.Value`, with `undefined`, `null`, numbers (NaN and the
infinities included), booleans and strings.

**Files.**

| file | content |
|---|---|
| `wrappers.dfy` | `Option` and `Result` |
| `js.dfy` | the JavaScript value semantics used |
| `effects.dfy` | `Run` and the `Net` oracle |
| `misc.dfy` | `chainPromises` and `wait` |
| `settings.dfy` | `getConfig` |
| `request.dfy` | the request handler |
| `motor.dfy` | motor handles |
| `selection.dfy` | motor selections |
| `poppy.dfy` | the robot |
| `scripts.dfy` | the current builder |
| `script_engine.dfy` | the engine |
| `legacy_script.dfy`, `legacy_poppy.dfy` | the earlier revision |
| `revisions.dfy` | the two revisions side by side |
| `url_template.dfy` | the earlier request handler |
| `descriptors.dfy` | descriptor reading and discovery |
| `status.dfy` | the status report |
| `tree.dfy` | tree rendering |

## Model

| member | source | states |
|---|---|---|
| Misc.ChainCons | util/misc.js:19-25 | One step of `chainPromises`: the first provider runs. If it rejects, the chain rejects with its error and its effects only. Otherwise the rest runs from the folded accumulator, after its effects. |
| Misc.ChainAllFulfil | util/misc.js:15-25 | When every provider fulfils, the chain issues all their effects in provider order and resolves to the left fold of `fn` over their results. |
| Misc.ChainFirstRejection | util/misc.js:19-25 | When provider k is the first to reject, only providers 0..k have run, and the chain rejects with provider k's error. |
| Misc.ChainCollectsInOrder | util/misc.js:15-18 | With the default `fn` (`concat`), the chain resolves to the accumulator followed by the providers' results, in order. |
| Misc.FoldSplice | util/misc.js:17 | When results are arrays, the default `concat` splices them: the fold is the accumulator followed by their concatenation. |
| Misc.ResultsAt | util/misc.js:20-22 | The values the chain folds are the providers' own results, position by position. |
| Misc.WaitFor | util/misc.js:33-37 | `wait(delay, res)` sets one timer of 1000 * delay milliseconds and resolves to `res`. |
| Js.Or | lib/motor/ExtMotorRequest.js:106 | `a \|\| b` is `a` when `a` is truthy, `b` otherwise. |
| Js.Coalesce | lib/motor/ExtMotorRequest.js:143-145 | `a ?? b` is `b` exactly when `a` is `null` or `undefined`. |
| Js.DefaultArg | lib/script/Script.js:113 | A default parameter replaces an argument that is `undefined`, and only then. |
| Js.TruncReal | lib/request/PoppyRequestHandler.js:147-149 | `Math.trunc` rounds toward zero: it lies within 1 of its argument, on zero's side. |
| Js.IntToStringRoundTrip | lib/request/PoppyRequestHandler.js:147-149 | The decimal text of an integer reads back to the integer, under both `Number` and `parseFloat`. |
| Js.ParseFloatAgreesWithNumber | lib/request/PoppyRequestHandler.js:147-149 | Where `Number` reads a string as finite, `parseFloat` agrees, with two exceptions: blank text is 0 for `Number` and NaN for `parseFloat`, and a `0x`/`0o`/`0b` literal is its value for `Number` and 0 for `parseFloat`. Surrounding white space and an exponent are read alike by both. |
| Js.TrimStart | lib/request/PoppyRequestHandler.js:147 | `parseFloat` skips leading white space: the rest is a suffix, what is dropped is white space, and the rest does not start with white space. |
| Js.TrimEnd | lib/request/PoppyRequestHandler.js:149 | `Number` drops trailing white space: the rest is a prefix, what is dropped is white space, and the rest does not end with white space. |
| Js.NumberWithExponent | lib/request/PoppyRequestHandler.js:149 | `Number("1e3")` is 1000. |
| Js.NumberTrimmed | lib/request/PoppyRequestHandler.js:149 | `Number(" 12 ")` is 12. |
| Js.NumberOfBlank | lib/request/PoppyRequestHandler.js:149 | `Number(" ")` is 0. |
| Js.NumberOfHex | lib/request/PoppyRequestHandler.js:149 | `Number("0x10")` is 16. |
| Js.NumberWithTrailer | lib/request/PoppyRequestHandler.js:149 | `Number("12abc")` is NaN. |
| Js.Plus | lib/poppy/Poppy.js:233 | `a + b`: with a string on either side, the two texts concatenated; otherwise the numeric sum. The result is a string exactly when an operand is one and both render. |
| Js.PlusExamples | lib/motor/ExtMotorRequest.js:85 | `"1" + "2"` and `"1" + 2` are `"12"`; `1 + 2` and `true + 2` are 3. |
| Js.StringifyIntegerRoundTrip | lib/request/PoppyRequestHandler.js:151-154 | `JSON.stringify` of an integer is defined and reads back to the integer. |
| Js.MaxOfFinite | lib/poppy/Poppy.js:172 | `Math.max` of finite numbers is one of them and bounds them all. |
| Settings.WithDefaults | lib/request/settings.js:36 | Merging the defaults with the user's settings gives the keys of both. A user field wins; a default shows through only where the user gave none. |
| Settings.GetConfig | lib/request/settings.js:35-41 | The merged settings plus `resolved`. It is the looked-up address when the host resolved, else the effective host; every other user field is kept as given. |
| Settings.DefaultConfig | lib/request/settings.js:19-23 | With nothing given and no DNS answer, the robot is `poppy.local:8080` with a 500 ms timeout, `resolved` to its own name. |
| Request.NewHandler | lib/request/PoppyRequestHandler.js:55-66 | The handler's settings are the merged defaults. Its base url is `http://host:port`, with the host taken from `resolved` when it is set. Its timeout is the effective one. |
| Request.DefaultHandler | lib/request/PoppyRequestHandler.js:55-66 | With no settings, requests go to `http://poppy.local:8080` with a 500 ms timeout. |
| Request.Perform | lib/request/PoppyRequestHandler.js:109-116 | One request is issued. A response resolves to its body; a transport failure rejects with `<method> <url>: <message>`. |
| Request.HttpPost | lib/request/PoppyRequestHandler.js:135 | The post's body is `data`, unless the extra config carries its own `data`, which wins. |
| Request.Normalise | lib/request/PoppyRequestHandler.js:147-149 | The posted value is always one the model renders: normalisation never yields a number with a fraction. |
| Request.NormaliseKeeps | lib/request/PoppyRequestHandler.js:147-149 | Integers, booleans, `null`, `undefined` and strings with no numeric prefix are posted unchanged. |
| Request.NormaliseTruncates | lib/request/PoppyRequestHandler.js:147-149 | Finite numbers with a fraction are truncated toward zero. A string with a numeric prefix is posted as `Math.trunc(Number(s))`, NaN when text follows the literal; a string `Number` reads as finite and not blank becomes the truncation of that number. |
| Request.NormaliseExponent | lib/request/PoppyRequestHandler.js:147-149 | `"1e3"` is posted as 1000. |
| Request.NormalisePadded | lib/request/PoppyRequestHandler.js:147-149 | `" 12 "` is posted as 12. |
| Request.NormaliseBlank | lib/request/PoppyRequestHandler.js:147-149 | `" "` has no numeric prefix and is posted as it is. |
| Request.NormaliseIdempotent | lib/request/PoppyRequestHandler.js:147-149 | Normalising a normalised value changes nothing. |
| Request.SetRegister | lib/request/PoppyRequestHandler.js:145-155 | One post to `/motors/<m>/registers/<r>/value.json` carrying the JSON text of the normalised value. An integer is sent as its decimal text, a boolean as `true`/`false`. |
| Request.ReadOne | lib/request/PoppyRequestHandler.js:174-176 | One GET per register read; a failed read is caught and never rejects. |
| Request.ReadAllFulfil | lib/request/PoppyRequestHandler.js:172-178 | Every register read fulfils, and together they issue one GET per register, in order. |
| Request.MergeReadsValues | lib/request/PoppyRequestHandler.js:179-183 | Against a robot answering `{ r: value }`, the merged reads hold the accumulator's keys plus every register asked for. Each register holds its value read, or `undefined` when the read failed. |
| Request.MergeReadsKeeps | lib/request/PoppyRequestHandler.js:179-183 | A key not asked for keeps its accumulated value. |
| Request.GetRegisterIsolatesFaults | lib/request/PoppyRequestHandler.js:172-184 | `getRegister` never rejects and issues one GET per register, in order. Against a robot answering `{ r: value }`, its keys are exactly the registers asked for, each with the value read. |
| Request.GetAliases | lib/request/PoppyRequestHandler.js:192-195 | One GET of `/motors/aliases/list.json`, resolving to `data.aliases`: the field of an object body, a TypeError for a `null` or missing body, the GET's rejection when it fails. |
| Request.GetAliasMotors | lib/request/PoppyRequestHandler.js:204-207 | One GET of `/motors/<alias>/list.json`, resolving to `data[alias]`: the field of an object body, a TypeError for a `null` or missing body, the GET's rejection when it fails. |
| Request.Spread | lib/request/PoppyRequestHandler.js:181 | `{ ...n }` copies an object's fields, an array's or a string's elements under their decimal indices, and nothing from any other scalar, `null` and `undefined` included. |
| Request.Member | lib/request/PoppyRequestHandler.js:194 | `j[k]` throws a TypeError exactly on `null` and `undefined`; it is an object's field, an array's or a string's element or `length`, and `undefined` on any other scalar. |
| Request.MemberIsSpread | lib/request/PoppyRequestHandler.js:181-194 | Apart from `length`, reading a member of a value finds exactly what spreading the value copies. |
| Request.MemberAtIndex | lib/request/PoppyRequestHandler.js:206 | The member named by a decimal index is the element at that index. |
| Motor.NewHandle | lib/motor/RawMotorRequest.js:47-58 | A handle keeps its descriptor and the shared request handler, and its `name` is the descriptor's name. |
| Motor.Set | lib/motor/RawMotorRequest.js:66-72 | One register write on this motor; it fulfils exactly when the robot accepts the post. |
| Motor.Get | lib/motor/RawMotorRequest.js:93-98 | One read per register on this motor, in order. It never rejects, and against a robot answering `{ r: value }` it yields exactly the registers asked for, with their values. |
| Motor.GetRegisterValue | lib/motor/RawMotorRequest.js:105-107 | One read, resolving to the robot's answer for that register, or `undefined` when the read failed. |
| Motor.SingleRead | lib/motor/RawMotorRequest.js:105-107 | Field `r` of `get(r)` is the value read for `r`. |
| Motor.SetSpeed | lib/motor/ExtMotorRequest.js:22-27 | One write of `moving_speed`. |
| Motor.SetCompliant | lib/motor/ExtMotorRequest.js:34-39 | One write of `compliant`. |
| Motor.SetLed | lib/motor/ExtMotorRequest.js:45-50 | One write of `led`. |
| Motor.GotoBody | lib/motor/ExtMotorRequest.js:102-109 | The goto body holds exactly position, duration and `wait: false`. A falsy duration becomes 0.001 s. |
| Motor.WaitSeconds | lib/motor/ExtMotorRequest.js:130-132 | One timer of `value` seconds, then it resolves. |
| Motor.Goto | lib/motor/ExtMotorRequest.js:101-123 | Without `wait`: one post, fulfilling when it is accepted. With `wait`: read `moving_speed`, post, and, only if the post succeeds, wait `duration` seconds and write the speed read back. |
| Motor.ComputeDuration | lib/motor/ExtMotorRequest.js:142-149 | `present_position` is read only when the start is missing, then `moving_speed` only when the speed is missing. The result is the duration from the values given or read, and it never rejects. |
| Motor.ComputeDurationReadsOnlyWhatIsMissing | lib/motor/ExtMotorRequest.js:142-149 | With start and speed given, no request is issued. |
| Motor.DurationFormula | lib/motor/ExtMotorRequest.js:148 | For a positive speed, duration × (speed × 0.666) equals \|start − end\|, and the duration is not negative. |
| Motor.DurationSymmetric | lib/motor/ExtMotorRequest.js:148 | The duration does not depend on the direction of the move. |
| Motor.DurationZeroWhenEqual | lib/motor/ExtMotorRequest.js:148 | A move to where the motor already is takes no time. |
| Motor.DurationDefaultSpeed | lib/motor/ExtMotorRequest.js:144-146 | A falsy speed (0, NaN, missing) counts as 1023. |
| Motor.SetPosition | lib/motor/ExtMotorRequest.js:58-71 | Without `wait`: one `goal_position` write. With it: read position and speed, then a waited goto over the computed duration. |
| Motor.Rotate | lib/motor/ExtMotorRequest.js:80-90 | `goal_position` is read first (not the present position). The target is that reading `+` the angle parsed by `parseFloat` (a concatenation when the reading is a string), reached by `goto` when a non-NaN number duration is given and by `setPosition` otherwise. |
| Motor.RotateWithoutWait | lib/motor/ExtMotorRequest.js:80-90 | With neither duration nor wait, a rotation is one read and one `goal_position` write of read + angle. |
| Poppy.NewRobot | lib/poppy/Poppy.js:49-64 | One handle per descriptor motor, under its name, sharing the robot's request handler built from the config. |
| Poppy.MotorNamesHaveHandles | lib/poppy/Poppy.js:82 | Every name `motorNames` lists has a handle, in descriptor order. |
| Poppy.ToMotorNames | lib/poppy/Poppy.js:93-97 | A selection holding `'all'` resolves to every motor name. Any other selection is kept, and it holds no `'all'`. |
| Poppy.ToMotorNamesIdempotent | lib/poppy/Poppy.js:93-97 | Resolving a resolved selection again changes nothing. |
| Poppy.GetMotor | lib/poppy/Poppy.js:104 | A handle is found exactly for a motor name of the robot. |
| Poppy.ToArray | lib/poppy/Poppy.js:373-375 | An array is kept; a scalar is repeated once per motor. |
| Poppy.GotoBody | lib/poppy/Poppy.js:299-307 | The body names the motors with one position each, never asks the robot to wait, and turns a falsy duration into 0.001 s. |
| Poppy.GotoNames | lib/poppy/Poppy.js:299-312 | One post, then a client-side timer of `duration` seconds exactly when the post succeeded and `wait` is truthy. |
| Poppy.Goto | lib/poppy/Poppy.js:290-313 | `goto` posts the resolved names with positions spread to one per motor. It waits only after an accepted post with `wait`. |
| Poppy.GotoResolved | lib/poppy/Poppy.js:290-313 | A goto of names already resolved, with positions already spread, is the goto of exactly those. |
| Poppy.MoveWithDuration | lib/poppy/Poppy.js:160-162 | With a duration, `move` is one `goto` of the selected motors over it. |
| Poppy.DurationsAllRead | lib/poppy/Poppy.js:166-169 | With every motor known, the durations are computed motor by motor, two reads each. They resolve to each motor's duration from its present position at its present speed. |
| Poppy.MoveComputesDuration | lib/poppy/Poppy.js:164-173 | Waiting without a duration, `move` reads each motor's position and speed, then issues one `goto` over the largest duration. |
| Poppy.PlacementsAllWritten | lib/poppy/Poppy.js:174-179 | With every motor known and every write accepted, each motor's `goal_position` is written in turn. |
| Poppy.MoveDelegatesToMotors | lib/poppy/Poppy.js:174-179 | Without duration or wait, `move` is one `goal_position` write per motor and nothing else. |
| Poppy.MoveUnknownMotor | lib/poppy/Poppy.js:164-179 | A move without duration rejects with a TypeError at the first motor the robot does not know. |
| Poppy.MergeObjects | lib/poppy/Poppy.js:351 | Object spread merges: later fields win, earlier ones show through where not overridden. |
| Poppy.QueryAllKnown | lib/poppy/Poppy.js:337-354 | With every selected motor known, `query` reads each motor's registers in turn. Its keys are exactly the selected names, each holding that motor's merged reads. |
| Poppy.QueryAnswersRegisters | lib/poppy/Poppy.js:337-354 | A motor's answer holds every register asked for, each with its value read. |
| Poppy.RotateQuery | lib/poppy/Poppy.js:229-233 | `rotate` queries `present_position` of every motor, and each target is the reported position plus its angle. |
| Poppy.RotateTargetsPresentPlusAngle | lib/poppy/Poppy.js:218-257 | Given a duration, or not waiting, `rotate` queries the positions and then moves each motor to position + angle. |
| Poppy.DurationsFromStarts | lib/poppy/Poppy.js:239-248 | With the starts given, each motor's duration costs one speed read. |
| Poppy.RotateComputesDuration | lib/poppy/Poppy.js:218-257 | Waiting without a duration, `rotate` queries positions, reads each speed, and moves to position + angle over the slowest motor's duration. |
| Scripts.Normalise | lib/script/Script.js:240-244 | A selection holding `'all'` is stored as `'all'` (both directions); any other is kept as given. |
| Scripts.NewScript | lib/script/Script.js:38-42 | A new script is one handler with the normalised selection and no action. |
| Scripts.Select | lib/script/Script.js:57-68 | A current handler without motors takes the selection in place and keeps its actions. Otherwise a new empty handler is pushed. Earlier handlers never change. |
| Scripts.AddAction | lib/script/Script.js:217-220 | The action is appended to the last handler; nothing else changes. |
| Scripts.ToParameters | lib/script/Script.js:259-270 | A number (NaN included) in second position is the duration, with the third argument as wait flag. Anything else in second position is itself the wait flag. |
| Scripts.Led | lib/script/Script.js:78-81 | Records `setLed` with the value. |
| Scripts.Goto | lib/script/Script.js:113-123 | Records `move`. A numeric duration comes with the wait flag (false when omitted); otherwise the second argument is the wait flag. |
| Scripts.Position | lib/script/Script.js:90-92 | `position(v, wait)` is `goto(v, wait)`: its flag lands in the duration slot, so a number there is taken as a duration. |
| Scripts.RotateBy | lib/script/Script.js:143-153 | Records `rotate`, reading the optional arguments as `goto` does. |
| Scripts.Speed | lib/script/Script.js:165-168 | Records `setSpeed`. |
| Scripts.Compliant | lib/script/Script.js:177-180 | Records `setCompliant` true. |
| Scripts.Stiff | lib/script/Script.js:189-192 | Records `setCompliant` false. |
| Scripts.WaitFor | lib/script/Script.js:211-214 | Records `wait`. |
| Scripts.SelectKeepsActions | lib/script/Script.js:57-68 | A selection moves no recorded action. |
| Scripts.AddActionAppends | lib/script/Script.js:217-220 | Recording appends the action to the script's actions. |
| Scripts.BuildKeepsOrder | lib/script/Script.js:57-68 | After any sequence of builder calls, the script's actions are its own followed by the recorded ones, in call order. Each selection adds at most one handler. |
| Scripts.ActionsBeforeFirstSelect | lib/script/Script.js:57-60 | Actions recorded before any motor is selected belong to the selection made next. |
| Scripts.BuildAppend | lib/script/Script.js:57-68 | Building from two runs of calls is building from the first, then the second. |
| Engine.TargetOf | lib/script/ScriptEngine.js:76-77 | A step targets a motor exactly when its element is a name other than `'poppy'`. |
| Engine.MapAction | lib/script/ScriptEngine.js:58-81 | `wait` is one step on the first selected motor (on the robot when there is none). `move`/`rotate` are one batched step of the robot carrying the whole selection. Every other action is one step per selected motor, in order. |
| Engine.RunStep | lib/script/ScriptEngine.js:40-52 | A step fails exactly when its method does not exist, and then with a TypeError before any `.catch`. A rejection of an existing method is caught. |
| Engine.StepCount | lib/script/ScriptEngine.js:28-38 | A script makes, per action, one step for `wait`/`move`/`rotate` and one per resolved motor otherwise. |
| Engine.StepsOfAddAction | lib/script/ScriptEngine.js:32-38 | Recording an action appends exactly its mapped steps, over the current selection, to the script's steps. |
| Engine.StepsOfSelect | lib/script/ScriptEngine.js:32-38 | A selection adds no step. |
| Engine.AllResolvedAtExec | lib/script/ScriptEngine.js:35 | `'all'` is resolved at run time to the robot's motor names, in descriptor order. |
| Engine.ExecScriptIsolatesFaults | lib/script/ScriptEngine.js:40-54 | When every step's method exists, all steps run in order, each leaving its effects, and the script settles. |
| Engine.ExecScriptAborts | lib/script/ScriptEngine.js:40-54 | At the first step whose method is missing, the script rejects with a TypeError, after the earlier steps only. |
| Engine.WaitWithoutMotorAborts | lib/script/ScriptEngine.js:63-66 | A `wait` with no motor selected is sent to the robot, which has no `wait`, so the script aborts at once. |
| Engine.LedThenWait | lib/script/ScriptEngine.js:58-81 | `new Script('m1','m2').led(c).wait(d)` sets the led on m1 then m2, then waits once on m1. |
| Engine.FlatConcat | lib/script/ScriptEngine.js:21 | `flat(Infinity)` of consecutive arguments is their flattenings one after the other. |
| Engine.FlatNested | lib/script/ScriptEngine.js:21 | Nesting scripts in arrays makes no difference. |
| Engine.ExecRunsInOrder | lib/script/ScriptEngine.js:20-25 | When no script aborts, `exec` runs the flattened scripts in argument order, each once the previous one has settled. |
| Engine.ExecStopsAtAbort | lib/script/ScriptEngine.js:20-25 | A script that aborts stops `exec`; the scripts after it never run. |
| LegacyScripts.Spread | lib/Script.js:79-82 | The constructor splices array arguments in, one level deep. |
| LegacyScripts.NewScript | lib/Script.js:15-19 | One handler holding the spread names, no action. |
| LegacyScripts.Select | lib/Script.js:21-32 | An empty current handler takes the arguments as given, unspread, and keeps its actions. Otherwise a handler with the spread arguments is pushed. |
| LegacyScripts.Position | lib/Script.js:39-42 | Records `setPosition`, an omitted wait being `true`. |
| LegacyScripts.Rotate | lib/Script.js:44-47 | Records `rotate`, an omitted wait being `true`. |
| LegacyScripts.Compliant | lib/Script.js:54-57 | Records `setCompliant` with the value as given. |
| LegacyScripts.SelectDoesNotSpread | lib/Script.js:21-32 | An array given to `select` stays one element, while the constructor spreads it. |
| LegacyScripts.AllKeptAsGiven | lib/Script.js:79-82 | `'all'` is kept as an ordinary name when stored. |
| LegacyPoppy.Init | lib/Poppy.js:157-185 | `_all` lists the descriptor's motor names in order. |
| LegacyPoppy.AllMotorIds | lib/Poppy.js:88 | A name has a handle exactly when some descriptor motor bears it. |
| LegacyPoppy.Targets | lib/Poppy.js:120-123 | A handler targets every motor only when its first element is exactly `'all'`. |
| LegacyPoppy.ActionSteps | lib/Poppy.js:127-146 | A `wait` is one step on the robot's first motor, whatever the selection. Every other action is one step per target motor, with the recorded values. |
| LegacyPoppy.StepCount | lib/Poppy.js:117-147 | One step per `wait`, and one per target motor for every other action, `setPosition` and `rotate` included. |
| LegacyPoppy.RunStep | lib/Poppy.js:150-152 | Every step's failure is caught, a missing motor's TypeError included; a missing motor sends nothing. |
| LegacyPoppy.ExecScriptRunsEveryStep | lib/Poppy.js:150-154 | Every step runs, whatever failed before it, and the script never rejects. |
| LegacyPoppy.ExecRunsEveryScript | lib/Poppy.js:103-109 | `exec` runs every script in argument order and resolves to the robot. |
| LegacyPoppy.WaitOnRobotFirstMotor | lib/Poppy.js:129-135 | A `wait` goes to the robot's first motor, not the first selected one. |
| LegacyPoppy.AllOnlyFirst | lib/Poppy.js:120-123 | `'all'` anywhere but first is an ordinary name: its step finds no motor and is dropped with nothing sent. |
| LegacyPoppy.PositionFansOut | lib/Poppy.js:136-142 | A `position` makes one `setPosition` step per selected motor, carrying the default wait `true`. |
| Revisions.PositionStepCounts | lib/script/ScriptEngine.js:67-71 | Over n motors, the current engine batches a `position` into one robot `move`; the earlier one sends n steps. |
| Revisions.WaitTargets | lib/script/ScriptEngine.js:63-66 | With motors m1, m2, m3 and selection m2, m3, the current engine waits on m2, the earlier one on m1. |
| UrlTemplate.SettingsOf | lib/utils/PoppyRequestHandler.js:63-74 | Each connection setting given, or its default: http, poppy.local, 8080, 6969, 2000. |
| UrlTemplate.NewHandler | lib/utils/PoppyRequestHandler.js:63-90 | Two base urls `schema://ip:port`, one on the http port and one on the snap port. |
| UrlTemplate.DefaultHandler | lib/utils/PoppyRequestHandler.js:63-90 | By default the handler talks to `http://poppy.local:8080` and `http://poppy.local:6969`. |
| UrlTemplate.Placeholders | lib/utils/PoppyRequestHandler.js:200 | Every match of `/:\w+/g` is a colon followed by one or more word characters. |
| UrlTemplate.IndexOf | lib/utils/PoppyRequestHandler.js:206 | The first occurrence of the pattern at or after a position, and no earlier one. |
| UrlTemplate.ReplaceFirst | lib/utils/PoppyRequestHandler.js:206 | `replace` with a string pattern replaces its first occurrence, and leaves the text unchanged when there is none. |
| UrlTemplate.SubstituteSucceeds | lib/utils/PoppyRequestHandler.js:203-212 | As written, substitution succeeds exactly when every placeholder has a non-empty value, and fails otherwise with the uninterpolated message. |
| UrlTemplate.MissingValueNamesNothing | lib/utils/PoppyRequestHandler.js:207-211 | As written, the error reads the same whichever parameter and template are involved. |
| UrlTemplate.SubstituteIntended | lib/utils/PoppyRequestHandler.js:203-212 | Corrected: success exactly when every placeholder has a value; the error names the first missing placeholder and its template. |
| UrlTemplate.SubstituteAgrees | lib/utils/PoppyRequestHandler.js:203-212 | The correction changes only the message: same success, same path. |
| UrlTemplate.Find | lib/utils/PoppyRequestHandler.js:197 | The first route with the id, or none exactly when no route has it. |
| UrlTemplate.RelativeUrl | lib/utils/PoppyRequestHandler.js:192-216 | As written: an unknown id is a TypeError. Otherwise the result succeeds exactly when every placeholder has a value, with the filled path and the route's method; a missing value fails with the literal, uninterpolated message. |
| UrlTemplate.RelativeUrlIntended | lib/utils/PoppyRequestHandler.js:192-216 | Corrected: the same endpoint, and a missing value fails with a message naming the first missing placeholder and its template. |
| UrlTemplate.RelativeUrlAgrees | lib/utils/PoppyRequestHandler.js:203-212 | The correction changes only the message: success on the same inputs, the same endpoint. |
| UrlTemplate.PlainPath | lib/utils/PoppyRequestHandler.js:200-214 | A template without placeholders is used as it stands. |
| UrlTemplate.SnapLedPlaceholders | lib/utils/PoppyRequestHandler.js:226-232 | The led template has placeholders `:motor_name`, `:reg`, `:color`, the double colons separating them. |
| UrlTemplate.SetMotorRegister | lib/utils/PoppyRequestHandler.js:119-130 | `set_register` on the http server, with the data as body; it fails exactly when the url does. |
| UrlTemplate.GetMotorRegister | lib/utils/PoppyRequestHandler.js:139-150 | `get_register` on the http server. |
| UrlTemplate.GetAliases | lib/utils/PoppyRequestHandler.js:159-165 | `aliases` on the http server. |
| UrlTemplate.GetAliasMotors | lib/utils/PoppyRequestHandler.js:175-182 | `motors` on the http server. |
| UrlTemplate.SetLed | lib/utils/PoppyRequestHandler.js:242-254 | `snap_led` on the snap server, with `reg` fixed to `led`. |
| UrlTemplate.LedUrl | lib/utils/PoppyRequestHandler.js:221-254 | The led of `m` is set by a GET of `/motors/set/registers/<m>:led:<color>` on the snap server. |
| UrlTemplate.LedOff | lib/utils/PoppyRequestHandler.js:221-254 | Turning m2's led off is `/motors/set/registers/m2:led:off`. |
| Descriptors.SplitLocator | lib/utils/descriptor.js:39 | `split('://')` destructured: no separator gives the whole text and no path. Otherwise the schema and path are the separator-free pieces before and after the first separator, and anything after a second one is dropped. |
| Descriptors.SplitJoin | lib/utils/descriptor.js:39 | `schema://path` splits back into schema and path. |
| Descriptors.SplitIgnoresTail | lib/utils/descriptor.js:39 | What follows a second separator is ignored. |
| Descriptors.DescriptorFile | lib/utils/descriptor.js:41-54 | `file` reads the path as given; `desc` reads `<folder>/<path>.json`; any other schema is an invalid-locator error. |
| Descriptors.Load | lib/utils/descriptor.js:56-65 | A readable file yields its content. Every failure, `undefined` included, is the same unreadable-file error naming the file. |
| Descriptors.Read | lib/utils/descriptor.js:35-68 | An invalid locator fails with its error; otherwise the file it designates is loaded, with the default locator when none is given. |
| Descriptors.ReadFile | lib/utils/descriptor.js:42-44 | `file://path` loads `path`. |
| Descriptors.ReadDesc | lib/utils/descriptor.js:45-47 | `desc://id` loads `<folder>/<id>.json`. |
| Descriptors.ReadDefault | lib/utils/descriptor.js:33-35 | With no locator, the Poppy Ergo Jr. descriptor is read. |
| Descriptors.ReadOther | lib/utils/descriptor.js:48-54 | Any other schema is an invalid-locator error. |
| Descriptors.ReadBareWord | lib/utils/descriptor.js:39-47 | A bare `file` fails to read `undefined`; a bare `desc` reads `<folder>/undefined.json`. |
| Descriptors.ReadJson | lib/utils/descriptorFactory.js:130-163 | A missing locator is a TypeError; otherwise it reads as `read` does, from `<dir>/../../config`. |
| Descriptors.ReadJsonDesc | lib/utils/descriptorFactory.js:139-141 | `desc://id` reads `<dir>/../../config/<id>.json`. |
| Descriptors.DiscoverAsWritten | lib/utils/descriptorFactory.js:82-128 | As written, discovery never yields a descriptor. |
| Descriptors.DiscoveryNeverSucceeds | lib/utils/descriptorFactory.js:47 | As written, `desc://live-discovering` always fails, with a TypeError once the aliases arrive, because `promiseAll` is not exported by util/misc.js. |
| Descriptors.CreateDescriptorAsWritten | lib/utils/descriptorFactory.js:71-76 | Discovery for the live locator, reading otherwise. |
| Descriptors.MotorIds | lib/utils/descriptorFactory.js:102-104 | The motor ids are the alias motor lists one after the other. |
| Descriptors.DuplicatesKept | lib/utils/descriptorFactory.js:102-104 | A motor in two aliases is listed twice, in alias order. |
| Descriptors.AliasEntries | lib/utils/descriptorFactory.js:88-95 | Each alias with its motors, in alias order. |
| Descriptors.MotorEntries | lib/utils/descriptorFactory.js:107-117 | Each motor with its `lower_limit` and `upper_limit` answers, in order. |
| Descriptors.Discover | lib/utils/descriptorFactory.js:82-128 | Corrected: a discovered descriptor is named after the ip. Its aliases are the robot's, in order, and its motors are the alias motor ids, in order. Missing connection settings are a TypeError. |
| Descriptors.CreateDescriptor | lib/utils/descriptorFactory.js:71-76 | Corrected: discovery exactly for `desc://live-discovering`. |
| Descriptors.DiscoverySucceeds | lib/utils/descriptorFactory.js:82-128 | Corrected: a robot answering every request, with connection settings given, yields a descriptor. |
| Statuses.CreateStatus | tools/status.js:15-24 | The level and messages as given, in order, and no child. |
| Statuses.AddChild | tools/status.js:28 | The child is appended last; the rest is unchanged. |
| Statuses.HasChildrenAsWritten | tools/status.js:30 | As written, `hasChildren` returns nothing, which is falsy. |
| Statuses.GetLevelAsWritten | tools/status.js:32-43 | As written, `getLevel` is always the own level. |
| Statuses.ChildErrorIgnored | tools/status.js:30-45 | As written, a status ok itself is reported ok even when a child failed. |
| Statuses.LevelIsWorst | tools/status.js:32-43 | Corrected, with known levels: a parent's level is the worst of its children's (the early stop at error changes nothing), and a childless status has its own level. |
| Statuses.WorstIsMax | tools/status.js:35-39 | The scan with its early stop at an error equals the maximum of the remaining levels. |
| Statuses.OkIffChildrenOk | tools/status.js:45 | Corrected: a parent is ok exactly when all its children are. |
| Statuses.MaxFrom | tools/status.js:35-39 | The maximum bounds every level and is one of them. |
| Statuses.Tag | tools/status.js:51-68 | OK, WARNING, KO for the three levels, each exactly; `??` exactly for any other. |
| Statuses.Display | tools/status.js:49-78 | As written: the tag of the own level, then the first message when the own level is not ok, since `getLevel` is the own level. |
| Statuses.DisplayIntended | tools/status.js:49-78 | Corrected: the tag of the own level, then the first message when the worst level of the children is not ok. |
| Statuses.DisplayAgreesWithoutChildren | tools/status.js:30-45 | Without children the two displays are the same. |
| Statuses.DisplayWarningOverOkChild | tools/status.js:30-76 | A warning with an ok child shows `WARNING <message>` as written and `WARNING` corrected. |
| Statuses.DisplayError | tools/status.js:49-78 | A failed status with a reason shows `KO <reason>`. |
| Trees.Shown | tools/tree.js:65-73 | The displayed properties are exactly those the filter keeps (objects only, with `onlyObject`). |
| Trees.DefaultKeepsObjects | tools/tree.js:21-24 | With the default options, exactly the properties whose value is an object or `null` are shown. |
| Trees.ShownAppend | tools/tree.js:67-73 | Filtering keeps key order. |
| Trees.LastKey | tools/tree.js:75 | The last shown key, none exactly when nothing is shown. |
| Trees.ChildPrefix | tools/tree.js:77-81 | Below a last child the prefix grows by three spaces, below another by a bar, and at the root not at all. |
| Trees.ToTree | tools/tree.js:98-120 | A TypeError exactly when the walk meets a shown `null`; otherwise the lines, each ended by a newline. |
| Trees.Join | tools/tree.js:115-118 | The reduce yields each line followed by a newline, in order. |
| Trees.RootLineCount | tools/tree.js:45-92 | One line per non-empty property visited, none for the root. |
| Trees.KeepsPrefix | tools/tree.js:45-92 | Below level 0, every line of a subtree starts with the prefix it was handed. |
| Trees.ConnectorsByPosition | tools/tree.js:75-92 | With unique keys, a child is drawn as last exactly when it is the final shown one. |
| Trees.FirstLine | tools/tree.js:45-63 | The first line of a property: prefix, connector, name, a leaf's value and the callback's output. |
| Trees.SmallTree | tools/tree.js:13-120 | `{a: {x: 1}, b: 2}` renders as three lines with the expected connectors. |

## Left out

- Numbers are mathematical reals. IEEE rounding, negative zero and the rendering of non-integer numbers are not modelled; such a value renders as "unknown" (`None`).
- Js.StringToNumber: a decimal literal whose value overflows a double (`"1e400"`) is a large finite real, not Infinity, for the same reason.
- Request.Member: members inherited from prototypes (`toString`, `constructor`, ...) are not modelled; only own fields, indices and `length` are.
- Js.Plus: a number with a fraction beside a string gives `undefined`, because the model does not render such numbers; other concatenations are modelled.
- `Promise.all` over motors is modelled one motor after the other, in selection order, taking the first failure in that order. Real interleaving of concurrent requests is not modelled.
- HTTP, axios, timeouts and DNS are not modelled: the robot is the `Net` oracle, and the DNS answer of `lookUp` is a parameter of `GetConfig`.
- The file system is an oracle from a file name to its parsed JSON; `readFileSync` and `JSON.parse` errors collapse into "no content".
- Logging (`console.log` in the engine's `.catch`) and the colours of `display` are not modelled.
- Motor names that coincide with other members of the robot object (`move`, `exec`, ...) are not modelled: a handle is found only under a motor name.
- config/rest-api.json is not part of this model; its routes are a parameter of `UrlTemplate.Routes`.
- LegacyPoppy.RunStep: the motor class the earlier revision called is not part of this model; its methods are the `Invoke` parameter.
- UrlTemplate.ReplaceFirst: `$` patterns in the replacement text of `String.replace` are not modelled.
- UrlTemplate.RelativeUrl: parameter values are strings. A non-string value, such as a number, and its truthiness are not modelled.
- Descriptors.MotorEntries: the `Object.assign` merge of the two register responses is reduced to the two answers kept side by side.
- Statuses.Display: the `showDetails` parameter is ignored, as it is in the code.
- Trees.ToTree: the text of a leaf value is given by the caller, and the callback returns a string.
- Trees.ToTree: `null` as a shown value is the TypeError `Object.keys(null)` throws; other exotic values are not modelled.
- The command-line programs under bin/ and the factories of lib/factories.js are outside the modelled core.

## Findings

| source | as written | input that shows it | evidently intended | confidence | as-written member | corrected member |
|---|---|---|---|---|---|---|
| lib/utils/PoppyRequestHandler.js:207-211 | The error message is in single quotes, so `${param}` and `${descriptor.path}` are never interpolated. | `led` of a motor with an empty color: `snap_led` lacks `:color`, and the message does not say so. | The message names the missing placeholder and the template. | not executed | UrlTemplate.MissingValueNamesNothing | UrlTemplate.SubstituteIntended |
| lib/utils/descriptorFactory.js:47 | `promiseAll` is imported from util/misc.js, which exports only `chainPromises`, `wait` and `lookUp` (util/misc.js:61-65). Calling it once the aliases arrive throws a TypeError. | `createDescriptor('desc://live-discovering', connect)` against any robot. | Discovery builds the descriptor from the aliases and motors. | not executed | Descriptors.DiscoveryNeverSucceeds | Descriptors.DiscoverySucceeds |
| tools/status.js:30-43 | `hasChildren` has no `return`, so it yields `undefined` and `getLevel` always returns the status's own level. The child branch would return nothing either. | A status ok itself with one child in error: `isOk()` is true. | A parent's level is the worst of its children's, and it is ok exactly when they all are. | not executed | Statuses.ChildErrorIgnored | Statuses.OkIffChildrenOk |
