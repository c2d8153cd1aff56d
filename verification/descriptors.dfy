/**
 * Descriptor locators, `schema://path`, as lib/utils/descriptor.js and
 * lib/utils/descriptorFactory.js read them: `file://` names a descriptor
 * file, `desc://` one of the module's own descriptors, and, for the factory,
 * `desc://live-discovering` asks the robot itself.
 */
module Descriptors {
  import opened Wrappers
  import opened Js
  import UrlTemplate
  import Misc
  import Effects

  const Separator := "://"

  /** `DESCRIPTOR_DEFAULT` */
  const ErgoJr := "poppy-ergo-jr"

  const DefaultLocator := "desc" + Separator + ErgoJr

  /** `LIVE_DISCOVERING` */
  const LiveDiscovering := "desc" + Separator + "live-discovering"

  /** The separator occurs nowhere in `s`. */
  predicate Plain(s: string) {
    forall j :: 0 <= j < |s| ==> !UrlTemplate.OccursAt(s, Separator, j)
  }

  /**
   * `let [schema, locator] = s.split('://')`: the text before the first
   * separator and the text between it and the next one; with no separator
   * the schema is the whole text and the locator is `undefined`.
   */
  function SplitLocator(s: string): (r: (string, Option<string>))
    ensures r.1.None? <==> Plain(s)
    ensures r.1.None? ==> r.0 == s
    ensures r.1.Some? ==> Plain(r.0) && Plain(r.1.value)
    ensures r.1.Some? ==> exists rest :: s == r.0 + Separator + rest && (rest == r.1.value || exists tail :: rest == r.1.value + Separator + tail)
  {
    match UrlTemplate.IndexOf(s, Separator, 0)
    case None => (s, None)
    case Some(i) =>
      var schema, rest := s[..i], s[i + 3..];
      PrefixPlain(s, i);
      assert s == schema + Separator + rest by {
        assert s[i..i + 3] == Separator;
      }
      match UrlTemplate.IndexOf(rest, Separator, 0)
      case None =>
        (schema, Some(rest))
      case Some(j) =>
        PrefixPlain(rest, j);
        assert rest == rest[..j] + Separator + rest[j + 3..] by {
          assert rest[j..j + 3] == Separator;
        }
        (schema, Some(rest[..j]))
  }

  /** Before the first occurrence of the separator, there is none. */
  lemma PrefixPlain(s: string, i: nat)
    requires UrlTemplate.IndexOf(s, Separator, 0) == Some(i)
    ensures Plain(s[..i])
  {
    forall j | 0 <= j < i
      ensures !UrlTemplate.OccursAt(s[..i], Separator, j)
    {
      assert !UrlTemplate.OccursAt(s, Separator, j);
      if j + 3 <= i {
        assert s[..i][j..j + 3] == s[j..j + 3];
      }
    }
  }

  /** The separator cannot straddle the end of a text that has none: it would have to start with `/`. */
  lemma JoinedAt(schema: string, rest: string)
    requires Plain(schema)
    ensures UrlTemplate.IndexOf(schema + Separator + rest, Separator, 0) == Some(|schema|)
  {
    var s := schema + Separator + rest;
    assert s[|schema|..|schema| + 3] == Separator;
    forall j | 0 <= j < |schema|
      ensures !UrlTemplate.OccursAt(s, Separator, j)
    {
      if j + 3 <= |schema| {
        assert s[j..j + 3] == schema[j..j + 3];
        assert !UrlTemplate.OccursAt(schema, Separator, j);
      } else if j + 3 <= |s| {
        assert s[|schema|] == ':';
        assert s[j..j + 3][|schema| - j] == s[|schema|];
      }
    }
    UrlTemplate.FirstOccurrence(s, Separator, |schema|);
  }

  /** `schema://path` splits back into its schema and path, when neither holds the separator. */
  lemma SplitJoin(schema: string, path: string)
    requires Plain(schema) && Plain(path)
    ensures SplitLocator(schema + Separator + path) == (schema, Some(path))
  {
    var s := schema + Separator + path;
    JoinedAt(schema, path);
    assert s[..|schema|] == schema;
    assert s[|schema| + 3..] == path;
    PlainNone(path);
  }

  lemma PlainNone(s: string)
    requires Plain(s)
    ensures UrlTemplate.IndexOf(s, Separator, 0) == None
  {
    UrlTemplate.NoOccurrence(s, Separator);
  }

  /** What follows a second separator is ignored. */
  lemma SplitIgnoresTail(schema: string, path: string, tail: string)
    requires Plain(schema) && Plain(path)
    ensures SplitLocator(schema + Separator + path + Separator + tail) == (schema, Some(path))
  {
    var rest := path + Separator + tail;
    assert schema + Separator + path + Separator + tail == schema + Separator + rest;
    var s := schema + Separator + rest;
    JoinedAt(schema, rest);
    assert s[..|schema|] == schema;
    assert s[|schema| + 3..] == rest;
    JoinedAt(path, tail);
    assert rest[..|path|] == path;
  }

  // ---------------------------------------------------------------------------
  // Reading a descriptor file
  // ---------------------------------------------------------------------------

  /** The error for a locator of any other schema. */
  function InvalidLocator(locator: string): string {
    "Invalid descriptor locator '" + locator + "'.\n"
      + "Allowed formats are 'file://filepath' or 'desc://descriptorId'."
  }

  /** The error for a file that cannot be read or parsed. */
  function Unreadable(file: string): string {
    "Unable to read/an error occurs reading the robot descriptor " + file
  }

  /** A string or `undefined`, as a template literal renders it. */
  function Render(s: Option<string>): string {
    s.GetOr("undefined")
  }

  /**
   * The file a locator names, `None` standing for `undefined`: the path of
   * `file://path`, `<folder>/<id>.json` for `desc://id`, where `folder` is
   * the module's configuration folder, already ending in `/`, so that the
   * path holds a double slash.
   */
  function DescriptorFile(folder: string, locator: string): (r: Result<Option<string>>)
    ensures SplitLocator(locator).0 == "file" ==> r == Ok(SplitLocator(locator).1)
    ensures SplitLocator(locator).0 == "desc" ==> r == Ok(Some(folder + "/" + Render(SplitLocator(locator).1) + ".json"))
    ensures SplitLocator(locator).0 !in {"file", "desc"} ==> r == Err(InvalidLocator(locator))
  {
    var (schema, path) := SplitLocator(locator);
    if schema == "file" then Ok(path)
    else if schema == "desc" then Ok(Some(folder + "/" + Render(path) + ".json"))
    else Err(InvalidLocator(locator))
  }

  /** The file system: the parsed content of a file, `None` when it cannot be read or parsed. */
  type Files = string -> Option<Json>

  /** Loading the file: `readFileSync(undefined)` throws, and every failure becomes the same error naming the file. */
  function Load(fs: Files, file: Option<string>): (r: Result<Json>)
    ensures file.None? ==> r == Err(Unreadable("undefined"))
    ensures file.Some? ==> (r.Ok? <==> fs(file.value).Some?)
    ensures file.Some? && r.Ok? ==> r.value == fs(file.value).value
    ensures file.Some? && r.Err? ==> r.error == Unreadable(file.value)
  {
    match file
    case None => Err(Unreadable("undefined"))
    case Some(f) =>
      match fs(f)
      case None => Err(Unreadable(f))
      case Some(j) => Ok(j)
  }

  /** `read(descLocator = DESCRIPTOR_DEFAULT)` of lib/utils/descriptor.js, `None` standing for an omitted locator. */
  function Read(fs: Files, folder: string, locator: Option<string>): (r: Result<Json>)
    ensures DescriptorFile(folder, locator.GetOr(DefaultLocator)).Err? ==> r == Err(DescriptorFile(folder, locator.GetOr(DefaultLocator)).error)
    ensures DescriptorFile(folder, locator.GetOr(DefaultLocator)).Ok? ==> r == Load(fs, DescriptorFile(folder, locator.GetOr(DefaultLocator)).value)
  {
    var l := locator.GetOr(DefaultLocator);
    match DescriptorFile(folder, l)
    case Err(e) => Err(e)
    case Ok(file) => Load(fs, file)
  }

  /** `file://path` reads `path` as it stands. */
  lemma ReadFile(fs: Files, folder: string, path: string)
    requires Plain(path)
    ensures Read(fs, folder, Some("file" + Separator + path)) == Load(fs, Some(path))
  {
    FilePlain();
    SplitJoin("file", path);
  }

  /** `desc://id` reads `<folder>/<id>.json`. */
  lemma ReadDesc(fs: Files, folder: string, id: string)
    requires Plain(id)
    ensures Read(fs, folder, Some("desc" + Separator + id)) == Load(fs, Some(folder + "/" + id + ".json"))
  {
    DescPlain();
    SplitJoin("desc", id);
  }

  /** With no locator, the Poppy Ergo Jr. descriptor is read. */
  lemma ReadDefault(fs: Files, folder: string)
    ensures Read(fs, folder, None) == Load(fs, Some(folder + "/" + ErgoJr + ".json"))
  {
    ErgoJrPlain();
    ReadDesc(fs, folder, ErgoJr);
  }

  /**
   * Any other schema is refused, a locator without a separator included,
   * unless it is the bare word `file` or `desc`, which leaves the path
   * `undefined`.
   */
  lemma ReadOther(fs: Files, folder: string, locator: string)
    requires SplitLocator(locator).0 != "file" && SplitLocator(locator).0 != "desc"
    ensures Read(fs, folder, Some(locator)) == Err(InvalidLocator(locator))
  {
  }

  lemma ReadBareWord(fs: Files, folder: string)
    ensures Read(fs, folder, Some("file")) == Err(Unreadable("undefined"))
    ensures Read(fs, folder, Some("desc")) == Load(fs, Some(folder + "/undefined.json"))
  {
    FilePlain();
    DescPlain();
    assert folder + "/" + "undefined" + ".json" == folder + "/undefined.json";
  }

  lemma FilePlain()
    ensures Plain("file")
  {
    forall j | 0 <= j < 4 ensures !UrlTemplate.OccursAt("file", Separator, j) {
      if j + 3 <= 4 {
        assert "file"[j] != ':';
        assert "file"[j..j + 3][0] == "file"[j];
      }
    }
  }

  lemma DescPlain()
    ensures Plain("desc")
  {
    forall j | 0 <= j < 4 ensures !UrlTemplate.OccursAt("desc", Separator, j) {
      if j + 3 <= 4 {
        assert "desc"[j] != ':';
        assert "desc"[j..j + 3][0] == "desc"[j];
      }
    }
  }

  /** A text without a colon has no separator. */
  lemma NoColonPlain(s: string)
    requires ':' !in s
    ensures Plain(s)
  {
    forall j | 0 <= j < |s| ensures !UrlTemplate.OccursAt(s, Separator, j) {
      if j + 3 <= |s| {
        assert s[j..j + 3][0] == s[j];
      }
    }
  }

  lemma ErgoJrPlain()
    ensures Plain("poppy-ergo-jr")
  {
    NoColonPlain("poppy-ergo-jr");
  }

  // ---------------------------------------------------------------------------
  // The descriptor factory
  // ---------------------------------------------------------------------------

  /**
   * `readJSONDescriptor(descriptorLocator)` of lib/utils/descriptorFactory.js:
   * the same dispatch, with no default locator (`undefined.split` is a
   * TypeError) and `desc://id` read from `<dir>/../../config/<id>.json`.
   */
  function ReadJson(fs: Files, dir: string, locator: Option<string>): (r: Result<Json>)
    ensures locator.None? ==> r == Err(Effects.TypeError)
    ensures locator.Some? ==> r == Read(fs, dir + "/../../config", locator)
  {
    match locator
    case None => Err(Effects.TypeError)
    case Some(l) =>
      var (schema, path) := SplitLocator(l);
      if schema == "file" then Load(fs, path)
      else if schema == "desc" then
        assert dir + "/../../config/" + Render(path) + ".json" == dir + "/../../config" + "/" + Render(path) + ".json";
        Load(fs, Some(dir + "/../../config/" + Render(path) + ".json"))
      else Err(InvalidLocator(l))
  }

  /** The module's own descriptors are read from `<dir>/../../config/<id>.json`, with a single slash. */
  lemma ReadJsonDesc(fs: Files, dir: string, id: string)
    requires Plain(id)
    ensures ReadJson(fs, dir, Some("desc" + Separator + id)) == Load(fs, Some(dir + "/../../config/" + id + ".json"))
  {
    DescPlain();
    SplitJoin("desc", id);
  }

  /** One alias of a discovered robot: its name and its motors. */
  datatype Alias = Alias(name: string, motors: seq<string>)

  /** One discovered motor: its name and the answers to its two register reads. */
  datatype MotorEntry = MotorEntry(name: string, lower: Json, upper: Json)

  datatype Descriptor =
    | Parsed(json: Json)
    | Discovered(description: string, name: string, aliases: seq<Alias>, motors: seq<MotorEntry>)

  /**
   * The robot's answers to the discovery requests: its alias names, each
   * alias's motors, and a motor's register value, or the request's error.
   */
  datatype Robot = Robot(aliases: Result<seq<string>>, aliasMotors: string -> Result<seq<string>>,
                         register: (string, string) -> Result<Json>)

  /**
   * Discovery as written: `promiseAll` is not exported by util/misc.js, so
   * once the alias names have arrived, calling it throws a TypeError.
   */
  function DiscoverAsWritten(robot: Robot): (r: Result<Descriptor>)
    ensures r.Err?
  {
    match robot.aliases
    case Err(e) => Err(e)
    case Ok(_) => Err(Effects.TypeError)
  }

  /** Whatever the robot answers, discovery as written never yields a descriptor. */
  lemma DiscoveryNeverSucceeds(fs: Files, dir: string, robot: Robot, ip: Option<string>)
    ensures CreateDescriptorAsWritten(fs, dir, robot, ip, Some(LiveDiscovering)).Err?
    ensures robot.aliases.Ok? ==> CreateDescriptorAsWritten(fs, dir, robot, ip, Some(LiveDiscovering)) == Err(Effects.TypeError)
  {
  }

  /** `createDescriptor` as written. */
  function CreateDescriptorAsWritten(fs: Files, dir: string, robot: Robot, ip: Option<string>, locator: Option<string>): (r: Result<Descriptor>)
    ensures locator == Some(LiveDiscovering) ==> r == DiscoverAsWritten(robot)
    ensures locator != Some(LiveDiscovering) ==> r == MapParsed(ReadJson(fs, dir, locator))
  {
    if locator == Some(LiveDiscovering) then DiscoverAsWritten(robot) else MapParsed(ReadJson(fs, dir, locator))
  }

  function MapParsed(r: Result<Json>): Result<Descriptor> {
    match r
    case Err(e) => Err(e)
    case Ok(j) => Ok(Parsed(j))
  }

  /** Each alias with its motors, in alias order; the first failed request fails all. */
  function AliasEntries(robot: Robot, names: seq<string>): (r: Result<seq<Alias>>)
    ensures r.Ok? ==> |r.value| == |names|
    ensures r.Ok? ==> forall i :: 0 <= i < |names| ==>
      r.value[i].name == names[i] && robot.aliasMotors(names[i]) == Ok(r.value[i].motors)
    decreases |names|
  {
    if |names| == 0 then Ok([])
    else
      match robot.aliasMotors(names[0])
      case Err(e) => Err(e)
      case Ok(ms) =>
        match AliasEntries(robot, names[1..])
        case Err(e) => Err(e)
        case Ok(rest) => Ok([Alias(names[0], ms)] + rest)
  }

  /** Every motor's two register reads, in order; the first failed request fails all. */
  function MotorEntries(robot: Robot, ids: seq<string>): (r: Result<seq<MotorEntry>>)
    ensures r.Ok? ==> |r.value| == |ids|
    ensures r.Ok? ==> forall i :: 0 <= i < |ids| ==>
      && r.value[i].name == ids[i]
      && robot.register(ids[i], "lower_limit") == Ok(r.value[i].lower)
      && robot.register(ids[i], "upper_limit") == Ok(r.value[i].upper)
    decreases |ids|
  {
    if |ids| == 0 then Ok([])
    else
      match robot.register(ids[0], "lower_limit")
      case Err(e) => Err(e)
      case Ok(lower) =>
        match robot.register(ids[0], "upper_limit")
        case Err(e) => Err(e)
        case Ok(upper) =>
          match MotorEntries(robot, ids[1..])
          case Err(e) => Err(e)
          case Ok(rest) => Ok([MotorEntry(ids[0], lower, upper)] + rest)
  }

  function AliasMotorLists(aliases: seq<Alias>): (ls: seq<seq<string>>)
    ensures |ls| == |aliases|
    ensures forall i :: 0 <= i < |aliases| ==> ls[i] == aliases[i].motors
  {
    seq(|aliases|, i requires 0 <= i < |aliases| => aliases[i].motors)
  }

  /** `aliases.reduce((acc, elt) => acc.concat(elt.motors), [])`: the alias motor lists one after the other. */
  function MotorIds(aliases: seq<Alias>): (ids: seq<string>)
    ensures ids == Misc.Flatten(AliasMotorLists(aliases))
  {
    Misc.FoldSplice([], AliasMotorLists(aliases));
    Misc.FoldLeft(Misc.Splice, [], AliasMotorLists(aliases))
  }

  /**
   * Discovery with the ordered concurrent map `promiseAll` was meant to be:
   * the aliases, the motors of every alias gathered in alias order with
   * duplicates kept, and the descriptor named after `connect.ip` (a
   * TypeError when `connect` itself is `undefined`).
   */
  function Discover(robot: Robot, connect: Option<Option<string>>): (r: Result<Descriptor>)
    ensures r.Ok? ==> connect.Some? && robot.aliases.Ok?
    ensures r.Ok? ==> r.value.Discovered?
    ensures r.Ok? ==> r.value.name == Render(connect.value)
    ensures r.Ok? ==> r.value.description == "Robot lively discovered from " + Render(connect.value)
    ensures r.Ok? ==> |r.value.aliases| == |robot.aliases.value|
    ensures r.Ok? ==> forall i :: 0 <= i < |r.value.aliases| ==> r.value.aliases[i].name == robot.aliases.value[i]
    ensures r.Ok? ==> |r.value.motors| == |MotorIds(r.value.aliases)|
    ensures r.Ok? ==> forall i :: 0 <= i < |r.value.motors| ==> r.value.motors[i].name == MotorIds(r.value.aliases)[i]
  {
    match robot.aliases
    case Err(e) => Err(e)
    case Ok(names) =>
      match AliasEntries(robot, names)
      case Err(e) => Err(e)
      case Ok(aliases) =>
        match MotorEntries(robot, MotorIds(aliases))
        case Err(e) => Err(e)
        case Ok(motors) =>
          match connect
          case None => Err(Effects.TypeError)
          case Some(ip) =>
            Ok(Discovered("Robot lively discovered from " + Render(ip), Render(ip), aliases, motors))
  }

  /** Two aliases sharing a motor: it is listed twice, in alias order. */
  lemma DuplicatesKept(a: string, b: string, m1: string, m2: string, m3: string)
    ensures MotorIds([Alias(a, [m1, m2]), Alias(b, [m2, m3])]) == [m1, m2, m2, m3]
  {
    var aliases := [Alias(a, [m1, m2]), Alias(b, [m2, m3])];
    assert AliasMotorLists(aliases) == [[m1, m2], [m2, m3]];
    assert [[m1, m2], [m2, m3]][1..] == [[m2, m3]];
    assert [[m2, m3]][1..] == [];
    assert Misc.Flatten([[m2, m3]]) == [m2, m3] + Misc.Flatten<string>([]);
    assert Misc.Flatten([[m1, m2], [m2, m3]]) == [m1, m2] + Misc.Flatten([[m2, m3]]);
  }

  /** `createDescriptor` with discovery corrected: discovery exactly for `desc://live-discovering`. */
  function CreateDescriptor(fs: Files, dir: string, robot: Robot, connect: Option<Option<string>>, locator: Option<string>): (r: Result<Descriptor>)
    ensures locator == Some(LiveDiscovering) ==> r == Discover(robot, connect)
    ensures locator != Some(LiveDiscovering) ==> r == MapParsed(ReadJson(fs, dir, locator))
  {
    if locator == Some(LiveDiscovering) then Discover(robot, connect) else MapParsed(ReadJson(fs, dir, locator))
  }

  /** A well-answering robot and given connection settings yield a descriptor. */
  lemma DiscoverySucceeds(robot: Robot, ip: Option<string>)
    requires robot.aliases.Ok?
    requires forall a :: robot.aliasMotors(a).Ok?
    requires forall m, reg :: robot.register(m, reg).Ok?
    ensures Discover(robot, Some(ip)).Ok?
  {
    AliasEntriesOk(robot, robot.aliases.value);
    var aliases := AliasEntries(robot, robot.aliases.value).value;
    MotorEntriesOk(robot, MotorIds(aliases));
  }

  lemma {:induction false} AliasEntriesOk(robot: Robot, names: seq<string>)
    requires forall a :: robot.aliasMotors(a).Ok?
    ensures AliasEntries(robot, names).Ok?
    decreases |names|
  {
    if |names| > 0 {
      AliasEntriesOk(robot, names[1..]);
    }
  }

  lemma {:induction false} MotorEntriesOk(robot: Robot, ids: seq<string>)
    requires forall m, reg :: robot.register(m, reg).Ok?
    ensures MotorEntries(robot, ids).Ok?
    decreases |ids|
  {
    if |ids| > 0 {
      MotorEntriesOk(robot, ids[1..]);
    }
  }
}
