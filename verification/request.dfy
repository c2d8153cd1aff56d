/**
 * The current request layer (lib/request/PoppyRequestHandler.js): error
 * wrapping, posts, register writes with value normalisation, fault-isolated
 * register reads and the alias queries.
 */
module Request {
  import opened Wrappers
  import opened Js
  import opened Effects
  import Misc
  import Settings

  /** A request handler: its effective settings and the base url every request is relative to. */
  datatype Handler = Handler(config: Settings.Config, baseUrl: Option<string>, timeout: Value)

  /** `http://host:port`; `None` when a part is a number with a fraction, which the model does not render. */
  function BaseUrl(host: Value, port: Value): (u: Option<string>)
    ensures host.Str? && IsInteger(port) ==>
      u == Some("http://" + host.s + ":" + IntToString(port.n.r.Floor))
  {
    match (Text(host), Text(port))
    case (Some(h), Some(p)) => Some("http://" + h + ":" + p)
    case _ => None
  }

  /**
   * `new PoppyRequestHandler(config)`: the defaults overridden by `config`;
   * the host is the resolved address when there is one, else the host name.
   */
  function NewHandler(user: Settings.Config): (h: Handler)
    ensures h.config == Settings.WithDefaults(user)
    ensures var host := if Settings.Field(user, "resolved").Undefined? || Settings.Field(user, "resolved").Null?
                        then Settings.Field(h.config, "host") else Settings.Field(user, "resolved");
            h.baseUrl == BaseUrl(host, Settings.Field(h.config, "port"))
    ensures h.timeout == Settings.Field(h.config, "timeout")
  {
    var config := Settings.WithDefaults(user);
    var host := Coalesce(Settings.Field(config, "resolved"), Settings.Field(config, "host"));
    Handler(config, BaseUrl(host, Settings.Field(config, "port")), Settings.Field(config, "timeout"))
  }

  /** `NewHandler` with no settings targets `http://poppy.local:8080`. */
  lemma DefaultHandler()
    ensures NewHandler(map[]).baseUrl == Some("http://poppy.local:8080")
    ensures NewHandler(map[]).timeout == Int(500)
  {
    DefaultBase();
    Port8080();
    assert "http://" + "poppy.local" + ":" + "8080" == "http://poppy.local:8080";
  }

  lemma DefaultBase()
    ensures NewHandler(map[]).baseUrl == BaseUrl(Str("poppy.local"), Int(8080))
    ensures NewHandler(map[]).timeout == Int(500)
  {
    DefaultFields();
  }

  lemma DefaultFields()
    ensures var config := Settings.WithDefaults(map[]);
      && Settings.Field(map[], "resolved") == Undefined
      && Settings.Field(config, "host") == Str("poppy.local")
      && Settings.Field(config, "port") == Int(8080)
      && Settings.Field(config, "timeout") == Int(500)
  {
  }

  lemma Port8080()
    ensures IsInteger(Int(8080)) && IntToString(Int(8080).n.r.Floor) == "8080"
  {
    assert IntToString(8080) == "8080" by {
      assert NatToString(8) == "8";
      assert NatToString(80) == NatToString(8) + "0";
      assert NatToString(808) == NatToString(80) + "8";
      assert NatToString(8080) == NatToString(808) + "0";
    }
    assert (8080 as real).Floor == 8080;
  }

  /** A missing body. */
  const NoData := JScalar(Undefined)

  /**
   * `perform(url, method, config)`: one request; a transport failure rejects
   * with `"<method> <url>: <message>"`.
   */
  function Perform(net: Net, url: string, verb: Method, data: Json): (r: Run<Json>)
    ensures r.trace == [Request(verb, url, data)]
    ensures net(verb, url, data).Respond? ==> r.outcome == Ok(net(verb, url, data).data)
    ensures net(verb, url, data).Fail? ==>
      r.outcome == Err(MethodName(verb) + " " + url + ": " + net(verb, url, data).message)
  {
    var event := Request(verb, url, data);
    match net(verb, url, data)
    case Respond(d) => Run([event], Ok(d))
    case Fail(m) => Run([event], Err(MethodName(verb) + " " + url + ": " + m))
  }

  function HttpGet(net: Net, url: string): Run<Json> {
    Perform(net, url, Get, NoData)
  }

  /**
   * `post(url, data, config)`: `data` becomes the request body unless the
   * extra config carries a `data` field of its own (`override`), which wins.
   */
  function HttpPost(net: Net, url: string, data: Json, override: Option<Json>): (r: Run<Json>)
    ensures r.trace == [Request(Post, url, if override.Some? then override.value else data)]
  {
    Perform(net, url, Post, override.GetOr(data))
  }

  // ---------------------------------------------------------------------------
  // Register writes
  // ---------------------------------------------------------------------------

  /**
   * The value `setRegister` posts: `(!isNaN(parseFloat(v)) ^ !Number.isInteger(v)) ? v : Math.trunc(v)`.
   */
  function Normalise(v: Value): (w: Value)
    ensures Renderable(w)
  {
    var numeric := !ParseFloat(v).NaN?;
    var fractional := !IsInteger(v);
    if numeric != fractional then v else Number(Trunc(ToNumber(v)))
  }

  /** Integers, booleans, strings with no numeric prefix, `null` and `undefined` are posted unchanged. */
  lemma NormaliseKeeps(v: Value)
    ensures IsInteger(v) ==> Normalise(v) == v
    ensures v.Bool? || v.Null? || v.Undefined? ==> Normalise(v) == v
    ensures v.Str? && ParseFloat(v).NaN? ==> Normalise(v) == v
  {
  }

  /**
   * Numbers with a fraction are truncated toward zero, and so is every string
   * with a numeric prefix; a string that is a whole decimal or infinite literal
   * becomes the truncation of its `Number` value.
   */
  lemma NormaliseTruncates(v: Value)
    ensures v.Number? && v.n.Finite? && !Integral(v.n.r) ==>
      Normalise(v) == Int(TruncReal(v.n.r))
    ensures v.Str? && !ParseFloat(v).NaN? ==> Normalise(v) == Number(Trunc(StringToNumber(v.s)))
    ensures v.Str? && StringToNumber(v.s).Finite? && Trim(v.s) != "" ==>
      Normalise(v) == Int(TruncReal(StringToNumber(v.s).r))
  {
    if v.Str? && StringToNumber(v.s).Finite? && Trim(v.s) != "" {
      ParseFloatAgreesWithNumber(v.s);
    }
  }

  /** A string with an exponent is posted as the number it denotes. */
  lemma NormaliseExponent()
    ensures Normalise(Str("1e3")) == Int(1000)
  {
    NumberWithExponent();
    TrimPlain("1e3");
    NormaliseTruncates(Str("1e3"));
    assert TruncReal(1000.0) == 1000;
  }

  /** White space around a numeric string does not stop it being posted as a number. */
  lemma NormalisePadded()
    ensures Normalise(Str(" 12 ")) == Int(12)
  {
    NumberTrimmed();
    NormaliseTruncates(Str(" 12 "));
    assert TruncReal(12.0) == 12;
  }

  /** Blank text has no numeric prefix, so it is posted as it is, though `Number(" ")` is 0. */
  lemma NormaliseBlank()
    ensures Normalise(Str(" ")) == Str(" ")
  {
    NumberOfBlank();
    assert ParseFloat(Str(" ")).NaN?;
  }

  /** Posting a value already posted changes nothing: normalisation is idempotent. */
  lemma NormaliseIdempotent(v: Value)
    ensures Normalise(Normalise(v)) == Normalise(v)
  {
    var w := Normalise(v);
    if w != v {
      assert w.Number? && (w.n.Finite? ==> Integral(w.n.r));
      if w.n.Finite? {
        assert w.n.r.Floor as real == w.n.r;
        assert IsInteger(w);
      }
    }
  }

  /** The url of a register: `/motors/<motor>/registers/<register>/value.json`. */
  function RegisterUrl(motor: string, register: string): string {
    "/motors/" + motor + "/registers/" + register + "/value.json"
  }

  /** The body `setRegister` posts: `JSON.stringify` of the normalised value. */
  function RegisterBody(v: Value): Json {
    match Stringify(Normalise(v))
    case Some(text) => JScalar(Str(text))
    case None => NoData
  }

  /** `setRegister(motor, register, value)`: one post of the JSON text of the normalised value. */
  function SetRegister(net: Net, motor: string, register: string, v: Value): (r: Run<Json>)
    ensures r.trace == [Request(Post, RegisterUrl(motor, register), RegisterBody(v))]
    ensures IsInteger(v) ==>
      RegisterBody(v) == JScalar(Str(IntToString(v.n.r.Floor)))
    ensures v.Bool? ==> RegisterBody(v) == JScalar(Str(if v.b then "true" else "false"))
  {
    HttpPost(net, RegisterUrl(motor, register), RegisterBody(v), None)
  }

  // ---------------------------------------------------------------------------
  // Register reads
  // ---------------------------------------------------------------------------

  /** Field `k` of a JSON document, `undefined` when it is not an object holding `k`. */
  function FieldOf(j: Json, k: string): Json {
    if j.JObject? && k in j.fields then j.fields[k] else NoData
  }

  /** The elements of an array, or the one-character strings of a string: what indexing reaches. */
  function Elements(j: Json): (es: Option<seq<Json>>)
    ensures j.JList? ==> es == Some(j.elems)
    ensures j.JScalar? && j.v.Str? ==>
      && es.Some? && |es.value| == |j.v.s|
      && forall i :: 0 <= i < |j.v.s| ==> es.value[i] == JScalar(Str([j.v.s[i]]))
    ensures j.JObject? || (j.JScalar? && !j.v.Str?) ==> es.None?
  {
    match j
    case JList(elems) => Some(elems)
    case JScalar(Str(s)) => Some(seq(|s|, i requires 0 <= i < |s| => JScalar(Str([s[i]]))))
    case _ => None
  }

  /** Distinct indices have distinct decimal names. */
  lemma IndexNamesDistinct()
    ensures forall i: nat, j: nat :: NatToString(i) == NatToString(j) ==> i == j
  {
    forall i: nat, j: nat | NatToString(i) == NatToString(j)
      ensures i == j
    {
      NatToStringValue(i);
      NatToStringValue(j);
    }
  }

  /** The elements keyed by the decimal names of their indices, `"0"`, `"1"`, ... */
  function IndexMap(es: seq<Json>): (m: map<string, Json>)
    ensures forall i :: 0 <= i < |es| ==> NatToString(i) in m && m[NatToString(i)] == es[i]
    ensures forall k :: k in m ==> exists i :: 0 <= i < |es| && k == NatToString(i)
  {
    IndexNamesDistinct();
    map i | 0 <= i < |es| :: NatToString(i) := es[i]
  }

  /**
   * The own enumerable properties an object spread `{ ...j }` copies: an
   * object's fields, an array's or a string's elements under their indices,
   * nothing for any other value (`null` and `undefined` included).
   */
  function Spread(j: Json): (m: map<string, Json>)
    ensures j.JObject? ==> m == j.fields
    ensures j.JScalar? && !j.v.Str? ==> m == map[]
  {
    match j
    case JObject(fields) => fields
    case _ => if Elements(j).Some? then IndexMap(Elements(j).value) else map[]
  }

  /**
   * `j[k]`: a TypeError on `null` and `undefined`; an object's own field;
   * an array's or a string's element by index, and its `length`;
   * `undefined` for anything else.
   */
  function Member(j: Json, k: string): (r: Result<Json>)
    ensures r.Err? <==> j == JScalar(Undefined) || j == JScalar(Null)
    ensures r.Err? ==> r.error == TypeError
    ensures j.JObject? ==> r == Ok(FieldOf(j, k))
    ensures Elements(j).Some? && k == "length" ==> r == Ok(JScalar(Int(|Elements(j).value|)))
  {
    if j == JScalar(Undefined) || j == JScalar(Null) then Err(TypeError)
    else if j.JObject? then Ok(FieldOf(j, k))
    else
      match Elements(j)
      case None => Ok(NoData)
      case Some(es) =>
        if k == "length" then Ok(JScalar(Int(|es|)))
        else Ok(if k in IndexMap(es) then IndexMap(es)[k] else NoData)
  }

  /** Reading a property gives what a spread copy holds under it (`length` aside, which is not copied). */
  lemma MemberIsSpread(j: Json, k: string)
    requires j != JScalar(Undefined) && j != JScalar(Null) && k != "length"
    ensures Member(j, k) == Ok(if k in Spread(j) then Spread(j)[k] else NoData)
  {
  }

  /** Element `i` of an array, and character `i` of a string, is found under the decimal name of `i`. */
  lemma MemberAtIndex(j: Json, i: nat)
    requires Elements(j).Some? && i < |Elements(j).value|
    ensures Member(j, NatToString(i)) == Ok(Elements(j).value[i])
  {
    var es := Elements(j).value;
    assert NatToString(i) != "length" by {
      assert IsDigit(NatToString(i)[0]);
    }
    assert NatToString(i) in IndexMap(es);
  }

  /** `(p, n) => ({ ...p, ...n })`: the later fields win. */
  function Merge(p: map<string, Json>, n: Json): map<string, Json> {
    p + Spread(n)
  }

  /** One register read: the response body, or `{ [r]: undefined }` when the request failed. */
  function ReadOne(net: Net, motor: string, register: string): (r: Run<Json>)
    ensures r.outcome.Ok?
    ensures r.trace == [Request(Get, RegisterUrl(motor, register), NoData)]
  {
    var response := HttpGet(net, RegisterUrl(motor, register));
    match response.outcome
    case Ok(d) => response
    case Err(_) => Run(response.trace, Ok(JObject(map[register := NoData])))
  }

  function ReadProviders(net: Net, motor: string, registers: seq<string>): (ps: seq<() -> Run<Json>>)
    ensures |ps| == |registers|
    ensures forall i :: 0 <= i < |ps| ==> ps[i]() == ReadOne(net, motor, registers[i])
  {
    seq(|registers|, i requires 0 <= i < |registers| => () => ReadOne(net, motor, registers[i]))
  }

  /**
   * `getRegister(motor, ...registers)`: one read per register, in order,
   * merged left to right into one object; a failed read contributes
   * `undefined` instead of rejecting.
   */
  function GetRegister(net: Net, motor: string, registers: seq<string>): Run<map<string, Json>> {
    Misc.Chain(ReadProviders(net, motor, registers), Merge, map[])
  }

  /** The reads of `registers`, one GET per register, in order. */
  function ReadTrace(motor: string, registers: seq<string>): (t: seq<Event>)
    ensures |t| == |registers|
    decreases |registers|
  {
    if |registers| == 0 then []
    else [Request(Get, RegisterUrl(motor, registers[0]), NoData)] + ReadTrace(motor, registers[1..])
  }

  /**
   * A robot that answers a read of register r with `{ r: value }`, or fails.
   * Under it, each register's value is what the robot answered for it.
   */
  ghost predicate AnswersRegisters(net: Net, motor: string) {
    forall register: string ::
      var reply := net(Get, RegisterUrl(motor, register), NoData);
      reply.Respond? ==> reply.data.JObject? && reply.data.fields.Keys == {register}
  }

  /**
   * What reading `register` yields: the entry under `register` of the answer
   * spread into an object, or `undefined` when the read failed.
   */
  function ValueRead(net: Net, motor: string, register: string): Json {
    var reply := net(Get, RegisterUrl(motor, register), NoData);
    var fields := if reply.Respond? then Spread(reply.data) else map[];
    if register in fields then fields[register] else NoData
  }

  lemma {:induction false} ReadAllFulfil(net: Net, motor: string, registers: seq<string>)
    ensures Misc.AllFulfil(ReadProviders(net, motor, registers))
    ensures Misc.Traces(ReadProviders(net, motor, registers)) == ReadTrace(motor, registers)
    decreases |registers|
  {
    var ps := ReadProviders(net, motor, registers);
    if |registers| > 0 {
      ReadAllFulfil(net, motor, registers[1..]);
      assert ps[1..] == ReadProviders(net, motor, registers[1..]);
    }
  }

  /** The merged reads, register by register: the reference the chain's fold is compared with. */
  function MergeReads(net: Net, motor: string, registers: seq<string>, acc: map<string, Json>): map<string, Json>
    decreases |registers|
  {
    if |registers| == 0 then acc
    else MergeReads(net, motor, registers[1..], Merge(acc, ReadOne(net, motor, registers[0]).outcome.value))
  }

  lemma {:induction false} FoldIsMergeReads(net: Net, motor: string, registers: seq<string>, acc: map<string, Json>)
    ensures Misc.AllFulfil(ReadProviders(net, motor, registers))
    ensures Misc.FoldLeft(Merge, acc, Misc.Results(ReadProviders(net, motor, registers)))
            == MergeReads(net, motor, registers, acc)
    decreases |registers|
  {
    ReadAllFulfil(net, motor, registers);
    if |registers| > 0 {
      var ps := ReadProviders(net, motor, registers);
      assert ps[1..] == ReadProviders(net, motor, registers[1..]);
      FoldIsMergeReads(net, motor, registers[1..], Merge(acc, ps[0]().outcome.value));
    }
  }

  lemma {:induction false} MergeReadsValues(net: Net, motor: string, registers: seq<string>, acc: map<string, Json>)
    requires AnswersRegisters(net, motor)
    ensures MergeReads(net, motor, registers, acc).Keys == acc.Keys + (set r | r in registers)
    ensures forall r :: r in registers ==> MergeReads(net, motor, registers, acc)[r] == ValueRead(net, motor, r)
    decreases |registers|
  {
    MergeReadsKeys(net, motor, registers, acc);
    if |registers| > 0 {
      var r0 := registers[0];
      SpreadOne(net, motor, r0);
      var acc' := Merge(acc, ReadOne(net, motor, r0).outcome.value);
      MergeReadsValues(net, motor, registers[1..], acc');
      forall r | r in registers
        ensures MergeReads(net, motor, registers, acc)[r] == ValueRead(net, motor, r)
      {
        if r !in registers[1..] {
          MergeReadsKeeps(net, motor, registers[1..], acc', r);
        }
      }
    }
  }

  lemma {:induction false} MergeReadsKeys(net: Net, motor: string, registers: seq<string>, acc: map<string, Json>)
    requires AnswersRegisters(net, motor)
    ensures MergeReads(net, motor, registers, acc).Keys == acc.Keys + (set r | r in registers)
    decreases |registers|
  {
    if |registers| > 0 {
      var r0 := registers[0];
      SpreadOne(net, motor, r0);
      MergeReadsKeys(net, motor, registers[1..], Merge(acc, ReadOne(net, motor, r0).outcome.value));
      assert (set r | r in registers) == {r0} + (set r | r in registers[1..]);
    }
  }

  /** Against a robot that answers `{ r: value }`, one read spreads to exactly its register. */
  lemma SpreadOne(net: Net, motor: string, r: string)
    requires AnswersRegisters(net, motor)
    ensures Spread(ReadOne(net, motor, r).outcome.value) == map[r := ValueRead(net, motor, r)]
  {
    var reply := net(Get, RegisterUrl(motor, r), NoData);
    if reply.Respond? {
      assert reply.data.fields.Keys == {r};
    }
  }

  lemma {:induction false} MergeReadsKeeps(net: Net, motor: string, registers: seq<string>, acc: map<string, Json>, k: string)
    requires AnswersRegisters(net, motor)
    requires k in acc && k !in registers
    ensures k in MergeReads(net, motor, registers, acc)
    ensures MergeReads(net, motor, registers, acc)[k] == acc[k]
    decreases |registers|
  {
    if |registers| > 0 {
      var r0 := registers[0];
      var d := ReadOne(net, motor, r0).outcome.value;
      SpreadOne(net, motor, r0);
      MergeReadsKeeps(net, motor, registers[1..], Merge(acc, d), k);
    }
  }

  /**
   * `getRegister` never rejects; it issues one GET per register in order, and
   * against a robot that answers `{ r: value }`, its result holds exactly the
   * registers asked for, each with the value read or `undefined` if the read failed.
   */
  lemma GetRegisterIsolatesFaults(net: Net, motor: string, registers: seq<string>)
    ensures GetRegister(net, motor, registers).outcome.Ok?
    ensures GetRegister(net, motor, registers).trace == ReadTrace(motor, registers)
    ensures AnswersRegisters(net, motor) ==>
      var m := GetRegister(net, motor, registers).outcome.value;
      && m.Keys == (set r | r in registers)
      && forall r :: r in registers ==> r in m && m[r] == ValueRead(net, motor, r)
  {
    ReadAllFulfil(net, motor, registers);
    Misc.ChainAllFulfil(ReadProviders(net, motor, registers), Merge, map[]);
    FoldIsMergeReads(net, motor, registers, map[]);
    if AnswersRegisters(net, motor) {
      MergeReadsValues(net, motor, registers, map[]);
    }
  }

  // ---------------------------------------------------------------------------
  // Aliases
  // ---------------------------------------------------------------------------

  /** The rest of `getAliases()` once the response arrives: `response.data.aliases`. */
  function AliasesOf(d: Json): Run<Json> {
    Run([], Member(d, "aliases"))
  }

  /**
   * `getAliases()`: the `aliases` field of `/motors/aliases/list.json`; a
   * `null` body rejects with a TypeError.
   */
  function GetAliases(net: Net): (r: Run<Json>)
    ensures r.trace == [Request(Get, "/motors/aliases/list.json", NoData)]
    ensures var reply := net(Get, "/motors/aliases/list.json", NoData);
      && (reply.Respond? ==> r.outcome == Member(reply.data, "aliases"))
      && (reply.Respond? && reply.data.JObject? ==> r.outcome == Ok(FieldOf(reply.data, "aliases")))
      && (reply.Respond? && reply.data == JScalar(Null) ==> r.outcome == Err(TypeError))
      && (reply.Fail? ==> r.outcome.Err?)
  {
    Then(HttpGet(net, "/motors/aliases/list.json"), AliasesOf)
  }

  /** The rest of `getAliasMotors(alias)` once the response arrives: `response.data[alias]`. */
  function AliasMotorsOf(alias: string): Json -> Run<Json> {
    (d: Json) => Run([], Member(d, alias))
  }

  /**
   * `getAliasMotors(alias)`: the field named after the alias in
   * `/motors/<alias>/list.json`; a `null` body rejects with a TypeError.
   */
  function GetAliasMotors(net: Net, alias: string): (r: Run<Json>)
    ensures r.trace == [Request(Get, "/motors/" + alias + "/list.json", NoData)]
    ensures var reply := net(Get, "/motors/" + alias + "/list.json", NoData);
      && (reply.Respond? ==> r.outcome == Member(reply.data, alias))
      && (reply.Respond? && reply.data.JObject? ==> r.outcome == Ok(FieldOf(reply.data, alias)))
      && (reply.Respond? && reply.data == JScalar(Null) ==> r.outcome == Err(TypeError))
      && (reply.Fail? ==> r.outcome.Err?)
  {
    Then(HttpGet(net, "/motors/" + alias + "/list.json"), AliasMotorsOf(alias))
  }
}
