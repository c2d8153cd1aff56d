/**
 * The request handler of the earlier revision, lib/utils/PoppyRequestHandler.js:
 * connection settings with their defaults, two base urls (the http server and
 * the snap server), and relative urls built from path templates whose
 * `:name` placeholders are filled from the call's parameters.
 */
module UrlTemplate {
  import opened Wrappers
  import opened Js
  import opened Effects
  import Misc

  // ---------------------------------------------------------------------------
  // Connection settings
  // ---------------------------------------------------------------------------

  /** The connection settings as given: a field left out is `None`. */
  datatype Connect = Connect(schema: Option<string>, ip: Option<string>, httpPort: Option<nat>,
                             snapPort: Option<nat>, timeout: Option<nat>)

  datatype Settings = Settings(schema: string, ip: string, httpPort: nat, snapPort: nat, timeout: nat)

  const DefaultSchema := "http"
  const DefaultIp := "poppy.local"
  const DefaultHttpPort: nat := 8080
  const DefaultSnapPort: nat := 6969
  const DefaultTimeout: nat := 2000

  /** The constructor's settings, which `getSettings` returns: each field given, or its default. */
  function SettingsOf(c: Connect): (s: Settings)
    ensures s.schema == (if c.schema.Some? then c.schema.value else "http")
    ensures s.ip == (if c.ip.Some? then c.ip.value else "poppy.local")
    ensures s.httpPort == (if c.httpPort.Some? then c.httpPort.value else 8080)
    ensures s.snapPort == (if c.snapPort.Some? then c.snapPort.value else 6969)
    ensures s.timeout == (if c.timeout.Some? then c.timeout.value else 2000)
  {
    Settings(c.schema.GetOr(DefaultSchema), c.ip.GetOr(DefaultIp), c.httpPort.GetOr(DefaultHttpPort),
             c.snapPort.GetOr(DefaultSnapPort), c.timeout.GetOr(DefaultTimeout))
  }

  /** `_getBaseURL(schema, ip, port)`: `schema://ip:port`. */
  function BaseUrl(schema: string, ip: string, port: nat): (url: string)
    ensures url == schema + "://" + ip + ":" + NatToString(port)
  {
    schema + "://" + ip + ":" + NatToString(port)
  }

  /** The handler: its settings and the base urls of its two servers. */
  datatype Handler = Handler(settings: Settings, http: string, snap: string)

  function NewHandler(c: Connect): (h: Handler)
    ensures h.settings == SettingsOf(c)
    ensures h.http == BaseUrl(h.settings.schema, h.settings.ip, h.settings.httpPort)
    ensures h.snap == BaseUrl(h.settings.schema, h.settings.ip, h.settings.snapPort)
  {
    var s := SettingsOf(c);
    Handler(s, BaseUrl(s.schema, s.ip, s.httpPort), BaseUrl(s.schema, s.ip, s.snapPort))
  }

  /** With no settings, the handler talks to `http://poppy.local:8080` and, for leds, `http://poppy.local:6969`. */
  lemma DefaultHandler()
    ensures var h := NewHandler(Connect(None, None, None, None, None));
      && h.settings == Settings("http", "poppy.local", 8080, 6969, 2000)
      && h.http == "http://poppy.local:8080"
      && h.snap == "http://poppy.local:6969"
  {
    Port8080();
    DefaultBase(8080, "8080");
    assert DefaultHost + "8080" == "http://poppy.local:8080";
    Port6969();
    DefaultBase(6969, "6969");
    assert DefaultHost + "6969" == "http://poppy.local:6969";
  }

  /** `http://poppy.local:`, the default base url up to the port. */
  const DefaultHost := "http://poppy.local:"

  lemma DefaultBase(port: nat, digits: string)
    requires NatToString(port) == digits
    ensures BaseUrl(DefaultSchema, DefaultIp, port) == DefaultHost + digits
  {
    assert DefaultSchema + "://" + DefaultIp + ":" == DefaultHost;
  }

  lemma Port8080()
    ensures NatToString(8080) == "8080"
  {
    assert NatToString(8) == "8";
    assert NatToString(80) == "8" + [Digit(0)];
    assert NatToString(808) == "80" + [Digit(8)];
    assert NatToString(8080) == "808" + [Digit(0)];
  }

  lemma Port6969()
    ensures NatToString(6969) == "6969"
  {
    assert NatToString(6) == "6";
    assert NatToString(69) == "6" + [Digit(9)];
    assert NatToString(696) == "69" + [Digit(6)];
    assert NatToString(6969) == "696" + [Digit(9)];
  }

  // ---------------------------------------------------------------------------
  // Path templates
  // ---------------------------------------------------------------------------

  /** A character `\w` matches. */
  predicate IsWordChar(c: char) {
    'a' <= c <= 'z' || 'A' <= c <= 'Z' || '0' <= c <= '9' || c == '_'
  }

  /** The length of the run of word characters starting at `i`. */
  function WordRun(s: string, i: nat): (k: nat)
    requires i <= |s|
    ensures i + k <= |s|
    ensures forall j :: i <= j < i + k ==> IsWordChar(s[j])
    ensures i + k == |s| || !IsWordChar(s[i + k])
    decreases |s| - i
  {
    if i == |s| || !IsWordChar(s[i]) then 0 else 1 + WordRun(s, i + 1)
  }

  /** A placeholder: a colon followed by one or more word characters. */
  predicate IsPlaceholder(p: string) {
    |p| >= 2 && p[0] == ':' && forall j :: 1 <= j < |p| ==> IsWordChar(p[j])
  }

  /**
   * `path.match(/:\w+/g) || []`: scanning left to right, each colon followed
   * by a word character starts a placeholder that takes the whole word run;
   * the scan resumes after it.
   */
  function Placeholders(s: string): (ps: seq<string>)
    ensures forall i :: 0 <= i < |ps| ==> IsPlaceholder(ps[i])
    decreases |s|
  {
    if |s| < 2 then []
    else if s[0] == ':' && IsWordChar(s[1]) then
      var k := WordRun(s, 1);
      [s[..1 + k]] + Placeholders(s[1 + k..])
    else Placeholders(s[1..])
  }

  /** A template without a colon has no placeholder. */
  lemma {:induction false} NoColonNoPlaceholder(s: string)
    requires ':' !in s
    ensures Placeholders(s) == []
    decreases |s|
  {
    if |s| >= 2 {
      assert s[0] != ':';
      assert forall c :: c in s[1..] ==> c in s;
      NoColonNoPlaceholder(s[1..]);
    }
  }

  predicate OccursAt(s: string, pat: string, i: nat) {
    i + |pat| <= |s| && s[i..i + |pat|] == pat
  }

  /** The first position where `pat` occurs in `s` at or after `from`. */
  function IndexOf(s: string, pat: string, from: nat): (r: Option<nat>)
    ensures r.Some? ==> from <= r.value && OccursAt(s, pat, r.value)
    ensures forall j :: from <= j && (r.None? || j < r.value) ==> !OccursAt(s, pat, j)
    decreases |s| - from
  {
    if from + |pat| > |s| then None
    else if s[from..from + |pat|] == pat then Some(from)
    else IndexOf(s, pat, from + 1)
  }

  /** `s.replace(pat, value)`: the first occurrence of `pat` replaced, `s` unchanged when there is none. */
  function ReplaceFirst(s: string, pat: string, value: string): (r: string)
    ensures IndexOf(s, pat, 0).None? ==> r == s
    ensures IndexOf(s, pat, 0).Some? ==>
      var i := IndexOf(s, pat, 0).value;
      r == s[..i] + value + s[i + |pat|..]
  {
    match IndexOf(s, pat, 0)
    case None => s
    case Some(i) => s[..i] + value + s[i + |pat|..]
  }

  /** The error a parameter without a value raises; its template is written in plain quotes, so it is not interpolated. */
  const MissingValue := "Missing value for parameter '${param}' in url ${descriptor.path}"

  /** A parameter has a value when it is given and not the empty string (a falsy value is missing). */
  predicate HasValue(params: map<string, string>, name: string) {
    name in params && params[name] != ""
  }

  /** The placeholder's parameter name, its colon dropped (`slice(1)`). */
  function NameOf(p: string): string {
    if |p| == 0 then p else p[1..]
  }

  /**
   * The placeholders in turn, each replacing its first occurrence in the path
   * as it stands; the first one without a value throws.
   */
  function Substitute(path: string, ps: seq<string>, params: map<string, string>): (r: Result<string>)
    requires forall i :: 0 <= i < |ps| ==> IsPlaceholder(ps[i])
    decreases |ps|
  {
    if |ps| == 0 then Ok(path)
    else
      var p := ps[0];
      if HasValue(params, NameOf(p)) then Substitute(ReplaceFirst(path, p, params[NameOf(p)]), ps[1..], params)
      else Err(MissingValue)
  }

  /** Every placeholder has a value. */
  predicate AllGiven(ps: seq<string>, params: map<string, string>)
  {
    forall i :: 0 <= i < |ps| ==> HasValue(params, NameOf(ps[i]))
  }

  /** Substitution succeeds exactly when every placeholder has a value, and fails with the literal message otherwise. */
  lemma {:induction false} SubstituteSucceeds(path: string, ps: seq<string>, params: map<string, string>)
    requires forall i :: 0 <= i < |ps| ==> IsPlaceholder(ps[i])
    ensures Substitute(path, ps, params).Ok? <==> AllGiven(ps, params)
    ensures Substitute(path, ps, params).Err? ==> Substitute(path, ps, params).error == MissingValue
    decreases |ps|
  {
    if |ps| > 0 && HasValue(params, NameOf(ps[0])) {
      SubstituteSucceeds(ReplaceFirst(path, ps[0], params[NameOf(ps[0])]), ps[1..], params);
      assert AllGiven(ps, params) <==> AllGiven(ps[1..], params) by {
        if AllGiven(ps[1..], params) {
          forall i | 0 <= i < |ps|
            ensures HasValue(params, NameOf(ps[i]))
          {
            if i > 0 {
              assert ps[i] == ps[1..][i - 1];
            }
          }
        }
      }
    }
  }

  /**
   * The message is written in single quotes, so `${param}` and
   * `${descriptor.path}` are not interpolated: whichever parameter is
   * missing, from whichever template, the error reads the same.
   */
  lemma MissingValueNamesNothing(path: string, ps: seq<string>, params: map<string, string>,
                                 path': string, ps': seq<string>, params': map<string, string>)
    requires forall i :: 0 <= i < |ps| ==> IsPlaceholder(ps[i])
    requires forall i :: 0 <= i < |ps'| ==> IsPlaceholder(ps'[i])
    requires !AllGiven(ps, params) && !AllGiven(ps', params')
    ensures Substitute(path, ps, params) == Substitute(path', ps', params') == Err(MissingValue)
  {
    SubstituteSucceeds(path, ps, params);
    SubstituteSucceeds(path', ps', params');
  }

  /** The message evidently intended: it names the placeholder and the template. */
  function MissingValueFor(param: string, template: string): string {
    "Missing value for parameter '" + param + "' in url " + template
  }

  /** Placeholder `i` is the first one without a value. */
  predicate FirstMissing(ps: seq<string>, params: map<string, string>, i: int)
  {
    && 0 <= i < |ps|
    && !HasValue(params, NameOf(ps[i]))
    && forall j :: 0 <= j < i ==> HasValue(params, NameOf(ps[j]))
  }

  /**
   * Substitution with the message interpolated: the first placeholder
   * without a value is named, with the template it belongs to.
   */
  function SubstituteIntended(template: string, path: string, ps: seq<string>, params: map<string, string>): (r: Result<string>)
    requires forall i :: 0 <= i < |ps| ==> IsPlaceholder(ps[i])
    ensures r.Ok? <==> AllGiven(ps, params)
    ensures r.Err? ==> exists i :: FirstMissing(ps, params, i) && r.error == MissingValueFor(ps[i], template)
    decreases |ps|
  {
    if |ps| == 0 then Ok(path)
    else
      var p := ps[0];
      if HasValue(params, NameOf(p)) then
        var r := SubstituteIntended(template, ReplaceFirst(path, p, params[NameOf(p)]), ps[1..], params);
        assert AllGiven(ps, params) <==> AllGiven(ps[1..], params) by {
          if AllGiven(ps[1..], params) {
            forall i | 0 <= i < |ps|
              ensures HasValue(params, NameOf(ps[i]))
            {
              if i > 0 {
                assert ps[i] == ps[1..][i - 1];
              }
            }
          }
        }
        if r.Err? then
          var i :| FirstMissing(ps[1..], params, i) && r.error == MissingValueFor(ps[1..][i], template);
          assert FirstMissing(ps, params, i + 1) by {
            forall j | 0 <= j < i + 1
              ensures HasValue(params, NameOf(ps[j]))
            {
              if j > 0 {
                assert ps[j] == ps[1..][j - 1];
              }
            }
          }
          r
        else r
      else
        assert FirstMissing(ps, params, 0);
        Err(MissingValueFor(p, template))
  }

  /** Only the message changes: the intended substitution fills in the same path when it succeeds. */
  lemma {:induction false} SubstituteAgrees(template: string, path: string, ps: seq<string>, params: map<string, string>)
    requires forall i :: 0 <= i < |ps| ==> IsPlaceholder(ps[i])
    ensures SubstituteIntended(template, path, ps, params).Ok? <==> Substitute(path, ps, params).Ok?
    ensures Substitute(path, ps, params).Ok? ==> SubstituteIntended(template, path, ps, params) == Substitute(path, ps, params)
    decreases |ps|
  {
    if |ps| > 0 && HasValue(params, NameOf(ps[0])) {
      SubstituteAgrees(template, ReplaceFirst(path, ps[0], params[NameOf(ps[0])]), ps[1..], params);
    }
  }

  /** One REST endpoint: its id, its path template and its method. */
  datatype Route = Route(id: string, path: string, verb: string)

  /** The led hack: the snap server sets a register through a GET on this template. */
  const SnapLed := Route("snap_led", LedPrefix + LedTemplate, "get")

  /** The led template, `/motors/set/registers/:motor_name::reg::color`, in two parts. */
  const LedPrefix := "/motors/set/registers/"
  const LedTemplate := ":motor_name" + ("::reg" + "::color")

  /**
   * The endpoints: those of config/rest-api.json, which is not part of this
   * model and so a parameter, then `snap_led`.
   */
  function Routes(api: seq<Route>): (rs: seq<Route>)
    ensures rs == api + [SnapLed]
  {
    api + [SnapLed]
  }

  /** `_REST_PATHS.find(elt => id === elt.id)` */
  function Find(routes: seq<Route>, id: string): (r: Option<Route>)
    ensures r.Some? ==> r.value in routes && r.value.id == id
    ensures r.None? <==> forall i :: 0 <= i < |routes| ==> routes[i].id != id
    ensures r.Some? ==> exists i :: 0 <= i < |routes| && routes[i] == r.value && forall j :: 0 <= j < i ==> routes[j].id != id
    decreases |routes|
  {
    if |routes| == 0 then None
    else if routes[0].id == id then Some(routes[0])
    else
      var r := Find(routes[1..], id);
      if r.Some? then
        var i :| 0 <= i < |routes[1..]| && routes[1..][i] == r.value && forall j :: 0 <= j < i ==> routes[1..][j].id != id;
        assert routes[i + 1] == r.value;
        assert forall j :: 0 <= j < i + 1 ==> routes[j].id != id by {
          forall j | 0 < j < i + 1 ensures routes[j].id != id {
            assert routes[j] == routes[1..][j - 1];
          }
        }
        r
      else r
  }

  /** A relative url and the method of the client to call it with. */
  datatype Endpoint = Endpoint(path: string, verb: string)

  /**
   * `_getRelativeURL(id, inputParameters)`: the endpoint's path with its
   * placeholders filled in, and its method; an unknown id is a TypeError
   * (`descriptor` is `undefined`), and a missing value throws the literal,
   * uninterpolated message.
   */
  function RelativeUrl(routes: seq<Route>, id: string, params: map<string, string>): (r: Result<Endpoint>)
    ensures Find(routes, id).None? ==> r == Err(TypeError)
    ensures Find(routes, id).Some? ==>
      var route := Find(routes, id).value;
      && (r.Ok? <==> AllGiven(Placeholders(route.path), params))
      && (r.Ok? ==> r.value.verb == route.verb)
      && (r.Ok? ==> Substitute(route.path, Placeholders(route.path), params) == Ok(r.value.path))
      && (r.Err? ==> r.error == MissingValue)
  {
    match Find(routes, id)
    case None => Err(TypeError)
    case Some(route) =>
      var ps := Placeholders(route.path);
      SubstituteSucceeds(route.path, ps, params);
      match Substitute(route.path, ps, params)
      case Err(e) => Err(e)
      case Ok(path) => Ok(Endpoint(path, route.verb))
  }

  /**
   * Corrected `_getRelativeURL`: the same endpoint, but a missing value is
   * reported with the message interpolated, naming the first placeholder
   * without a value and the template.
   */
  function RelativeUrlIntended(routes: seq<Route>, id: string, params: map<string, string>): (r: Result<Endpoint>)
    ensures Find(routes, id).None? ==> r == Err(TypeError)
    ensures Find(routes, id).Some? ==>
      var route := Find(routes, id).value;
      && (r.Ok? <==> AllGiven(Placeholders(route.path), params))
      && (r.Err? ==> exists i :: FirstMissing(Placeholders(route.path), params, i)
                               && r.error == MissingValueFor(Placeholders(route.path)[i], route.path))
  {
    match Find(routes, id)
    case None => Err(TypeError)
    case Some(route) =>
      match SubstituteIntended(route.path, route.path, Placeholders(route.path), params)
      case Err(e) => Err(e)
      case Ok(path) => Ok(Endpoint(path, route.verb))
  }

  /** The corrected lookup succeeds on the same inputs, with the same endpoint; only the message differs. */
  lemma RelativeUrlAgrees(routes: seq<Route>, id: string, params: map<string, string>)
    ensures RelativeUrlIntended(routes, id, params).Ok? <==> RelativeUrl(routes, id, params).Ok?
    ensures RelativeUrl(routes, id, params).Ok? ==> RelativeUrlIntended(routes, id, params) == RelativeUrl(routes, id, params)
    ensures RelativeUrl(routes, id, params).Err? && Find(routes, id).Some? ==> RelativeUrl(routes, id, params).error == MissingValue
  {
    if Find(routes, id).Some? {
      var route := Find(routes, id).value;
      SubstituteAgrees(route.path, route.path, Placeholders(route.path), params);
    }
  }

  /** A template without placeholders is the relative url as it stands. */
  lemma PlainPath(routes: seq<Route>, id: string, params: map<string, string>)
    requires Find(routes, id).Some? && ':' !in Find(routes, id).value.path
    ensures RelativeUrl(routes, id, params) == Ok(Endpoint(Find(routes, id).value.path, Find(routes, id).value.verb))
  {
    NoColonNoPlaceholder(Find(routes, id).value.path);
  }

  /** The placeholders of the led template: the double colons separate them and are kept. */
  lemma SnapLedPlaceholders()
    ensures Placeholders(SnapLed.path) == [":motor_name", ":reg", ":color"]
  {
    LedTemplatePlaceholders();
    assert ':' !in LedPrefix;
    SkipPrefix(LedPrefix, LedTemplate);
  }

  lemma LedTemplatePlaceholders()
    ensures Placeholders(LedTemplate) == [":motor_name", ":reg", ":color"]
  {
    var rest := "::reg" + "::color";
    RegColorPlaceholders();
    SkipColon(rest);
    assert rest[1..] == ":reg" + "::color";
    MotorNamePlaceholder();
    PlaceholderStep(LedTemplate, ":motor_name", rest);
  }

  lemma MotorNamePlaceholder()
    ensures IsPlaceholder(":motor_name")
  {
    var p := ":motor_name";
    forall j | 1 <= j < |p|
      ensures IsWordChar(p[j])
    {
      assert p[j] in "motor_name";
    }
  }

  /** The tail of the led template, after `:motor_name:`. */
  lemma RegColorPlaceholders()
    ensures Placeholders(":reg" + "::color") == [":reg", ":color"]
  {
    var color := "::color";
    WholePlaceholder(":color");
    SkipColon(color);
    assert color[1..] == ":color";
    PlaceholderStep(":reg" + color, ":reg", color);
  }

  /** A colon followed by a colon starts no placeholder. */
  lemma SkipColon(s: string)
    requires |s| >= 2 && s[0] == ':' && s[1] == ':'
    ensures Placeholders(s) == Placeholders(s[1..])
  {
  }

  /** A placeholder on its own is its one placeholder. */
  lemma WholePlaceholder(p: string)
    requires IsPlaceholder(p)
    ensures Placeholders(p) == [p]
  {
    WordRunUpTo(p, 1, |p|);
    assert p[..|p|] == p;
    assert p[|p|..] == [];
  }

  /** A leading placeholder followed by a colon: it is taken, and the scan resumes at the colon. */
  lemma PlaceholderStep(s: string, p: string, rest: string)
    requires IsPlaceholder(p) && |rest| > 0 && rest[0] == ':'
    requires s == p + rest
    ensures Placeholders(s) == [p] + Placeholders(rest)
  {
    assert s[0] == ':' && IsWordChar(s[1]);
    assert s[|p|] == ':';
    WordRunUpTo(s, 1, |p|);
    assert s[..|p|] == p;
    assert s[|p|..] == rest;
  }

  lemma {:induction false} WordRunUpTo(s: string, i: nat, end: nat)
    requires i <= end <= |s|
    requires forall j :: i <= j < end ==> IsWordChar(s[j])
    requires end == |s| || !IsWordChar(s[end])
    ensures WordRun(s, i) == end - i
    decreases end - i
  {
    if i < end {
      WordRunUpTo(s, i + 1, end);
    }
  }

  /** Text without a colon before the first placeholder is skipped. */
  lemma {:induction false} SkipPrefix(prefix: string, s: string)
    requires ':' !in prefix && |s| >= 2
    ensures Placeholders(prefix + s) == Placeholders(s)
    decreases |prefix|
  {
    if |prefix| > 0 {
      assert (prefix + s)[0] == prefix[0] && prefix[0] != ':';
      assert (prefix + s)[1..] == prefix[1..] + s;
      assert forall c :: c in prefix[1..] ==> c in prefix;
      SkipPrefix(prefix[1..], s);
    } else {
      assert prefix + s == s;
    }
  }

  // ---------------------------------------------------------------------------
  // Replacing the first occurrence
  // ---------------------------------------------------------------------------

  lemma ShiftOccurs(a: string, b: string, pat: string, i: nat)
    ensures OccursAt(a + b, pat, |a| + i) <==> OccursAt(b, pat, i)
  {
    if i + |pat| <= |b| {
      assert (a + b)[|a| + i..|a| + i + |pat|] == b[i..i + |pat|];
    }
  }

  /** No occurrence starts inside a text without the pattern's first character. */
  lemma NoStartIn(a: string, b: string, pat: string)
    requires |pat| > 0 && pat[0] !in a
    ensures forall j :: 0 <= j < |a| ==> !OccursAt(a + b, pat, j)
  {
    forall j | 0 <= j < |a|
      ensures !OccursAt(a + b, pat, j)
    {
      assert (a + b)[j] == a[j] && a[j] != pat[0];
      if j + |pat| <= |a + b| {
        assert (a + b)[j..j + |pat|][0] == (a + b)[j];
      }
    }
  }

  /** The first occurrence is where the pattern occurs with none before it. */
  lemma FirstOccurrence(s: string, pat: string, i: nat)
    requires OccursAt(s, pat, i)
    requires forall j :: 0 <= j < i ==> !OccursAt(s, pat, j)
    ensures IndexOf(s, pat, 0) == Some(i)
  {
  }

  lemma NoOccurrence(s: string, pat: string)
    requires forall j :: 0 <= j ==> !OccursAt(s, pat, j)
    ensures IndexOf(s, pat, 0) == None
  {
  }

  /** When no occurrence starts in `a`, the first one in `a + b` is the first one in `b`, shifted. */
  lemma IndexAfter(a: string, b: string, pat: string)
    requires forall j :: 0 <= j < |a| ==> !OccursAt(a + b, pat, j)
    ensures IndexOf(b, pat, 0).Some? ==> IndexOf(a + b, pat, 0) == Some(|a| + IndexOf(b, pat, 0).value)
    ensures IndexOf(b, pat, 0).None? ==> IndexOf(a + b, pat, 0).None?
  {
    match IndexOf(b, pat, 0)
    case None => IndexAfterNone(a, b, pat);
    case Some(i) => IndexAfterSome(a, b, pat, i);
  }

  lemma IndexAfterNone(a: string, b: string, pat: string)
    requires forall j :: 0 <= j < |a| ==> !OccursAt(a + b, pat, j)
    requires IndexOf(b, pat, 0).None?
    ensures IndexOf(a + b, pat, 0).None?
  {
    forall j | |a| <= j
      ensures !OccursAt(a + b, pat, j)
    {
      ShiftOccurs(a, b, pat, j - |a|);
    }
    NoOccurrence(a + b, pat);
  }

  lemma IndexAfterSome(a: string, b: string, pat: string, i: nat)
    requires forall j :: 0 <= j < |a| ==> !OccursAt(a + b, pat, j)
    requires IndexOf(b, pat, 0) == Some(i)
    ensures IndexOf(a + b, pat, 0) == Some(|a| + i)
  {
    forall j | |a| <= j < |a| + i
      ensures !OccursAt(a + b, pat, j)
    {
      ShiftOccurs(a, b, pat, j - |a|);
    }
    ShiftOccurs(a, b, pat, i);
    FirstOccurrence(a + b, pat, |a| + i);
  }

  /** When no occurrence starts in `a`, replacing in `a + b` replaces in `b`. */
  lemma ReplaceAfter(a: string, b: string, pat: string, value: string)
    requires forall j :: 0 <= j < |a| ==> !OccursAt(a + b, pat, j)
    ensures ReplaceFirst(a + b, pat, value) == a + ReplaceFirst(b, pat, value)
  {
    IndexAfter(a, b, pat);
    match IndexOf(b, pat, 0)
    case None =>
      ReplaceNone(b, pat, value);
      ReplaceNone(a + b, pat, value);
    case Some(i) =>
      ReplaceShifted(a, b, pat, value, i);
  }

  lemma ReplaceShifted(a: string, b: string, pat: string, value: string, i: nat)
    requires IndexOf(b, pat, 0) == Some(i) && IndexOf(a + b, pat, 0) == Some(|a| + i)
    ensures ReplaceFirst(a + b, pat, value) == a + ReplaceFirst(b, pat, value)
  {
    ReplaceAt(b, pat, value, i);
    ReplaceAt(a + b, pat, value, |a| + i);
    SpliceShift(a, b, i, |pat|, value);
  }

  lemma ReplaceNone(s: string, pat: string, value: string)
    requires IndexOf(s, pat, 0).None?
    ensures ReplaceFirst(s, pat, value) == s
  {
  }

  /** `s` with its `n` characters from `i` on replaced by `value`. */
  function Splice(s: string, i: nat, n: nat, value: string): string
    requires i + n <= |s|
  {
    s[..i] + value + s[i + n..]
  }

  lemma ReplaceAt(s: string, pat: string, value: string, i: nat)
    requires IndexOf(s, pat, 0) == Some(i)
    ensures i + |pat| <= |s|
    ensures ReplaceFirst(s, pat, value) == Splice(s, i, |pat|, value)
  {
  }

  lemma SpliceShift(a: string, b: string, i: nat, n: nat, value: string)
    requires i + n <= |b|
    ensures Splice(a + b, |a| + i, n, value) == a + Splice(b, i, n, value)
  {
    assert (a + b)[..|a| + i] == a + b[..i];
    assert (a + b)[|a| + i + n..] == b[i + n..];
  }

  /** A text without the pattern's first character is kept in front. */
  lemma ReplaceAfterPlain(a: string, b: string, pat: string, value: string)
    requires |pat| > 0 && pat[0] !in a
    ensures ReplaceFirst(a + b, pat, value) == a + ReplaceFirst(b, pat, value)
  {
    NoStartIn(a, b, pat);
    ReplaceAfter(a, b, pat, value);
  }

  /** A first character where the pattern does not occur is kept in front. */
  lemma ReplaceSkip(c: char, b: string, pat: string, value: string)
    requires !OccursAt([c] + b, pat, 0)
    ensures ReplaceFirst([c] + b, pat, value) == [c] + ReplaceFirst(b, pat, value)
  {
    ReplaceAfter([c], b, pat, value);
  }

  /** A text that starts with the pattern has it replaced there. */
  lemma ReplaceHead(pat: string, b: string, value: string)
    ensures ReplaceFirst(pat + b, pat, value) == value + b
  {
    assert (pat + b)[0..|pat|] == pat;
    FirstOccurrence(pat + b, pat, 0);
    ReplaceAt(pat + b, pat, value, 0);
    assert (pat + b)[..0] + value == value;
    assert (pat + b)[|pat|..] == b;
  }

  // ---------------------------------------------------------------------------
  // Requests
  // ---------------------------------------------------------------------------

  /** A call of the HTTP client: the base url of the server, the relative url, the method and the body. */
  datatype Call = Call(base: string, path: string, verb: string, data: Option<string>)

  /** `setMotorRegister(motor_name, register_name, data)`: endpoint `set_register` on the http server, `data` as the body. */
  function SetMotorRegister(h: Handler, routes: seq<Route>, motor: string, register: string, data: string): (r: Result<Call>)
    ensures r.Ok? <==> RelativeUrl(routes, "set_register", map["motor_name" := motor, "register_name" := register]).Ok?
    ensures r.Ok? ==> r.value.base == h.http && r.value.data == Some(data)
  {
    var e := RelativeUrl(routes, "set_register", map["motor_name" := motor, "register_name" := register]);
    if e.Err? then Err(e.error) else Ok(Call(h.http, e.value.path, e.value.verb, Some(data)))
  }

  /** `getMotorRegister(motor_name, register_name)`: endpoint `get_register` on the http server. */
  function GetMotorRegister(h: Handler, routes: seq<Route>, motor: string, register: string): (r: Result<Call>)
    ensures r.Ok? <==> RelativeUrl(routes, "get_register", map["motor_name" := motor, "register_name" := register]).Ok?
    ensures r.Ok? ==> r.value.base == h.http && r.value.data == None
  {
    var e := RelativeUrl(routes, "get_register", map["motor_name" := motor, "register_name" := register]);
    if e.Err? then Err(e.error) else Ok(Call(h.http, e.value.path, e.value.verb, None))
  }

  /** `getAliases()`: endpoint `aliases` on the http server. */
  function GetAliases(h: Handler, routes: seq<Route>): (r: Result<Call>)
    ensures r.Ok? <==> RelativeUrl(routes, "aliases", map[]).Ok?
    ensures r.Ok? ==> r.value.base == h.http && r.value.data == None
  {
    var e := RelativeUrl(routes, "aliases", map[]);
    if e.Err? then Err(e.error) else Ok(Call(h.http, e.value.path, e.value.verb, None))
  }

  /** `getAliasMotors(alias)`: endpoint `motors` on the http server. */
  function GetAliasMotors(h: Handler, routes: seq<Route>, alias: string): (r: Result<Call>)
    ensures r.Ok? <==> RelativeUrl(routes, "motors", map["alias" := alias]).Ok?
    ensures r.Ok? ==> r.value.base == h.http && r.value.data == None
  {
    var e := RelativeUrl(routes, "motors", map["alias" := alias]);
    if e.Err? then Err(e.error) else Ok(Call(h.http, e.value.path, e.value.verb, None))
  }

  /** `led(motor_name, color)`: endpoint `snap_led` on the snap server, with `reg` fixed to `led`. */
  function SetLed(h: Handler, api: seq<Route>, motor: string, color: string): (r: Result<Call>)
    ensures r.Ok? <==> RelativeUrl(Routes(api), "snap_led", map["motor_name" := motor, "reg" := "led", "color" := color]).Ok?
    ensures r.Ok? ==> r.value.base == h.snap && r.value.data == None
  {
    var e := RelativeUrl(Routes(api), "snap_led", map["motor_name" := motor, "reg" := "led", "color" := color]);
    if e.Err? then Err(e.error) else Ok(Call(h.snap, e.value.path, e.value.verb, None))
  }

  /**
   * Setting the led of motor `m` to `color` is a GET of
   * `/motors/set/registers/<m>:led:<color>` on the snap server, when the REST
   * description has no `snap_led` of its own and the motor name has no colon.
   */
  lemma LedUrl(h: Handler, api: seq<Route>, m: string, color: string)
    requires forall i :: 0 <= i < |api| ==> api[i].id != "snap_led"
    requires m != "" && color != "" && ':' !in m
    ensures SetLed(h, api, m, color) == Ok(Call(h.snap, LedPrefix + (m + (":" + ("led" + (":" + color)))), "get", None))
  {
    FindLast(api, SnapLed);
    SnapLedPlaceholders();
    var params := map["motor_name" := m, "reg" := "led", "color" := color];
    LedPath(m, color, params);
  }

  /** Turning the led of m2 off: `/motors/set/registers/m2:led:off`. */
  lemma LedOff(h: Handler, api: seq<Route>)
    requires forall i :: 0 <= i < |api| ==> api[i].id != "snap_led"
    ensures SetLed(h, api, "m2", "off") == Ok(Call(h.snap, "/motors/set/registers/" + "m2:led:off", "get", None))
  {
    LedUrl(h, api, "m2", "off");
    LedOffText();
  }

  lemma LedOffText()
    ensures LedPrefix + ("m2" + (":" + ("led" + (":" + "off")))) == "/motors/set/registers/" + "m2:led:off"
  {
    assert "m2" + (":" + ("led" + (":" + "off"))) == "m2:led:off";
  }

  lemma LedPath(m: string, color: string, params: map<string, string>)
    requires m != "" && color != "" && ':' !in m
    requires params == map["motor_name" := m, "reg" := "led", "color" := color]
    ensures Substitute(SnapLed.path, [":motor_name", ":reg", ":color"], params)
            == Ok(LedPrefix + (m + (":" + ("led" + (":" + color)))))
  {
    var ps := [":motor_name", ":reg", ":color"];
    assert NameOf(":motor_name") == "motor_name";
    LedName(m);
    SubstituteStep(SnapLed.path, ps, params, LedPrefix + (m + ("::reg" + "::color")));
    assert ps[1..] == [":reg", ":color"];
    LedRegColor(m, color, params);
  }

  lemma LedRegColor(m: string, color: string, params: map<string, string>)
    requires m != "" && color != "" && ':' !in m
    requires params == map["motor_name" := m, "reg" := "led", "color" := color]
    ensures Substitute(LedPrefix + (m + ("::reg" + "::color")), [":reg", ":color"], params)
            == Ok(LedPrefix + (m + (":" + ("led" + (":" + color)))))
  {
    var half := LedPrefix + (m + (":" + ("led" + "::color")));
    assert NameOf(":reg") == "reg" && NameOf(":color") == "color";
    LedReg(m);
    SubstituteStep(LedPrefix + (m + ("::reg" + "::color")), [":reg", ":color"], params, half);
    assert [":reg", ":color"][1..] == [":color"];
    LedColor(m, color);
    SubstituteStep(half, [":color"], params, LedPrefix + (m + (":" + ("led" + (":" + color)))));
  }

  /** One placeholder with a value replaced, the rest substituted in what that leaves. */
  lemma SubstituteStep(path: string, ps: seq<string>, params: map<string, string>, replaced: string)
    requires |ps| > 0 && forall i :: 0 <= i < |ps| ==> IsPlaceholder(ps[i])
    requires HasValue(params, NameOf(ps[0]))
    requires replaced == ReplaceFirst(path, ps[0], params[NameOf(ps[0])])
    ensures Substitute(path, ps, params) == Substitute(replaced, ps[1..], params)
  {
  }

  lemma LedName(m: string)
    ensures ReplaceFirst(SnapLed.path, ":motor_name", m) == LedPrefix + (m + ("::reg" + "::color"))
  {
    assert ':' !in LedPrefix;
    ReplaceAfterPlain(LedPrefix, LedTemplate, ":motor_name", m);
    ReplaceHead(":motor_name", "::reg" + "::color", m);
  }

  lemma LedReg(m: string)
    requires ':' !in m
    ensures ReplaceFirst(LedPrefix + (m + ("::reg" + "::color")), ":reg", "led") == LedPrefix + (m + (":" + ("led" + "::color")))
  {
    assert ':' !in LedPrefix;
    var rest := "::reg" + "::color";
    assert rest == [':'] + (":reg" + "::color");
    ReplaceAfterPlain(LedPrefix, m + rest, ":reg", "led");
    ReplaceAfterPlain(m, rest, ":reg", "led");
    assert !OccursAt(rest, ":reg", 0) by {
      assert rest[1] == ':' && ":reg"[1] == 'r';
    }
    ReplaceSkip(':', ":reg" + "::color", ":reg", "led");
    ReplaceHead(":reg", "::color", "led");
  }

  lemma LedColor(m: string, color: string)
    requires ':' !in m
    ensures ReplaceFirst(LedPrefix + (m + (":" + ("led" + "::color"))), ":color", color)
            == LedPrefix + (m + (":" + ("led" + (":" + color))))
  {
    assert ':' !in LedPrefix;
    var tail := "::color";
    assert tail == [':'] + (":color" + "");
    var rest := ":" + ("led" + tail);
    ReplaceAfterPlain(LedPrefix, m + rest, ":color", color);
    ReplaceAfterPlain(m, rest, ":color", color);
    assert !OccursAt(rest, ":color", 0) by {
      assert rest[1] == 'l' && ":color"[1] == 'c';
    }
    ReplaceSkip(':', "led" + tail, ":color", color);
    ReplaceAfterPlain("led", tail, ":color", color);
    assert !OccursAt(tail, ":color", 0) by {
      assert tail[1] == ':' && ":color"[1] == 'c';
    }
    ReplaceSkip(':', ":color" + "", ":color", color);
    ReplaceHead(":color", "", color);
    assert color + "" == color;
  }

  lemma {:induction false} FindLast(api: seq<Route>, last: Route)
    requires forall i :: 0 <= i < |api| ==> api[i].id != last.id
    ensures Find(api + [last], last.id) == Some(last)
  {
    var routes := api + [last];
    assert routes[|api|] == last;
    assert forall k :: 0 <= k < |api| ==> routes[k] == api[k];
    var r := Find(routes, last.id);
    assert r.Some?;
  }
}
