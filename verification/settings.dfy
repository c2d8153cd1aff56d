/** Connection settings of the current request layer (lib/request/settings.js). */
module Settings {
  import opened Wrappers
  import opened Js

  /** A configuration object: its own enumerable fields. */
  type Config = map<string, Value>

  /** The field `k` of a configuration, `undefined` when it has none. */
  function Field(c: Config, k: string): Value {
    if k in c then c[k] else Undefined
  }

  /** `DEFAULT_SETTINGS` */
  const DefaultSettings: Config :=
    map["host" := Str("poppy.local"), "port" := Int(8080), "timeout" := Int(500)]

  /** `{ ...DEFAULT_SETTINGS, ...config }` */
  function WithDefaults(user: Config): (c: Config)
    ensures c.Keys == DefaultSettings.Keys + user.Keys
    ensures forall k :: k in user ==> c[k] == user[k]
    ensures forall k :: k in DefaultSettings && k !in user ==> c[k] == DefaultSettings[k]
  {
    DefaultSettings + user
  }

  /**
   * `getConfig(config)`: the defaults overridden by the user's fields, plus
   * `resolved`, the address the host name resolved to (`lookedUp`, the result
   * of the DNS look-up) or the host itself when it did not resolve.
   */
  function GetConfig(user: Config, lookedUp: Option<string>): (c: Config)
    ensures c.Keys == DefaultSettings.Keys + user.Keys + {"resolved"}
    ensures lookedUp.Some? ==> c["resolved"] == Str(lookedUp.value)
    ensures lookedUp.None? ==> c["resolved"] == Field(WithDefaults(user), "host")
    ensures forall k :: k in user && k != "resolved" ==> c[k] == user[k]
    ensures forall k :: k in DefaultSettings && k !in user ==> c[k] == DefaultSettings[k]
  {
    var result := WithDefaults(user);
    var ip := if lookedUp.Some? then Str(lookedUp.value) else Undefined;
    result["resolved" := Coalesce(ip, Field(result, "host"))]
  }

  /** With no user settings and no DNS answer, the robot is `poppy.local:8080` with a 500 ms timeout. */
  lemma DefaultConfig()
    ensures GetConfig(map[], None) ==
      map["host" := Str("poppy.local"), "port" := Int(8080), "timeout" := Int(500),
          "resolved" := Str("poppy.local")]
  {
  }
}
