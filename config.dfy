/**
 * The configuration manager: a key/value store that the server reads its
 * credentials from. `get` lets an environment variable `PROMPTQL_<KEY>`
 * override the stored value, `set` stores non-empty values under the
 * lower-cased key, and the store starts from the configuration file or, when
 * there is none, from three environment variables. The environment is a map
 * given as a parameter and the file is given as its parsed contents.
 */
module Config {
  import opened Wrappers
  import opened Text

  type Store = map<string, string>
  type Environment = map<string, string>

  /** Python truthiness of an optional string. */
  predicate Truthy(v: Option<string>)
  {
    v.Some? && HasText(v.value)
  }

  /** `os.environ.get(name)`, with absence read as the falsy `""`. */
  function EnvValue(env: Environment, name: string): string
  {
    if name in env then env[name] else ""
  }

  /** The environment variable that `get(key)` consults first. */
  function EnvName(key: string): (r: string)
    ensures |r| == 9 + |key| && r[..9] == "PROMPTQL_" && r[9..] == Upper(key)
  {
    "PROMPTQL_" + Upper(key)
  }

  /** `ConfigManager.get(key, default)` on a store and an environment. */
  function Lookup(store: Store, env: Environment, key: string, default: Option<string>): (r: Option<string>)
    ensures || (r == Some(EnvValue(env, EnvName(key))) && HasText(EnvValue(env, EnvName(key))))
            || (Lower(key) in store && r == Some(store[Lower(key)]))
            || r == default
  {
    var fromEnv := EnvValue(env, EnvName(key));
    if HasText(fromEnv) then Some(fromEnv)
    else if Lower(key) in store then Some(store[Lower(key)])
    else default
  }

  /** The store after `ConfigManager.set(key, value)`. */
  function Stored(store: Store, key: string, value: string): (r: Store)
    ensures !HasText(value) ==> r == store
    ensures HasText(value) ==> r.Keys == store.Keys + {Lower(key)} && r[Lower(key)] == value
    ensures forall k :: k in store && k != Lower(key) ==> k in r && r[k] == store[k]
  {
    if !HasText(value) then store else store[Lower(key) := value]
  }

  /** `ConfigManager.is_configured()`: all three credentials are present and non-empty. */
  predicate Configured(store: Store, env: Environment)
  {
    && Truthy(Lookup(store, env, "api_key", None))
    && Truthy(Lookup(store, env, "playground_url", None))
    && Truthy(Lookup(store, env, "auth_token", None))
  }

  /** The environment variables read when there is no configuration file, in order. */
  const EnvMappings: seq<(string, string)> := [
    ("PROMPTQL_API_KEY", "api_key"),
    ("PROMPTQL_PLAYGROUND_URL", "playground_url"),
    ("PROMPTQL_AUTH_TOKEN", "auth_token")
  ]

  /**
   * `m` holds exactly the mapped keys whose environment variable is set and
   * non-empty, each with that variable's value, and nothing else.
   */
  ghost predicate FromEnvironment(m: Store, env: Environment)
  {
    && (forall c :: c in m ==> c in {"api_key", "playground_url", "auth_token"})
    && (forall i :: 0 <= i < |EnvMappings| ==>
          (EnvMappings[i].1 in m <==> HasText(EnvValue(env, EnvMappings[i].0))))
    && (forall i :: 0 <= i < |EnvMappings| && EnvMappings[i].1 in m ==>
          m[EnvMappings[i].1] == EnvValue(env, EnvMappings[i].0))
  }

  /** The table maps to three different keys. */
  lemma EnvMappingsDistinct()
    ensures forall p, q :: 0 <= p < q < |EnvMappings| ==> EnvMappings[p].1 != EnvMappings[q].1
  {
    assert |EnvMappings[0].1| == 7 && |EnvMappings[1].1| == 14 && |EnvMappings[2].1| == 10;
  }

  /** The environment branch of `_load_config`: a loop over the mapping table. */
  method LoadFromEnvironment(env: Environment) returns (m: Store)
    ensures FromEnvironment(m, env)
  {
    m := map[];
    EnvMappingsDistinct();
    for i := 0 to |EnvMappings|
      invariant forall c :: c in m ==> exists p :: 0 <= p < i && EnvMappings[p].1 == c
      invariant forall p :: 0 <= p < i ==>
        (EnvMappings[p].1 in m <==> HasText(EnvValue(env, EnvMappings[p].0)))
      invariant forall p :: 0 <= p < i && EnvMappings[p].1 in m ==>
        m[EnvMappings[p].1] == EnvValue(env, EnvMappings[p].0)
    {
      var (envKey, configKey) := EnvMappings[i];
      if HasText(EnvValue(env, envKey)) {
        m := m[configKey := env[envKey]];
      }
    }
  }

  /** What `_load_config` finds on disk; reading and parsing the file are not modelled. */
  datatype ConfigFile = Absent | Unreadable | Parsed(contents: Store)

  class ConfigManager {
    /** `self.config`. */
    var config: Store

    /** `__init__` and `_load_config`, given the file's state and the environment. */
    constructor (file: ConfigFile, env: Environment)
      ensures file.Parsed? ==> config == file.contents
      ensures file.Unreadable? ==> config == map[]
      ensures file.Absent? ==> FromEnvironment(config, env)
    {
      match file {
        case Parsed(contents) =>
          config := contents;
        case Unreadable =>
          config := map[];
        case Absent =>
          var loaded := LoadFromEnvironment(env);
          config := loaded;
      }
    }

    /** `get(key, default)`: the override, else the stored value, else the default. */
    function Get(env: Environment, key: string, default: Option<string>): (r: Option<string>)
      reads this
      ensures HasText(EnvValue(env, EnvName(key))) ==> r == Some(env[EnvName(key)])
      ensures !HasText(EnvValue(env, EnvName(key))) && Lower(key) in config ==> r == Some(config[Lower(key)])
      ensures !HasText(EnvValue(env, EnvName(key))) && Lower(key) !in config ==> r == default
    {
      Lookup(config, env, key, default)
    }

    /** `set(key, value)`: an empty value is ignored, any other replaces the lower-cased key. */
    method Set(key: string, value: string)
      modifies this
      ensures config == Stored(old(config), key, value)
    {
      if !HasText(value) {
        return;
      }
      config := config[Lower(key) := value];
    }

    /** `is_configured()`. */
    predicate IsConfigured(env: Environment)
      reads this
      ensures IsConfigured(env) <==> && Truthy(Get(env, "api_key", None))
                                     && Truthy(Get(env, "playground_url", None))
                                     && Truthy(Get(env, "auth_token", None))
    {
      Configured(config, env)
    }
  }

  /** A non-empty environment override decides `get`, whatever is stored. */
  lemma EnvironmentOverrides(s1: Store, s2: Store, env: Environment, key: string, d1: Option<string>, d2: Option<string>)
    requires HasText(EnvValue(env, EnvName(key)))
    ensures Lookup(s1, env, key, d1) == Lookup(s2, env, key, d2) == Some(env[EnvName(key)])
  {
  }

  /** Without an override, `get` reads the store under the lower-cased key, else the default. */
  lemma StoreDecidesWithoutOverride(store: Store, env: Environment, key: string, default: Option<string>)
    requires !HasText(EnvValue(env, EnvName(key)))
    ensures Lower(key) in store ==> Lookup(store, env, key, default) == Some(store[Lower(key)])
    ensures Lower(key) !in store ==> Lookup(store, env, key, default) == default
  {
  }

  /** `get` after `set` with a non-empty value: the value, unless the environment overrides it. */
  lemma LookupAfterStored(store: Store, env: Environment, key: string, value: string, default: Option<string>)
    requires HasText(value)
    ensures Lookup(Stored(store, key, value), env, key, default)
         == if HasText(EnvValue(env, EnvName(key))) then Some(env[EnvName(key)]) else Some(value)
  {
  }

  /** `set` of one key does not change what `get` returns for a key with another lower-cased form. */
  lemma LookupOtherAfterStored(store: Store, env: Environment, key: string, value: string,
                               other: string, default: Option<string>)
    requires Lower(other) != Lower(key)
    ensures Lookup(Stored(store, key, value), env, other, default) == Lookup(store, env, other, default)
  {
  }

  /** `get` does not depend on the case of the key. */
  lemma LookupCaseInsensitive(store: Store, env: Environment, key: string, default: Option<string>)
    ensures Lookup(store, env, key, default) == Lookup(store, env, Lower(key), default)
  {
    UpperOfLower(key);
    LowerIdempotent(key);
  }

  /** Once configured, any `set` keeps the manager configured (empty values are never stored). */
  lemma StoredKeepsConfigured(store: Store, env: Environment, key: string, value: string)
    requires Configured(store, env)
    ensures Configured(Stored(store, key, value), env)
  {
    StoredKeepsTruthy(store, env, key, value, "api_key");
    StoredKeepsTruthy(store, env, key, value, "playground_url");
    StoredKeepsTruthy(store, env, key, value, "auth_token");
  }

  lemma StoredKeepsTruthy(store: Store, env: Environment, key: string, value: string, essential: string)
    requires Truthy(Lookup(store, env, essential, None))
    ensures Truthy(Lookup(Stored(store, key, value), env, essential, None))
  {
    if HasText(value) && Lower(essential) == Lower(key) {
      assert Stored(store, key, value)[Lower(essential)] == value;
    }
  }

  /** `setup_config` with three non-empty values leaves the manager configured, whatever the environment. */
  lemma SetupConfigures(store: Store, env: Environment, apiKey: string, playgroundUrl: string, authToken: string)
    requires HasText(apiKey) && HasText(playgroundUrl) && HasText(authToken)
    ensures Configured(Stored(Stored(Stored(store, "api_key", apiKey), "playground_url", playgroundUrl),
                              "auth_token", authToken), env)
  {
    var s1 := Stored(store, "api_key", apiKey);
    var s2 := Stored(s1, "playground_url", playgroundUrl);
    var s3 := Stored(s2, "auth_token", authToken);
    // The three lower-cased keys differ, since their lengths do.
    assert |Lower("api_key")| == 7 && |Lower("playground_url")| == 14 && |Lower("auth_token")| == 10;
    LookupAfterStored(store, env, "api_key", apiKey, None);
    LookupOtherAfterStored(s1, env, "playground_url", playgroundUrl, "api_key", None);
    LookupOtherAfterStored(s2, env, "auth_token", authToken, "api_key", None);
    LookupAfterStored(s1, env, "playground_url", playgroundUrl, None);
    LookupOtherAfterStored(s2, env, "auth_token", authToken, "playground_url", None);
    LookupAfterStored(s2, env, "auth_token", authToken, None);
  }

  /** The variable names in the mapping table are the ones `get` derives from the keys. */
  lemma EnvMappingsMatchEnvName(i: nat)
    requires i < |EnvMappings|
    ensures EnvMappings[i].0 == EnvName(EnvMappings[i].1)
  {
    var (envKey, configKey) := EnvMappings[i];
    var upper := envKey[|"PROMPTQL_"|..];
    assert envKey == "PROMPTQL_" + upper;
    UpperFrom(configKey, upper);
  }

  /**
   * A store loaded from the environment adds nothing that `get` would not
   * already return from that environment with an empty store.
   */
  lemma LoadedStoreAgreesWithEnvironment(m: Store, env: Environment, key: string, default: Option<string>)
    requires FromEnvironment(m, env)
    ensures Lookup(m, env, key, default) == Lookup(map[], env, key, default)
  {
    if Lower(key) in m {
      var c := Lower(key);
      var i := if c == "api_key" then 0 else if c == "playground_url" then 1 else 2;
      EnvMappingsMatchEnvName(i);
      UpperOfLower(key);
      assert EnvMappings[i].0 == EnvName(key);
    }
  }
}
