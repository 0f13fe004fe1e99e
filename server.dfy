/**
 * The tools of the server around the normaliser and the configuration
 * manager: `start_thread` and `continue_thread` turn a thread result into
 * their reply text, `check_config` reports which credentials are missing,
 * `setup_config` stores them, and credentials are masked for display. The
 * remote client is not modelled: what its call returns is a parameter.
 */
module Server {
  import opened Wrappers
  import opened Text
  import opened Config
  import opened Normaliser

  /**
   * What the client's thread call returns: an `error` entry (with optional
   * `details`), or a thread id, an interaction id and the thread's interactions.
   * Absent strings are `""`.
   */
  datatype ThreadResult = ThreadResult(error: Option<string>, details: string, threadId: string,
                                       interactionId: string, interactions: seq<Interaction>)

  datatype Credentials = Credentials(apiKey: string, playgroundUrl: string, authToken: string)

  const NotConfiguredError := "PromptQL API key, playground URL, and auth token must be configured. Use the setup_config tool."
  const NoThreadIdError := "Error: " + "No thread_id received from PromptQL"

  /** The reply to a result that has an `error` entry. */
  function ErrorText(error: string, details: string): string
  {
    "Error: " + error + "\n" + details
  }

  /** `_get_promptql_client`: the three credentials, or nothing when one of them is missing. */
  function ClientCredentials(cfg: ConfigManager, env: Environment): (r: Option<Credentials>)
    reads cfg
    ensures r.Some? <==> cfg.IsConfigured(env)
    ensures r.Some? ==> && cfg.Get(env, "api_key", None) == Some(r.value.apiKey)
                        && cfg.Get(env, "playground_url", None) == Some(r.value.playgroundUrl)
                        && cfg.Get(env, "auth_token", None) == Some(r.value.authToken)
  {
    var apiKey := cfg.Get(env, "api_key", None);
    var playgroundUrl := cfg.Get(env, "playground_url", None);
    var authToken := cfg.Get(env, "auth_token", None);
    if !Truthy(apiKey) || !Truthy(playgroundUrl) || !Truthy(authToken) then None
    else Some(Credentials(apiKey.value, playgroundUrl.value, authToken.value))
  }

  // ---------------------------------------------------------------------------
  // start_thread and continue_thread
  // ---------------------------------------------------------------------------

  /** The first lines of the `start_thread` reply. */
  function Header(threadId: string, interactionId: string): string
  {
    "Thread ID: " + threadId + (if HasText(interactionId) then "\nInteraction ID: " + interactionId else "")
  }

  /**
   * The header starts with the thread id; it is longer than that first line
   * iff there is an interaction id, and then it ends with that id.
   */
  lemma HeaderShape(threadId: string, interactionId: string)
    ensures IsPrefix("Thread ID: " + threadId, Header(threadId, interactionId))
    ensures |Header(threadId, interactionId)| > |"Thread ID: " + threadId| <==> HasText(interactionId)
    ensures HasText(interactionId) ==>
              var h := Header(threadId, interactionId);
              h[|h| - |"\nInteraction ID: " + interactionId|..] == "\nInteraction ID: " + interactionId
  {
    var first := "Thread ID: " + threadId;
    var rest := if HasText(interactionId) then "\nInteraction ID: " + interactionId else "";
    assert Header(threadId, interactionId) == first + rest;
    assert (first + rest)[..|first|] == first;
    assert (first + rest)[|first + rest| - |rest|..] == rest;
  }

  /** The text before the first line break. */
  function FirstLine(s: string): (r: string)
    ensures IsPrefix(r, s) && '\n' !in r
    ensures |r| == |s| || s[|r|] == '\n'
  {
    if s == [] || s[0] == '\n' then [] else [s[0]] + FirstLine(s[1..])
  }

  lemma {:induction false} FirstLineOf(line: string, rest: string)
    requires '\n' !in line
    ensures FirstLine(line + "\n" + rest) == line
  {
    if line != [] {
      assert (line + "\n" + rest)[1..] == line[1..] + "\n" + rest;
      FirstLineOf(line[1..], rest);
    }
  }

  /** A thread id without line breaks can be read back from the first line of the reply. */
  lemma ThreadIdOnFirstLine(threadId: string, interactionId: string, answer: string)
    requires '\n' !in threadId
    ensures FirstLine(Header(threadId, interactionId) + "\n\n" + answer) == "Thread ID: " + threadId
  {
    var first := "Thread ID: " + threadId;
    assert '\n' !in first by {
      assert forall i :: 0 <= i < |first| ==> first[i] == if i < 11 then "Thread ID: "[i] else threadId[i - 11];
    }
    if HasText(interactionId) {
      var rest := "Interaction ID: " + interactionId + "\n\n" + answer;
      assert Header(threadId, interactionId) == first + ("\nInteraction ID: " + interactionId);
      assert Header(threadId, interactionId) + "\n\n" + answer == first + "\n" + rest;
      FirstLineOf(first, rest);
    } else {
      assert Header(threadId, interactionId) == first + "";
      assert Header(threadId, interactionId) + "\n\n" + answer == first + "\n" + ("\n" + answer);
      FirstLineOf(first, "\n" + answer);
    }
  }

  lemma ErrorTextIsError(error: string, details: string)
    ensures IsPrefix("Error: ", ErrorText(error, details))
  {
    PrefixOfConcat("Error: ", error);
    PrefixExtended("Error: ", "Error: " + error, "\n");
    PrefixExtended("Error: ", "Error: " + error + "\n", details);
  }

  /** The text `start_thread` returns for a thread the server opened. */
  method ThreadResponse(threadId: string, interactionId: string, interactions: seq<Interaction>)
    returns (response: string)
    ensures response == Header(threadId, interactionId) + "\n\n" + Answer(interactions, true)
    ensures IsPrefix("Thread ID: " + threadId, response)
    ensures !IsPrefix("Error: ", response)
  {
    var answer := Normalise(interactions, true);
    var header := "Thread ID: " + threadId;
    if HasText(interactionId) {
      header := header + ("\nInteraction ID: " + interactionId);
    } else {
      assert header == header + "";
    }
    response := header + "\n\n" + answer;
    HeaderShape(threadId, interactionId);
    assert response[0] == header[0] == 'T';
    NotPrefixAt("Error: ", response, 0);
    PrefixExtended("Thread ID: " + threadId, header, "\n\n");
    PrefixExtended("Thread ID: " + threadId, header + "\n\n", answer);
  }

  /** The `start_thread` tool, from the configuration and the client's result. */
  method StartThread(cfg: ConfigManager, env: Environment, result: ThreadResult) returns (response: string)
    ensures !cfg.IsConfigured(env) ==> response == "Unexpected error: " + NotConfiguredError
    ensures cfg.IsConfigured(env) && result.error.Some? ==>
              response == ErrorText(result.error.value, result.details)
    ensures cfg.IsConfigured(env) && result.error.None? && !HasText(result.threadId) ==>
              response == NoThreadIdError
    ensures cfg.IsConfigured(env) && result.error.None? && HasText(result.threadId) ==>
              response == Header(result.threadId, result.interactionId) + "\n\n" + Answer(result.interactions, true)
    ensures cfg.IsConfigured(env) && result.error.None? && HasText(result.threadId) ==>
              IsPrefix("Thread ID: " + result.threadId, response)
    ensures IsPrefix("Error: ", response) <==>
              cfg.IsConfigured(env) && (result.error.Some? || !HasText(result.threadId))
  {
    var credentials := ClientCredentials(cfg, env);
    if credentials.None? {
      response := "Unexpected error: " + NotConfiguredError;
      UnexpectedErrorIsNoReply(NotConfiguredError);
      return;
    }
    if result.error.Some? {
      response := ErrorText(result.error.value, result.details);
      ErrorTextIsError(result.error.value, result.details);
      return;
    }
    var threadId := result.threadId;
    var interactionId := result.interactionId;
    if !HasText(threadId) {
      response := NoThreadIdError;
      PrefixOfConcat("Error: ", "No thread_id received from PromptQL");
      return;
    }
    response := ThreadResponse(threadId, interactionId, result.interactions);
  }

  /**
   * The text of the `TypeError` the client constructor raises as called:
   * it takes `api_key`, `ddn_url` and `timezone`, and the first keyword it
   * does not know is `playground_url`.
   */
  const ClientConstructorError := "PromptQLClient.__init__() got an unexpected keyword argument 'playground_url'"

  /**
   * `start_thread` and `continue_thread` as written: once the credentials are
   * present, creating the client raises and the catch-all returns its text, so
   * neither tool ever reaches the thread result.
   */
  method ThreadToolAsWritten(cfg: ConfigManager, env: Environment) returns (response: string)
    ensures !cfg.IsConfigured(env) ==> response == "Unexpected error: " + NotConfiguredError
    ensures cfg.IsConfigured(env) ==> response == "Unexpected error: " + ClientConstructorError
    ensures !IsPrefix("Thread ID: ", response) && !IsPrefix("Error: ", response)
  {
    var credentials := ClientCredentials(cfg, env);
    // the text of the exception the catch-all reports
    var raised := if credentials.None? then NotConfiguredError else ClientConstructorError;
    response := "Unexpected error: " + raised;
    UnexpectedErrorIsNoReply(raised);
  }

  /** An "Unexpected error: " reply is neither a thread reply nor an `error` reply. */
  lemma UnexpectedErrorIsNoReply(rest: string)
    ensures !IsPrefix("Thread ID: ", "Unexpected error: " + rest) && !IsPrefix("Error: ", "Unexpected error: " + rest)
  {
    NotPrefixAt("Thread ID: ", "Unexpected error: " + rest, 0);
    NotPrefixAt("Error: ", "Unexpected error: " + rest, 0);
  }

  /** The `continue_thread` tool: the same answer, without header and without the note. */
  method ContinueThread(cfg: ConfigManager, env: Environment, result: ThreadResult) returns (response: string)
    ensures !cfg.IsConfigured(env) ==> response == "Unexpected error: " + NotConfiguredError
    ensures cfg.IsConfigured(env) && result.error.Some? ==>
              response == ErrorText(result.error.value, result.details)
    ensures cfg.IsConfigured(env) && result.error.None? ==> response == Answer(result.interactions, false)
  {
    var credentials := ClientCredentials(cfg, env);
    if credentials.None? {
      return "Unexpected error: " + NotConfiguredError;
    }
    if result.error.Some? {
      return ErrorText(result.error.value, result.details);
    }
    response := Normalise(result.interactions, false);
  }

  // ---------------------------------------------------------------------------
  // Masking credentials
  // ---------------------------------------------------------------------------

  /** The masked API key: first five and last five characters, `"None"` when empty. */
  function MaskKey(key: string): (r: string)
    ensures !HasText(key) ==> r == "None"
    ensures HasText(key) ==> |r| == |Head(key, 5)| + 3 + |Tail(key, 5)| <= 13
  {
    if HasText(key) then Head(key, 5) + "..." + Tail(key, 5) else "None"
  }

  /** The masked auth token: 8 + "..." + 4 characters when longer than 12, else 4 + "...". */
  function MaskToken(token: string): (r: string)
    ensures |r| == if |token| > 12 then 15 else |Head(token, 4)| + 3
  {
    if |token| > 12 then token[..8] + "..." + token[|token| - 4..] else Head(token, 4) + "..."
  }

  /**
   * A token over 12 characters shows its first 8 and last 4 around "...";
   * a shorter one shows at most its first 4, followed by "...".
   */
  lemma MaskTokenShape(token: string)
    ensures |token| > 12 ==>
              var m := MaskToken(token);
              |m| == 15 && m[..8] == token[..8] && m[8..11] == "..." && m[11..] == token[|token| - 4..]
    ensures |token| <= 12 ==>
              var m := MaskToken(token);
              |m| == |Head(token, 4)| + 3 && |m| <= 7 && IsPrefix(Head(token, 4), m) && m[|m| - 3..] == "..."
  {
    var m := MaskToken(token);
    if |token| > 12 {
      assert m == token[..8] + "..." + token[|token| - 4..];
    } else {
      assert m == Head(token, 4) + "...";
    }
  }

  /**
   * The masked key shows its first and last five characters around "...":
   * a key over 10 characters keeps the rest hidden, while a key of at most
   * five characters is shown twice over.
   */
  lemma MaskKeyShape(key: string)
    ensures !HasText(key) ==> MaskKey(key) == "None"
    ensures |key| >= 10 ==>
              var m := MaskKey(key);
              |m| == 13 && m[..5] == key[..5] && m[5..8] == "..." && m[8..] == key[|key| - 5..]
    ensures HasText(key) ==>
              var m, h, t := MaskKey(key), Head(key, 5), Tail(key, 5);
              && |m| == |h| + 3 + |t|
              && m[..|h|] == h && m[|h|..|h| + 3] == "..." && m[|h| + 3..] == t
    ensures 0 < |key| <= 5 ==> MaskKey(key) == key + "..." + key
  {
    if HasText(key) {
      var h, t := Head(key, 5), Tail(key, 5);
      assert MaskKey(key) == h + "..." + t;
    }
  }

  // ---------------------------------------------------------------------------
  // check_config and setup_config
  // ---------------------------------------------------------------------------

  const ApiKeyLabel := "API Key"
  const PlaygroundUrlLabel := "Playground URL"
  const AuthTokenLabel := "Auth Token"

  /** The position of a label in the fixed order of the report. */
  function Rank(name: string): nat
  {
    if name == ApiKeyLabel then 0 else if name == PlaygroundUrlLabel then 1 else 2
  }

  /**
   * `missing` names exactly the credentials that are absent or empty, each
   * once, in the order API Key, Playground URL, Auth Token.
   */
  ghost predicate ListsMissing(missing: seq<string>, apiKey: Option<string>, playgroundUrl: Option<string>,
                               authToken: Option<string>)
  {
    && (forall i :: 0 <= i < |missing| ==> missing[i] in {ApiKeyLabel, PlaygroundUrlLabel, AuthTokenLabel})
    && (ApiKeyLabel in missing <==> !Truthy(apiKey))
    && (PlaygroundUrlLabel in missing <==> !Truthy(playgroundUrl))
    && (AuthTokenLabel in missing <==> !Truthy(authToken))
    && (forall i, j :: 0 <= i < j < |missing| ==> Rank(missing[i]) < Rank(missing[j]))
  }

  /** The `missing` list of `check_config`, built by appending. */
  method MissingFields(apiKey: Option<string>, playgroundUrl: Option<string>, authToken: Option<string>)
    returns (missing: seq<string>)
    ensures ListsMissing(missing, apiKey, playgroundUrl, authToken)
  {
    missing := [];
    if !Truthy(apiKey) {
      missing := missing + [ApiKeyLabel];
    }
    if !Truthy(playgroundUrl) {
      missing := missing + [PlaygroundUrlLabel];
    }
    if !Truthy(authToken) {
      missing := missing + [AuthTokenLabel];
    }
  }

  const ConfiguredPrefix := "PromptQL is configured with:"
  const NotConfiguredPrefix := "PromptQL is not fully configured. Missing: "

  /** The `check_config` tool. */
  method CheckConfig(cfg: ConfigManager, env: Environment) returns (status: string)
    ensures cfg.IsConfigured(env) ==>
              status == ConfiguredPrefix + "\nAPI Key: " + MaskKey(cfg.Get(env, "api_key", None).value)
                        + "\nPlayground URL: " + cfg.Get(env, "playground_url", None).value
                        + "\nAuth Token: " + MaskToken(cfg.Get(env, "auth_token", None).value)
    ensures !cfg.IsConfigured(env) ==>
              exists missing :: && ListsMissing(missing, cfg.Get(env, "api_key", None),
                                                cfg.Get(env, "playground_url", None),
                                                cfg.Get(env, "auth_token", None))
                                && status == NotConfiguredPrefix + Join(missing, ", ")
  {
    var apiKey := cfg.Get(env, "api_key", None);
    var playgroundUrl := cfg.Get(env, "playground_url", None);
    var authToken := cfg.Get(env, "auth_token", None);
    if Truthy(apiKey) && Truthy(playgroundUrl) && Truthy(authToken) {
      status := ConfiguredPrefix + "\nAPI Key: " + MaskKey(apiKey.value) + "\nPlayground URL: " + playgroundUrl.value
                + "\nAuth Token: " + MaskToken(authToken.value);
    } else {
      var missing := MissingFields(apiKey, playgroundUrl, authToken);
      status := NotConfiguredPrefix + Join(missing, ", ");
    }
  }

  /** The two reports of `check_config` can never be confused: they differ at position 12. */
  lemma ReportsDistinct(details: string, missing: string)
    ensures ConfiguredPrefix + details != NotConfiguredPrefix + missing
  {
    assert (ConfiguredPrefix + details)[12] == ConfiguredPrefix[12] == 'c';
    assert (NotConfiguredPrefix + missing)[12] == NotConfiguredPrefix[12] == 'n';
  }

  /** The `setup_config` tool: three `set` calls. */
  method SetupConfig(cfg: ConfigManager, apiKey: string, playgroundUrl: string, authToken: string)
    returns (message: string)
    modifies cfg
    ensures cfg.config == Stored(Stored(Stored(old(cfg.config), "api_key", apiKey), "playground_url", playgroundUrl),
                                 "auth_token", authToken)
    ensures HasText(apiKey) && HasText(playgroundUrl) && HasText(authToken) ==>
              forall env :: cfg.IsConfigured(env)
    ensures message == "Configuration saved successfully."
  {
    cfg.Set("api_key", apiKey);
    cfg.Set("playground_url", playgroundUrl);
    cfg.Set("auth_token", authToken);
    if HasText(apiKey) && HasText(playgroundUrl) && HasText(authToken) {
      forall env: Environment ensures cfg.IsConfigured(env) {
        SetupConfigures(old(cfg.config), env, apiKey, playgroundUrl, authToken);
      }
    }
    message := "Configuration saved successfully.";
  }
}
