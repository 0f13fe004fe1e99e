# PromptQL MCP server: answer normaliser and configuration manager

This project is a Dafny model of the local logic of the PromptQL MCP server
(`hasura/promptql-mcp`). It covers four parts.

- **The thread-response normaliser** shared by the `start_thread` and
  `continue_thread` tools. A thread result is a list of interactions. Each
  interaction holds a list of assistant actions. The normaliser:
  - picks the message of the last action in the latest interaction that has
    one, or the fixed default text;
  - appends the "Execution Plan", "Executed Code" and "Code Output" sections,
    each at most once, under marker guards;
  - collects the artifact identifiers of every action of every interaction,
    in order;
  - adds the "Artifacts Generated" line, followed by the future-update note
    for `start_thread` only.
- **The tool replies** around the normaliser:
  - the error short-circuits on an `error` entry or a missing thread id;
  - the `Thread ID:` / `Interaction ID:` header of `start_thread`;
  - the `check_config` report with its ordered list of missing credentials;
  - credential masking;
  - `setup_config` as three `set` calls.
- **`ConfigManager`**: a key/value store that works like this:
  - `get` lets the environment variable `PROMPTQL_<KEY>` override the stored
    value;
  - `set` ignores empty values and lower-cases keys;
  - `is_configured` requires all three credentials to be non-empty;
  - when there is no configuration file, the store starts from the three
    mapped environment variables.
- **The Python text behaviour** the code relies on, in module `Text`:
  truthiness of strings, substring `in`, `", ".join`, clamping slices, and
  `upper`/`lower`.

Modules:

- `Wrappers` (`Option`);
- `Text`;
- `Config`: the `ConfigManager` class, with its store as a `map` field that
  `Set` reassigns, plus the pure lookup rules;
- `Normaliser`:
  - `Action` and `Interaction` datatypes;
  - the loops of the source as methods, each proved equal to a specification
    function;
  - lemmas about those functions;
- `Server`: the tools.

The environment is a `map` parameter. The configuration file is given by its
parsed contents (`ConfigFile`). What the remote client returns is a
`ThreadResult` parameter.

Absent values and `None` are falsy, as is `""`. In the model all three are
`""` for string fields of a thread result. The value of `config.get` is an
`Option<string>`.

## Model

| member | source | states |
|---|---|---|
| Normaliser.ChooseMessage | promptql_mcp_server/server.py:141-155 | The reversed loop with `break` returns `LastMessage` of the actions: the message of the highest-index action with a non-empty message, or the default. |
| Normaliser.LastMessage | promptql_mcp_server/server.py:141-155 | Definition: scanning from the last action backwards, the first non-empty message, else "No answer received from PromptQL."; its meaning is stated by `LastMessageIsLatest`. |
| Normaliser.LastMessageIsLatest | promptql_mcp_server/server.py:141-155 | With no non-empty message the choice is "No answer received from PromptQL."; otherwise some action with a non-empty message supplies it, and every action with a non-empty message followed only by actions without one supplies it. No earlier message is chosen. |
| Normaliser.AppendSections | promptql_mcp_server/server.py:158-175 | The forward loop with its three marker-guarded appends yields the fold `Fill` of the message over every action's plan, code and output sections, in list order. |
| Normaliser.Offered | promptql_mcp_server/server.py:158-175 | Definition: the three sections one action offers, in the order plan, code, code output. |
| Normaliser.Offers | promptql_mcp_server/server.py:158-175 | Definition: the sections offered by all the actions, action by action, each in the order of `Offered`. |
| Normaliser.Admits | promptql_mcp_server/server.py:161-173 | Definition of the guard `if field and "<marker>" not in answer_text`: the body is non-empty and the text does not yet contain the kind's marker. |
| Normaliser.Render | promptql_mcp_server/server.py:161-175 | Definition of the appended f-strings at lines 163, 169 and 175: "\n\n", the kind's marker, "\n", then the body; `RenderHasHeading` states that the marker then occurs in the text. |
| Normaliser.Offer | promptql_mcp_server/server.py:161-175 | Definition of one guarded append: the section is appended iff its body is non-empty and its marker does not occur in the text yet. |
| Normaliser.Fill | promptql_mcp_server/server.py:158-175 | Definition: the guarded appends of a list of sections, left to right; its properties are the `Fill…`, `Chosen…` and `Heading…` lemmas. |
| Normaliser.FillAppend | promptql_mcp_server/server.py:158-175 | Appending sections over a concatenated list equals appending over the first part, then over the second. |
| Normaliser.FillOffered | promptql_mcp_server/server.py:160-175 | One action offers its plan, then its code, then its output, each under its own guard. |
| Normaliser.FillStep | promptql_mcp_server/server.py:158-175 | One loop iteration: the remaining fold equals the fold from the text after this action's three guarded appends. |
| Normaliser.FillIsChosen | promptql_mcp_server/server.py:158-175 | The text only grows: the result is the starting text followed by the rendered sections actually appended (`Chosen`). |
| Normaliser.FillExtends | promptql_mcp_server/server.py:154-175 | The starting text, here the chosen message, is a prefix of the extended text. |
| Normaliser.HeadingBlocks | promptql_mcp_server/server.py:161-175 | When a marker already occurs in the text, for example inside the message, no section of that kind is appended. |
| Normaliser.RenderHasHeading | promptql_mcp_server/server.py:161-175 | After a section is appended, the text contains its marker. |
| Normaliser.ChosenOnce | promptql_mcp_server/server.py:158-175 | At most one section of each kind is appended, and its body is the first non-empty body of that kind in list order. |
| Normaliser.HeadingPresent | promptql_mcp_server/server.py:158-175 | When some action has a non-empty field of a kind, the final text contains that kind's marker. |
| Normaliser.BodiesAppend | promptql_mcp_server/server.py:158-175 | The bodies of one kind in a concatenation are those of the parts, concatenated. |
| Normaliser.BodiesOfOffers | promptql_mcp_server/server.py:158-175 | The bodies of one kind offered by the actions are that field of each action, in order. |
| Normaliser.SectionsOfActions | promptql_mcp_server/server.py:158-175 | Over the action list, for each kind: the text is only extended, at most one section of the kind is appended, it comes from the first action with that field non-empty, none is appended when the marker is already present, and the marker is present at the end whenever some action has the field. |
| Normaliser.Fields | promptql_mcp_server/server.py:158-172 | One entry per action, in order, holding that action's field of the kind. |
| Normaliser.FirstText | promptql_mcp_server/server.py:158-175 | Nothing exactly when every body is empty; otherwise a body that is non-empty with only empty bodies before it. |
| Normaliser.FirstTextSkip | promptql_mcp_server/server.py:158-175 | The first non-empty body is unchanged by a leading empty body. |
| Normaliser.CollectArtifacts | promptql_mcp_server/server.py:178-186 | The nested loop with `extend` yields `AllArtifacts`: every action's identifiers, interaction by interaction, action by action. |
| Normaliser.ActionArtifacts | promptql_mcp_server/server.py:182-186 | Definition: the identifiers of the actions of one interaction, action by action; its meaning is stated by `ActionArtifactsMember`. |
| Normaliser.AllArtifacts | promptql_mcp_server/server.py:179-186 | Definition: the identifiers of all interactions, interaction by interaction; its meaning is stated by `AllArtifactsAppend` and `AllArtifactsMember`. |
| Normaliser.AllArtifactsAppend | promptql_mcp_server/server.py:180-186 | The collected identifiers of concatenated interaction lists are the concatenation of the two collections. |
| Normaliser.ActionArtifactsMember | promptql_mcp_server/server.py:182-186 | An identifier is collected from an interaction exactly when some action of it lists the identifier. |
| Normaliser.AllArtifactsMember | promptql_mcp_server/server.py:179-186 | An identifier is collected exactly when some action of some interaction lists it. |
| Normaliser.LatestActions | promptql_mcp_server/server.py:144-148 | Definition: the actions of the last interaction, or none when there are no interactions. |
| Normaliser.AnswerBody | promptql_mcp_server/server.py:141-175 | Definition: `Fill` of the latest interaction's `LastMessage` over that interaction's offered sections, which is the answer text before the artifact step. |
| Normaliser.ArtifactLine | promptql_mcp_server/server.py:188-191 | Definition: empty when no identifier was found; otherwise "\n\n**Artifacts Generated:** " and the identifiers joined with ", ", followed by the future-update note when `withNote` holds. `continue_thread` appends the same line without the note at lines 347-349. `ArtifactLineLists` states its meaning. |
| Normaliser.Normalise | promptql_mcp_server/server.py:141-191 | The whole answer text equals `Answer`: choose the message, append the sections from the latest interaction, then the artifacts line and, for `start_thread`, the note. |
| Normaliser.Answer | promptql_mcp_server/server.py:141-191 | Definition of the answer text: the message and sections of the latest interaction, then the artifacts line of all interactions and, when asked, the note; its properties are the `Answer…`, `EarlierInteractionsOnlyAddArtifacts` and `NoteOnlyWithArtifacts` lemmas. |
| Normaliser.AnswerExtendsMessage | promptql_mcp_server/server.py:154-191 | The chosen message is a prefix of the final answer. |
| Normaliser.AnswerStartsWithLatestMessage | promptql_mcp_server/server.py:147-155 | The answer begins with the message of the last action of the latest interaction that has a non-empty message. |
| Normaliser.AnswerStartsWithDefault | promptql_mcp_server/server.py:141-155 | With no interactions, or no action with a message in the latest one, the answer begins with the default text. |
| Normaliser.EarlierInteractionsOnlyAddArtifacts | promptql_mcp_server/server.py:145-191 | Only the latest interaction contributes message and sections; earlier ones contribute only artifact identifiers, placed before the latest one's. |
| Normaliser.NoteOnlyWithArtifacts | promptql_mcp_server/server.py:188-191 | The two tools' answers differ exactly by the future-update note of `start_thread` (line 191, absent at lines 347-349), which appears iff there are artifacts; without artifacts the answer is the body alone. |
| Normaliser.ArtifactLineLists | promptql_mcp_server/server.py:188-191 | The artifacts line is empty iff no identifier was found, and it contains every identifier found. |
| Normaliser.JoinContains | promptql_mcp_server/server.py:190 | `", ".join` of a list contains each of its items. |
| Server.StartThread | promptql_mcp_server/server.py:118-207 | Not configured: "Unexpected error: " and the configuration message; an `error` entry: "Error: {error}\n{details}"; no thread id: "Error: No thread_id received from PromptQL"; otherwise the header, a blank line and the answer with the note. The reply starts with "Error: " iff one of the two error cases applies. |
| Server.ThreadResponse | promptql_mcp_server/server.py:193-197 | The success reply is the header followed by the answer, and it never starts with "Error: ". |
| Server.Header | promptql_mcp_server/server.py:194-196 | Definition: "Thread ID: {thread_id}", followed by "\nInteraction ID: {interaction_id}" when that id is non-empty; its shape is stated by `HeaderShape`. |
| Server.ErrorText | promptql_mcp_server/server.py:126 | Definition: "Error: {error}\n{details}"; `ErrorTextIsError` states it starts with "Error: ". |
| Server.ThreadToolAsWritten | promptql_mcp_server/server.py:19-30 | As written, a configured call of either thread tool replies "Unexpected error: " with the constructor's `TypeError` text, and never a reply starting with "Thread ID: " or "Error: "; unconfigured, it gives the configuration message. |
| Server.HeaderShape | promptql_mcp_server/server.py:194-196 | The header starts with "Thread ID: {thread_id}"; it has more than that line iff the interaction id is non-empty, and then it ends with "\nInteraction ID: {interaction_id}". |
| Server.ThreadIdOnFirstLine | promptql_mcp_server/server.py:194-197 | For a thread id without line breaks, the reply's first line is exactly "Thread ID: {thread_id}". |
| Server.FirstLine | promptql_mcp_server/server.py:194-197 | The first line is a prefix of the text, holds no line break, and reaches either the end of the text or its first line break. |
| Server.ErrorTextIsError | promptql_mcp_server/server.py:125-128 | The reply to an `error` entry starts with "Error: ". |
| Server.UnexpectedErrorIsNoReply | promptql_mcp_server/server.py:202-207 | A catch-all "Unexpected error: …" reply, whatever the exception text, starts neither with "Thread ID: " nor with "Error: ". |
| Server.ContinueThread | promptql_mcp_server/server.py:285-356 | The not-configured and `error` cases of `start_thread` (there is no missing-thread-id case); otherwise exactly the answer without header and without the note. |
| Server.ClientCredentials | promptql_mcp_server/server.py:19-30 | Credentials are produced iff the configuration is complete, and they are the three values `get` returns. |
| Server.MaskKey | promptql_mcp_server/server.py:50 | "None" for an empty key; otherwise a text of the first-five length plus 3 plus the last-five length, at most 13. The same expression is at line 82. |
| Server.MaskToken | promptql_mcp_server/server.py:51 | 15 characters for a token over 12 characters, otherwise the length of its first four plus 3. The same expression is at line 83. |
| Server.MaskTokenShape | promptql_mcp_server/server.py:51 | A token over 12 characters shows its first 8 and last 4 characters around "..." (15 characters); a shorter one shows at most its first 4, then "...". The same expression appears at line 83. |
| Server.MaskKeyShape | promptql_mcp_server/server.py:50 | An empty key is "None"; a key of 10 or more characters shows its first 5 and last 5 around "..."; a key of at most 5 characters appears twice around "...". The same expression appears at line 82. |
| Server.MissingFields | promptql_mcp_server/server.py:88-94 | The list names exactly the absent or empty credentials, each once, in the order API Key, Playground URL, Auth Token. |
| Server.CheckConfig | promptql_mcp_server/server.py:66-98 | Configured: the "configured with" report of the masked key, the URL and the masked token; otherwise "PromptQL is not fully configured. Missing: " and the ordered missing list joined with ", ". |
| Server.ReportsDistinct | promptql_mcp_server/server.py:84-96 | A "configured" report can never equal a "not fully configured" report. |
| Server.SetupConfig | promptql_mcp_server/server.py:35-62 | The store after the three `set` calls; with three non-empty values, the configuration is complete under any environment. |
| Config.Stored | promptql_mcp_server/config.py:88-94 | An empty value leaves the store unchanged; a non-empty one is stored under the lower-cased key, which is the only key added; every other key keeps its value. |
| Config.Lookup | promptql_mcp_server/config.py:78-86 | The answer of `get` comes from a non-empty environment override, from the store under the lower-cased key, or is the default; which one is fixed by `EnvironmentOverrides` and `StoreDecidesWithoutOverride`. |
| Config.EnvValue | promptql_mcp_server/config.py:50-51 | Definition of `os.environ.get(name)` in a truthiness test: the variable's value, or the falsy "" when it is unset. `get` reads it the same way at lines 82-83. |
| Config.Truthy | promptql_mcp_server/config.py:100-102 | Definition of Python truthiness of an optional string: present and non-empty. |
| Config.EnvName | promptql_mcp_server/config.py:81 | Definition: "PROMPTQL_" followed by the upper-cased key. `EnvMappingsMatchEnvName` ties it to the mapping table, and `UpperOfLower` shows that `get(key)` and `get(key.lower())` consult the same variable. |
| Config.Configured | promptql_mcp_server/config.py:98-102 | Definition: `get` of each of `api_key`, `playground_url` and `auth_token` is present and non-empty; `StoredKeepsConfigured` and `SetupConfigures` are about it. |
| Config.ConfigManager.Get | promptql_mcp_server/config.py:78-86 | A non-empty `PROMPTQL_<KEY>` variable is the answer; otherwise the stored value under the lower-cased key; otherwise the default. |
| Config.ConfigManager.IsConfigured | promptql_mcp_server/config.py:98-102 | Holds iff `get` gives a present, non-empty value for all three of `api_key`, `playground_url` and `auth_token`. |
| Config.ConfigManager.Set | promptql_mcp_server/config.py:88-94 | The new store is `Stored` of the old one. |
| Config.ConfigManager.constructor | promptql_mcp_server/config.py:19-52 | A parsed file is the store; an unreadable file gives the empty store; with no file, the store is what the environment mapping yields. |
| Config.LoadFromEnvironment | promptql_mcp_server/config.py:42-52 | The loop over the mapping table yields exactly the mapped keys whose variable is non-empty, each with that variable's value, and no other key. |
| Config.EnvMappings | promptql_mcp_server/config.py:43-47 | Definition: the mapping table, in source order: `PROMPTQL_API_KEY` to `api_key`, `PROMPTQL_PLAYGROUND_URL` to `playground_url`, `PROMPTQL_AUTH_TOKEN` to `auth_token`. `EnvMappingsDistinct` and `EnvMappingsMatchEnvName` are about it. |
| Config.EnvMappingsDistinct | promptql_mcp_server/config.py:43-47 | The mapping table fills three different keys, so no variable of the table overwrites another one's value. |
| Config.EnvMappingsMatchEnvName | promptql_mcp_server/config.py:43-47 | Each variable of the mapping table is the one `get` consults for its key: "PROMPTQL_" followed by the upper-cased key. |
| Config.LoadedStoreAgreesWithEnvironment | promptql_mcp_server/config.py:42-86 | For a store loaded from the environment, `get` answers as the empty store would under the same environment. |
| Config.EnvironmentOverrides | promptql_mcp_server/config.py:81-83 | A non-empty `PROMPTQL_<KEY>` variable is the answer of `get`, whatever the store and the default. |
| Config.StoreDecidesWithoutOverride | promptql_mcp_server/config.py:85-86 | Without an override, `get` returns the value under the lower-cased key, or the default when it is absent. |
| Config.LookupAfterStored | promptql_mcp_server/config.py:81-94 | After setting a non-empty value, `get` of that key returns it, unless an environment override is present, which still wins. |
| Config.LookupOtherAfterStored | promptql_mcp_server/config.py:86-94 | Setting one key does not change `get` of any key that lower-cases differently. |
| Config.LookupCaseInsensitive | promptql_mcp_server/config.py:81-86 | `get(key)` and `get(key.lower())` agree. |
| Config.StoredKeepsConfigured | promptql_mcp_server/config.py:88-102 | A `set` call never makes a complete configuration incomplete. |
| Config.StoredKeepsTruthy | promptql_mcp_server/config.py:88-102 | A `set` call never makes a non-empty `get` answer empty. |
| Config.SetupConfigures | promptql_mcp_server/config.py:88-102 | Setting the three credentials to non-empty values makes the configuration complete under any environment. |
| Text.Contains | promptql_mcp_server/server.py:161-173 | Python's substring `in`: true iff the pattern occurs at some position of the text. |
| Text.HasText | promptql_mcp_server/server.py:161-173 | Definition of Python truthiness of a string, as in `if plan`: it is non-empty. |
| Text.ContainsExtended | promptql_mcp_server/server.py:161-175 | A pattern in the text is still there after the text is extended. |
| Text.ContainsInserted | promptql_mcp_server/server.py:163-175 | A pattern inserted into a text occurs in it. |
| Text.ContainsPrefixed | promptql_mcp_server/server.py:190 | A pattern in a text still occurs once something is put in front. |
| Text.Join | promptql_mcp_server/server.py:190 | Definition of `", ".join`: the items with the separator between consecutive ones; `JoinContains` states that every item occurs in it. |
| Text.Head | promptql_mcp_server/server.py:50-51 | Python's `s[:n]`: a prefix of `s` of length `min(n, len(s))`. |
| Text.Tail | promptql_mcp_server/server.py:50 | Python's `s[-n:]` for positive `n`: a suffix of `s` of length `min(n, len(s))`. |
| Text.Upper | promptql_mcp_server/config.py:81 | The upper-cased string has the same length; `UpperAt` gives it character by character. |
| Text.Lower | promptql_mcp_server/config.py:86 | The lower-cased string has the same length; `LowerAt` gives it character by character. |
| Text.UpperOfLower | promptql_mcp_server/config.py:81-86 | Upper-casing a lower-cased key gives the upper-cased key, so `get(key)` and `get(key.lower())` consult the same variable. |
| Text.LowerIdempotent | promptql_mcp_server/config.py:86-94 | Lower-casing twice is lower-casing once. |
| Text.UpperAt | promptql_mcp_server/config.py:81 | Each character of the upper-cased string is the upper case of the character at that position. |
| Text.LowerAt | promptql_mcp_server/config.py:86-94 | Each character of the lower-cased string is the lower case of the character at that position. |

## Left out

- Configuration file I/O is not modelled: `save_config`, `mkdir`, `chmod`,
  JSON reading and writing, the save after loading from the environment, and
  loading `.env` through `dotenv`. The file is given as `ConfigFile` and the
  environment as a map.
- Config values read from a JSON file are taken to be strings; other JSON
  types are not modelled.
- `promptql_mcp_server/api/promptql_client.py` is not part of this model.
  The HTTP calls and the client's result are a `ThreadResult` parameter.
  `StartThread` and `ContinueThread` take client creation to succeed once
  the credentials are present; the constructor mismatch is under
  "## Findings". `PromptQLClient` also defines only `__init__` and `query`
  (`api/promptql_client.py:21` and 28), so the calls `client.start_thread`
  and `client.continue_thread` at server.py:120 and 287 would raise
  `AttributeError` even with a matching constructor. `StartThread` and
  `ContinueThread` therefore assume a client with those two methods, which
  this repository does not contain.
- Server.StartThread, Server.ContinueThread: the generic `except Exception`
  catch-alls are modelled for the missing-configuration `ValueError`, and
  for the constructor's `TypeError` in `ThreadToolAsWritten`. Any other
  exception from the client is not.
- Server.SetupConfig: the masked key and token only go to the log. The
  masking itself is modelled (`MaskKey`, `MaskToken`); the logging is not.
- Logging everywhere, and the FastMCP registration and async wrappers, are
  not modelled.
- The `start_thread_without_polling`, `get_thread_status` and
  `cancel_thread` tools are not modelled. They format strings around remote
  calls. Their "Error: " and "Unexpected error: " short-circuits follow the
  same pattern as `ErrorText`.
- SSE parsing and completion polling appear nowhere in `server.py` or
  `config.py`, so they are not modelled.
- The `code` entry of an action is taken to be its rendered text.
- A `details` entry that is present but `None` is not modelled. Python
  would render it as "None"; the model reads absent `details` as `""`.
- An `error` entry is taken as its rendered text.
- Text.Upper, Text.Lower: only ASCII letters change case. Python's full
  Unicode case mapping is not modelled.

## Findings

| source | as written | input that shows it | evidently intended | confidence | as-written member | corrected member |
|---|---|---|---|---|---|---|
| promptql_mcp_server/server.py:30 | `PromptQLClient(api_key=..., playground_url=..., auth_token=...)`, while the constructor at `api/promptql_client.py:21` takes `api_key`, `ddn_url` and `timezone`; the `TypeError` ends in the catch-alls at server.py:202-207 and 354-356 | any manager with all three credentials set, for example after `setup_config("k", "https://p", "t")` | the client is built from the three credentials and the thread result is formatted (this also needs the client's `start_thread` and `continue_thread` methods, which `api/promptql_client.py` does not define) | not executed | Server.ThreadToolAsWritten | Server.StartThread |
