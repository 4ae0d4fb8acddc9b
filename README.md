# composite-service in Dafny

A model of the core of `composite-service`, a Node.js library that runs several services (child
processes) as one: it validates and normalises a configuration, starts each service after its
dependencies, restarts crashed services, and shuts everything down in dependency order on a
signal or a fatal error. The model covers both generations of the code: the current one under
`src/` and the older variant under `src/core/`. Each variant gets its own module.

Layout:

- `results.dfy`, `text.dfy`, `collections.dfy` hold the shared values. They are `Option`/`Result`,
  the JavaScript string operations the code uses (`split`, `join`, `split(/\s+/).filter(Boolean)`,
  `toUpperCase`, `startsWith`, `includes`), objects as entry lists in `Object.entries` order (`Entries`), a bounded FIFO
  (`Bounded`) and the log levels.
- `dependency_graph.dfy` holds the recursive cycle check (`validateNoCyclicDeps` and
  `checkForCyclicDeps`). It also holds the start order that the recursive `startService` produces,
  flattened to a sequence, and the reversed graph that `stopService` walks.
- `config_validation.dfy`, `core_config_validation.dfy`, `core_normalize_config.dfy` and
  `js_values.dfy` are the three configuration validators. The older two work on loosely typed
  JavaScript values (`JsValue`).
- `error_messages.dfy` is `getErrorMessageLines`/`getErrorMessage`.
- `stream_lines.dfy`, `logging.dfy`, `spawn_env.dfy` and `process_spawned.dfy` are the utilities.
- `service_process.dfy`, `service.dfy`, `composed_service.dfy` and `composite.dfy` are the
  lifecycle objects. They are classes whose methods are the events the JavaScript reacts to: a
  spawn confirmed or failed, output ended, `ready` or `onCrash` settled, a timer fired, a signal.
  What each object asks of the outside world is appended to an `effects`, `actions` or `logs`
  sequence, so contracts speak about the state and the requests together.
- `redaction.dfy` holds the stack-trace and working-directory redaction helpers that the
  integration tests use.

`startService` and `stopService` recurse through `Promise.all`. They are modelled by a schedule:
`StartSchedule` is the order in which the recursion reaches `service.start()`, and `StopSchedule`
is the order in which it reaches `service.stop()`. The `CompositeService` classes issue those calls
one event at a time (`StartNext`, `StopNext`) and keep the calls made so far (`startCalls`,
`stopCalls`) as a prefix of the schedule.

## Model

| member | source | states |
|---|---|---|
| Entries.Keys | src/validateAndNormalizeConfig.ts:136 | `Object.keys`: one key per entry, in the order the entries are held, which is `Object.entries` order |
| Entries.Get | src/spawnProcess.ts:47 | `obj[k]` is absent exactly when `k` is not a key, and otherwise is a value stored under `k` |
| Entries.GetEntry | src/validateAndNormalizeConfig.ts:137 | with distinct keys, each entry is what its key reads as |
| Entries.Spread | src/validateAndNormalizeConfig.ts:98-102 | `{...a, ...b}` keeps `a`'s keys in their places first, and has exactly the keys of `a` and of `b` |
| Entries.ConsDistinct | src/core/validateAndNormalizeConfig.ts:40-41 | putting an entry with a new key in front keeps keys distinct |
| Entries.Assign | src/validateAndNormalizeConfig.ts:49 | `obj[k] = v` keeps the key order and appends a new key at the end |
| Entries.AssignNew | src/validateAndNormalizeConfig.ts:49 | assigning a key the object lacks appends exactly that entry |
| Entries.AssignDistinct | src/validateAndNormalizeConfig.ts:49 | assignment keeps keys distinct |
| Entries.GetAssign | src/validateAndNormalizeConfig.ts:49 | after `obj[k] = v`, `k` reads `v` and every other key reads as before |
| Entries.Remove | src/validateAndNormalizeConfig.ts:117 | `delete obj[k]` keeps exactly the entries with other keys |
| Entries.GetRemove | src/validateAndNormalizeConfig.ts:117 | after `delete obj[k]`, `k` is absent and other keys read as before |
| Entries.RemoveDistinct | src/validateAndNormalizeConfig.ts:117 | deletion keeps keys distinct |
| Entries.KeysCons | src/validateAndNormalizeConfig.ts:98-102 | the keys of an object are its first key and the keys of the rest |
| Entries.GetSpread | src/validateAndNormalizeConfig.ts:98-102 | `{...a, ...b}` reads a key from `b` when `b` has it, else from `a` |
| Entries.MapEntries | src/core/validateAndNormalizeConfig.ts:40-88 | a successful `map` has one entry per entry |
| Entries.MapEntriesOk | src/core/validateAndNormalizeConfig.ts:40-88 | a successful `map` keeps every key in its place and holds each callback's value |
| Entries.MapEntriesOkIff | src/core/normalizeCompositeServiceConfig.ts:19-61 | the `map` succeeds exactly when no callback throws |
| Entries.MapEntriesErr | src/core/normalizeCompositeServiceConfig.ts:19-61 | a failed `map` throws the error of the first entry whose callback throws |
| Entries.FirstFailureDecides | src/validateAndNormalizeConfig.ts:48-50 | when entry `i` is the first whose callback throws, the `map` throws its error |
| Entries.AllReturnDecides | src/validateAndNormalizeConfig.ts:48-50 | when every callback returns, the `map` holds each key with its callback's value |
| Bounded.Tail | src/ServiceProcess.ts:42-45 | the last `n` items, so `min(|s|, n)` of them |
| Bounded.PushBounded | src/ServiceProcess.ts:42-45 | push then shift-if-too-long: the result is a suffix of the old buffer plus the new item, ending with that item when `n > 0`, equal to the plain push while the buffer is below `n`, and never longer than `n` once the buffer was within it |
| Bounded.PushBoundedTail | src/Service.ts:95-100 | push-then-shift on the tail of a history is the tail of the extended history, at most `n` long, with the new item last |
| Text.SplitBy | src/Logger.ts:15 | `split` yields at least one part and no part contains a separator |
| Text.NonEmptyParts | src/spawnProcess.ts:66 | `.filter(Boolean)` keeps exactly the non-empty parts |
| Text.NonEmptyPartsAppend | src/spawnProcess.ts:66 | the filter keeps the order: a concatenation filters to the concatenated filtered halves |
| Text.Tokens | src/validateAndNormalizeConfig.ts:124 | `split(/\s+/).filter(Boolean)` gives non-empty tokens without whitespace |
| Text.ToUpper | src/spawnProcess.ts:43 | `toUpperCase` keeps the length and maps each character |
| Text.Spaces | src/core/CompositeService.ts:106 | `n` spaces |
| Text.NatToString | src/core/validateAndNormalizeConfig.ts:64 | `String(n)` is a non-empty string of decimal digits |
| Text.JoinSplit | src/Logger.ts:15 | joining the parts of `split(c)` with `c` gives back the string |
| Text.SplitByJoin | src/spawnProcess.ts:66 | splitting a join of separator-free parts gives back the parts |
| Text.SplitCount | src/Logger.ts:15 | `split(c)` has one more part than `c` occurs |
| Text.NonEmptyPartsIdentity | src/spawnProcess.ts:66 | filtering parts that are all non-empty changes nothing |
| Text.TokensOfJoin | src/validateAndNormalizeConfig.ts:124 | tokenising space-joined tokens gives back the tokens |
| Text.TokensEmptyIffBlank | src/validateAndNormalizeConfig.ts:68-69 | a string has no token exactly when `trim()` leaves nothing |
| Text.ToUpperIdempotent | src/spawnProcess.ts:43 | upper-casing twice is upper-casing once |
| Text.DigitsValueOfNatToString | src/util/processSpawned.ts:19 | `Number(String(n)) == n` |
| DependencyGraph.IndexOf | src/validateAndNormalizeConfig.ts:161 | `path.indexOf(x)` is the first position of `x` |
| DependencyGraph.FindCycle | src/validateAndNormalizeConfig.ts:156-170 | the recursive check reports a path that starts and ends at the same service |
| DependencyGraph.FindCycleIn | src/validateAndNormalizeConfig.ts:166-168 | the loop over dependencies reports the first dependency's cycle |
| DependencyGraph.FirstCycle | src/validateAndNormalizeConfig.ts:152-154 | the check from every service in order reports a closed path |
| DependencyGraph.FindCycleSound | src/validateAndNormalizeConfig.ts:156-170 | a reported cycle is a real cycle of the graph |
| DependencyGraph.FindCycleComplete | src/validateAndNormalizeConfig.ts:156-170 | when nothing is reported, every walk from the service extends the path without repeating an id |
| DependencyGraph.FindCycleInSound | src/validateAndNormalizeConfig.ts:166-168 | a cycle found among the dependencies is a real cycle |
| DependencyGraph.FindCycleInNone | src/validateAndNormalizeConfig.ts:166-168 | when the loop finds nothing, no single dependency's check finds anything |
| DependencyGraph.FirstCycleNone | src/validateAndNormalizeConfig.ts:152-154 | when the whole check finds nothing, no single service's check finds anything |
| DependencyGraph.FirstCycleSound | src/validateAndNormalizeConfig.ts:152-154 | whatever the whole check reports is a cycle |
| DependencyGraph.WalkFromCheckedDoesNotClose | src/validateAndNormalizeConfig.ts:156-170 | no walk from an accepted service returns to it |
| DependencyGraph.FirstCycleIffHasCycle | src/validateAndNormalizeConfig.ts:152-170 | the check reports a cycle if and only if the graph has one |
| DependencyGraph.PostOrder | src/CompositeService.ts:58-64 | `startService(id)` reaches `id` last, after its dependencies |
| DependencyGraph.PostOrderIn | src/CompositeService.ts:59-60 | every dependency is reached |
| DependencyGraph.PostOrderAll | src/CompositeService.ts:53 | every service is reached |
| DependencyGraph.PostOrderRespectsEdges | src/CompositeService.ts:58-64 | the order reached from one service puts every service after its dependencies |
| DependencyGraph.PostOrderInRespectsEdges | src/CompositeService.ts:59-60 | the same for the order reached from a list of dependencies |
| DependencyGraph.PostOrderAllRespectsEdges | src/CompositeService.ts:58-64 | in the start order every service comes after all of its dependencies |
| DependencyGraph.Dependents | src/CompositeService.ts:101-103 | the dependents filter keeps exactly the services that depend on `id` |
| DependencyGraph.Reverse | src/CompositeService.ts:99-105 | the reversed graph has an edge `x -> y` exactly when `y` depends on `x` |
| DependencyGraph.ReverseAcyclic | src/CompositeService.ts:99-105 | reversing an acyclic graph keeps it acyclic |
| ConfigValidation.RunBaseDefaultOnCrash | src/validateAndNormalizeConfig.ts:82-84 | the default `onCrash` throws "Crashed before becoming ready" exactly when the service was not ready |
| ConfigValidation.DefinedProperties | src/validateAndNormalizeConfig.ts:113-121 | keeps exactly the defined properties, distinct, each reading as before |
| ConfigValidation.RemoveUndefinedProperties | src/validateAndNormalizeConfig.ts:113-121 | the delete loop over a copy leaves exactly the defined properties |
| ConfigValidation.LayeredIsSpread | src/validateAndNormalizeConfig.ts:98-102 | for a property the base defines, the per-property `Layered` merge is what the three-layer spread reads |
| ConfigValidation.UnsetBaseIsSpread | src/validateAndNormalizeConfig.ts:98-105 | for `command`, which the base leaves out, the spread reads the service's value, else the default's, else nothing |
| ConfigValidation.MergePrecedence | src/validateAndNormalizeConfig.ts:98-102 | the service's defined value wins, then `serviceDefaults`, then the base default; `undefined` never overrides |
| ConfigValidation.Merge | src/validateAndNormalizeConfig.ts:74-102 | with nothing set, every property is its base default (`[]`, ".", no command, `process.env`, resolving `ready`, 5000 ms, crash-before-ready `onCrash`, 0, 0, 0); a property the service defines is the service's; one only `serviceDefaults` define is the defaults' |
| ConfigValidation.ProcessEnv | src/validateAndNormalizeConfig.ts:79 | `process.env` as the base `env`: the same keys, all string values |
| ConfigValidation.ExtraServiceConfigChecks | src/validateAndNormalizeConfig.ts:64-73 | throws "`<path>.command` has no binary part" exactly when a defined command is an empty array, has a blank first part, or is a blank string |
| ConfigValidation.NormalizeCommand | src/validateAndNormalizeConfig.ts:123-125 | arrays pass unchanged; a string becomes non-empty whitespace-free tokens, none exactly when blank |
| ConfigValidation.NormalizeCommandOfWords | src/validateAndNormalizeConfig.ts:124 | a space-joined word list normalises back to the words |
| ConfigValidation.NormalizeEnv | src/validateAndNormalizeConfig.ts:127-133 | keeps exactly the keys whose value is not `undefined`, each mapped to `String(value)` |
| ConfigValidation.ProcessServiceConfig | src/validateAndNormalizeConfig.ts:90-111 | the binary-part error first, then "is not defined" when no layer has a command, else success with a non-blank binary |
| ConfigValidation.ServiceGraph | src/validateAndNormalizeConfig.ts:135-137 | the graph's services are the configured ids |
| ConfigValidation.DependencyReferenceError | src/validateAndNormalizeConfig.ts:138-149 | no error exactly when every dependency names a service with its own `ready` |
| ConfigValidation.ReferenceError | src/validateAndNormalizeConfig.ts:137-150 | no reference error exactly when all references of all services are valid |
| ConfigValidation.ValidReferencesClosed | src/validateAndNormalizeConfig.ts:137-150 | valid references make the dependency graph closed |
| ConfigValidation.DependencyTreeAccepted | src/validateAndNormalizeConfig.ts:135-171 | the tree is accepted if and only if references are valid and the graph is acyclic |
| ConfigValidation.DependencyTreeError | src/validateAndNormalizeConfig.ts:135-171 | an invalid reference is reported first, as the reference check's own message; otherwise an error is a cycle message |
| ConfigValidation.CycleErrorIsCycle | src/validateAndNormalizeConfig.ts:156-165 | a cycle error lists a real cycle, `a -> b -> a` |
| ConfigValidation.ValidateDependencyTree | src/validateAndNormalizeConfig.ts:135-171 | the nested loops then the cycle check throw exactly the reference function's error |
| ConfigValidation.TruthyEntries | src/validateAndNormalizeConfig.ts:40-43 | keeps exactly the entries whose value is truthy |
| ConfigValidation.TruthyEntriesAppend | src/validateAndNormalizeConfig.ts:40-43 | the filter keeps the order: a concatenation filters to the concatenated filtered halves |
| ConfigValidation.ProcessedExtend | src/validateAndNormalizeConfig.ts:47-50 | one more processed entry extends the result by that entry, keeping the ids |
| ConfigValidation.ProcessedServices | src/validateAndNormalizeConfig.ts:47-50 | succeeds exactly when every entry processes; then every entry processed in order with distinct ids, otherwise the error of the first entry that fails |
| ConfigValidation.ProcessServices | src/validateAndNormalizeConfig.ts:47-50 | the loop yields `ProcessedServices`: every entry processed in order, or the error of the first failing entry, all earlier entries having succeeded |
| ConfigValidation.ValidateAndNormalizeConfig | src/validateAndNormalizeConfig.ts:29-59 | accepted exactly when the defaults pass their checks, a service is configured, every service processes and the dependency tree is accepted; errors in that order: the defaults' check, "has no entries", the first failing service's error, then `validateDependencyTree`'s message; log level defaults to "info"; Windows CTRL_C shutdown needs win32 and excludes graceful shutdown; accepted services are the processed ones, each with a binary |
| JsValues.Prop | src/core/validateAndNormalizeConfig.ts:44 | a property read is `undefined` unless the object owns it |
| JsValues.EntriesOf | src/core/validateAndNormalizeConfig.ts:35 | `Object.entries` of objects, arrays and strings |
| JsValues.Truthy | src/core/validateAndNormalizeConfig.ts:35-37 | `Boolean(v)` is false exactly for `undefined`, `null`, `false`, `0` and the empty string |
| JsValues.ToJsString | src/core/validateAndNormalizeConfig.ts:75 | `String(v)` leaves a string as it is, writes a number as its decimal digits (with a leading `-` when negative) whose value is the number, and turns `[]` into the empty string |
| JsValues.NatToStringInjective | src/core/validateAndNormalizeConfig.ts:35 | distinct indices give distinct keys |
| JsValues.EntriesOfDistinct | src/core/validateAndNormalizeConfig.ts:67 | `Object.entries` yields distinct keys |
| JsValues.NormalizeDependencies | src/core/validateAndNormalizeConfig.ts:44-52 | a falsy value gives `[]`; a non-array is rejected; an array is accepted exactly when every item names a service |
| JsValues.FirstInvalid | src/core/validateAndNormalizeConfig.ts:46-52 | the first item that names no service |
| JsValues.NormalizeCommand | src/core/validateAndNormalizeConfig.ts:53-65 | a string becomes its tokens; an array is accepted exactly when every part is a string or number, and then each is stringified; anything else is rejected |
| JsValues.TokenArray | src/core/validateAndNormalizeConfig.ts:55 | the tokens as an array of strings |
| JsValues.DefinedEntries | src/core/validateAndNormalizeConfig.ts:68 | keeps exactly the entries whose value is not `undefined` |
| JsValues.DefinedEntriesAppend | src/core/validateAndNormalizeConfig.ts:68 | the filter keeps the order: a concatenation filters to the concatenated filtered halves |
| JsValues.StringifyEnv | src/core/validateAndNormalizeConfig.ts:69-76 | accepted exactly when every value is a string or number; the error names an offending key |
| JsValues.DefinedEntriesDistinct | src/core/validateAndNormalizeConfig.ts:68 | the filter keeps the keys distinct |
| JsValues.GetDefinedEntries | src/core/validateAndNormalizeConfig.ts:68 | each key reads as before unless it was `undefined` |
| JsValues.GetStringified | src/core/validateAndNormalizeConfig.ts:75 | each key reads as `String` of its old value |
| JsValues.NormalizeEnvMeaning | src/core/validateAndNormalizeConfig.ts:66-77 | an accepted env maps each defined key to `String(value)` and drops `undefined` |
| JsValues.NormalizeEnv | src/core/validateAndNormalizeConfig.ts:66-77 | a falsy `env` gives the empty environment; an error names the key of a defined value that is neither a string nor a number |
| JsValues.CallbackOrDefault | src/core/validateAndNormalizeConfig.ts:78-85 | a falsy value gives the default; otherwise it must be a function, kept as given |
| CoreConfigValidation.ConfigError | src/core/validateAndNormalizeConfig.ts:19-23 | every error message is `config.<key>: <message>` |
| CoreConfigValidation.FilteredEntries | src/core/validateAndNormalizeConfig.ts:35-37 | keeps exactly the truthy entries |
| CoreConfigValidation.NormalizeService | src/core/validateAndNormalizeConfig.ts:41-87 | errors are prefixed `config.services.<id>.`; accepted services name only known dependencies; string commands become tokens; `ready` and `handleCrash` default when missing |
| CoreConfigValidation.NormalizeServices | src/core/validateAndNormalizeConfig.ts:40-88 | succeeds exactly when every service normalizes; then it holds each service's normalized value under its id, in order; otherwise the error is the first failing service's |
| CoreConfigValidation.Failure | src/core/validateAndNormalizeConfig.ts:42-43 | `_assert` adds the `services.<id>.` key prefix |
| CoreConfigValidation.ServiceErrorPrefix | src/core/validateAndNormalizeConfig.ts:41-43 | a failing service throws an error under `config.` |
| CoreConfigValidation.ServiceGraph | src/core/validateAndNormalizeConfig.ts:89 | the graph's services are the normalised ids |
| CoreConfigValidation.ServicesClosed | src/core/validateAndNormalizeConfig.ts:46-52 | dependencies that name services make a closed graph |
| CoreConfigValidation.ValidateAndNormalizeConfig | src/core/validateAndNormalizeConfig.ts:30-104 | errors start with `config.`; `printConfig` is `Boolean(config.printConfig)`; no service gives "config.services: No configured service"; an accepted config's services are exactly the normalized services, in order, and a failing service's error is passed through |
| CoreConfigValidation.ServicesValid | src/core/validateAndNormalizeConfig.ts:38-52 | normalised services have distinct ids and a closed graph |
| CoreConfigValidation.AcceptedIff | src/core/validateAndNormalizeConfig.ts:30-104 | accepted if and only if there is a service, all normalise, and the graph is acyclic |
| CoreConfigValidation.CycleReported | src/core/validateAndNormalizeConfig.ts:89-102 | a cycle rejection is "config.services: Found cyclic dependency a -> b -> a" for a real cycle |
| CoreNormalizeConfig.AssertionMessage | src/core/assert.ts:1-5 | every assertion message starts with "composite-service: " |
| CoreNormalizeConfig.InvalidConfig | src/core/normalizeCompositeServiceConfig.ts:12-13 | `_assert` adds "Invalid Config: " |
| CoreNormalizeConfig.InvalidService | src/core/normalizeCompositeServiceConfig.ts:21-22 | `__assert` adds "Service '<id>': " |
| CoreNormalizeConfig.FilteredEntries | src/core/normalizeCompositeServiceConfig.ts:15-17 | keeps exactly the truthy entries |
| CoreNormalizeConfig.CheckService | src/core/normalizeCompositeServiceConfig.ts:23-59 | an accepted service's dependencies all name configured services |
| CoreNormalizeConfig.NormalizeService | src/core/normalizeCompositeServiceConfig.ts:20-60 | errors carry the service prefix; accepted dependencies name services |
| CoreNormalizeConfig.NormalizeServiceOutcome | src/core/normalizeCompositeServiceConfig.ts:23-58 | accepted exactly when dependencies, command and env normalise and `ready` is a function; dependency errors come first, with their messages |
| CoreNormalizeConfig.NormalizeServiceValue | src/core/normalizeCompositeServiceConfig.ts:31-58 | a string command becomes its tokens and `ready` is kept as given; `ready` has no default |
| CoreNormalizeConfig.NormalizeServices | src/core/normalizeCompositeServiceConfig.ts:19-61 | succeeds exactly when every service normalizes; then it holds each service's normalized value under its id, in order; otherwise the error is the first failing service's |
| CoreNormalizeConfig.ServiceGraph | src/core/normalizeCompositeServiceConfig.ts:62 | the graph's services are the normalised ids |
| CoreNormalizeConfig.ServicesClosed | src/core/normalizeCompositeServiceConfig.ts:25-30 | dependencies that name services make a closed graph |
| CoreNormalizeConfig.ServicesValid | src/core/normalizeCompositeServiceConfig.ts:18-30 | normalised services have distinct ids and a closed graph |
| CoreNormalizeConfig.ServiceErrorPrefix | src/core/normalizeCompositeServiceConfig.ts:21-22 | a service failure is an invalid-configuration error |
| CoreNormalizeConfig.NormalizeCompositeServiceConfig | src/core/normalizeCompositeServiceConfig.ts:8-77 | errors start with "composite-service: Invalid Config: "; no service gives "No configured service"; accepted configs keep the ids, and their services are exactly the normalized services, in order; a failing service's error is passed through |
| CoreNormalizeConfig.CheckServices | src/core/normalizeCompositeServiceConfig.ts:62-76 | the cycle check runs before the emptiness check; success exactly when non-empty and acyclic |
| CoreNormalizeConfig.AcceptedIff | src/core/normalizeCompositeServiceConfig.ts:8-77 | accepted if and only if every service normalises, the graph is acyclic and there is a service |
| CoreNormalizeConfig.CycleReported | src/core/normalizeCompositeServiceConfig.ts:62-74 | a cycle rejection is "Found cyclic dependency a -> b -> a" for a real cycle |
| ErrorMessages.Indent | src/core/util/ts-interface-checker.ts:11 | each line gets four leading spaces |
| ErrorMessages.IndentAppend | src/core/util/ts-interface-checker.ts:11 | indenting distributes over concatenation |
| ErrorMessages.IndentLine | src/core/util/ts-interface-checker.ts:11 | four spaces before a line is that line one level deeper |
| ErrorMessages.IndentOutline | src/core/util/ts-interface-checker.ts:9-13 | an indented outline is the outline one level deeper, so depth `d` carries `4·d` spaces |
| ErrorMessages.IndentChildren | src/core/util/ts-interface-checker.ts:10-12 | the same for the outlines of the children |
| ErrorMessages.OutlineSize | src/core/util/ts-interface-checker.ts:7-15 | one line per node of the error tree |
| ErrorMessages.ChildrenOutlineSize | src/core/util/ts-interface-checker.ts:10-12 | the children contribute one line per node |
| ErrorMessages.GetErrorMessageLines | src/core/util/ts-interface-checker.ts:7-15 | the accumulating loop gives the pre-order outline; the first line is "`path` message" |
| ErrorMessages.OutlineLinesFree | src/core/util/ts-interface-checker.ts:8 | without newlines in the tree, no line holds a newline |
| ErrorMessages.ChildrenLinesFree | src/core/util/ts-interface-checker.ts:10-12 | the same for the children |
| ErrorMessages.GetErrorMessage | src/core/util/ts-interface-checker.ts:3-5 | splitting the message on newlines gives back the lines |
| StreamLines.DropBlankLast | src/util/stream.ts:24-41 | the input without its last element when that element is the blank line, else the input |
| StreamLines.DropBlankLastOnce | src/util/stream.ts:29-37 | only one trailing blank is dropped: `["a","",""]` gives `["a",""]` |
| StreamLines.DropBlankLastKeepsInnerBlanks | src/util/stream.ts:29-32 | a blank line that is not last stays in its position |
| StreamLines.BlankLastLineFilter.constructor | src/util/stream.ts:25 | the buffer starts empty |
| StreamLines.BlankLastLineFilter.Transform | src/util/stream.ts:28-39 | releases a held blank, then holds a blank or pushes the line; the buffer is set exactly when the last input is blank and unsent |
| StreamLines.BlankLastLineFilter.OutputIsInputWithoutBlankLast | src/util/stream.ts:24-41 | at any moment the pushed lines are the input without a trailing blank |
| StreamLines.FilterBlankLastLine | src/util/stream.ts:24-41 | the whole stream's output is the input without a trailing blank |
| StreamLines.MapStreamLines | src/util/stream.ts:3-11 | one `callback(line)` per input line, in order |
| StreamLines.TapStreamLines | src/util/stream.ts:13-22 | the output is the input, and the callback sees each line once, in order |
| Logging.ThresholdExtremes | src/Logger.ts:5 | threshold "debug" writes every level; threshold "error" writes only errors |
| Logging.ShouldLog | src/Logger.ts:20-22 | errors, the threshold's own level and everything under threshold `debug` are written; threshold `error` writes only errors, threshold `info` everything but debug |
| Logging.ShouldLogMonotone | src/Logger.ts:20-22 | what one threshold writes, a more verbose threshold writes too |
| Text.PrefixedLines | src/Logger.ts:15-16 | one line `<prefix><segment>\n` per newline-separated segment, so newlines plus one lines; both loggers write these |
| Text.PrefixedLinesRoundTrip | src/Logger.ts:15-16 | the segments carried by the lines, joined with newlines, give back the text |
| Logging.Logger.constructor | src/Logger.ts:10-12 | nothing written yet |
| Logging.Logger.Log | src/Logger.ts:13-19 | appends the chunks when `shouldLog`, else nothing |
| CoreLogging.IsValidLogLevel | src/core/Logger.ts:7-9 | true exactly for the names of the three levels |
| CoreLogging.ThresholdExtremes | src/core/Logger.ts:5 | errors always pass; "debug" passes everything; "error" passes only errors |
| CoreLogging.ShouldLog | src/core/Logger.ts:30-34 | errors, the threshold's own level and everything under threshold `debug` are written; threshold `error` writes only errors, threshold `info` everything but debug |
| CoreLogging.Logger.constructor | src/core/Logger.ts:17-22 | nothing written yet |
| CoreLogging.Logger.Log | src/core/Logger.ts:23-29 | appends the chunks when `shouldLog`, else nothing |
| CoreLogging.Logger.Debug | src/core/Logger.ts:19 | writes only at threshold "debug" |
| CoreLogging.Logger.Info | src/core/Logger.ts:20 | writes unless the threshold is "error" |
| CoreLogging.Logger.Error | src/core/Logger.ts:21 | always writes |
| SpawnEnv.IsWindows | src/spawnProcess.ts:9-10 | win32, or a Cygwin or MSYS shell |
| SpawnEnv.OrElse | src/spawnProcess.ts:17 | `a \|\| b`: an absent or empty value falls back |
| SpawnEnv.ReadEnvLastMatch | src/spawnProcess.ts:42-48 | absent exactly when no key matches ignoring case; otherwise the value of the last matching key |
| SpawnEnv.Unmatched | src/spawnProcess.ts:58 | keeps exactly the entries whose key does not match ignoring case |
| SpawnEnv.WriteEnvCaseNormalized | src/spawnProcess.ts:50-62 | exactly one key matches ignoring case, it is upper-case and holds the value; other entries are kept |
| SpawnEnv.ReadAfterWrite | src/spawnProcess.ts:42-62 | reading a key right after writing it gives the written value |
| SpawnEnv.ReadUnmatched | src/spawnProcess.ts:58 | dropping one variable leaves every other one reading as before |
| SpawnEnv.ReadAfterWriteOther | src/spawnProcess.ts:56-60 | writing one variable leaves every other one reading as before |
| SpawnEnv.FilterBlankParts | src/spawnProcess.ts:64-67 | the parts of the result are exactly the non-empty parts of the input, in order |
| SpawnEnv.FilterBlankPartsIdempotent | src/spawnProcess.ts:64-67 | cleaning twice is cleaning once |
| SpawnEnv.WriteEnv | src/spawnProcess.ts:19 | after `env = writeEnvCaseNormalized(env, key, value)` the variable reads as the value under the upper-case key; every other variable reads as before and keeps its entries; nothing but the written entry is added |
| SpawnEnv.PathAndPathExtDiffer | src/spawnProcess.ts:17-24 | `PATH` and `PATHEXT` are different variables |
| SpawnEnv.WriteKeepsKey | src/spawnProcess.ts:56-60 | writing a variable keeps every other variable's key |
| SpawnEnv.ReadsAsBeforeChain | src/spawnProcess.ts:19-24 | after writing `PATH` and then `PATHEXT`, every other variable reads as in the configured environment |
| SpawnEnv.SpawnProcess | src/spawnProcess.ts:12-40 | the cleaned `PATH` under `PATH`; on Windows `PATHEXT` from any casing or the default list, and the binary resolved by `which`; every other variable reads as before, every entry of another variable is passed on (`foo` beside `FOO` included), and no other entry is added |
| CoreSpawnEnv.SetVariable | src/core/spawnProcess.ts:20-29 | `env.k = v`: `k` reads `v`, every other key reads as before, and the old keys stay in order |
| CoreSpawnEnv.SpawnProcess | src/core/spawnProcess.ts:14-46 | `PATH` read under path-key's key, written as `PATH`; on Windows `PATHEXT` from exactly `PATHEXT` or the default; every other entry copied unchanged |
| ProcessSpawned.NumberOf | src/util/processSpawned.ts:19 | `Number(s)` is a number exactly for a digit string |
| ProcessSpawned.IsSpawnEventSupported | src/util/processSpawned.ts:18-21 | a version is supported only when its major part is a number of at least 15, and for major 15 only with a numeric minor of at least 1 and a numeric patch |
| ProcessSpawned.VersionParts | src/util/processSpawned.ts:19 | `major.minor.patch` splits into its three numbers |
| ProcessSpawned.SupportedByNumbers | src/util/processSpawned.ts:18-21 | once the three parts read as numbers, support is decided by major > 15, or major = 15 and minor ≥ 1 |
| ProcessSpawned.SpawnEventSupportedFrom15_1 | src/util/processSpawned.ts:18-21 | supported if and only if major > 15, or major = 15 and minor ≥ 1 |
| ProcessSpawned.NonNumericMajorUnsupported | src/util/processSpawned.ts:20 | a non-numeric major is never supported |
| ProcessLifecycle.ServiceProcess.constructor | src/ServiceProcess.ts:15-23 | all flags false, empty log tail, no requests |
| ProcessLifecycle.ServiceProcess.SpawnFailed | src/ServiceProcess.ts:34-37 | `didError` set, so the process no longer runs; nothing else changes |
| ProcessLifecycle.ServiceProcess.OutputEnded | src/ServiceProcess.ts:49-51 | `didEnd` set, so the process no longer runs |
| ProcessLifecycle.ServiceProcess.LineArrived | src/ServiceProcess.ts:39-48 | the log tail stays within `logTailLength`, newest line last, and empty when the length is 0 |
| ProcessLifecycle.ServiceProcess.End | src/ServiceProcess.ts:61-77 | only the first call while running acts: with CTRL_C shutdown only the timer, on win32 a plain kill, else SIGINT and the timer |
| ProcessLifecycle.ServiceProcess.ForceKillAfterTimeout | src/ServiceProcess.ts:78-88 | no timer for an infinite timeout, otherwise one timer |
| ProcessLifecycle.ServiceProcess.ForceKillTimerFired | src/ServiceProcess.ts:82-87 | SIGKILL and its log line only if the process still runs |
| ProcessLifecycle.ServiceProcess.Settled | src/ServiceProcess.ts:52-56 | the crash callback fires exactly when there was no spawn error and `end` was never called |
| CoreProcessLifecycle.ServiceProcess.constructor | src/core/ServiceProcess.ts:19-27 | not ended, `end` not called, empty log tail |
| CoreProcessLifecycle.ServiceProcess.LineArrived | src/core/ServiceProcess.ts:34-41 | the log tail stays bounded with the newest line last, and empty when the length is 0 |
| CoreProcessLifecycle.ServiceProcess.Ended | src/core/ServiceProcess.ts:58-67 | `isEnded` set for good; a crash is reported only if `end` was never called and the start succeeded |
| CoreProcessLifecycle.ServiceProcess.ProcessError | src/core/ServiceProcess.ts:42-53 | an error rejects a pending start, which rules out the crash callback |
| CoreProcessLifecycle.ServiceProcess.GracePeriodElapsed | src/core/ServiceProcess.ts:43-57 | the start is confirmed, and a crash waiting on it fires |
| CoreProcessLifecycle.ServiceProcess.End | src/core/ServiceProcess.ts:69-77 | SIGINT at most once, and only if the process has not ended |
| ServiceLifecycle.Service.constructor | src/Service.ts:27-37 | nothing started or stopped, no crashes |
| ServiceLifecycle.Service.Start | src/Service.ts:39-57 | after a stop: an internal error and no spawn; otherwise the task is created once, and later calls change nothing |
| ServiceLifecycle.Service.CompleteStart | src/Service.ts:50-54 | the start task resolves only once the spawn is confirmed and `ready` resolved |
| ServiceLifecycle.Service.SpawnConfirmed | src/Service.ts:79-80 | the start completes if `ready` already resolved |
| ServiceLifecycle.Service.SpawnFailed | src/Service.ts:81-84 | fatal error "Spawning process for service '<id>': <error>"; `didError` rules out the crash callback |
| ServiceLifecycle.Service.ReadyResolved | src/Service.ts:51-54 | the start completes if the spawn was confirmed |
| ServiceLifecycle.Service.ReadyFailed | src/Service.ts:59-68 | fatal error "In \`service.<id>.ready\`: ..." and the start never completes |
| ServiceLifecycle.Service.OutputEnded | src/ServiceProcess.ts:49-51 | `didEnd`: the process no longer runs; a stop that `end` began resolves with "Stopped service"; otherwise the crash callback is pending and a later `stop` finds no running process |
| ServiceLifecycle.Service.CrashCallback | src/Service.ts:71-76 | fires only after the output ended without `end` and `started` resolved; a stop requested meanwhile drops the crash, otherwise it is handled |
| ServiceLifecycle.StopInsideStartGrace | src/Service.ts:123-126 | output ending before `started` resolves, then `stop`: the stop resolves at once with no log, and the later crash callback adds nothing |
| ServiceLifecycle.Service.HandleCrash | src/Service.ts:88-107 | "crashed" log; the crash is recorded only when `crashesLength > 0`, at most `crashesLength` kept, newest last; `onCrash` gets that crash |
| ServiceLifecycle.CrashRecorded | src/Service.ts:95-100 | pushing a crash onto a buffer of the newest `crashesLength` crashes and shifting when too long leaves the newest `crashesLength` of the extended history, ending with the new crash |
| ServiceLifecycle.Service.OnCrashFailed | src/Service.ts:108-114 | fatal error "In \`service.<id>.onCrash\`: ..." and no restart |
| ServiceLifecycle.Service.OnCrashSucceeded | src/Service.ts:115 | waits for the restart delay |
| ServiceLifecycle.Service.DelayElapsed | src/Service.ts:115-120 | restarts only if no stop was requested |
| ServiceLifecycle.Service.Stop | src/Service.ts:123-135 | idempotent; with no running process it resolves at once without `end` |
| CoreServiceLifecycle.Service.constructor | src/core/Service.ts:21-31 | nothing started or stopped, no crashes |
| CoreServiceLifecycle.Service.Start | src/core/Service.ts:32-47 | idempotent; after a stop an internal error and the prior task |
| CoreServiceLifecycle.Service.CompleteStart | src/core/Service.ts:40-44 | resolves only once the spawn is confirmed and `ready` resolved |
| CoreServiceLifecycle.Service.SpawnConfirmed | src/core/Service.ts:61-62 | the start completes if `ready` already resolved |
| CoreServiceLifecycle.Service.SpawnFailed | src/core/Service.ts:63-65 | `die("Error in '<id>': Error starting process: <stack>")` |
| CoreServiceLifecycle.Service.ReadyResolved | src/core/Service.ts:41-44 | the start completes if the spawn was confirmed |
| CoreServiceLifecycle.Service.ReadyFailed | src/core/Service.ts:48-54 | `die("Error in '<id>': Error from ready function: ...")` |
| CoreServiceLifecycle.Service.OutputEnded | src/core/ServiceProcess.ts:58-60 | `isEnded` set; a stop that `end` began resolves with "Stopped service"; otherwise the crash callback waits for `didStart`, and a later `stop` finds an ended process |
| CoreServiceLifecycle.Service.CrashCallback | src/core/Service.ts:67-88 | fires only after the process ended without `end` and `started` resolved; while stopping: an internal error and nothing else; otherwise one crash appended, never truncated, newest last and passed to `onCrash` |
| CoreServiceLifecycle.StopInsideStartGrace | src/core/Service.ts:67-73 | a command that exits inside the 100 ms start grace, then `stop`: the stop resolves at once, and the crash callback reports "Not expecting handleCrash called when stopping" |
| CoreServiceLifecycle.Service.OnCrashFailed | src/core/Service.ts:89-93 | `die("Error in '<id>': Error from onCrash function: ...")`, no restart |
| CoreServiceLifecycle.Service.OnCrashSucceeded | src/core/Service.ts:94-96 | gives up if a stop was requested |
| CoreServiceLifecycle.Service.DelayElapsed | src/core/Service.ts:97-102 | restarts only if no stop was requested |
| CoreServiceLifecycle.Service.Stop | src/core/Service.ts:104-116 | idempotent; with no process or an ended one it resolves at once |
| ComposedServiceLifecycle.ComposedService.constructor | src/core/ComposedService.ts:20-24 | nothing started |
| ComposedServiceLifecycle.ComposedService.BeginStart | src/core/ComposedService.ts:34-58 | a new process and a new `ready` call, a fresh race |
| ComposedServiceLifecycle.ComposedService.Start | src/core/ComposedService.ts:25-33 | idempotent: only the first call logs and starts |
| ComposedServiceLifecycle.ComposedService.Win | src/core/ComposedService.ts:28-30 | the first generation's win resolves the start task; later ones log "Restarted service" |
| ComposedServiceLifecycle.ComposedService.Lose | src/core/ComposedService.ts:65 | `die("Error starting service '<id>': <reason>")` |
| ComposedServiceLifecycle.ComposedService.ProcSpawned | src/core/ComposedService.ts:59-64 | wins if `ready` resolved, logging "Started service" on the first start (resolving it) and "Restarted service" after; loses with "Process exited without becoming ready" if the process already ended; otherwise leaves the start pending |
| ComposedServiceLifecycle.ComposedService.ProcSpawnFailed | src/core/ComposedService.ts:50-52 | loses with "Error spawning process: <message>" |
| ComposedServiceLifecycle.ComposedService.ReadyResolved | src/core/ComposedService.ts:59-60 | wins exactly when the spawn was confirmed, with the same "Started service"/"Restarted service" log and start resolution; before the spawn it changes neither the log nor the start |
| ComposedServiceLifecycle.ComposedService.ReadyFailed | src/core/ComposedService.ts:53-58 | loses with "Error waiting to be ready: <text>" |
| ComposedServiceLifecycle.ComposedService.ProcEnded | src/core/ComposedService.ts:37-48 | completes a pending stop, logging "Stopped service"; loses an open race after the spawn with the fatal "Error starting service '<id>': Process exited without becoming ready"; leaves a race opened before the spawn open; after a win restarts only if no stop was requested |
| ComposedServiceLifecycle.ComposedService.Stop | src/core/ComposedService.ts:70-82 | idempotent; with no process or an ended one it resolves at once |
| Composite.StartSchedule | src/CompositeService.ts:53-68 | every service is started, each after all of its dependencies |
| Composite.ReverseValid | src/CompositeService.ts:99-105 | the reversed graph is a valid graph too |
| Composite.StopSchedule | src/CompositeService.ts:93-107 | every service is stopped; without graceful shutdown in configuration order |
| Composite.StopScheduleDependentsFirst | src/CompositeService.ts:99-106 | with graceful shutdown each service is stopped after all of its dependents |
| Composite.PrefixRespectsEdges | src/CompositeService.ts:58-64 | any prefix of a schedule keeps its order |
| Composite.ExitCode | src/CompositeService.ts:30-39 | 143 for SIGTERM, 130 for SIGINT and for ctrl+c on a raw-mode terminal; both above 128 |
| Composite.Description | src/CompositeService.ts:30-39 | each trigger is named by its own text: "SIGINT", "SIGTERM" or "ctrl+c" |
| Composite.CompositeService.constructor | src/CompositeService.ts:15-56 | not stopping, nothing started, "Starting composite service..." logged |
| Composite.CompositeService.StartNext | src/CompositeService.ts:58-68 | the next scheduled `start()`, or none once stopping |
| Composite.CompositeService.AllStarted | src/CompositeService.ts:53-55 | logs "Started composite service" |
| Composite.CompositeService.Stop | src/CompositeService.ts:84-97 | `stopping` set once; the first exit code is kept; exactly one CTRL_C event with Windows CTRL_C shutdown, before any stop |
| Composite.CompositeService.HandleFatalError | src/CompositeService.ts:70-75 | always logs "Fatal error: ..."; stops with code 1 unless already stopping |
| Composite.CompositeService.HandleShutdownSignal | src/CompositeService.ts:77-82 | ignored once stopping; otherwise logged and stops with the signal's exit code |
| Composite.CompositeService.StopNext | src/CompositeService.ts:99-107 | the next scheduled `stop()` |
| Composite.CompositeService.AllStopped | src/CompositeService.ts:93-96 | logs "Stopped composite service" and exits with the first trigger's code |
| Composite.CompositeService.StartCallsAfterDependencies | src/CompositeService.ts:58-64 | every `start()` call came after a `start()` of each dependency |
| Composite.CompositeService.StopCallsAfterDependents | src/CompositeService.ts:99-106 | with graceful shutdown every `stop()` call came after a `stop()` of each dependent |
| Composite.Launcher.constructor | src/startCompositeService.ts:4 | `started` is initially false |
| Composite.Launcher.StartCompositeService | src/startCompositeService.ts:9-15 | a second call throws "Already started a composite service in this process" without constructing; `started` is set only after construction succeeds, and never reset |
| CoreComposite.CompositeService.constructor | src/core/CompositeService.ts:18-63 | not stopping, nothing started, "Starting composite service..." logged |
| CoreComposite.CompositeService.StartNext | src/core/CompositeService.ts:65-72 | the next scheduled `start()`, or none once stopping |
| CoreComposite.CompositeService.AllStarted | src/core/CompositeService.ts:60-62 | logs "Started composite service" |
| CoreComposite.CompositeService.Die | src/core/CompositeService.ts:74-86 | the first call sets `stopping` and logs the message and "Stopping composite service..."; later calls do nothing |
| CoreComposite.CompositeService.HandleSignal | src/core/CompositeService.ts:35-39 | `die("Received shutdown signal 'SIGINT'")` or `'SIGTERM'` |
| CoreComposite.SignalMessage | src/core/CompositeService.ts:35-39 | the shutdown message names the signal received: `Received shutdown signal 'SIGINT'` or `'SIGTERM'`, one message per signal |
| CoreComposite.CompositeService.StopNext | src/core/CompositeService.ts:88-94 | the next scheduled `stop()`, dependents first |
| CoreComposite.CompositeService.AllStopped | src/core/CompositeService.ts:79-82 | logs "Stopped composite service" and exits with code 1 |
| CoreComposite.CompositeService.StartCallsAfterDependencies | src/core/CompositeService.ts:65-72 | every `start()` call came after a `start()` of each dependency |
| CoreComposite.CompositeService.StopCallsAfterDependents | src/core/CompositeService.ts:88-94 | every `stop()` call came after a `stop()` of each dependent, always |
| CoreComposite.MaxLength | src/core/CompositeService.ts:48-50 | bounds every id's length and is attained by some id |
| CoreComposite.RightPad | src/core/CompositeService.ts:103-109 | length `max(|s|, n)`, starts with `s`, padded only with spaces |
| CoreComposite.LabelsAlign | src/core/CompositeService.ts:48-56 | with the longest id's width, every label puts " \| " at the same column |
| CoreComposite.Launcher.constructor | src/core/startCompositeService.ts:13 | `started` is initially false |
| CoreComposite.Launcher.StartCompositeService | src/core/startCompositeService.ts:14-18 | a second call fails with "composite-service: Already started a composite service in this process"; `started` is set before construction, so a failed construction still blocks later calls |
| StackTraces.FindIndex | test/integration/helpers/redact.ts:20 | `findIndex`: -1 exactly when no line matches, else the first matching index |
| StackTraces.FindStackTrace | test/integration/helpers/redact.ts:19-29 | none exactly when no stack line; otherwise the first maximal run, up to the next non-stack line or the end |
| StackTraces.RunAfterStart | test/integration/helpers/redact.ts:20-28 | the run from the first stack line ends at the next non-stack line `findIndex` finds, or at the end |
| StackTraces.RunLength | test/integration/helpers/redact.ts:24-27 | the leading run is no longer than the list |
| StackTraces.SpliceCollapse | test/integration/helpers/redact.ts:8 | replacing the first run by the marker does not change the fully redacted result |
| StackTraces.CollapseAtFirstRun | test/integration/helpers/redact.ts:7-9 | clean lines then a maximal run collapse to the clean lines, the marker and the rest collapsed |
| StackTraces.CollapseLeadingRun | test/integration/helpers/redact.ts:24-27 | a leading maximal run collapses to one marker |
| StackTraces.CollapseSpliced | test/integration/helpers/redact.ts:8 | clean lines then the marker are kept as they are |
| StackTraces.SpliceShrinks | test/integration/helpers/redact.ts:7-9 | each splice removes at least one stack line, so the loop ends |
| StackTraces.CollapseClean | test/integration/helpers/redact.ts:7-9 | lines without stack lines pass through unchanged |
| StackTraces.CollapseNoStackLines | test/integration/helpers/redact.ts:4-11 | no stack line is left in the result |
| StackTraces.CollapseIdempotent | test/integration/helpers/redact.ts:4-11 | redacting twice is redacting once |
| StackTraces.CollapseKeepsOthers | test/integration/helpers/redact.ts:7-9 | all other lines are kept, unchanged and in order |
| StackTraces.RunOthers | test/integration/helpers/redact.ts:24-27 | a leading run contributes no other lines |
| StackTraces.RedactRuns | test/integration/helpers/redact.ts:4-11 | the splice loop on a copy yields each maximal run replaced by one marker |
| Redact.RedactStackTraces | test/integration/helpers/redact.ts:4-11 | each maximal run becomes one "<stack trace>", and no line starting with "error:     at " or "    at " remains |
| Redact.FirstOccurrence | test/integration/helpers/redact.ts:36 | the first index at which `cwd` occurs |
| Redact.OccursShifted | test/integration/helpers/redact.ts:36 | past the first character, occurrences in the line are those of its tail, one place later |
| Redact.ReplaceFirstClears | test/integration/helpers/redact.ts:36 | after replacing the first occurrence, none starts before the end of "<cwd>" |
| Redact.ReplaceAllSkip | test/integration/helpers/redact.ts:36 | the single-pass reference copies a prefix in which no occurrence starts |
| Redact.ReplaceAllClean | test/integration/helpers/redact.ts:35 | the reference leaves a line without `cwd` unchanged |
| Redact.ReplaceAllAtStart | test/integration/helpers/redact.ts:36 | an occurrence at the start becomes "<cwd>" and the scan resumes after it |
| Redact.ReplaceAllCopies | test/integration/helpers/redact.ts:36 | the reference copies a head in which no occurrence starts |
| Redact.ReplaceFirstKeeps | test/integration/helpers/redact.ts:36 | replacing the first occurrence by "<cwd>" does not change the single-pass result |
| Redact.RedactLine | test/integration/helpers/redact.ts:34-38 | the replace-first loop equals replacing every occurrence by "<cwd>" in one left-to-right pass; no occurrence of `cwd` remains, and a line without it is unchanged |
| Redact.RedactCwd | test/integration/helpers/redact.ts:31-40 | as many lines, each with every occurrence of `cwd` replaced by "<cwd>"; none contains `cwd`, and lines without it are unchanged |
| RedactTraces.RedactStackTraces | test/integration/helpers/redactStackTraces.ts:5-11 | each maximal run of "    at " lines becomes one "--- stack trace ---", and none remains |
| RedactTrace.RedactStackTrace | test/integration/helpers/redactStackTrace.ts:5-21 | unchanged input when no "    at " line; otherwise only the first maximal run is replaced, with the lines before and after kept |
| RedactTrace.RedactStackTraceAgrees | test/integration/helpers/redactStackTrace.ts:5-21 | redacting the first run and then all runs gives the same as redacting all runs |

## Left out

- `Entries.Assign` appends a new key at the end. JavaScript lists an integer-like key (such as
  `"2"`) among the integer-like keys, in ascending order, ahead of the others. The model assigns
  only `PATH`, `PATHEXT` and service ids taken in `Object.entries` order into an empty object, and
  there the two orders agree.
- Process spawning, streams and the operating system are not modelled. This covers
  `child_process.spawn`, merge-stream/split piping, `process.on` signal wiring, stdin raw mode,
  `console`, `process.exit` and generate-ctrl-c-event. Their outcomes arrive as method calls, and
  the model records what would be sent to them.
- Timers are events (`DelayElapsed`, `ForceKillTimerFired`, `GracePeriodElapsed`). A crash's
  `Date` is an opaque natural number.
- The `isResolved` microtask race in `src/Service.ts:150-158` and `src/core/Service.ts` is not
  modelled. `isServiceReady` is an input to `CrashCallback`.
- The foreign libraries are parameters of `SpawnEnv.SpawnProcess` and
  `CoreSpawnEnv.SpawnProcess`: npm-run-path, which, path-key, and `path.resolve`/`normalize`. The
  ts-interface-checker `validateType` call is not modelled, because its schema comes from
  generated code. Inputs are taken to have the declared types already.
- `src/core/ServiceProcess.ts:80-113` (its private `spawnProcess`) is not modelled. It repeats
  the core environment rewriting of `CoreSpawnEnv.SpawnProcess`.
- The constructors' output plumbing is left out: the `Config: %O` debug dump, serialize-javascript
  `printConfig`, and the merged output streams. Only the label alignment is modelled
  (`CoreComposite.LabelsAlign`).
- JavaScript numbers are integers here: non-integer, `NaN` or `Infinity` values in commands and
  env values are not modelled. `String(n)` of a negative integer is `"-"` followed by its digits.
- `ProcessSpawned.NumberOf`: `Number(s)` is modelled only for digit strings (the empty string
  gives 0). Signs, whitespace, exponents and hexadecimal forms count as `NaN`.
- `Composite.StartSchedule` and `Composite.StopSchedule` approximate completion by call order: a
  service's `start()`/`stop()` is issued after its dependencies' (or dependents') calls were
  issued. That they completed is not modelled. The order of the calls is the order in which the
  recursion reaches them.
- `ComposedServiceLifecycle.ComposedService.ProcSpawned`: when the spawn confirmation finds both
  `ready` resolved and the process ended, the race is modelled as won. In the JavaScript, the
  outcome depends on which promise settles first.
- `CoreComposite.MaxLength` of no ids is 0, while `Math.max()` of nothing is `-Infinity`. A
  validated configuration always has a service.
- `Redact.RedactCwd` requires the working directory to be non-empty, to contain no `<` or `>`,
  and not to occur in "<cwd>". The code only needs it not to reappear in its own replacement.
  Absolute paths meet this.
- `Text.ToUpper` upper-cases ASCII letters only, where `toUpperCase` follows Unicode. It is
  used on environment variable names, where the two agree for `PATH` and `PATHEXT`.
- `ServiceLifecycle.Service.HandleCrash` gives `onCrash` the crash list as a value at the time of
  the call. The code passes the live `crashes` array, so later changes to it are not visible to
  the model's callback, and aliasing is not captured.
- `SpawnEnv.SpawnProcess` requires a non-empty command. The validator of `src/` guarantees it,
  because it rejects an empty command.
- `CoreSpawnEnv.SpawnProcess` requires a non-empty command, which the validators of `src/core/`
  do not guarantee: they accept `command: ""` and `command: []`, both normalised to `[]`. The code
  then passes `undefined` as the binary to `spawn`; that call is not modelled.
- Readiness helpers, the HTTP gateway, `src/core/InternalProcess.ts`, and type-only and
  documentation files are not part of this model.
