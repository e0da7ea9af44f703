# abolish, modelled in Dafny

abolish is a JavaScript/TypeScript validation library. A caller describes each field of an object with a rule, for example `"required|typeof:string|min:3"`, an array of such strings and objects, or an object such as `{ typeof: "string", min: 3 }`. abolish then validates the object against these rules.

There are two ways to run a schema:

- **Interpreted.** `Abolish.validate`/`validateAsync`/`check`/`attempt`/`test` read the rules on every call.
- **Compiled.** `Abolish.compileObject`/`compile` resolve every validator ahead of time into an `AbolishCompiled` schema. That schema replays the work on each call through `validateObject`, `validateObjectAsync`, `validateVariable` and `validate`, and it can be tuned with `setValidatorOption` and duplicated with `copy`.

A run stops at the first failing validator. It reports either an internal error (a validator threw) or a validator error with a templated message. On success it returns the projected output record.

This project models, in Dafny:

- the rule-string parser (`StringToRules`);
- the rule normalisers (`Rule`, `Schema`);
- the rule builders (`$inline`, `$skip`, `skipIfUndefined`, …);
- the path helpers (`abolish_Get`/`Set`/`Pick`/`Omit`, `hasDotNotation`, `abolish_StartCase`);
- the `ObjectModifier` handle, the `AbolishError` signal and the type predicates;
- the built-in validators whose behaviour is plain logic;
- both registries;
- the interpreted engine;
- the schema compiler and the compiled engine.

Code that changes state in place is written as classes and methods. Each method is proved equal to a specification function, and the properties are proved as lemmas about those functions. The classes are:

- `Abolish`, whose registry and start-case flag change;
- `AbolishCompiled`, whose fields are assigned and toggled;
- `ObjectModifier` and `AbolishError`;
- the global registry;
- the working copy of the record under validation, `Js.JsObject`.

The validator loops, `Rule`, `Schema`, `StringToRules`, `abolish_Pick`/`Omit`, `copy` and the compiler passes are `while`/`for` loops with invariants. The JavaScript values they work on are a datatype, `Js.Value`, where objects are ordered property lists.

Things the program leaves to its runtime become parameters of `Host.Env`:

- calling a user-supplied function (`$skip`, function options, caller-registered validators);
- lodash's `startCase`;
- `Number()` on strings that are not plain digits;
- the call-stack budget that turns unbounded nested checks into a `RangeError`;
- the `stack` text of a thrown exception, which internal errors report as `data`;
- the parameter count (`length`) of a caller's function.

Where the code and the tests or comments around it disagree, the model follows the code:

- `exact` ships without an error template. A failing `exact` in the interpreted engine therefore throws when the message is built, because `undefined.replace` is a TypeError; it does not report `false`.
- `$strict` is not a field super key. It is validated as an ordinary field, and `allowedFields` is never assigned by the compiler.
- Compiled validators are held in an array. Inside the compiled engine they are keyed `"0"`, `"1"`, …, so `setValidatorOption` never finds a validator by its name, and a sync internal error reports the index as its `validator`.
- The compiled path replaces `:param`/`:option` everywhere in a template. The interpreted path replaces only the first occurrence. The two paths also use different "string-able" option sets: string/number/array when sync, string/number when async, and adding booleans when compiled.

## Model

| member | source | states |
|---|---|---|
| RuleStrings.StringToRules | src/StringToRules.ts:38-84 | the loop over the `|`-separated tokens builds exactly the record of the token classifier applied left to right |
| RuleStrings.ParseTokensDistinct | src/StringToRules.ts:45-81 | the parsed rule never holds a key twice |
| RuleStrings.EmptyTokenDropped | src/StringToRules.ts:48-79 | an empty token matches none of the three patterns and contributes nothing |
| RuleStrings.TrailingSeparator | src/StringToRules.ts:39-81 | a trailing `|` leaves the parsed rule unchanged |
| RuleStrings.ParseTokensKeys | src/StringToRules.ts:45-81 | a key is in the result iff some token that matches a pattern produced it |
| RuleStrings.LastTokenWins | src/StringToRules.ts:55-78 | when a key is repeated, the value of the last token that sets it wins |
| RuleStrings.BareToken | src/StringToRules.ts:64-78 | a token without `:` is a bare key: `!k` gives `k: false`, anything else the whole token with `true` |
| RuleStrings.KeyValueToken | src/StringToRules.ts:56-63 | `key:value` gives the key with the value converted by `Number` unless `isNaN` holds |
| RuleStrings.QuotedTokenTruncated | src/StringToRules.ts:48-55 | a quoted value with no inner `:` is cut to the empty string (`k:"abc"` gives `k: ""`), since it is truncated to (pieces − 1) characters |
| Functions.Rule | src/functions.ts:15-38 | the merge loop equals `RuleOf`: a non-array is wrapped, strings are parsed and entries are spread left to right |
| Functions.RuleTyped | src/functions.ts:48-50 | gives the same record as `Rule` on the same input |
| Functions.Schema | src/functions.ts:57-89 | the per-key loop equals `SchemaOf`: strings are parsed, arrays merged with `Rule`, other values and `$include` kept |
| Functions.SchemaTyped | src/functions.ts:96-98 | gives the same record as `Schema` on the same input |
| Functions.MergeLastWins | src/functions.ts:32-35 | a key of the merged rule holds the value of the last entry that has it, and it is present iff some entry has it |
| Functions.SchemaFromKeys | src/functions.ts:69-86 | the schema has exactly the given keys, in order |
| Functions.SchemaFromGet | src/functions.ts:69-86 | each key holds its normalised rule and `$include` is copied unchanged |
| Functions.SchemaKeepsKeys | src/functions.ts:69-86 | for a proper object: the same keys, each normalised, with `$include` passed through |
| Functions.SingleBareKey | src/functions.ts:33 | a single bare key parses to `{key: true}` and `!key` to `{key: false}` |
| Functions.RuleExample | src/functions.ts:5-10 | `Rule(['required', {min:10, max:20}, '!exact'])` is `{required:true, min:10, max:20, exact:false}` |
| Helpers.Inline | src/helpers.ts:8-10 | `{$inline: fn, $error: e}` when `e` is truthy, else `{$inline: fn}` |
| Helpers.InlineAsync | src/helpers.ts:15-17 | the same with the key `$inlineAsync` |
| Helpers.SkipRule | src/helpers.ts:23-25 | an object whose only key is `$skip`, holding the function |
| Helpers.SkipIfUndefined | src/helpers.ts:31-34 | `[{$skip: v => v === undefined}]` followed by the rule's entries, a non-array wrapped first |
| Helpers.SkipIfNotDefined | src/helpers.ts:40-48 | the same with a test for undefined or null; `optional` is this function |
| Helpers.SkipIfUndefinedRule | src/helpers.ts:31-34 | normalising the result sets `$skip` to the undefined test unless the rule sets it, and keeps every other option of the rule |
| Inbuilt.AbolishGet | src/inbuilt.fn.ts:91-97 | lodash `get` only when no flag is given and the path has a dot, and then a path that already is a key is read as that key; any explicit flag, even `true`, reads `obj[path]` |
| Inbuilt.LiteralKeyFirst | src/inbuilt.fn.ts:92-93 | lodash `get` reads a string path that is already a key of the object (dots and all), or has no dot, as that one key |
| Inbuilt.DottedPathWalked | src/inbuilt.fn.ts:92-93 | a dotted path that is not a key is walked segment by segment |
| Inbuilt.ArrayPathWalked | src/ObjectModifier.ts:26-28 | an array path is walked one item per segment, and an empty one finds undefined |
| Inbuilt.AbolishSet | src/inbuilt.fn.ts:75-82 | the same condition; the object is written in place and returned |
| Inbuilt.HasDotNotationSpec | src/inbuilt.fn.ts:103-105 | `hasDotNotation(p)` holds iff `p` contains `.` |
| Inbuilt.Pick | src/inbuilt.fn.ts:33-51 | the loop builds exactly `PickOf`, with dotted lookup decided by the flag or, without one, by any key having a dot |
| Inbuilt.PickFromSpec | src/inbuilt.fn.ts:33-51 | the picked object has exactly the listed keys, absent ones as undefined; a dotted key is read by path and stored under its literal name |
| Inbuilt.PickFromKeys | src/inbuilt.fn.ts:33-51 | with distinct keys, the picked object lists them in the given order |
| Inbuilt.Omit | src/inbuilt.fn.ts:53-65 | the loop builds exactly `OmitOf` |
| Inbuilt.OmitSpec | src/inbuilt.fn.ts:53-65 | a key survives iff it is in the object and not listed, with its value unchanged |
| Inbuilt.UpperFirst | src/inbuilt.fn.ts:9-11 | the first character upper-cased and the rest kept; an empty string throws |
| Inbuilt.StartCase | src/inbuilt.fn.ts:19-25 | the identity when the instance turned start-casing off, lodash `startCase` otherwise |
| Inbuilt.PathSetGet | src/inbuilt.fn.ts:75-82 | after a path write, reading that path gives the written value |
| Inbuilt.PathSetOthers | src/inbuilt.fn.ts:79-80 | a flat write leaves every other key unchanged |
| Inbuilt.PathUnsetHas | src/ObjectModifier.ts:67-69 | after unsetting a path it is no longer present |
| Modifier.ObjectModifier.constructor | src/ObjectModifier.ts:13-17 | holds the record by reference, not a copy, and its own path |
| Modifier.ObjectModifier.Get | src/ObjectModifier.ts:26-28 | the value lodash `get` finds for a path of any type (a literal key, a dotted string, an array of segments), or the default when it finds undefined |
| Modifier.ObjectModifier.Set | src/ObjectModifier.ts:47-49 | writes through the shared record and returns it |
| Modifier.ObjectModifier.SetThis | src/ObjectModifier.ts:57-59 | exactly `set(path, v)`; afterwards `get(path)` is `v` and, for a flat path, every other key is unchanged |
| Modifier.ObjectModifier.Unset | src/ObjectModifier.ts:67-69 | removes the path; afterwards `has(path)` is false |
| Modifier.ObjectModifier.UnsetThis | src/ObjectModifier.ts:76-78 | exactly `unset(path)`; afterwards `has(path)` is false |
| AbolishErrors.StoredData | src/AbolishError.ts:13-17 | a falsy data argument becomes `{}`, a truthy one is kept |
| AbolishErrors.AbolishError.constructor | src/AbolishError.ts:10-20 | stores the message and the stored data; the code starts as "default" |
| AbolishErrors.AbolishError.SetCode | validators/object/objectValues.ts:21 | replaces the code and returns the error itself; message and data are kept |
| AbolishErrors.AbolishError.SetData | src/AbolishError.ts:22-25 | replaces the data and returns the argument; message and code are kept |
| TypesChecker.IsType | src/types-checker.ts:22-32 | `"array"` alone means an array; another single name compares `typeof`; a list without `"array"` holds iff `typeof` is listed; a list with it also accepts arrays |
| TypesChecker.AssertType | src/types-checker.ts:8-15 | returns true iff `isType` holds, else a TypeError naming `name`, the types and the actual `typeof` |
| TypesChecker.NoneFailsSpec | src/types-checker.ts:45-54 | the `some` loop finds no failure iff every element is of one of the types |
| TypesChecker.ArrayIsTypeOfSpec | src/types-checker.ts:37-55 | an empty array passes; otherwise it passes iff every element passes `isType` with the single name wrapped in a list |
| TypesChecker.AsListSame | src/types-checker.ts:38 | wrapping a single type name in a list accepts the same values |
| JsStr.ReplaceFirstAt | src/Abolish.ts:534-537 | `replace` with a string pattern rewrites exactly the first occurrence and keeps everything after it |
| JsStr.ReplaceAllAt | src/Abolish.ts:1048 | a global `replace` rewrites the first occurrence and goes on after it |
| JsStr.SecondOccurrence | src/Abolish.ts:1048 | with two placeholders, `replace` fills the first and keeps the second, a global `replace` fills both |
| JsStr.TrimSpec | src/GlobalValidators.ts:6-8 | `trim` keeps a contiguous slice and drops only white space before and after it, and the slice neither starts nor ends with white space |
| JsStr.TrimSurrounded | src/GlobalValidators.ts:6-8 | white space added on either side of a string does not change its trimmed form |
| JsStr.Utf16Length | src/GlobalValidators.ts:113 | a string's `length` lies between its character count and twice it, and equals the character count when no character lies outside the Basic Multilingual Plane |
| GlobalValidators.ToNumber | src/GlobalValidators.ts:77 | `Number()`: undefined is NaN, null is 0, numbers are kept, digit strings are their decimal value |
| GlobalValidators.Must | src/GlobalValidators.ts:15-28 | fails iff the option is truthy and the value is undefined, null, `""` or `[]` |
| GlobalValidators.TypeOfCheck | src/GlobalValidators.ts:35-46 | `false` passes; a non-string option throws a TypeError; otherwise the lower-cased option `"array"` checks for an array and anything else compares `typeof` |
| GlobalValidators.Exact | src/GlobalValidators.ts:52-54 | passes iff the value equals the option, structural equality standing for `===` |
| GlobalValidators.TrimmedLength | src/GlobalValidators.ts:6-8 | an array's length, or the length of the trimmed string in UTF-16 code units: at least its character count and at most twice it |
| GlobalValidators.MinLength | src/GlobalValidators.ts:109-114 | passes iff the value is a string or an array whose trimmed length is at least the numeric option |
| GlobalValidators.MaxLength | src/GlobalValidators.ts:121-126 | passes iff the value is a string or an array whose trimmed length is at most the numeric option |
| GlobalValidators.SelectMin | src/GlobalValidators.ts:133-135 | answers exactly as `minLength` |
| GlobalValidators.SelectMax | src/GlobalValidators.ts:142-144 | answers exactly as `maxLength` |
| GlobalValidators.Min | src/GlobalValidators.ts:61-78 | non-numeric strings and arrays delegate to `minLength`, other non-numbers fail, numbers compare with `>=` |
| GlobalValidators.Max | src/GlobalValidators.ts:85-102 | non-numeric strings and arrays delegate to `maxLength`, other non-numbers fail, numbers compare with `<=` |
| GlobalValidators.LengthWindow | src/GlobalValidators.ts:109-126 | `minLength:n` and `maxLength:n` both pass iff the trimmed length is `n` |
| GlobalValidators.SurroundingSpaceIgnored | src/GlobalValidators.ts:110-126 | white space on either side of a string does not count towards its length |
| GlobalValidators.AstralCountsTwice | src/GlobalValidators.ts:110-126 | one character outside the Basic Multilingual Plane passes `minLength:2` and fails `maxLength:1` |
| ArrayValidators.OptionTypes | validators/array/array.ts:16-17 | a string option names one type, an array option lists several |
| ArrayValidators.ArrayCheck | validators/array/array.ts:7-23 | `false` passes; a non-array fails; a string or list option passes iff every element is of those types, else a custom error naming them; any other option passes |
| ArrayValidators.LengthOf | validators/array/arraySize.ts:9 | reading `.length` throws on undefined and null; it gives an array's length, a function's parameter count, undefined for booleans and numbers, and a string's length in UTF-16 code units, which is its character count when every character is in the Basic Multilingual Plane |
| ArrayValidators.ArraySize | validators/array/arraySize.ts:6-14 | a non-number, non-array size throws; a number passes iff it equals the length (for a function value, its parameter count); an array passes iff it lists the length; otherwise an error with both |
| ArrayValidators.InArrayCandidates | validators/array/inArray.ts:7-27 | an array option is the list; an option that is neither an array nor a function throws a TypeError; a function whose result is neither a boolean nor an array stays the list, read as its parameter count of undefined entries |
| ArrayValidators.InArrayFunctionArity | validators/array/inArray.ts:15-29 | for such a function option, the value passes iff it is undefined and the function declares a parameter; otherwise the prebuilt error |
| ArrayValidators.InArray | validators/array/inArray.ts:6-30 | the search loop equals the spec; with an array option it passes iff the value is listed, else the prebuilt error |
| ArrayValidators.NotInArrayCandidates | validators/array/notInArray.ts:8-25 | an array option is the list; an option that is neither an array nor a function throws a TypeError |
| ArrayValidators.NotInArray | validators/array/notInArray.ts:7-34 | the search loop equals the spec; with an array option it fails iff the value is listed |
| ArrayValidators.ArrayValues | validators/array/arrayValues.ts:8-31 | the element loop gives the spec's verdict and leaves the record the spec's write produces |
| ArrayValidators.ElementsPassedSpec | validators/array/arrayValues.ts:19-28 | when all elements pass, the collected array has one validated element per element, in order |
| ArrayValidators.ElementFailedSpec | validators/array/arrayValues.ts:19-25 | a failure carries the error of the first failing element; every earlier element passed |
| ArrayValidators.ArrayValuesWrites | validators/array/arrayValues.ts:19-30 | when every element passes, `setThis` receives an array of the same length and the result is undefined |
| ArrayValidators.AllPassNoFailure | validators/array/arrayValues.ts:19-28 | if every element's check passes, the loop ends without a failure |
| ObjectValidators.WriteOwn | validators/object/objectValues.ts:22 | `obj[key] = x` replaces that key's value and keeps every key and every other value |
| ObjectValidators.EntriesFrom | validators/object/objectValues.ts:19-23 | the per-key loop keeps the object's shape and counts the keys written back |
| ObjectValidators.ObjectValuesSpec | validators/object/objectValues.ts:9-24 | for a proper value and rule the verdict is never a plain `false` |
| ObjectValidators.ObjectValues | validators/object/objectValues.ts:9-24 | the loop gives the spec's verdict and writes the spec's object back to where the value came from |
| ObjectValidators.WriteTwice | validators/object/objectValues.ts:22 | a second write-back to the same place replaces the first |
| ObjectValidators.EntriesPassed | validators/object/objectValues.ts:19-23 | when every value passes, each key keeps its place and holds its validated value |
| ObjectValidators.EntriesFailed | validators/object/objectValues.ts:19-21 | a failure names the first failing key and carries that key's error; every earlier key passed and was written |
| ObjectValidators.EarlierWritesSurvive | validators/object/objectValues.ts:21-23 | on a failure the writes of earlier keys stay and the error has code `key|<key>` |
| ObjectValidators.OwnValues | validators/object/objectValuesType.ts:11 | `Object.values` throws on undefined/null and otherwise lists the own values in order |
| ObjectValidators.ObjectValuesType | validators/object/objectValuesType.ts:7-12 | a non-object throws; for valid types it passes iff every own value is of those types |
| ObjectValidators.ObjectValuesTypeEmpty | validators/object/objectValuesType.ts:11 | an object with no values passes |
| StringValidators.BooleanSpec | validators/string/boolean.ts:12-36 | booleans pass unchanged; `"true"`/`"false"` (any case) and 1/0 pass and store the boolean; other types fail; other strings and numbers give undefined |
| StringValidators.Boolean | validators/string/boolean.ts:12-36 | the branches give the spec's verdict and write only through `setThis` |
| StringValidators.BooleanIdempotent | validators/string/boolean.ts:13-14 | a stored boolean validated again passes and writes nothing |
| StringValidators.BooleanStored | validators/string/boolean.ts:19-31 | after a coercion the field reads back as the stored boolean |
| UtilsValidators.Same | validators/utils/same.ts:6-8 | passes iff the value equals what lodash `get` finds at the option, structural equality standing for `===` |
| UtilsValidators.SameFlat | validators/utils/same.ts:7 | for an option without dots, it compares with that top-level field |
| UtilsValidators.SameLiteralKey | validators/utils/same.ts:7 | an option that is already a key of the record compares with that key, even when it holds a dot |
| UtilsValidators.SameArrayPath | validators/utils/same.ts:7 | an array option compares with the field its segments lead to, and an empty one with undefined |
| UtilsValidators.SameUsesModifier | validators/utils/same.ts:7 | for an option of any type, asks exactly what `modifier.get(option)` answers |
| UtilsValidators.SameSymmetric | validators/utils/same.ts:6-8 | two fields holding the same value pass `same` in either direction |
| Registry.WithDefaultError | src/Abolish.ts:160-161 | a validator without a template gets `:param failed {name} validation.`; one with a template is unchanged |
| Registry.InitialGlobals | src/GlobalValidators.ts:10-146 | nine synchronous built-ins keyed by their names; `exact` has no template |
| Registry.Shipped | validators/array/notInArray.ts:4-6 | the nine synchronous validators of the array, object, string and utils folders, none async; each carries the template its file declares (`notInArray` ":param is not allowed", `objectValuesType` the object-values text), and only `arraySize` and `inArray` have none |
| Registry.ShippedNamesDistinct | src/ValidatorHelpers.ts:23-40 | no two shipped validators share a name |
| Registry.ShippedRegistered | src/ValidatorHelpers.ts:23-40 | registering them never throws, keeps every earlier name, and files each under its name with its declared template, or the default one when it declares none |
| Registry.Resolve | src/Abolish.ts:392-405 | the instance's validator when it has one, else the global one, else none |
| Registry.PlainEntry | src/Abolish.ts:158-164 | a plain object without a `validator` function is filed under `String(name)`, keeps a truthy `error` or gets the default template, and is async iff its `isAsync` is truthy |
| Registry.Add | src/Abolish.ts:104-170 | a definition is registered, templated, under its name and every other name is kept; any other non-array object is filed as `PlainEntry`, and the global variant then throws from `defineProperty` with the entry already stored; `null` throws the TypeError of reading `error`, any other non-object the "not an object" error and registers nothing |
| Registry.AddAllFromKeeps | src/Abolish.ts:178-192 | registering a list keeps every earlier name; a list of definitions keeps every template and never fails |
| Registry.AddAllFromLast | src/Abolish.ts:183-186 | a name given in the list ends up registered under that name; a name not given keeps its earlier entry, or stays absent |
| Registry.AddAllFromDistinct | src/Abolish.ts:183-186 | a definition whose name the list does not repeat ends up registered exactly as given, templated |
| Registry.RejectsNonLists | src/Abolish.ts:183-189 | a value that is neither an array nor an object throws and registers nothing |
| Registry.FirstValueDecides | src/Abolish.ts:179-186 | for an array or object of plain values, the first value decides: `null` and non-objects stop registration with nothing stored; a plain object is filed, after which the global variant stops with the `defineProperty` TypeError and the instance variant goes on with the next value |
| Registry.PlainEntryThrows | src/Abolish.ts:453-458 | running a name filed from a plain object always throws "validator.validator is not a function" and leaves the record alone |
| Registry.RunFrame | src/Abolish.ts:453-458 | read-only validators leave the record unchanged; `boolean` writes nothing unless it passes and, on a flat path, changes no other key |
| Registry.Invoke | src/Abolish.ts:453-458 | running a validator through a modifier gives the spec's verdict and leaves the spec's record |
| Registry.GlobalRegistry.constructor | src/GlobalValidators.ts:10-146 | starts with the nine built-ins |
| Registry.GlobalRegistry.AddGlobalValidator | src/Abolish.ts:104-121 | the registry and the exception are `Add`'s, so an entry stored before the throw stays |
| Registry.GlobalRegistry.AddGlobalValidators | src/Abolish.ts:127-141 | earlier items stay registered when a later one is refused |
| Interpreter.Without | src/Abolish.ts:298 | keeps exactly the keys not listed, never more |
| Interpreter.WildcardRules | src/Abolish.ts:268-278 | no `*` and no `$` means no wildcard rules |
| Interpreter.IncludeKeys | src/Abolish.ts:288-293 | no `$include` gives `[]`; a non-array throws "$include has to be an array!"; an array gives one key per item |
| Interpreter.FieldKeys | src/Abolish.ts:295-298 | exactly the rule keys other than `*`, `$` and `$include` |
| Interpreter.Normalize | src/Abolish.ts:302-312 | strings are parsed, arrays merged with `Rule`, objects kept; undefined and null throw |
| Interpreter.SkipOf | src/Abolish.ts:317-331 | no `$skip` is false; a boolean is itself; a function is called with the value and the record; anything else throws |
| Interpreter.NameOf | src/Abolish.ts:343-351 | `$name` must be a string, else it throws naming the field |
| Interpreter.ErrorOf | src/Abolish.ts:356-367 | `$error` must be a non-empty string or a function, else it throws |
| Interpreter.ErrorsOf | src/Abolish.ts:369-378 | `$errors` must be an object, else it throws |
| Interpreter.SettingsOf | src/Abolish.ts:343-378 | succeeds iff the three checks succeed, and then records their values |
| Interpreter.InternalError | src/Abolish.ts:464-474 | a thrown exception becomes `{code:"default", type:"internal", key, validator, message, data}`, with the exception's message and its runtime stack as `data` |
| Interpreter.Override | src/Abolish.ts:491-516 | a non-function override is the message itself |
| Interpreter.FailureMessage | src/Abolish.ts:477-554 | a validator error with the field, the validator name, the error's code and data (or "default"/null for `false`) |
| Interpreter.ValidatorsFrom | src/Abolish.ts:388-556 | a stop is a sync validator error with an empty output; going on keeps the keys; async mode only queues jobs and never writes |
| Interpreter.FieldStep | src/Abolish.ts:301-557 | output keys only shrink, and only for a field that can skip; a stop carries an error and `{}` |
| Interpreter.FieldsFrom | src/Abolish.ts:301-558 | the same over all remaining fields |
| Interpreter.Plan | src/Abolish.ts:258-566 | on success the include keys are `$include`'s, the output keys come from the rule keys, and async mode leaves the record unchanged |
| Interpreter.Validate | src/Abolish.ts:249-572 | an error comes with an empty output; success gives an object |
| Interpreter.Check | src/Abolish.ts:739-754 | an error comes with an undefined value |
| Interpreter.JobsFrom | src/Abolish.ts:614-731 | the queued jobs never reject; an error comes with an empty output |
| Interpreter.ValidateAsync | src/Abolish.ts:590-600 | throws synchronously exactly when the plan throws |
| Interpreter.SkippedFieldRunsNothing | src/Abolish.ts:337-338 | a field whose `$skip` resolves to true runs none of its validators and is dropped from the output keys |
| Interpreter.UnknownValidatorThrows | src/Abolish.ts:392-399 | a name found in neither registry throws "Validator: {name} does not exists but defined in rules" |
| Interpreter.AsyncValidatorRefused | src/Abolish.ts:406-410 | the sync engine throws "Validator: {name} is async, use async method instead." for an async validator |
| Interpreter.MergedRulesSpec | src/Abolish.ts:383 | a key of the merged rules holds the field's option unless it is a super rule, else the wildcard's; it is present iff one of them supplies it |
| Interpreter.Fill | src/Abolish.ts:534-540 | a template without `:param` and `:option`, or without `:param` when the option is not string-able, is kept as it is |
| Interpreter.FillKeepsSecondParam | src/Abolish.ts:534-537 | only the first `:param` is filled: in `a:param b:param c` the second one reaches the message |
| Interpreter.ThrowBecomesInternalError | src/Abolish.ts:448-475 | a throwing sync validator stops the run with an internal error naming it, carrying the exception's message and stack |
| Interpreter.ValidatorsStopEarly | src/Abolish.ts:388-556 | once a field's validators stop or throw, validators after that point do not matter |
| Interpreter.FieldsStopEarly | src/Abolish.ts:301-558 | once a field stops the run or throws, fields after it do not matter |
| Interpreter.MessagePrecedence | src/Abolish.ts:481-540 | `$errors[name]` beats `$error`, which beats the `AbolishError` message, which beats the template; then `:param` and `:option` are filled |
| Interpreter.NestedCheckBottom | src/Abolish.ts:457 | a nested check with no call stack left throws the stack-overflow RangeError |
| Interpreter.OutputKeys | src/Abolish.ts:568-571 | output keys are rule keys or include keys; without skips, each of those is present and, when none repeats, in that order |
| Interpreter.EmptyFieldPasses | src/Abolish.ts:388 | a field with an empty rule and no wildcard changes nothing |
| Interpreter.CheckRulesShape | src/Abolish.ts:744-751 | `check` validates the single field "variable", which is also included, with no wildcard |
| Interpreter.CheckEmptyRule | src/Abolish.ts:739-754 | `check` with an empty rule hands the value back unchanged |
| Interpreter.CheckEmptyPlan | src/Abolish.ts:744-751 | with an empty rule, `check`'s plan keeps the record and lists "variable" as both field and include key, with no jobs |
| Interpreter.PickVariable | src/Abolish.ts:569-571 | picking "variable" twice (field and include) gives the single property once |
| Interpreter.ValidateEmptyRule | src/Abolish.ts:249-572 | validating `{variable: x}` under an empty rule succeeds with `{variable: x}` |
| Interpreter.CheckOfSuccess | src/Abolish.ts:744-753 | on success `check` returns the output's "variable" |
| AbolishInstance.Abolish.constructor | src/Abolish.ts:82-84 | an empty instance registry with start-casing on |
| AbolishInstance.Abolish.UseStartCaseInErrors | src/Abolish.ts:147-150 | sets the flag, keeps the registry and returns the instance |
| AbolishInstance.Abolish.AddValidator | src/Abolish.ts:158-170 | the instance registry and the exception are `Add`'s |
| AbolishInstance.Abolish.AddValidators | src/Abolish.ts:178-192 | the instance registry becomes `AddAll`'s result |
| AbolishInstance.Abolish.Prepare | src/Abolish.ts:258-566 | the field loop over the working copy gives exactly the plan |
| AbolishInstance.Abolish.Wildcard | src/Abolish.ts:268-278 | gives `WildcardRules` |
| AbolishInstance.Abolish.Included | src/Abolish.ts:288-293 | gives `IncludeKeys` |
| AbolishInstance.Abolish.NormalizeRule | src/Abolish.ts:302-312 | gives `Normalize` |
| AbolishInstance.Abolish.SkipField | src/Abolish.ts:317-331 | gives `SkipOf` |
| AbolishInstance.Abolish.RunField | src/Abolish.ts:301-557 | one field on the working copy gives exactly `FieldStep`, the copy holding its record |
| AbolishInstance.Abolish.RunRule | src/Abolish.ts:388-556 | the validator loop with a modifier on the working copy gives exactly `ValidatorsFrom` |
| AbolishInstance.Abolish.Validate | src/Abolish.ts:249-572 | gives exactly the interpreted `validate` |
| AbolishInstance.Abolish.ValidateCompiled | src/Abolish.ts:254-256 | a compiled schema validates through `validateObject` |
| AbolishInstance.Abolish.ValidateAsync | src/Abolish.ts:590-731 | gives exactly the interpreted `validateAsync` |
| AbolishInstance.Abolish.RunJobs | src/Abolish.ts:614-731 | the job loop gives exactly `JobsFrom` |
| AbolishInstance.Abolish.ValidateAsyncCompiled | src/Abolish.ts:594-596 | a compiled schema validates through `validateObjectAsync` |
| AbolishInstance.Abolish.Check | src/Abolish.ts:739-754 | gives exactly the interpreted `check` |
| AbolishInstance.Abolish.CheckCompiled | src/Abolish.ts:740-742 | a compiled schema validates the variable through `validateVariable` as written: the result is `RunVariable`, and a throw leaves the schema in object mode with nothing else changed |
| AbolishInstance.Abolish.Attempt | src/Abolish.ts:804-808 | throws `AttemptError` iff `check` reports an error; otherwise returns the bare value; `check`'s own throws pass through |
| AbolishInstance.Abolish.Test | src/Abolish.ts:851-854 | true iff `check` reports no error |
| AbolishInstance.AttemptMessage | src/Abolish.ts:54-58 | an `AttemptError` carries the validation error's message |
| SchemaCompiler.Prescan | src/Abolish.ts:904-920 | with no later `*`/`$` entry the wildcard is unchanged; with no later `$include` the include list is unchanged |
| SchemaCompiler.ParsedRules | src/Abolish.ts:934-943 | the field's rules parsed and, under a truthy wildcard, spread over it; undefined/null without a wildcard throw |
| SchemaCompiler.SuperStep | src/Abolish.ts:951-970 | `$name` must be a string, `$skip` a boolean or a function, `$error` a string or a function, `$errors` an object; other keys are ignored |
| SchemaCompiler.NameFor | src/Abolish.ts:973-975 | a missing or empty `$name` becomes the start-cased field when the instance asks for it |
| SchemaCompiler.TemplateFor | src/Abolish.ts:1021-1044 | a string `$errors[name]` beats a string `$error`, which beats the validator's template |
| SchemaCompiler.ErrorFnFor | src/Abolish.ts:1029-1044 | a function `$errors[name]` beats a function `$error` |
| SchemaCompiler.CompileValidator | src/Abolish.ts:985-1074 | an unknown name throws "Validator n not found"; otherwise the compiled validator carries the name, the captured option, the templated definition and the async flag |
| SchemaCompiler.CompiledTemplateFillsEveryParam | src/Abolish.ts:1047-1066 | a compiled template has every `:param` replaced by the name, unlike the interpreted engine |
| SchemaCompiler.FieldStep | src/Abolish.ts:925-1078 | a compiled field appends exactly one entry for that field; a failure appends nothing |
| SchemaCompiler.IncludedNames | src/Abolish.ts:1087-1089 | one name per `$include` entry |
| SchemaCompiler.PrescanSchema | src/Abolish.ts:901-920 | the first-pass loop equals `Prescan` |
| SchemaCompiler.ParseRules | src/Abolish.ts:934-943 | gives `ParsedRules` |
| SchemaCompiler.ReadSupers | src/Abolish.ts:945-971 | the super-rule loop equals `SupersFrom` |
| SchemaCompiler.CompileValidatorInto | src/Abolish.ts:988-1074 | gives `CompileValidator`, writing the default template into the registry the definition came from |
| SchemaCompiler.CompileValidators | src/Abolish.ts:985-1075 | the validator loop equals `ValidatorsFrom` |
| SchemaCompiler.CompileField | src/Abolish.ts:925-1078 | one field compiled equals `FieldStep` |
| SchemaCompiler.PushNew | src/Abolish.ts:1083-1089 | appends the entries not yet present |
| SchemaCompiler.CompileObject | src/Abolish.ts:889-1097 | a fresh compiled schema equal to `CompileSchema`, whose input is the normalised schema and which keeps the instance; a throw passes through |
| SchemaCompiler.Compile | src/Abolish.ts:1104-1124 | the rule compiled as field "variable", marked as a variable schema, with the normalised rule as input |
| SchemaCompiler.ValidatorsFollowRules | src/Abolish.ts:985-1075 | on success, the compiled validators are the field's rule keys without super rules, in rule order |
| SchemaCompiler.ValidatorsSucceed | src/Abolish.ts:988-991 | when every named validator is registered, the validator pass does not fail |
| SchemaCompiler.UnknownValidatorFails | src/Abolish.ts:988-991 | an unknown validator stops compilation with "Validator n not found" before any template is written for it |
| SchemaCompiler.RefinesTransitive | src/Abolish.ts:1015-1016 | "only fills templates" composes across steps |
| SchemaCompiler.CompileValidatorRefines | src/Abolish.ts:1015-1016 | compiling one validator neither adds nor removes definitions; it only templates the one it used |
| SchemaCompiler.ValidatorsFromRefines | src/Abolish.ts:985-1075 | the same over a field's validators |
| SchemaCompiler.FieldsFromRefines | src/Abolish.ts:925-1078 | the same over the remaining fields |
| SchemaCompiler.CompilingOnlyFillsTemplates | src/Abolish.ts:889-1097 | a compilation changes the registries only by templating definitions that had none |
| SchemaCompiler.ValidatorsFromAsync | src/Abolish.ts:993 | a field's pass marks the schema async iff it was async already or a compiled validator is async |
| SchemaCompiler.FieldsFromAsync | src/Abolish.ts:925-1078 | the same over the remaining fields |
| SchemaCompiler.CompiledAsyncIff | src/Abolish.ts:993 | a compiled schema is async exactly when one of its validators is |
| SchemaCompiler.FieldsFromKeys | src/Abolish.ts:925-1077 | the compiled entries are exactly the schema keys without `*`, `$` and `$include`, in order |
| SchemaCompiler.AddNewSpec | src/Abolish.ts:1083-1089 | adding keeps the existing fields in front, adds every new entry, and repeats none |
| SchemaCompiler.CompiledFields | src/Abolish.ts:1080-1094 | `fields` are the compiled keys then the included ones, without repeats; a key is in it iff it is one of those; `includedFields` is set |
| SchemaCompiler.CompiledVariable | src/Abolish.ts:1104-1124 | `compile` gives the single field "variable", also as the included field |
| SchemaCompiler.PlainTemplateKept | src/Abolish.ts:1046-1067 | a template without `:param`/`:option` is kept unchanged |
| Compiler.ParseErrorMessage | src/Compiler.ts:495-554 | `false` reports the compiled template with data null and code "default"; an `AbolishError` reports its own data and code, and its own message when that has no `:param`/`:option` |
| Compiler.CustomMessageKeepsSecondParam | src/Compiler.ts:531-541 | an `AbolishError` message gets only its first `:param` filled; the second one is reported unchanged |
| Compiler.RunValidators | src/Compiler.ts:177-209 | a halt carries an error and an empty output |
| Compiler.Skipped | src/Compiler.ts:156-163 | no `$skip` or a falsy one does not skip; a non-function skips iff truthy |
| Compiler.DropSkipped | src/Compiler.ts:164-169 | a skipped field leaves the output keys only when there is an include list that does not name it |
| Compiler.RunFields | src/Compiler.ts:149-210 | a finish carries an error and `{}`; output keys only shrink |
| Compiler.Project | src/Compiler.ts:212-221 | the output has exactly the remaining fields, each read by path only when there are several fields and one is dotted |
| Compiler.StrictError | src/Compiler.ts:126-136 | `{code:"object.unknown", type:"internal", key:"$strict", data:{unknown}}` |
| Compiler.RunChecked | src/Compiler.ts:119-223 | with `allowedFields`, unknown input keys, in input order, are reported before anything runs |
| Compiler.RunObject | src/Compiler.ts:99-224 | a variable schema throws; a sync call on an async schema throws; otherwise the run |
| Compiler.RunVariable | src/Compiler.ts:360-375 | an object schema throws; an error comes with an undefined value |
| Compiler.OptionTarget | src/Compiler.ts:432-440 | an object schema requires a field name; a variable schema refuses one and uses "variable" |
| Compiler.AbolishCompiled.constructor | src/Compiler.ts:45-93 | the empty object schema holding its input |
| Compiler.AbolishCompiled.ValidateObject | src/Compiler.ts:99-224 | gives `RunObject` in sync mode |
| Compiler.AbolishCompiled.ValidateObjectAsync | src/Compiler.ts:226-353 | gives `RunObject` in async mode |
| Compiler.AbolishCompiled.Walk | src/Compiler.ts:119-223 | the field loop over the working copy gives `RunChecked` |
| Compiler.AbolishCompiled.RunEntry | src/Compiler.ts:177-209 | the validator loop with a modifier on the working copy gives `RunValidators` |
| Compiler.AbolishCompiled.ValidateVariable | src/Compiler.ts:360-375 | as written: gives `RunVariable`, and a throw leaves the schema in object mode |
| Compiler.AbolishCompiled.ValidateVariableAsync | src/Compiler.ts:382-397 | as written: gives `RunVariable` in async mode, and a rejection leaves the schema in object mode |
| Compiler.AbolishCompiled.ValidateVariableRestoring | src/Compiler.ts:360-375 | corrected: gives `RunVariable` and leaves the schema exactly as it was, throw or not |
| Compiler.AbolishCompiled.ValidateVariableAsyncRestoring | src/Compiler.ts:382-397 | corrected: the same in async mode |
| Compiler.AbolishCompiled.Validate | src/Compiler.ts:399-403 | an object schema validates the value's properties, a variable schema the value through `validateVariable` as written; `isObject` ends set iff it was set or the call threw, and nothing else changes |
| Compiler.AbolishCompiled.ValidateAsync | src/Compiler.ts:405-409 | the same in async mode, through `validateVariableAsync` as written |
| Compiler.AbolishCompiled.SetValidatorOption | src/Compiler.ts:431-447 | throws as `OptionTarget` says; otherwise writes only the `option` of an existing entry, and every other part of the schema is kept |
| Compiler.AbolishCompiled.Copy | src/Compiler.ts:454-483 | a fresh schema with equal contents and no `allowedFields` |
| Compiler.VariableLockOut | src/Compiler.ts:360-397 | as written: after the sync call throws on an async variable schema, the async call is refused with the object-schema error |
| Compiler.VariableNoLockOut | src/Compiler.ts:360-397 | corrected: after the same throw the async call runs as on the untouched schema |
| Compiler.SetOptionKeepsRest | src/Compiler.ts:442-444 | the write changes only `option` fields |
| Compiler.NamesNeverMatch | src/Compiler.ts:442-444 | only an index key finds a compiled validator, so a validator's name changes nothing |
| Compiler.ValidatorsIgnoreOption | src/Abolish.ts:1056-1059 | a field's validators behave the same whatever their visible options say, since they run with the option they captured |
| Compiler.FieldsIgnoreOption | src/Abolish.ts:1056-1059 | the same over all fields |
| Compiler.OptionsNeverRead | src/Compiler.ts:431-447 | hence `setValidatorOption` never changes what a compiled schema accepts or reports |
| Compiler.SkippedFieldRunsNothing | src/Compiler.ts:156-172 | a skipped field runs none of its validators and leaves the output keys only when it is not included |
| Compiler.ValidatorsStopEarly | src/Compiler.ts:177-209 | validators after the first failing or throwing one do not matter |
| Compiler.FieldsStopEarly | src/Compiler.ts:149-210 | fields after the one that ends the run do not matter |
| Compiler.ThrowNamesIndex | src/Compiler.ts:183-194 | a throw is an internal error naming the validator by its index when sync and by its name when async, with the exception's message and stack |
| Compiler.CustomErrorWins | src/Compiler.ts:507-526 | an `AbolishError`'s message does not depend on the compiled template or `errorFn`, so `$error` is ignored |
| Compiler.InterpretedErrorWins | src/Abolish.ts:485-502 | in the interpreted engine a string `$error` beats the `AbolishError`'s message |
| Compiler.EmptySchemaOutput | src/Compiler.ts:212-223 | no fields give `{}` |

## Left out

- Promises: a rejected promise is `Abrupt`, a promise that never settles is `NeverSettles`, and `await` adds nothing beyond sequential order.
- `checkAsync`, `attemptAsync` and `testAsync` (src/Abolish.ts:770-882) are `check`/`attempt`/`test` with `await`, so they are not modelled separately.
- `attempt` and `test` on a compiled schema are `check(compiled)` wrapped the same way as for rules; only `check(compiled)` is modelled (`CheckCompiled`).
- The static wrappers (`Abolish.validate`, `check`, … built on `new this()`), `getGlobalValidators`/`getGlobalValidatorsList`, `getInputRule`/`getInputSchema`, `isAbolishClass`/`isAbolishInstance` and `InstanceOf`: plumbing or runtime class tests. The model tells a returned `AbolishError` and a compiled schema apart by their types.
- `compileObject`'s `CustomAbolish` argument: the instance is a parameter, so a class argument is not distinguished from an instance.
- `Object.defineProperty` of validator function names: not observable in results.
- Validators built on regular expressions, URL, JSON or date parsing or the clock; `validators/string/string.ts`; `validators/array/any.ts`; the joi/yup bridges; `arrayValuesAsync`/`objectValuesAsync`, which are the sync loops with `await`.
- GlobalValidators.ToNumber: JavaScript `Number()` and `isNaN` on strings that are not plain digits, and floating point, are left to a parameter of `Host.Env`. `min`/`max` compare integers only.
- GlobalValidators.Min: the numeric branch is stated for integers only, because of the same coercion.
- lodash paths: `get` is modelled with lodash's path rules for a string (a path that already is an own key is that key, any other is split at dots) and for an array (one segment per item). It walks into arrays by their index keys. Bracket syntax, inherited keys and the string form lodash gives an object or function path are not modelled. `startCase` is an uninterpreted string function.
- Modifier.ObjectModifier.Get: src/ObjectModifier.ts imports `Get` and `Set` from src/Functions.ts, which exports neither. They are taken to be lodash `get` and `set`, the functions src/inbuilt.fn.ts calls for dotted paths; `has` and `unset` are lodash's by their own imports.
- Modifier.ObjectModifier.Set: `set`, `has` and `unset`, and so `setThis`, `AbolishSet` and the write-backs of `boolean`, `arrayValues` and `objectValues`, split a dotted string path at its dots without first checking for a literal key. lodash would write to an existing key `"a.b"` itself; the model writes to `a` → `b`. Their path is a string, so array paths are not modelled for them.
- Modifier.ObjectModifier.Set: these writes walk only through objects. When a step of the path meets an array or a function, `set` replaces it with a new object holding only the written key, where lodash writes into the array or function and keeps the rest. `has` answers false there and `unset` changes nothing, where lodash walks in. Where a step is missing, `set` creates an object, where lodash creates an array when the next key is an index. So `validate({tags: ["a", "true"]}, {"tags.1": "boolean", tags: "typeof:array"})` passes in the source, but in the model `tags` becomes `{"1": true}` and `typeof:array` fails.
- JavaScript's ordering of integer-like keys before other keys is not modelled: objects keep insertion order.
- Prototype-chain properties (`hasOwnProperty` against inherited names) are not modelled: only own properties exist.
- Compiled validators bind their modifier to the record of their first call (src/Abolish.ts:980 and 1057, `flagNoData`/`hasData`). The model binds it to each call's own record. So for the second and later calls of a compiled schema, the model's results differ from the source's whenever a validator writes back (`boolean`, `arrayValues`, `objectValues`). With `c = compileObject({x: "boolean"})`, a second call `c.validateObject({x: "false"})` returns `{x: "false"}` in the source, because the cast lands in the first call's record. The model returns `{x: false}`.
- A compiled schema's nested checks (`arrayValues`, `objectValues`) use the instance as it was at compile time.
- `objectValues` writes back to where its value was read. Aliasing beyond that, such as the same object reachable from two fields, is not modelled.
- `$include` entries that are not strings are modelled by their string form.
- Caller-supplied `$error`/`$errors` functions are called through `Host.Env`. In the compiled path `customError` is never set, so `errorFn` is never called.
- `code` and `setCode`: src/AbolishError.ts declares neither. Its callers still read `code` (src/Abolish.ts:488, src/Compiler.ts:524) and call `setCode` (validators/object/objectValues.ts:21). The model follows those callers: the class carries a code that starts as "default" and has `SetCode`. Under the class as written, the code of a returned error would be undefined, and `objectValues` would throw when it reports a failure.
- The special `$` patterns of `String.prototype.replace` replacement strings are not interpreted.
- A compiled schema used as the rule of a nested check is not modelled.
- `setValidatorOption` with the key `"length"` on a validators array is not modelled.
- SchemaCompiler.ValidatorsFollowRules: states the order of the compiled validators on success only. The failure side is `UnknownValidatorFails` and `ValidatorsSucceed`.
- Modifier.ObjectModifier.GetPath has no contract beyond its body (`startCase(path)`).
- GlobalValidators.Exact: `===` compares arrays, objects and functions by identity. The model compares values structurally, so two distinct arrays with the same items pass here and fail in the source.
- ArrayValidators.InArray: `includes` finds arrays and objects by identity; the model finds them by structural equality.
- ArrayValidators.NotInArray: the same structural equality stands for identity.
- UtilsValidators.Same: the same structural equality stands for `===`.
- Inbuilt.UpperFirst: only ASCII letters are upper-cased. JavaScript's full case mapping (`"ß"` to `"SS"`, other scripts) is not modelled. `str[0]` of a character outside the Basic Multilingual Plane is a lone surrogate in JavaScript; the model takes the whole character.
- GlobalValidators.TypeOfCheck: `toLowerCase` is modelled on ASCII letters only. This decides the same as the full mapping for every comparison the model makes: the names compared against are ASCII, and the only non-ASCII character JavaScript lower-cases to an ASCII letter is the Kelvin sign, which becomes `k`, a letter none of those names holds. The same holds for `StringValidators.BooleanSpec`.
- Js.OwnProps of a string indexes it by character, not by UTF-16 code unit, so a character outside the Basic Multilingual Plane is one property here and two in JavaScript.
- Registry.PlainEntry: a truthy `error` that is not a string is kept by its string form. In the source the value itself is kept, and compiling a schema that uses it then throws at `.replace`.

## Findings

| source | as written | input that shows it | evidently intended | confidence | as-written member | corrected member |
|---|---|---|---|---|---|---|
| src/Compiler.ts:360-397 | `validateVariable`/`validateVariableAsync` set `isObject = true`, run `validateObject`, and set it back to false only when that returns normally | `Abolish.compile({ someAsyncValidator: true })`, then `validateVariable(x)` throws "Rules contains an async validator…"; after that `validateVariableAsync(y)` throws "Object compiled cannot be used to validate a variable…" | the flag is switched back whether the run returns or throws ("set back to false"), so the schema stays a variable schema | medium, not executed | Compiler.VariableLockOut | Compiler.VariableNoLockOut |

The public entry points follow the code as written: `Compiler.AbolishCompiled.Validate`, `Compiler.AbolishCompiled.ValidateAsync` and `AbolishInstance.Abolish.CheckCompiled` call `ValidateVariable`/`ValidateVariableAsync`. The corrected pair, `ValidateVariableRestoring` and `ValidateVariableAsyncRestoring`, is what `VariableNoLockOut` is proved about.
