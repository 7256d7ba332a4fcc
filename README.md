# GenericFilter — a Dafny model

This project models the logic behind `GenericFilter`, a React filter builder.
A user edits a list of filter conditions. Each condition is a row with an
attribute, an operator and a value. The component turns the valid rows into a
MongoDB-style payload of the form `{ attribute: { $operator: value } }` and can
read such a payload back into rows. Attributes may depend on other
attributes. When an upstream value changes, the rows of its dependents are
cleared, transitively, and the dependents' option lists are fetched again
through one of four descriptor kinds: a callback, `fetch`, axios, or a custom
handler.

The model has six modules:

- `JsValues` (`js_values.dfy`): the JavaScript values the code handles.
  Objects are insertion-ordered entry lists. The module also has truthiness,
  `||`, property access (which throws on `null`/`undefined`), property
  assignment, object spread, `Object.keys`, `toString`, `trim` and the ASCII
  case mappings.
- `FilterTypes` (`filter_types.dfy`): conditions, attribute options, fetch
  descriptors and filter parameters, plus `attributeOptions.find` by value.
- `FilterUtils` (`filter_utils.dfy`): `isValidValue`,
  `formatFilterConditions` and `parseFilterConditions`. The two conversions
  are loop methods proved equal to specification functions. They are tied
  together by a round-trip theorem.
- `FilterLogic` (`filter_logic.dfy`): the `useFilterLogic` hook. The class
  `FilterState` holds the conditions, sort field, sort order, archive flag and
  error message, and has one method per callback. Validation and the operator
  menus are functions with lemmas.
- `FetchHelpers` (`fetch_helpers.dfy`): `executeFetchOptions`, its fetch and
  axios handlers, and the default response transformers. The network is a
  parameter.
- `FilterWithDependencies` (`filter_with_dependencies.dfy`): the
  `useFilterWithDependencies` hook. The class `DependentFilterState` wraps a
  `FilterState` and adds the option cache and the loading flags.

Conventions:

- A thrown exception or a rejected promise is `Completion.Abrupt`.
- Callbacks supplied by the user are total functions returning a
  `Completion`. This covers `transformResponse`, `handler`, the url, body,
  params and data functions, the `fetch` transport and the axios instance.
- `generateUniqueId` is an oracle `newId: nat -> string`. The state counts the
  ids it has drawn, so the k-th new row gets `newId(issued + k)`.

## Model

| member | source | states |
|---|---|---|
| FilterTypes.FindOption | src/components/GenericFilter/hooks/useFilterLogic.ts:64-66 | `find` by value: None exactly when no option has the key, otherwise the first option with it |
| JsValues.Or | src/components/GenericFilter/fetchHelpers.ts:123 | `a \|\| b` is `a` when `a` is truthy and `b` otherwise, so it is truthy iff one operand is |
| JsValues.Property | src/components/GenericFilter/fetchHelpers.ts:130-131 | property access throws exactly on null/undefined; on an object it yields the first entry's value or undefined |
| JsValues.OptionalProperty | src/components/GenericFilter/fetchHelpers.ts:115 | `x?.k` is undefined on null/undefined and plain property access otherwise |
| JsValues.PutLookup | src/components/GenericFilter/utils.ts:36 | after `o[k] = v`, reading k gives v and every other key reads as before |
| JsValues.PutUnique | src/components/GenericFilter/utils.ts:36 | property assignment never creates a duplicate key |
| JsValues.PutKeys | src/components/GenericFilter/utils.ts:36 | assignment keeps the key order and appends a new key at the end |
| JsValues.AssignLookup | src/components/GenericFilter/fetchHelpers.ts:92 | in `{...t, ...s}` a key reads as its last value in s when s has it, else as in t |
| JsValues.AssignKeys | src/components/GenericFilter/fetchHelpers.ts:92 | the spread has exactly the keys of both sides |
| JsValues.OwnEntries | src/components/GenericFilter/utils.ts:49-53 | `Object.keys` of an object is its entries, and of an array its indices |
| JsValues.TrimNonEmpty | src/components/GenericFilter/utils.ts:9 | `trim()` is non-empty iff the string has a non-whitespace character |
| JsValues.ToLower | src/components/GenericFilter/utils.ts:35 | `toLowerCase` keeps the length and lowers each character, with no upper-case letter left |
| JsValues.CapitalizeShape | src/components/GenericFilter/utils.ts:60 | upper-cases the first character and keeps the rest |
| JsValues.RemoveFirstDollarShape | src/components/GenericFilter/utils.ts:54 | `replace("$", "")` removes exactly one character when a `$` occurs and nothing otherwise |
| JsValues.RemoveFirstDollarAt | src/components/GenericFilter/utils.ts:54 | the `$` removed is the first one: the text before it and the text after it are kept |
| FilterUtils.StringValidity | src/components/GenericFilter/utils.ts:7-9 | `IsValidValue`: null/undefined are invalid; a string is valid iff it has a non-whitespace character |
| FilterUtils.ArrayValidity | src/components/GenericFilter/utils.ts:10-11 | `IsValidValue`: an array is valid iff it is non-empty and holds no null and no "" (undefined and " " elements pass) |
| FilterUtils.ObjectValidity | src/components/GenericFilter/utils.ts:12-15 | `IsValidValue`: an object is valid iff it has a key; a truthy `from` is enough |
| FilterUtils.OtherValidity | src/components/GenericFilter/utils.ts:16 | `IsValidValue`: numbers and booleans are valid, 0 and false included |
| FilterUtils.OperatorKeyShape | src/components/GenericFilter/utils.ts:35 | the key is `$` followed by the lower-cased operator |
| FilterUtils.GroupsToValue | src/components/GenericFilter/utils.ts:20-39 | the payload has one entry per attribute group, in first-seen order |
| FilterUtils.FormatFilterConditions | src/components/GenericFilter/utils.ts:19-40 | the loop builds the payload that the specification function describes |
| FilterUtils.LastStoredIsLast | src/components/GenericFilter/utils.ts:36 | the stored value for (attribute, key) is that of the last kept row writing it |
| FilterUtils.LastAtPrefix | src/components/GenericFilter/utils.ts:36 | a last row that writes elsewhere does not change which row wrote (attribute, key) last |
| FilterUtils.LastStoredSome | src/components/GenericFilter/utils.ts:23-36 | a value is stored iff some kept row writes that attribute and key |
| FilterUtils.FormatLookup | src/components/GenericFilter/utils.ts:19-40 | `FormatValue`/`FormatGroups`: each attribute's group maps an operator key to its last stored value |
| FilterUtils.FormatAttributes | src/components/GenericFilter/utils.ts:23-33 | `FormatValue`/`FormatGroups`: an attribute is in the payload iff some row with it is kept |
| FilterUtils.KeptAttributeSnoc | src/components/GenericFilter/utils.ts:23-33 | a row with the attribute is kept iff one is kept in the prefix or the last row is |
| FilterUtils.FormatWellFormed | src/components/GenericFilter/utils.ts:31-36 | the payload has no repeated attribute and no repeated operator key in a group |
| FilterUtils.LookupIn | src/components/GenericFilter/utils.ts:36 | a key that reads as v has an entry (key, v) |
| FilterUtils.PutValues | src/components/GenericFilter/utils.ts:36 | after assignment every entry is old or the new one |
| FilterUtils.ParseOperators | src/components/GenericFilter/utils.ts:53-63 | one row per operator key, in key order |
| FilterUtils.ParseFilterConditions | src/components/GenericFilter/utils.ts:42-67 | the nested loops yield what the specification function gives, a throw included |
| FilterUtils.ParseAttribute | src/components/GenericFilter/utils.ts:49-63 | one outer iteration: a null group throws, a non-object group is skipped, an object group appends its rows |
| FilterUtils.PushOperators | src/components/GenericFilter/utils.ts:53-63 | the inner loop appends the rows for one attribute, with consecutive ids |
| FilterUtils.ParseOperatorsStep | src/components/GenericFilter/utils.ts:57-62 | one more operator key appends one row |
| FilterUtils.ParseEntriesStep | src/components/GenericFilter/utils.ts:50-51 | a null group throws, a non-object group is skipped, an object group appends its rows |
| FilterUtils.ParseAbruptPrefix | src/components/GenericFilter/utils.ts:53 | once a group throws, the whole parse throws |
| FilterUtils.ParseOperatorsAt | src/components/GenericFilter/utils.ts:57-62 | row k carries the attribute, the re-cased key k and its value |
| FilterUtils.ParseAbruptIff | src/components/GenericFilter/utils.ts:49-53 | `ParseSpec`/`ParseEntries`: the parse of an object throws iff some attribute maps to null |
| FilterUtils.HasConditionAppend | src/components/GenericFilter/utils.ts:57 | a row is in a concatenation iff it is in one part |
| FilterUtils.OperatorsMembers | src/components/GenericFilter/utils.ts:53-63 | a row is parsed from a group iff that group holds its operator key and value |
| FilterUtils.EmitsSnoc | src/components/GenericFilter/utils.ts:49 | a payload emits a row iff its prefix or its last entry does |
| FilterUtils.EmitsSplit | src/components/GenericFilter/utils.ts:49 | a row emitted by the payload is emitted by its prefix or its last entry |
| FilterUtils.EmitsJoin | src/components/GenericFilter/utils.ts:49 | a row emitted by the prefix or the last entry is emitted by the payload |
| FilterUtils.ParseEntriesMembers | src/components/GenericFilter/utils.ts:49-64 | `ParseEntries`/`ParseAfter`: without null groups the parse succeeds and yields exactly the rows the entries emit |
| FilterUtils.ParseAfterObject | src/components/GenericFilter/utils.ts:49-63 | an object group appends its operator rows after the rows so far, ids continuing |
| FilterUtils.PushedMembers | src/components/GenericFilter/utils.ts:53-63 | after one object group, a row is present iff it was before or the group holds its operator key and value |
| FilterUtils.ParseIds | src/components/GenericFilter/utils.ts:58 | the k-th parsed row gets the k-th fresh id |
| FilterUtils.ParseOperatorsIds | src/components/GenericFilter/utils.ts:57-58 | appending one group's rows keeps the ids consecutive |
| FilterUtils.FreshIdsAppend | src/components/GenericFilter/utils.ts:58 | two runs of consecutive fresh ids, the second starting where the first ends, form one run |
| FilterUtils.ParseSkipsNonObjects | src/components/GenericFilter/utils.ts:51 | groups that are strings contribute no rows |
| FilterUtils.RecoverOperatorKey | src/components/GenericFilter/utils.ts:35-60 | parsing a formatted key yields the lower-cased operator with its first letter capitalised |
| FilterUtils.CanonicalOperatorIff | src/components/GenericFilter/utils.ts:35-60 | an operator survives the round trip iff it is empty, or starts with no lower-case letter and has no capital after the first character |
| FilterUtils.LowerWord | src/components/GenericFilter/utils.ts:35 | lower-casing is determined character by character |
| FilterUtils.EqualsKept | src/components/GenericFilter/utils.ts:35-60 | "Equals" survives the round trip |
| FilterUtils.NotEqualsRecased | src/components/GenericFilter/utils.ts:35-60 | "NotEquals" comes back as "Notequals" |
| FilterUtils.GreaterThanEqualsRecased | src/components/GenericFilter/utils.ts:35-60 | "GreaterThanEquals" comes back as "Greaterthanequals" |
| FilterUtils.GreaterThanEqualsLowered | src/components/GenericFilter/utils.ts:35 | "GreaterThanEquals" lower-cases to "greaterthanequals" |
| FilterUtils.ToLowerAppend | src/components/GenericFilter/utils.ts:35 | lower-casing distributes over concatenation |
| FilterUtils.FormatLowerKeys | src/components/GenericFilter/utils.ts:35-36 | every operator key the formatter writes is `$` followed by no upper-case letter |
| FilterUtils.RecoverInjective | src/components/GenericFilter/utils.ts:54-60 | two such keys that re-case to the same operator are the same key |
| FilterUtils.GroupOpsDistinct | src/components/GenericFilter/utils.ts:53-60 | a group with distinct such keys yields distinct operators |
| FilterUtils.OperatorsDistinct | src/components/GenericFilter/utils.ts:53-63 | one group's rows all carry its attribute and repeat no (attribute, operator) pair |
| FilterUtils.DistinctAppend | src/components/GenericFilter/utils.ts:57 | two row lists without repeated pairs and with no attribute in common have none together |
| FilterUtils.ParseDistinct | src/components/GenericFilter/utils.ts:42-67 | object groups under distinct names with distinct operators parse without a throw into rows that repeat no pair and carry only those names |
| FilterUtils.PushedDistinct | src/components/GenericFilter/utils.ts:49-63 | one more object group under a new name keeps the rows free of repeated pairs |
| FilterUtils.GroupsParseDistinct | src/components/GenericFilter/utils.ts:20-67 | well-formed groups with the formatter's keys parse into rows without repeated pairs |
| FilterUtils.FormatParseDistinct | src/components/GenericFilter/utils.ts:19-67 | `ParseSpec(FormatValue(cs))` does not throw and repeats no (attribute, operator) pair |
| FilterUtils.RoundTrip | src/components/GenericFilter/utils.ts:19-67 | parsing a formatted list never throws, draws consecutive ids, and yields exactly the last-written (attribute, re-cased operator, value) of each kept row, with no (attribute, operator) pair twice |
| FilterUtils.EmittedFromGroups | src/components/GenericFilter/utils.ts:31-36 | every row emitted by a grouped payload comes from an operator key of its group |
| FilterUtils.EmittedKey | src/components/GenericFilter/utils.ts:19-40 | every emitted row comes from a key whose last stored value it carries |
| FilterUtils.RoundTripSound | src/components/GenericFilter/utils.ts:19-67 | every parsed row is produced by some kept row |
| FilterUtils.GroupsEmit | src/components/GenericFilter/utils.ts:49-63 | every stored key of a group is emitted as a row |
| FilterUtils.RoundTripComplete | src/components/GenericFilter/utils.ts:19-67 | every kept row's last stored value is parsed back |
| FilterUtils.FormatExample | src/components/GenericFilter/utils.ts:19-40 | `[{age, GreaterThan, "18"}]` formats to `{age: {$greaterthan: "18"}}` |
| FilterLogic.EmptyCondition | src/components/GenericFilter/hooks/useFilterLogic.ts:15-20 | a fresh row has the given id, no attribute, operator Equals and value "", and is neither kept nor valid |
| FilterLogic.EmptyConditions | src/components/GenericFilter/hooks/useFilterLogic.ts:26 | n empty rows with consecutive fresh ids |
| FilterLogic.RemoveByIdMembers | src/components/GenericFilter/hooks/useFilterLogic.ts:44-46 | `RemoveById`: a row is in the result exactly when it was in the list and its id differs; the list never grows |
| FilterLogic.RemoveByIdAppend | src/components/GenericFilter/hooks/useFilterLogic.ts:45 | `RemoveById` distributes over concatenation and keeps or drops a single row by its id, so the order of the kept rows is kept |
| FilterLogic.RemoveAbsentId | src/components/GenericFilter/hooks/useFilterLogic.ts:44-46 | removing an unknown id changes nothing |
| FilterLogic.RemoveTwice | src/components/GenericFilter/hooks/useFilterLogic.ts:44-46 | removal is idempotent |
| FilterLogic.UpdatedCondition | src/components/GenericFilter/hooks/useFilterLogic.ts:52-84 | a new attribute resets operator to Equals and value to ""; a new operator resets the value, to ["", ""] iff Between on a Date attribute; other fields are set as given; after an attribute or operator change the value is invalid |
| FilterLogic.UpdateById | src/components/GenericFilter/hooks/useFilterLogic.ts:50-86 | rows with the id are updated, all others kept, length kept |
| FilterLogic.UpdateAbsentId | src/components/GenericFilter/hooks/useFilterLogic.ts:50-86 | updating an unknown id changes nothing |
| FilterLogic.ValidFilters | src/components/GenericFilter/hooks/useFilterLogic.ts:106-111 | keeps exactly the rows satisfying `IsValidFilter`: a non-blank attribute and operator and a valid value |
| FilterLogic.ValidFiltersAppend | src/components/GenericFilter/hooks/useFilterLogic.ts:106-111 | `ValidFilters` distributes over concatenation and keeps a single row iff `IsValidFilter` holds, so the order of the valid rows is kept |
| FilterLogic.TrimEmpty | src/components/GenericFilter/hooks/useFilterLogic.ts:108 | the empty attribute trims to "" |
| FilterLogic.ValidIsKept | src/components/GenericFilter/hooks/useFilterLogic.ts:106-111 | every valid row is kept by the formatter; a blank attribute " " is kept but not valid |
| FilterLogic.Validate | src/components/GenericFilter/hooks/useFilterLogic.ts:101-144 | invalid with the fixed message iff no row is valid and the sort is incomplete (`HasValidSort` fails, line 113); otherwise page 1, forcePage 0, isDeleted = archive, customFilter iff a row is valid (the formatted valid rows), customSortFilter iff both sort fields are set |
| FilterLogic.GroupsKeys | src/components/GenericFilter/utils.ts:20-39 | the payload's attributes are the group keys |
| FilterLogic.ValidKept | src/components/GenericFilter/hooks/useFilterLogic.ts:106-131 | a kept valid row has the attribute iff some row with it is valid |
| FilterLogic.ValidAttributes | src/components/GenericFilter/hooks/useFilterLogic.ts:130-131 | an attribute is in the formatted payload iff a valid row has it |
| FilterLogic.PayloadAttributes | src/components/GenericFilter/hooks/useFilterLogic.ts:124-143 | the built customFilter holds exactly the attributes of valid rows |
| FilterLogic.PayloadParses | src/components/GenericFilter/hooks/useFilterLogic.ts:124-143 | the built customFilter parses back without a throw into exactly the rows the valid rows produce, with no (attribute, operator) pair twice |
| FilterLogic.AddKeepsValidation | src/components/GenericFilter/hooks/useFilterLogic.ts:40-42 | adding an empty row does not change validation |
| FilterLogic.ResetIsInvalid | src/components/GenericFilter/hooks/useFilterLogic.ts:91-99 | after a reset, validation fails with the fixed message |
| FilterLogic.GetOperatorsForAttribute | src/components/GenericFilter/hooks/useFilterLogic.ts:146-187 | the whole menu, labels and order included, by the type of the first option with the key: Date gets Equals, Not Equals, Before, After, Between; Number gets Equals, Not Equals, Greater Than, Less Than, Greater Than Equals, Less Than Equals; Select and DropDown get Equals, Not Equals; Text and an unknown key get Equals, Not Equals, Contains (Like). Hence Between iff Date, Greater Than Equals iff Number, Contains iff Text or unknown, exactly two entries iff Select or DropDown |
| FilterLogic.DefaultMenuOffers | src/components/GenericFilter/hooks/useFilterLogic.ts:154-158 | the default menu has Like but not Between or GreaterThanEquals |
| FilterLogic.SelectMenuOffers | src/components/GenericFilter/hooks/useFilterLogic.ts:159-162 | the select menu has none of Like, Between and GreaterThanEquals |
| FilterLogic.DateMenuOffers | src/components/GenericFilter/hooks/useFilterLogic.ts:163-169 | the date menu has Between but not Like or GreaterThanEquals |
| FilterLogic.NumberMenuOffers | src/components/GenericFilter/hooks/useFilterLogic.ts:170-177 | the number menu has GreaterThanEquals but not Like or Between |
| FilterLogic.MenuToken | src/components/GenericFilter/hooks/useFilterLogic.ts:153-177 | every menu token is one of the eight operator tokens |
| FilterLogic.CamelTokenRecased | src/components/GenericFilter/utils.ts:35-60 | a token with an inner capital does not survive the round trip |
| FilterLogic.PlainTokenKept | src/components/GenericFilter/utils.ts:35-60 | Equals, Like and Between survive the round trip |
| FilterLogic.TokenRecasing | src/components/GenericFilter/utils.ts:35-60 | of the eight tokens exactly Equals, Like and Between survive |
| FilterLogic.MenuTokensAfterRoundTrip | src/components/GenericFilter/hooks/useFilterLogic.ts:153-177 | a menu token comes back unchanged iff it is Equals, Like or Between |
| FilterLogic.InitialConditions | src/components/GenericFilter/hooks/useFilterLogic.ts:22-27 | without a customFilter or with a falsy one, n empty rows with the first fresh ids; with a truthy one, its parse (which may throw) |
| FilterLogic.EmptyPayloadNoRows | src/components/GenericFilter/hooks/useFilterLogic.ts:23-24 | an initial customFilter `{}` is truthy, so the state starts with no rows rather than the default ones |
| FilterLogic.ReopenSettings | src/components/GenericFilter/hooks/useFilterLogic.ts:29-37 | the applied payload, given back as the initial filter, restores the sort field and order when both were set, and the archive flag |
| FilterLogic.ReopenConditions | src/components/GenericFilter/hooks/useFilterLogic.ts:22-27 | the applied payload, given back as the initial filter, does not throw: the default empty rows when no row was valid, else exactly one row per (attribute, operator) the valid rows produce |
| FilterLogic.FilterState.constructor | src/components/GenericFilter/hooks/useFilterLogic.ts:10-38 | initial rows, sort field and order, archive and an empty error |
| FilterLogic.FilterState.AddCondition | src/components/GenericFilter/hooks/useFilterLogic.ts:40-42 | appends one empty row with the next fresh id |
| FilterLogic.FilterState.RemoveCondition | src/components/GenericFilter/hooks/useFilterLogic.ts:44-46 | the rows become `RemoveById` of the old rows |
| FilterLogic.FilterState.UpdateCondition | src/components/GenericFilter/hooks/useFilterLogic.ts:48-89 | the rows become `UpdateById` of the old rows |
| FilterLogic.FilterState.ResetFilters | src/components/GenericFilter/hooks/useFilterLogic.ts:91-99 | fresh empty rows, sort and archive and error cleared, and validation then fails |
| FilterLogic.FilterState.SetConditions | src/components/GenericFilter/hooks/useFilterLogic.ts:195 | replaces the rows, nothing else |
| FilterLogic.FilterState.SetSortField | src/components/GenericFilter/hooks/useFilterLogic.ts:196 | sets the sort field, nothing else |
| FilterLogic.FilterState.SetSortOrder | src/components/GenericFilter/hooks/useFilterLogic.ts:197 | sets the sort order, nothing else |
| FilterLogic.FilterState.SetArchive | src/components/GenericFilter/hooks/useFilterLogic.ts:198 | sets the archive flag, nothing else |
| FilterLogic.FilterState.SetError | src/components/GenericFilter/hooks/useFilterLogic.ts:199 | sets the error, nothing else |
| FilterLogic.FilterState.ValidateAndBuildParams | src/components/GenericFilter/hooks/useFilterLogic.ts:101-144 | returns `Validate` of the current state |
| FilterLogic.FilterState.OperatorsFor | src/components/GenericFilter/hooks/useFilterLogic.ts:146-187 | returns the menu for the attribute |
| FilterLogic.ParseSpecIds | src/components/GenericFilter/hooks/useFilterLogic.ts:23-24 | rows read from the initial payload get consecutive fresh ids |
| FetchHelpers.ResolveUrl | src/components/GenericFilter/fetchHelpers.ts:36-37 | a static url as is, a url function applied to the dependency values |
| FetchHelpers.ResolvePayload | src/components/GenericFilter/fetchHelpers.ts:48-51 | a static body or data as is, a function applied to the dependency values |
| FetchHelpers.MethodOrGet | src/components/GenericFilter/fetchHelpers.ts:40 | the method when given and non-empty, else GET |
| FetchHelpers.Transformed | src/components/GenericFilter/fetchHelpers.ts:63-67 | the transformer's result when one is given, else the fallback |
| FetchHelpers.Caught | src/components/GenericFilter/hooks/useFilterWithDependencies.ts:94-103 | a failed fetch yields the empty list |
| FetchHelpers.FetchHeadersLookup | src/components/GenericFilter/fetchHelpers.ts:41-44 | Content-Type is application/json unless the user headers override it; user headers win |
| FetchHelpers.FetchBody | src/components/GenericFilter/fetchHelpers.ts:47-53 | a body is sent iff it is truthy (a static falsy body is dropped) |
| FetchHelpers.BuildFetchRequest | src/components/GenericFilter/fetchHelpers.ts:39-53 | url, method or GET, merged headers and body |
| FetchHelpers.FetchFallback | src/components/GenericFilter/fetchHelpers.ts:67 | an array response as is, anything else the empty list |
| FetchHelpers.SentFetchRequest | src/components/GenericFilter/fetchHelpers.ts:35-55 | a request is sent iff resolving the url and the body does not throw |
| FetchHelpers.FetchOutcome | src/components/GenericFilter/fetchHelpers.ts:31-72 | `HandleFetchApi`: the handler returns the transformed or array-checked JSON of a 2xx response, and the empty list on any throw or non-2xx status |
| FetchHelpers.FetchNotOkIsEmpty | src/components/GenericFilter/fetchHelpers.ts:57-59 | a non-2xx response gives the empty list |
| FetchHelpers.OkExamples | src/components/GenericFilter/fetchHelpers.ts:57 | `response.ok` holds for 200 and 299 and fails for 404 and 300 |
| FetchHelpers.FetchWithoutTransformIsArray | src/components/GenericFilter/fetchHelpers.ts:63-70 | without a transformer the result is always an array |
| FetchHelpers.MergedParams | src/components/GenericFilter/fetchHelpers.ts:92 | static params spread with the dependency values form an object |
| FetchHelpers.MergedParamsLookup | src/components/GenericFilter/fetchHelpers.ts:92 | a dependency value overrides a static param of the same name |
| FetchHelpers.AxiosParams | src/components/GenericFilter/fetchHelpers.ts:89-92 | a params function applied to the dependency values, else the merge |
| FetchHelpers.BuildAxiosRequest | src/components/GenericFilter/fetchHelpers.ts:99-105 | params are sent iff the method is exactly GET, data iff exactly POST (data, or params when data is falsy) |
| FetchHelpers.UnsetMethodDropsParams | src/components/GenericFilter/fetchHelpers.ts:100-103 | with no method the request says GET yet carries no params and no data |
| FetchHelpers.AxiosFallback | src/components/GenericFilter/fetchHelpers.ts:113-115 | an array response as is, else its truthy `data`, else the empty list |
| FetchHelpers.HandleAxios | src/components/GenericFilter/fetchHelpers.ts:74-120 | without an axios instance the empty list |
| FetchHelpers.AxiosOutcome | src/components/GenericFilter/fetchHelpers.ts:74-120 | the empty list when there is no instance, when the url, params or data throw, when the instance rejects or when the response is nullish; otherwise the transform applied to `response.data` (a throw caught as the empty list), or without a transform the array, the truthy nested `data` or the empty list |
| FetchHelpers.AxiosArrayData | src/components/GenericFilter/fetchHelpers.ts:107-114 | an array in `response.data` is returned as is |
| FetchHelpers.AxiosNestedData | src/components/GenericFilter/fetchHelpers.ts:113-115 | a truthy `response.data.data` is returned when `response.data` is no array |
| FetchHelpers.ExecuteFetchOptionsDispatch | src/components/GenericFilter/fetchHelpers.ts:3-29 | `ExecuteFetchOptions`: dispatch on the descriptor: callback, fetch, axios, custom handler (transformed when a transformer is given), anything else the empty list |
| FetchHelpers.OnlyCallbacksFail | src/components/GenericFilter/fetchHelpers.ts:3-29 | only the callback and custom kinds can reject; fetch and axios never do |
| FetchHelpers.UnwrapData | src/components/GenericFilter/fetchHelpers.ts:123 | the truthy `data` of the response, else the response |
| FetchHelpers.Direct | src/components/GenericFilter/fetchHelpers.ts:125 | the response unchanged |
| FetchHelpers.ItemsOf | src/components/GenericFilter/fetchHelpers.ts:128 | the items of an array, else of a truthy `data`, else none; a truthy non-array `data` throws on `.map` |
| FetchHelpers.MapItems | src/components/GenericFilter/fetchHelpers.ts:129 | maps item by item, and throws iff some item throws |
| FetchHelpers.MapResponse | src/components/GenericFilter/fetchHelpers.ts:128-132 | one option per item when the items can be mapped |
| FetchHelpers.LabelOf | src/components/GenericFilter/fetchHelpers.ts:130 | `name \|\| label \|\| title`, throwing on a null/undefined item |
| FetchHelpers.MongoId | src/components/GenericFilter/fetchHelpers.ts:131 | `_id?.toString()`: undefined when absent, its string form otherwise |
| FetchHelpers.MongoOption | src/components/GenericFilter/fetchHelpers.ts:129-132 | label and `_id` string, else id, else value; throws iff the item is nullish |
| FetchHelpers.RestOption | src/components/GenericFilter/fetchHelpers.ts:137-140 | label and id, else value; throws iff the item is nullish |
| FetchHelpers.MappedOption | src/components/GenericFilter/fetchHelpers.ts:145-148 | the item's labelKey and valueKey properties; throws iff the item is nullish |
| FetchHelpers.MongoToOptionsShape | src/components/GenericFilter/fetchHelpers.ts:127-133 | `MongoToOptions`: throws iff an item is nullish; otherwise one Mongo option per item, in order |
| FetchHelpers.RestToOptionsShape | src/components/GenericFilter/fetchHelpers.ts:135-141 | `RestToOptions`: throws iff an item is nullish; otherwise one REST option per item, in order |
| FetchHelpers.CustomMapperShape | src/components/GenericFilter/fetchHelpers.ts:143-149 | `CustomMapper`: throws iff an item is nullish; otherwise one mapped option per item, in order |
| FetchHelpers.MongoDocumentOption | src/components/GenericFilter/fetchHelpers.ts:129-132 | the document `{_id: 7, name: "Ann", id: "x"}` maps to `{label: "Ann", value: "7"}` |
| FetchHelpers.MongoDocumentExample | src/components/GenericFilter/fetchHelpers.ts:127-133 | a document with numeric `_id` 7 maps to `{label: "Ann", value: "7"}` |
| FilterWithDependencies.DependsOn | src/components/GenericFilter/types.ts:47 | the listed keys, none when `dependsOn` is absent |
| FilterWithDependencies.FirstWithAttribute | src/components/GenericFilter/hooks/useFilterWithDependencies.ts:36-38 | the first row with the attribute, None iff there is none |
| FilterWithDependencies.DepValue | src/components/GenericFilter/hooks/useFilterWithDependencies.ts:36-41 | that first row's value when it is truthy |
| FilterWithDependencies.DependencyValues | src/components/GenericFilter/hooks/useFilterWithDependencies.ts:25-45 | always an object; empty when the option or its `dependsOn` is missing |
| FilterWithDependencies.DependencyEntriesLookup | src/components/GenericFilter/hooks/useFilterWithDependencies.ts:35-42 | the record maps a key iff it is listed and its first row is truthy, to that row's value |
| FilterWithDependencies.GetDependencyValues | src/components/GenericFilter/hooks/useFilterWithDependencies.ts:25-45 | the loop builds the record the specification function describes |
| FilterWithDependencies.DependencyValuesLookup | src/components/GenericFilter/hooks/useFilterWithDependencies.ts:25-45 | no key outside `dependsOn`; each listed key exactly when its first row is truthy |
| FilterWithDependencies.SatisfiedIffAllValues | src/components/GenericFilter/hooks/useFilterWithDependencies.ts:47-67 | `AreDependenciesSatisfied`/`DepSatisfied`: dependencies are satisfied iff every listed key has a dependency value; the `!== ""` test is redundant |
| FilterWithDependencies.GetDependentAttributes | src/components/GenericFilter/hooks/useFilterWithDependencies.ts:108-115 | only options whose `dependsOn` lists the key, no more of them than there are options |
| FilterWithDependencies.DependentsMembers | src/components/GenericFilter/hooks/useFilterWithDependencies.ts:108-115 | an option is a dependent exactly when its `dependsOn` lists the key |
| FilterWithDependencies.DependentsAppend | src/components/GenericFilter/hooks/useFilterWithDependencies.ts:108-115 | the filter keeps declaration order |
| FilterWithDependencies.RankedDependent | src/components/GenericFilter/hooks/useFilterWithDependencies.ts:122-130 | a clearing dependent of a ranked key is ranked strictly below it, so the recursion ends |
| FilterWithDependencies.CycleUnranked | src/components/GenericFilter/hooks/useFilterWithDependencies.ts:117-131 | two clearing options that depend on each other admit no ranking, so clearing from either is outside what the model proves to end |
| FilterWithDependencies.ReachFromMember | src/components/GenericFilter/hooks/useFilterWithDependencies.ts:120-131 | a key is cleared on account of some dependents iff one of them clears and is it or reaches it |
| FilterWithDependencies.ReachFromSnoc | src/components/GenericFilter/hooks/useFilterWithDependencies.ts:120-131 | one more dependent adds its own key and what it reaches, when it clears |
| FilterWithDependencies.ReachDirect | src/components/GenericFilter/hooks/useFilterWithDependencies.ts:120-128 | every clearing dependent of the key is cleared |
| FilterWithDependencies.ReachThrough | src/components/GenericFilter/hooks/useFilterWithDependencies.ts:130 | what a clearing dependent clears, the key clears |
| FilterWithDependencies.ReachStep | src/components/GenericFilter/hooks/useFilterWithDependencies.ts:117-134 | a cleared key is a clearing dependent or reached through one of lower rank |
| FilterWithDependencies.ReachClosed | src/components/GenericFilter/hooks/useFilterWithDependencies.ts:117-134 | the cleared keys are closed under clearing dependents |
| FilterWithDependencies.ReachLeast | src/components/GenericFilter/hooks/useFilterWithDependencies.ts:117-134 | the cleared keys are contained in every closed set, so exactly the transitive clearing dependents are cleared |
| FilterWithDependencies.ReachOnlyClearing | src/components/GenericFilter/hooks/useFilterWithDependencies.ts:122 | only options with `clearOnDependencyChange` not false are cleared |
| FilterWithDependencies.ClearIds | src/components/GenericFilter/hooks/useFilterWithDependencies.ts:124-128 | rows with the ids get value "", ids, attributes and operators kept |
| FilterWithDependencies.ClearIdsTwice | src/components/GenericFilter/hooks/useFilterWithDependencies.ts:124-130 | clearing twice is clearing the union |
| FilterWithDependencies.IdsWithCleared | src/components/GenericFilter/hooks/useFilterWithDependencies.ts:125 | clearing does not change which rows have an attribute |
| FilterWithDependencies.ClearMore | src/components/GenericFilter/hooks/useFilterWithDependencies.ts:124-130 | clearing more attributes after some is clearing all of them |
| FilterWithDependencies.IdsWithUnion | src/components/GenericFilter/hooks/useFilterWithDependencies.ts:124-130 | the ids of two attribute sets are the union of their ids |
| FilterWithDependencies.IdsWithSnoc | src/components/GenericFilter/hooks/useFilterWithDependencies.ts:124-128 | one more row adds its id iff it has the attribute |
| FilterWithDependencies.ClearOne | src/components/GenericFilter/hooks/useFilterWithDependencies.ts:126 | `updateCondition(id, "value", "")` clears exactly that id |
| FilterWithDependencies.ClearUnique | src/components/GenericFilter/hooks/useFilterWithDependencies.ts:124-128 | with unique ids, exactly the rows whose attribute is cleared get "" |
| FilterWithDependencies.ChainExample | src/components/GenericFilter/hooks/useFilterWithDependencies.ts:117-134 | in the chain A, B on A, C on B, a change of A clears B and C and nothing else |
| FilterWithDependencies.FetchStepOutcome | src/components/GenericFilter/hooks/useFilterWithDependencies.ts:69-106 | `FetchStep`: no change without option or descriptor; the empty list when unsatisfied; otherwise the caught fetch result with loading false; no other key touched |
| FilterWithDependencies.FetchAllFrame | src/components/GenericFilter/hooks/useFilterWithDependencies.ts:149-152 | `FetchAll`: keys of no dependent are untouched |
| FilterWithDependencies.FetchAllSnoc | src/components/GenericFilter/hooks/useFilterWithDependencies.ts:149-152 | `FetchAll`: fetching one more dependent is one more fetch step, in declaration order |
| FilterWithDependencies.FetchAllSettles | src/components/GenericFilter/hooks/useFilterWithDependencies.ts:69-106 | `FetchAll`: every dependent with a descriptor ends with an option list, and with loading false when satisfied |
| FilterWithDependencies.FindById | src/components/GenericFilter/hooks/useFilterWithDependencies.ts:138-139 | the first row with the id; None iff there is none |
| FilterWithDependencies.ChangedKey | src/components/GenericFilter/hooks/useFilterWithDependencies.ts:138-147 | the new attribute on an attribute change, the row's prior attribute on a value change, each only when non-empty; none for an unknown id and for id or operator changes |
| FilterWithDependencies.DependentFilterState.constructor | src/components/GenericFilter/hooks/useFilterWithDependencies.ts:12-23 | the base state exactly as the base hook builds it (rows, ids drawn, sort field and order, archive, empty error, options, default count, id oracle), an empty option cache and no loading flags |
| FilterWithDependencies.DependentFilterState.ClearDependentValues | src/components/GenericFilter/hooks/useFilterWithDependencies.ts:117-134 | the rows of exactly the transitively reached attributes get value "", nothing else changes |
| FilterWithDependencies.DependentFilterState.ClearRowsWith | src/components/GenericFilter/hooks/useFilterWithDependencies.ts:124-128 | the rows with the attribute get value "" |
| FilterWithDependencies.DependentFilterState.FetchDependentOptions | src/components/GenericFilter/hooks/useFilterWithDependencies.ts:69-106 | the cache becomes one `FetchStep` of the old cache |
| FilterWithDependencies.DependentFilterState.FetchDependents | src/components/GenericFilter/hooks/useFilterWithDependencies.ts:149-152 | one fetch per direct dependent, in order |
| FilterWithDependencies.DependentFilterState.UpdateConditionWithDependencies | src/components/GenericFilter/hooks/useFilterWithDependencies.ts:136-155 | unknown id: no change; otherwise the base update, then for a non-empty changed attribute the transitive clear and a fetch per dependent |

## Left out

- Network and clocks: `fetch` and the axios instance are parameters; `Date.now` and `Math.random` inside `generateUniqueId` are an oracle `newId`.
- `getStartOfDay` and `getEndOfDay` are date arithmetic for the view and are not part of this model.
- Asynchrony: every fetch is one atomic step. The interleaving of concurrent fetches, the short-lived `loading: true` state and out-of-order completion are not modelled.
- The effects of `useFilterWithDependencies` (the initial loading of every option, lines 164-195, and the re-fetch on every change of the rows, lines 197-211) are not modelled; they only repeat `FetchDependentOptions`.
- Stale closures: React state updates are applied in order to one list. In the source, `clearDependentValues` and `fetchDependentOptions` read the rows of the last render, so dependent fetches right after an update see the rows before it; in the model they see the updated rows.
- DependentFilterState.ClearDependentValues: requires a ranking of the clearing dependents reachable from the key (no cycle); on a cycle the source recurses until the call stack overflows, and the resulting `RangeError` is thrown out of `updateConditionWithDependencies` after some rows have already been cleared; the model does not capture that exception; and `CycleUnranked` shows that two clearing options depending on each other admit no ranking.
- FilterState.constructor: requires the initial payload not to throw in `parseFilterConditions` (a `null` group), where the component would fail on mount; `InitialConditions` models the throw.
- `console.error` logging, `JSON.stringify` of the fetch body (the body is kept as a value) and the `RequestInit` object are not modelled.
- Numbers are integers: no floating point, NaN or -0. Functions, symbols and bigint are not values of the model.
- Case mapping covers ASCII letters only, and string lengths count characters, not UTF-16 code units.
- Objects: prototype-inherited properties and the ordering of integer-like keys before other keys are not modelled.
- `index.tsx` (the view: which rows are shown, `maxConditions`, dependent options fed to the selects) is not part of this model.
- UpdateCondition with the field `id` can break id uniqueness; updates and removals then act on every row with the id, as the source's `map` and `filter` do.
