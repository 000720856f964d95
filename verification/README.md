# typebox-x core, modelled in Dafny

This project models the core of typebox-x, a set of helpers around the TypeBox
schema library:

- the **OpenAPI 3.0 downgrade** of a schema tree: a union of a schema with
  Null becomes the schema plus `nullable: true`, and a literal gains `type` and
  `enum: [const]`. It comes with a cheap pre-check that tells whether the
  downgrade would change anything.
- the **error enhancement pass** over TypeBox validation errors. It applies a
  path prefix, turns `/a/b` paths into `a.b`, names error types (optionally in
  snake case), rewrites the messages of the UnionEnum and UnionOneOf kinds, and
  replaces an error on a nullable union by the errors of both branches.
- the two **error merges**. Each gives one record per path. The one next to
  the enhancement pass maps every error type to its last message. The older one
  in the tools utilities keeps a list of every type and message.
- the **schema constructors** `Nullable`, `Nullish`, `LiteralEnum` and
  `StringEnum`, and the experimental kinds `UnionOneOf` and `UnionEnum`. The
  experimental kinds come with their checks and register them in TypeBox's
  type registry if no check is registered under their name yet.
- the **OpenAPI parameter descriptors** built from a schema or from each
  property of an object schema.
- the **compilation cache**, which compiles each schema object once.

Modules and files:

| file | module | models |
|---|---|---|
| schema.dfy | Schemas | the schema tree, JSON values, JavaScript truthiness |
| downgrade.dfy | Downgrade | `shouldDowngradeSchema`, `downgradeSchema` |
| path_order.dfy | PathOrder | the insertion order of the merged-errors dictionary, shared by both merges |
| errors.dfy | Errors | `enhanceErrors`, `mergeErrors`, `formatTypeBoxPath` of src/tools/errors.ts |
| error_lists.dfy | ErrorLists | `mergeErrors` of src/tools/utils.ts |
| kinds.dfy | Kinds | src/openapi/kinds/utility.ts and experimental.ts, the type registry |
| params.dfy | Params | `getParamSchema`, `getParamSchemas` |
| compile_cache.dfy | CompileCache | `cacheCompile` and its module-level map |

A schema node is a `Schema` value. Its constructor stands for the `[Kind]`
tag. It carries the fields that its kind gives structure to (`anyOf`,
`allOf`, `items`, `properties`, `required`, `const`, `enum`, `oneOf`), and
every other field sits in an `attrs` map keyed by property name or symbol.
The other kinds (String, Number, Record, Tuple, ...) are `Leaf` nodes named by
their Kind, which cannot be the name of a kind that has a constructor of its
own. A leaf holds the schemas nested in it, such as a Record's value schema or
a Tuple's items, as its children.
A spread followed by a field (`{ ...schema, nullable: true }`) is therefore a
map update.

Some operations change state in the code, and they are imperative here:

- `enhanceErrors` is a loop that rewrites each error field by field, with a
  recursive call for the branches of a nullable union.
- Both `mergeErrors` fill a dictionary in a loop.
- The registry and the compilation cache are classes with map fields.

Each such method is proved equal to a specification function: `Enhance`,
`Merged`, and the `Merged` of the list variant. The properties are then proved
about those functions. The code outside the core appears as parameters:

- TypeBox's `Value.Errors` and `Value.Check`;
- the compiler;
- the `ValueErrorType` name table and radash's `snake`.

Downgrading is not idempotent (`Downgrade.DowngradeNotIdempotent`). The branch
that a nullable union collapses to is returned without being downgraded, so a
nested nullable union inside it survives one pass. A statement that downgrading
twice equals downgrading once does not hold for this code, and the model
follows the code.

## Model

| member | source | states |
|---|---|---|
| Downgrade.ShouldDowngrade | src/openapi/downgrade.ts:9-44 | a nullable union, or a literal without a truthy `enum` and `type`, always needs downgrading; for any other node a yes can only come from an Array, Object, Intersect or Union node, through one of its children |
| Downgrade.Downgrade | src/openapi/downgrade.ts:51-98 | a nullable union comes back carrying `nullable: true`; a bare literal comes back as a literal of the same `const` with a truthy `type` and `enum`; any other node keeps its own fields; apart from a collapsed union's branch, no result is a bare literal |
| Downgrade.NullableUnionCollapses | src/openapi/downgrade.ts:54-61 | a two-branch union with a Null branch becomes the other branch plus `nullable: true`; the second branch is taken when the first is Null; the union's own fields do not matter |
| Downgrade.DowngradeNotIdempotent | src/openapi/downgrade.ts:58-60 | the promoted branch is not downgraded, so for `Union[Null, Array(Union[Null, String])]` a second downgrade changes the result again |
| Downgrade.BareLiteralEnriched | src/openapi/downgrade.ts:65-72 | a literal without a truthy `enum` and `type` keeps `const` and every other field, gains `type` = runtime type of `const` and `enum` = `[const]`, and is then left alone by a second downgrade |
| Downgrade.CompleteLiteralUnchanged | src/openapi/downgrade.ts:65-76 | a literal with a truthy `enum` and `type` is returned unchanged and the pre-check says no |
| Downgrade.OtherUnionMapped | src/openapi/downgrade.ts:93-95 | any other union keeps its fields and has each branch downgraded, same length and order |
| Downgrade.ContainersMapped | src/openapi/downgrade.ts:79-91 | Array, Object and Intersect nodes keep all their fields, property names, property order and `required`; only `items`, property values and `allOf` members are downgraded |
| Downgrade.OtherKindsUnchanged | src/openapi/downgrade.ts:97 | Null, UnionEnum, UnionOneOf and the leaf kinds come back unchanged, and the pre-check says no |
| Downgrade.NoDowngradeNeededIsIdentity | src/openapi/downgrade.ts:9-44 | when the pre-check says no, the downgrade returns a structurally equal schema |
| Downgrade.DowngradeNeededChanges | src/openapi/downgrade.ts:12-42 | when the pre-check says yes, the downgrade returns a different schema |
| Downgrade.ShouldDowngradeIffChanged | src/openapi/downgrade.ts:3-8 | the pre-check answers exactly whether the downgrade changes the schema |
| PathOrder.FirstPaths | src/tools/errors.ts:125-136 | the record keys are distinct and are exactly the paths that occur and are not stripped |
| PathOrder.FirstPathsInOrder | src/tools/errors.ts:125-136 | the records come in order of the first appearance of their paths |
| Errors.FormatTypeBoxPath | src/tools/errors.ts:145-148 | one leading `/` is dropped and every other `/` becomes `.`: the result has no `/`, is one shorter exactly when the path began with `/`, and agrees with the path elsewhere |
| Errors.FormatTypeBoxPathExample | src/tools/errors.ts:143 | `/a/b/c` becomes `a.b.c` |
| Errors.FormatTypeBoxPathIdempotent | src/tools/errors.ts:145-148 | a path without `/` is left as it is, so formatting twice is formatting once |
| Errors.PrefixPath | src/tools/errors.ts:48-50 | the original path always ends the result; a non-empty prefix always starts it; an absent or empty prefix leaves the path unchanged |
| Errors.RewritePath | src/tools/errors.ts:48-53 | with `formatPath` the new path holds no `/`; with no prefix and no formatting the path is unchanged |
| Errors.PrefixCases | src/tools/errors.ts:48-50 | an absent or empty prefix leaves the path alone; otherwise an empty path becomes the prefix and any other path becomes prefix, `.`, path |
| Errors.PrefixOnRootExample | src/tools/errors.test.ts:24-33 | with prefix `email`, an error at the root ends up at path `email` |
| Errors.Join | src/tools/errors.ts:62 | joining no values gives the empty string; otherwise the result starts with the first value as `String` writes it |
| Errors.KindOverride | src/tools/errors.ts:56-69 | a Kind error on a UnionEnum is typed `UnionEnum`, with a message that starts with the fixed prefix; on a UnionOneOf it is typed `UnionOneOf`, with the fixed message; any other error keeps its message and takes the type table's name |
| Errors.RewriteError | src/tools/errors.ts:47-69 | one error's path is prefixed and then formatted, its type is named, and a Kind error on UnionEnum or UnionOneOf gets the kind's type and message |
| Errors.Enhance | src/tools/errors.ts:42-93 | with `formatPath`, no yielded error has a `/` in its path, including the errors yielded for the branches of nullable unions at any depth |
| Errors.EnhanceBranches | src/tools/errors.ts:78-82 | the same for the enhanced errors of every branch, taken in branch order |
| Errors.EnhanceErrors | src/tools/errors.ts:42-93 | the loop yields exactly `Enhance` of the errors |
| Errors.EnhanceOne | src/tools/errors.ts:47-91 | one error is either replaced by the enhanced errors of the branches of its nullable union, under the rewritten path as prefix, or yielded once as `Emit` of the rewritten error |
| Errors.EnhanceBranchErrors | src/tools/errors.ts:78-82 | the errors of each branch are enhanced in branch order, as `EnhanceBranches` says |
| Errors.EnhanceAppend | src/tools/errors.ts:46 | errors are enhanced one after another: the output for a concatenation is the concatenation of the outputs |
| Errors.PlainErrorsOneToOne | src/tools/errors.ts:86-91 | errors other than nullable-union errors give one output each, in order, with schema and value kept, the rewritten path, the overridden message, and the type passed through `snake` after the Kind override when asked |
| Errors.PlainErrorsEmitted | src/tools/errors.ts:86-91 | without nullable-union errors, yielded error `i` is error `i` with its path, type and message rewritten |
| Errors.NullableUnionErrorReplaced | src/tools/errors.ts:72-84 | a Union error on a two-branch union with a Null branch is not emitted; the enhanced errors of both branches come instead, in branch order, with the rewritten path as prefix and the other options kept |
| Errors.KindErrorRenamed | src/tools/errors.ts:59-69 | a Kind error on a UnionEnum is typed `UnionEnum` with the message listing the values; on a UnionOneOf it is typed `UnionOneOf` with the fixed message |
| Errors.UnionEnumMessageExample | src/tools/errors.test.ts:43-51 | the values `one, two, three` give `Expected one of the following: one, two, three` |
| Errors.NullishFieldExample | src/tools/errors.test.ts:64-94 | a nullable field at `/nested/nullish` whose value fails both branches yields two errors, both at `nested.nullish` |
| Errors.PrefixedSlashPathDoubleDot | src/tools/errors.ts:49 | as written, the error at `/a` inside the Object branch of a nullable union at `/n` ends up at `n..a`, beside the Null branch's root error at `n` |
| Errors.JoinPrefixFormatsOnce | src/tools/errors.ts:48-53 | with the corrected join, the formatted joined path is the formatted prefix, one `.`, and the formatted path |
| Errors.MergeErrors | src/tools/errors.ts:121-137 | the records returned are `Merged` of the errors, stripping empty paths only when `stripEmptyPaths` is true |
| Errors.FillMergedErrors | src/tools/errors.ts:125-135 | after the loop the keys in insertion order are `FirstPaths` of the error paths, and the dictionary maps each of them to its `Record` and holds nothing else |
| Errors.MergeOne | src/tools/errors.ts:126-134 | one error adds its type and message to the record at its path, opens a record, or is stripped, so that the order and the dictionary go from those of the errors before it to those of the errors up to it |
| Errors.Merged | src/tools/errors.ts:121-137 | there are no more records than errors, and no two records share a path |
| Errors.MergedOnePerPath | src/tools/errors.ts:125-136 | at most one record per path; a path has a record exactly when an error has it and it is not an empty path being stripped |
| Errors.MergedStripEmpty | src/tools/errors.ts:129-133 | with `stripEmptyPaths` true no record has the empty path; otherwise errors at the root get a record |
| Errors.MergedFromFirstErrors | src/tools/errors.ts:129-133 | each record takes path, schema and value from the first error at its path, and records come in order of those first errors |
| Errors.TypesAtLastWins | src/tools/errors.ts:127-128 | a record's dictionary has a type exactly when an error at its path has it, and then holds the message of the last such error |
| Errors.MergeLastMessageWins | src/tools/errors.ts:127-128 | two errors of one type at one path give one record holding the second message |
| Errors.MergeAggregationExample | src/tools/errors.ts:125-136 | errors `a/X`, `a/Y`, `b/X` give two records, `a` with both types and `b` with one, in that order |
| ErrorLists.MergeErrors | src/tools/utils.ts:18-34 | the records returned are `Merged` of the errors, with `stripEmptyPaths` defaulting to true |
| ErrorLists.FillMergedErrors | src/tools/utils.ts:22-33 | after the loop the keys in insertion order are `FirstPaths` of the error paths, and the dictionary maps each of them to its `Record` and holds nothing else |
| ErrorLists.MergeOne | src/tools/utils.ts:23-32 | one error is pushed onto the list of its path, opens a record, or is stripped, so that the order and the dictionary go from those of the errors before it to those of the errors up to it |
| ErrorLists.MessagesAtAppend | src/tools/utils.ts:24-31 | the list at a path is every type and message at that path in input order: the list of a concatenation is the concatenation of the lists |
| ErrorLists.MessagesAtCount | src/tools/utils.ts:25-29 | nothing is overwritten: the list at a path is as long as the number of errors at it |
| ErrorLists.Merged | src/tools/utils.ts:18-34 | there are no more records than errors, and no two records share a path |
| ErrorLists.MergedOnePerPath | src/tools/utils.ts:22-33 | at most one record per path; a path has a record exactly when an error has it and it is not stripped |
| ErrorLists.MergedFromFirstErrors | src/tools/utils.ts:26-31 | each record takes path, schema and value from the first error at its path, and records come in order of those first errors |
| ErrorLists.MergedKeepsEveryError | src/tools/utils.ts:20-33 | the lists together hold every error, less the errors at the empty path when stripping |
| ErrorLists.DefaultStripsRoot | src/tools/utils.ts:20-26 | by default an error at the root is dropped |
| ErrorLists.NoStripKeepsRoot | src/tools/utils.ts:24-31 | with `stripEmptyPaths` false an error at the root gets a record of its own |
| Kinds.Nullable | src/openapi/kinds/utility.ts:15-17 | a two-branch union of the schema and Null, in that order, with no fields of its own |
| Kinds.Nullish | src/openapi/kinds/utility.ts:20-22 | the same union, marked with the Optional modifier |
| Kinds.NullableDowngrades | src/openapi/kinds/utility.ts:15-17 | for `s` not itself Null, downgrading `Nullable(s)` gives `s` plus `nullable: true` (for a Null `s` the second, plain Null branch is taken) |
| Kinds.NullishDowngrades | src/openapi/kinds/utility.ts:20-22 | for `s` not itself Null, downgrading `Nullish(s)` gives the same, so the Optional modifier is lost unless `s` had it |
| Kinds.LiteralEnum | src/openapi/kinds/utility.ts:70-84 | a literal of the value with `type` = its runtime type and `enum` = `[value]`; the options are spread last and may replace `enum` and add fields, but `type` stays the runtime type because `Type.Literal` sets it |
| Kinds.LiteralEnumExamples | src/openapi/kinds/utility.test.ts:5-34 | `true`, `42` and `"test"` give the literals with type `boolean`, `number`, `string` and the one-element enum |
| Kinds.LiteralEnumKeepsDescription | src/openapi/kinds/utility.test.ts:36-45 | a description passed as option is kept beside `type` and `enum` |
| Kinds.LiteralEnumIsDowngraded | src/openapi/kinds/utility.ts:74-80 | the pre-check says no for a LiteralEnum exactly when its options do not set a falsy `enum`, and then the downgrade leaves it unchanged |
| Kinds.DowngradedLiteralIsLiteralEnum | src/openapi/downgrade.test.ts:8-9 | downgrading `Type.Literal(v, options)` gives `LiteralEnum(v, options)` unless the options set a falsy `enum` |
| Kinds.UnionEnumSchema | src/openapi/kinds/experimental.ts:59 | a UnionEnum of the values whose fields are the options, less any `enum` or Kind option |
| Kinds.UnionOneOfSchema | src/openapi/kinds/experimental.ts:35 | a UnionOneOf of the members whose fields are the options, less any `oneOf` or Kind option |
| Kinds.StringEnumSchema | src/openapi/kinds/utility.ts:57-62 | a UnionEnum of the strings, with `type: "string"` unless the options set `type` |
| Kinds.UnionEnumCheck | src/openapi/kinds/experimental.ts:48-56 | a value is accepted exactly when it is a string or a number that the enum lists |
| Kinds.StringEnumAccepts | src/openapi/kinds/utility.ts:57-62 | a StringEnum accepts exactly the strings it lists |
| Kinds.UnionEnumAcceptsItsValues | src/openapi/kinds/experimental.ts:48-56 | every enum value is accepted; booleans, null, arrays and objects never are |
| Kinds.CountAccepting | src/openapi/kinds/experimental.ts:26-30 | the count of accepting members never exceeds the number of members |
| Kinds.UnionOneOfCheck | src/openapi/kinds/experimental.ts:23-32 | a UnionOneOf with no members accepts nothing |
| Kinds.CountOne | src/openapi/kinds/experimental.ts:23-32 | the counting reduce gives one exactly when one member and no other accepts the value |
| Kinds.UnionOneOfAcceptsExactlyOne | src/openapi/kinds/experimental.ts:23-32 | a UnionOneOf accepts a value exactly when one and only one of its members does |
| Kinds.RegisterIfAbsent | src/openapi/kinds/experimental.ts:33-34 | the name is registered afterwards, an existing registration is kept, and no other entry changes or disappears |
| Kinds.RegisterIfAbsentIdempotent | src/openapi/kinds/experimental.ts:57-58 | registering again changes nothing, whatever check is offered |
| Kinds.TypeRegistry.UnionOneOf | src/openapi/kinds/experimental.ts:19-36 | returns the UnionOneOf schema and registers its check only if `UnionOneOf` is absent |
| Kinds.TypeRegistry.UnionEnum | src/openapi/kinds/experimental.ts:44-60 | returns the UnionEnum schema and registers its check only if `UnionEnum` is absent |
| Kinds.TypeRegistry.StringEnum | src/openapi/kinds/utility.ts:57-62 | returns the StringEnum schema and registers the UnionEnum check if absent |
| Kinds.BuildTwice | src/openapi/kinds/experimental.ts:57-58 | building a kind twice registers its check once, and a check registered earlier is kept |
| Params.GetParamSchema | src/openapi/utils.ts:15-21 | the descriptor has the given name, `required` defaulting to false, and a schema without `description`, `example` and `examples` |
| Params.GetParamSchemaRoundTrip | src/openapi/utils.ts:15-21 | putting the lifted fields back into the descriptor's schema gives the input schema: every other field is kept |
| Params.GetParamSchemas | src/openapi/utils.ts:24-28 | one descriptor per property |
| Params.GetParamSchemasPerProperty | src/openapi/utils.ts:24-28 | descriptor `i` is named after property `i`, describes its schema, and is required exactly when the object's `required` list names it |
| CompileCache.Cache.constructor | src/tools/compile.ts:4 | the cache starts empty, with nothing compiled |
| CompileCache.Cache.CacheCompile | src/tools/compile.ts:6-17 | on a hit the stored checker is returned and nothing changes; on a miss the compiler runs once and its result is stored under the schema object and returned; every schema object is compiled at most once |
| CompileCache.IdentityNotContents | src/tools/compile.ts:9-12 | two distinct schema objects with the same contents are both cached and the compiler runs twice for them; a third call on the first object, with other references, returns the cached checker and leaves the compile count at two |

## Left out

- Errors.EnhanceErrors: requires that `Value.Errors(s, v)` reports errors only against `s` or schemas nested in it. The recursion on nullable unions terminates because of this, and the code has no such guard. Nested means reached through `anyOf`, `allOf`, `oneOf`, `items`, `properties` or a leaf's children, so a nullable union under `RecordString` is covered. A schema reached through a `Ref` target, an Object's `additionalProperties`, or any other schema-valued field kept in `attrs` does not count as nested. An engine that reports errors against such a schema is outside the model, and so are the enhancement lemmas that require `ErrorsWithin`.
- Errors.Enhance: the generator is modelled as the finite sequence it yields; its laziness is not modelled.
- Errors.RewriteError: the code writes the new path and message into the error objects it was given, so the caller's errors change too; the model returns new values and does not capture that aliasing.
- Errors.MergeErrors: the model takes enhanced errors, whose types are names. The overload for raw errors runs the same code with the numeric type as dictionary key; it is covered only through the type names.
- Both merges: `path in mergedErrors` also sees the names of `Object.prototype`. An error whose path is such a name, e.g. `toString` (a root property once `formatPath` is on), finds a "record" that is a function without an `errors` field, so the code throws a TypeError (src/tools/errors.ts:127-128, src/tools/utils.ts:24-25); the model opens a record for it instead. `Object.values` also lists integer-like keys first. The model is an insertion-ordered dictionary, which is what the code gives for any other paths.
- Params.GetParamSchemas: `Object.entries` also puts integer-like property names first; the model keeps property order.
- Errors.FormatTypeBoxPath: src/tools/utils.ts:42-45 is the same function as src/tools/errors.ts:145-148 and is modelled once.
- Numbers are integers. NaN, fractions and `-0` are not modelled; they affect truthiness, `includes` and `String(n)`.
- Errors.EnumValueString: numbers are unbounded integers, while JavaScript numbers are doubles. `String(n)` switches to exponent form from 10^21 (`1e+21`), and the model writes every digit instead. Above 2^53 only some integers are doubles (2^53 + 1 is not); the model also admits the others.
- Schemas.Schema: an Object's property list may repeat a name, which a JavaScript object cannot. Every operation on it keeps the list as given, so a repeated name is carried through rather than merged.
- Errors.ErrorType: `OtherError(code)` stands for every error type other than Kind and Union. Its code is not kept apart from the numeric codes of those two, which the model tells apart by constructor instead.
- Errors.MergedError: the `errors` dictionary of a record is a `map`, so the order in which its type keys were first written (src/tools/errors.ts:128) is lost; in the code `Object.keys` lists them in that order.
- Errors.PlainErrorsOneToOne: TypeBox's `ValueError` also has an `errors` field, holding the nested errors of a union. The model's errors have no such field. The code copies it through `{ ...error, type }` (src/tools/errors.ts:91) even though the merged record types omit it (src/tools/errors.ts:95), so the lemma says nothing about that field.
- TypeBox itself (`Value.Errors`, `Value.Check`, `TypeCompiler.Compile`, the `ValueErrorType` names, `KindGuard` and `TypeGuard`) and radash's `snake` are not part of this model. They are parameters, or a guard becomes a constructor test. `Type.Literal`, `Type.Union`, `Type.Null` and `Type.Optional` are taken to build the nodes `LiteralOf`, `Union2`, `NullSchema` and `Nullish` show; in particular `Type.Literal` writes its Kind, `const` and `type: typeof value` over the options. A Null node's own `type: "null"` is implied by its constructor.
- Kinds.LiteralEnum: the `default` branch of the switch, and the `default` of the literal rule in the downgrade, cannot be reached because a literal value is a boolean, a number or a string.
- Kinds.TypeRegistry: the registry stores which check is registered, not the check function itself.
- CompileCache.Cache.CacheCompile: the compiler is a function of the schema's contents and the references; concurrent misses on one schema are not modelled, since the code is single-threaded.
- The other helpers of the kinds (`UUID`, `DateString`, `RecordString`), the NestJS decorators, pipes, interceptors and exceptions, the format registrations, the environment loader and the `Type` patching are glue around the core and are not modelled.

## Findings

| source | as written | input that shows it | evidently intended | confidence | as-written member | corrected member |
|---|---|---|---|---|---|---|
| src/tools/errors.ts:49 | the prefix is joined to the path with `.` even when the path is a TypeBox path that starts with `/` | a Union error at `/n` on `Union[Object, Null]` whose Object branch reports an error at `/a` (and whose Null branch reports one at the root), with `formatPath`: the Object branch's error comes out at `n..a` | a path that starts with `/` brings its own separator, so the error is at `n.a` | not executed | Errors.PrefixedSlashPathDoubleDot | Errors.JoinPrefixFormatsOnce |

The enhancement functions (`Enhance`, `EnhanceErrors`) keep the join as written, so that they describe what the code does. `Errors.JoinPrefix` is the corrected join. `Errors.JoinPrefixFormatsOnce` proves that it formats to one separator for every non-empty prefix and path. The errors in the library's own tests sit at the root of the branch, and both joins agree there.
