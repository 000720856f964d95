/**
 * Rewriting TypeBox validation errors (path, type name, message, and the
 * expansion of an error on a nullable union into the errors of its
 * branches), and merging errors into one record per path whose `errors`
 * dictionary maps each error type to its last message.
 */
module Errors {
  import opened Schemas
  import opened PathOrder
  import Downgrade

  /** The ValueErrorType members the core tells apart; every other member by its code. */
  datatype ErrorType = KindError | UnionError | OtherError(code: nat)

  datatype ValueError = ValueError(errorType: ErrorType, schema: Schema, path: string, value: Value, message: string)

  /** `{ ...error, type }` with the type replaced by its (possibly rewritten) name. */
  datatype EnhancedError = EnhancedError(errorType: string, schema: Schema, path: string, value: Value, message: string)

  /** EnhanceErrorsOptions; an undefined `formatPath` or `snakeCaseType` is false. */
  datatype EnhanceOptions = EnhanceOptions(prefix: Option<string>, formatPath: bool, snakeCaseType: bool)

  /**
   * What the core calls outside itself: TypeBox's `Value.Errors` (its errors
   * collected into a sequence), the `ValueErrorType[...]` name table and
   * radash's `snake`.
   */
  datatype Engine = Engine(
    errorsOf: (Schema, Value) -> seq<ValueError>,
    typeName: ErrorType -> string,
    snake: string -> string)

  /** `Value.Errors(s, v)` reports errors only against `s` or schemas inside it. */
  ghost predicate ErrorsWithin(eng: Engine) {
    forall s, v, e {:trigger e in eng.errorsOf(s, v)} :: e in eng.errorsOf(s, v) ==> Size(e.schema) <= Size(s)
  }

  // ---------------------------------------------------------------------------
  // Paths

  /** formatTypeBoxPath: drop one leading `/`, then turn every `/` into `.`. */
  function FormatTypeBoxPath(path: string): (r: string)
    ensures '/' !in r
    ensures |r| == if |path| > 0 && path[0] == '/' then |path| - 1 else |path|
    ensures var rest := if |path| > 0 && path[0] == '/' then path[1..] else path;
      forall i | 0 <= i < |r| :: if rest[i] == '/' then r[i] == '.' else r[i] == rest[i]
  {
    var rest := if |path| > 0 && path[0] == '/' then path[1..] else path;
    seq(|rest|, i requires 0 <= i < |rest| => if rest[i] == '/' then '.' else rest[i])
  }

  /** The `prefix` option, as written: `${prefix}.${path}`, or the prefix alone for an empty path. */
  function PrefixPath(prefix: Option<string>, path: string): (r: string)
    ensures |path| <= |r| && r[|r| - |path|..] == path
    ensures prefix.Some? && prefix.value != "" ==> |prefix.value| <= |r| && r[..|prefix.value|] == prefix.value
    ensures prefix.None? || prefix.value == "" ==> r == path
  {
    if prefix.Some? && prefix.value != "" then
      if path != "" then prefix.value + "." + path else prefix.value
    else path
  }

  /** The path of an enhanced error: the prefix is applied first, the formatting second. */
  function RewritePath(path: string, opts: EnhanceOptions): (r: string)
    ensures opts.formatPath ==> '/' !in r
    ensures !opts.formatPath && (opts.prefix.None? || opts.prefix.value == "") ==> r == path
  {
    var p := PrefixPath(opts.prefix, path);
    if opts.formatPath then FormatTypeBoxPath(p) else p
  }

  // ---------------------------------------------------------------------------
  // Type names and messages

  function DigitsOf(n: nat): string
    decreases n
  {
    var d := ['0', '1', '2', '3', '4', '5', '6', '7', '8', '9'][n % 10];
    if n < 10 then [d] else DigitsOf(n / 10) + [d]
  }

  /** `String(v)` for an enum member. */
  function EnumValueString(v: EnumValue): string {
    match v
    case EStr(s) => s
    case ENum(n) => if n < 0 then "-" + DigitsOf(-n) else DigitsOf(n)
  }

  /** `values.join(sep)` */
  function Join(values: seq<EnumValue>, sep: string): (r: string)
    ensures values == [] ==> r == ""
    ensures values != [] ==> var v := EnumValueString(values[0]); |v| <= |r| && r[..|v|] == v
  {
    if values == [] then ""
    else if |values| == 1 then EnumValueString(values[0])
    else
      EnumValueString(values[0]) + sep + Join(values[1..], sep)
  }

  const UnionEnumMessagePrefix := "Expected one of the following: "
  const UnionOneOfMessage := "Expected one of union value"

  /** The type name and the message once a Kind error on a UnionEnum or UnionOneOf has been rewritten. */
  function KindOverride(e: ValueError, eng: Engine): (r: (string, string))
    ensures e.errorType == KindError && e.schema.UnionEnum? ==>
      && r.0 == "UnionEnum"
      && |UnionEnumMessagePrefix| <= |r.1| && r.1[..|UnionEnumMessagePrefix|] == UnionEnumMessagePrefix
    ensures e.errorType == KindError && e.schema.UnionOneOf? ==> r == ("UnionOneOf", UnionOneOfMessage)
    ensures !(e.errorType == KindError && (e.schema.UnionEnum? || e.schema.UnionOneOf?)) ==>
      r == (eng.typeName(e.errorType), e.message)
  {
    if e.errorType == KindError && e.schema.UnionEnum? then
      ("UnionEnum", UnionEnumMessagePrefix + Join(e.schema.enum, ", "))
    else if e.errorType == KindError && e.schema.UnionOneOf? then
      ("UnionOneOf", UnionOneOfMessage)
    else
      (eng.typeName(e.errorType), e.message)
  }

  /** A Union error whose schema is a two-branch union with a Null branch. */
  predicate IsNullableUnionError(e: ValueError) {
    e.errorType == UnionError && Downgrade.IsNullableUnion(e.schema)
  }

  /** The error that is yielded for `e`, whose path has already been rewritten to `path`. */
  function Emit(e: ValueError, path: string, opts: EnhanceOptions, eng: Engine): EnhancedError {
    var (t, m) := KindOverride(e, eng);
    EnhancedError(if opts.snakeCaseType then eng.snake(t) else t, e.schema, path, e.value, m)
  }

  // ---------------------------------------------------------------------------
  // enhanceErrors

  /** No path in `out` holds a slash: every one went through formatTypeBoxPath. */
  predicate PathsFormatted(out: seq<EnhancedError>) {
    out == [] || ('/' !in out[0].path && PathsFormatted(out[1..]))
  }

  lemma {:induction false} PathsFormattedAppend(x: seq<EnhancedError>, y: seq<EnhancedError>)
    ensures PathsFormatted(x + y) <==> PathsFormatted(x) && PathsFormatted(y)
  {
    if x == [] {
      assert x + y == y;
    } else {
      assert (x + y)[0] == x[0] && (x + y)[1..] == x[1..] + y;
      PathsFormattedAppend(x[1..], y);
    }
  }

  ghost function MaxSize(errs: seq<ValueError>): nat {
    if errs == [] then 0
    else var m := MaxSize(errs[1..]); if Size(errs[0].schema) > m then Size(errs[0].schema) else m
  }

  ghost function MaxSchemaSize(ss: seq<Schema>): nat {
    if ss == [] then 0
    else var m := MaxSchemaSize(ss[1..]); if Size(ss[0]) > m then Size(ss[0]) else m
  }

  /** enhanceErrors, with the generator's output collected into a sequence. */
  function Enhance(errs: seq<ValueError>, opts: EnhanceOptions, eng: Engine): (r: seq<EnhancedError>)
    requires ErrorsWithin(eng)
    ensures opts.formatPath ==> PathsFormatted(r)
    decreases MaxSize(errs), 1, |errs|
  {
    if errs == [] then []
    else
      var e := errs[0];
      var path := RewritePath(e.path, opts);
      var rest := Enhance(errs[1..], opts, eng);
      if IsNullableUnionError(e) then
        BranchesSmaller(errs);
        var branches := EnhanceBranches(e.schema.anyOf, e.value, opts.(prefix := Some(path)), eng);
        PathsFormattedAppend(branches, rest);
        branches + rest
      else
        PathsFormattedAppend([Emit(e, path, opts, eng)], rest);
        [Emit(e, path, opts, eng)] + rest
  }

  /** The errors of `Value.Errors(b, value)`, enhanced with `opts`, for each branch `b` in turn. */
  function EnhanceBranches(branches: seq<Schema>, value: Value, opts: EnhanceOptions, eng: Engine): (r: seq<EnhancedError>)
    requires ErrorsWithin(eng)
    ensures opts.formatPath ==> PathsFormatted(r)
    decreases MaxSchemaSize(branches) + 1, 0, |branches|
  {
    if branches == [] then []
    else
      ErrorsOfSmaller(eng, branches, value);
      var first, rest := Enhance(eng.errorsOf(branches[0], value), opts, eng), EnhanceBranches(branches[1..], value, opts, eng);
      PathsFormattedAppend(first, rest);
      first + rest
  }

  /** The rewriting of one error's path, type name and message, field by field. */
  method RewriteError(e: ValueError, opts: EnhanceOptions, eng: Engine) returns (error: ValueError, errorType: string)
    ensures error == e.(path := RewritePath(e.path, opts), message := KindOverride(e, eng).1)
    ensures errorType == KindOverride(e, eng).0
  {
    error := e;
    // enhance path
    if opts.prefix.Some? && opts.prefix.value != "" {
      error := error.(path := if error.path != "" then opts.prefix.value + "." + error.path else opts.prefix.value);
    }
    if opts.formatPath {
      error := error.(path := FormatTypeBoxPath(error.path));
    }
    // enhance type
    errorType := eng.typeName(error.errorType);
    // enhance kind
    if error.errorType == KindError {
      if error.schema.UnionEnum? {
        error := error.(message := UnionEnumMessagePrefix + Join(error.schema.enum, ", "));
        errorType := "UnionEnum";
      }
      if error.schema.UnionOneOf? {
        error := error.(message := UnionOneOfMessage);
        errorType := "UnionOneOf";
      }
    }
  }

  /** enhanceErrors as the loop it is. */
  method EnhanceErrors(errs: seq<ValueError>, opts: EnhanceOptions, eng: Engine) returns (out: seq<EnhancedError>)
    requires ErrorsWithin(eng)
    ensures out == Enhance(errs, opts, eng)
    decreases MaxSize(errs), 2
  {
    out := [];
    var i := 0;
    while i < |errs|
      invariant 0 <= i <= |errs|
      invariant Enhance(errs, opts, eng) == out + Enhance(errs[i..], opts, eng)
    {
      EnhanceUnfold(errs, i, opts, eng);
      SizeInMax(errs, i);
      var more := EnhanceOne(errs[i], opts, eng);
      out := out + more;
      i := i + 1;
    }
  }

  /** `Enhance` of a suffix, one error taken off the front. */
  lemma EnhanceUnfold(errs: seq<ValueError>, i: nat, opts: EnhanceOptions, eng: Engine)
    requires ErrorsWithin(eng) && i < |errs|
    ensures var e := errs[i];
      Enhance(errs[i..], opts, eng) ==
        (if IsNullableUnionError(e)
         then EnhanceBranches(e.schema.anyOf, e.value, opts.(prefix := Some(RewritePath(e.path, opts))), eng)
         else [Emit(e, RewritePath(e.path, opts), opts, eng)])
        + Enhance(errs[i + 1..], opts, eng)
  {
    assert errs[i..][0] == errs[i] && errs[i..][1..] == errs[i + 1..];
  }

  /**
   * One turn of the loop: the error is rewritten, then either replaced by the
   * errors of the branches of its nullable union or yielded.
   */
  method EnhanceOne(e: ValueError, opts: EnhanceOptions, eng: Engine) returns (out: seq<EnhancedError>)
    requires ErrorsWithin(eng)
    ensures IsNullableUnionError(e) ==>
      out == EnhanceBranches(e.schema.anyOf, e.value, opts.(prefix := Some(RewritePath(e.path, opts))), eng)
    ensures !IsNullableUnionError(e) ==> out == [Emit(e, RewritePath(e.path, opts), opts, eng)]
    decreases Size(e.schema), 1
  {
    var error, errorType := RewriteError(e, opts, eng);
    if error.errorType == UnionError && error.schema.Union? && |error.schema.anyOf| == 2
      && (error.schema.anyOf[0].Null? || error.schema.anyOf[1].Null?)
    {
      // improve nullish unions
      MaxSchemaSizeBelow(error.schema);
      out := EnhanceBranchErrors(error.schema.anyOf, error.value, opts.(prefix := Some(error.path)), eng);
    } else {
      if opts.snakeCaseType {
        errorType := eng.snake(errorType);
      }
      out := [EnhancedError(errorType, error.schema, error.path, error.value, error.message)];
    }
  }

  /** `for (const branch of error.schema.anyOf) yield* enhanceErrors(Value.Errors(branch, error.value), ...)` */
  method EnhanceBranchErrors(branches: seq<Schema>, value: Value, opts: EnhanceOptions, eng: Engine)
    returns (out: seq<EnhancedError>)
    requires ErrorsWithin(eng)
    ensures out == EnhanceBranches(branches, value, opts, eng)
    decreases MaxSchemaSize(branches) + 1, 0
  {
    out := [];
    var j := 0;
    while j < |branches|
      invariant 0 <= j <= |branches|
      invariant EnhanceBranches(branches, value, opts, eng) == out + EnhanceBranches(branches[j..], value, opts, eng)
    {
      EnhanceBranchesUnfold(branches, j, value, opts, eng);
      ErrorsOfBounded(eng, branches[j], value);
      SchemaInMax(branches, j);
      var more := EnhanceErrors(eng.errorsOf(branches[j], value), opts, eng);
      AppendAssoc(out, more, EnhanceBranches(branches[j + 1..], value, opts, eng));
      out := out + more;
      j := j + 1;
    }
    assert branches[j..] == [] && EnhanceBranches([], value, opts, eng) == [];
    assert out + [] == out;
  }

  /** `EnhanceBranches` of a suffix, one branch taken off the front. */
  lemma EnhanceBranchesUnfold(branches: seq<Schema>, j: nat, value: Value, opts: EnhanceOptions, eng: Engine)
    requires ErrorsWithin(eng) && j < |branches|
    ensures EnhanceBranches(branches[j..], value, opts, eng)
      == Enhance(eng.errorsOf(branches[j], value), opts, eng) + EnhanceBranches(branches[j + 1..], value, opts, eng)
  {
    assert branches[j..][0] == branches[j] && branches[j..][1..] == branches[j + 1..];
  }

  // ---------------------------------------------------------------------------
  // What enhanceErrors promises

  /** The errors are enhanced one after the other: the output for a concatenation is the concatenation of the outputs. */
  lemma {:induction false} EnhanceAppend(a: seq<ValueError>, b: seq<ValueError>, opts: EnhanceOptions, eng: Engine)
    requires ErrorsWithin(eng)
    ensures Enhance(a + b, opts, eng) == Enhance(a, opts, eng) + Enhance(b, opts, eng)
  {
    if a == [] {
      assert a + b == b;
    } else {
      EnhanceAppend(a[1..], b, opts, eng);
      EnhanceAppendStep(a, b, opts, eng);
    }
  }

  /** One step of EnhanceAppend: the first error of `a` is enhanced the same way in `a` and in `a + b`. */
  lemma EnhanceAppendStep(a: seq<ValueError>, b: seq<ValueError>, opts: EnhanceOptions, eng: Engine)
    requires ErrorsWithin(eng) && a != []
    requires Enhance(a[1..] + b, opts, eng) == Enhance(a[1..], opts, eng) + Enhance(b, opts, eng)
    ensures Enhance(a + b, opts, eng) == Enhance(a, opts, eng) + Enhance(b, opts, eng)
  {
    ConsAppend(a, b);
    EnhanceUnfold(a + b, 0, opts, eng);
    EnhanceUnfold(a, 0, opts, eng);
    var e := a[0];
    var head := if IsNullableUnionError(e)
      then EnhanceBranches(e.schema.anyOf, e.value, opts.(prefix := Some(RewritePath(e.path, opts))), eng)
      else [Emit(e, RewritePath(e.path, opts), opts, eng)];
    AppendAssoc(head, Enhance(a[1..], opts, eng), Enhance(b, opts, eng));
  }

  lemma ConsAppend<T>(a: seq<T>, b: seq<T>)
    requires a != []
    ensures (a + b)[0] == a[0] && (a + b)[0..] == a + b && (a + b)[1..] == a[1..] + b && a[0..] == a
  {
  }

  lemma AppendAssoc<T>(x: seq<T>, y: seq<T>, z: seq<T>)
    ensures x + (y + z) == (x + y) + z
  {
  }

  /**
   * Errors that are not Union errors on a nullable union are emitted one for
   * one, in order; only the path, the type and the message change, and the
   * type is passed through `snake` after the Kind override.
   */
  lemma {:induction false} PlainErrorsOneToOne(errs: seq<ValueError>, opts: EnhanceOptions, eng: Engine)
    requires ErrorsWithin(eng)
    requires forall i | 0 <= i < |errs| :: !IsNullableUnionError(errs[i])
    ensures var out := Enhance(errs, opts, eng);
      && |out| == |errs|
      && forall i | 0 <= i < |errs| ::
           && out[i].schema == errs[i].schema
           && out[i].value == errs[i].value
           && out[i].path == RewritePath(errs[i].path, opts)
           && out[i].message == KindOverride(errs[i], eng).1
           && out[i].errorType == if opts.snakeCaseType then eng.snake(KindOverride(errs[i], eng).0)
                                  else KindOverride(errs[i], eng).0
  {
    PlainErrorsEmitted(errs, opts, eng);
  }

  /** Without nullable-union errors, the i-th enhanced error is the i-th error emitted. */
  lemma {:induction false} PlainErrorsEmitted(errs: seq<ValueError>, opts: EnhanceOptions, eng: Engine)
    requires ErrorsWithin(eng)
    requires forall i | 0 <= i < |errs| :: !IsNullableUnionError(errs[i])
    ensures var out := Enhance(errs, opts, eng);
      && |out| == |errs|
      && forall i | 0 <= i < |errs| :: out[i] == Emit(errs[i], RewritePath(errs[i].path, opts), opts, eng)
  {
    if errs != [] {
      PlainErrorsEmitted(errs[1..], opts, eng);
      assert errs[0..] == errs;
      EnhanceUnfold(errs, 0, opts, eng);
      var out := Enhance(errs, opts, eng);
      forall i | 0 <= i < |errs|
        ensures out[i] == Emit(errs[i], RewritePath(errs[i].path, opts), opts, eng)
      {
        if i > 0 {
          assert errs[i] == errs[1..][i - 1];
        }
      }
    }
  }

  /**
   * A Union error on a two-branch union with a Null branch is not emitted; in
   * its place come the enhanced errors of each branch, in branch order, with
   * the error's rewritten path as prefix and every other option kept.
   */
  lemma NullableUnionErrorReplaced(e: ValueError, opts: EnhanceOptions, eng: Engine)
    requires ErrorsWithin(eng) && IsNullableUnionError(e)
    ensures var sub := opts.(prefix := Some(RewritePath(e.path, opts)));
      Enhance([e], opts, eng)
      == Enhance(eng.errorsOf(e.schema.anyOf[0], e.value), sub, eng)
         + Enhance(eng.errorsOf(e.schema.anyOf[1], e.value), sub, eng)
  {
    var sub := opts.(prefix := Some(RewritePath(e.path, opts)));
    var bs := e.schema.anyOf;
    assert bs[1..][1..] == [];
    calc {
      Enhance([e], opts, eng);
      EnhanceBranches(bs, e.value, sub, eng) + Enhance([], opts, eng);
      Enhance(eng.errorsOf(bs[0], e.value), sub, eng) + EnhanceBranches(bs[1..], e.value, sub, eng);
      Enhance(eng.errorsOf(bs[0], e.value), sub, eng) + Enhance(eng.errorsOf(bs[1], e.value), sub, eng);
    }
  }

  /** A Kind error on a UnionEnum lists the enum members; one on a UnionOneOf gets a fixed message. */
  lemma KindErrorRenamed(e: ValueError, opts: EnhanceOptions, eng: Engine)
    requires ErrorsWithin(eng)
    requires e.errorType == KindError && (e.schema.UnionEnum? || e.schema.UnionOneOf?)
    ensures var name := if e.schema.UnionEnum? then "UnionEnum" else "UnionOneOf";
      Enhance([e], opts, eng) == [EnhancedError(
        if opts.snakeCaseType then eng.snake(name) else name,
        e.schema,
        RewritePath(e.path, opts),
        e.value,
        if e.schema.UnionEnum? then UnionEnumMessagePrefix + Join(e.schema.enum, ", ") else UnionOneOfMessage)]
  {
  }

  /** The values of a UnionEnum are joined with ", " after the fixed prefix. */
  lemma UnionEnumMessageExample()
    ensures UnionEnumMessagePrefix + Join([EStr("one"), EStr("two"), EStr("three")], ", ")
            == "Expected one of the following: one, two, three"
  {
    var values := [EStr("one"), EStr("two"), EStr("three")];
    assert values[1..] == [EStr("two"), EStr("three")] && values[1..][1..] == [EStr("three")];
    assert Join(values[1..][1..], ", ") == "three";
    assert Join(values[1..], ", ") == "two" + ", " + "three";
    assert Join(values, ", ") == "one" + ", " + "two, three";
  }

  /**
   * A nullable union field inside an object whose value fails both branches:
   * each branch reports one error at its own root, and both errors are
   * emitted at the dotted path of the field.
   */
  lemma NullishFieldExample(eng: Engine, string_: Schema, v: Value, a: ValueError, b: ValueError)
    requires ErrorsWithin(eng)
    requires eng.errorsOf(string_, v) == [a] && a.path == "" && !IsNullableUnionError(a)
    requires eng.errorsOf(Null(map[]), v) == [b] && b.path == "" && !IsNullableUnionError(b)
    ensures var e := ValueError(UnionError, Union([string_, Null(map[])], map[]), "/nested/nullish", v, "");
      var out := Enhance([e], EnhanceOptions(None, true, true), eng);
      |out| == 2 && out[0].path == "nested.nullish" && out[1].path == "nested.nullish"
      && out[0].schema == a.schema && out[1].schema == b.schema
  {
    var e := ValueError(UnionError, Union([string_, Null(map[])], map[]), "/nested/nullish", v, "");
    var opts := EnhanceOptions(None, true, true);
    NestedNullishPaths();
    NullableUnionErrorReplaced(e, opts, eng);
    var sub := opts.(prefix := Some("nested.nullish"));
    PlainErrorsEmitted([a], sub, eng);
    PlainErrorsEmitted([b], sub, eng);
  }

  /** The paths in NullishFieldExample: the field's path formatted, and the branches' empty paths prefixed with it. */
  lemma NestedNullishPaths()
    ensures RewritePath("/nested/nullish", EnhanceOptions(None, true, true)) == "nested.nullish"
    ensures RewritePath("", EnhanceOptions(Some("nested.nullish"), true, true)) == "nested.nullish"
  {
    assert FormatTypeBoxPath("/nested/nullish") == "nested.nullish";
    assert FormatTypeBoxPath("nested.nullish") == "nested.nullish";
  }

  // ---------------------------------------------------------------------------
  // Paths: examples and laws

  lemma FormatTypeBoxPathExample()
    ensures FormatTypeBoxPath("/a/b/c") == "a.b.c"
  {
  }

  /** A path without `/` is already formatted, so formatting twice is formatting once. */
  lemma FormatTypeBoxPathIdempotent(path: string)
    ensures '/' !in path ==> FormatTypeBoxPath(path) == path
    ensures FormatTypeBoxPath(FormatTypeBoxPath(path)) == FormatTypeBoxPath(path)
  {
    var r := FormatTypeBoxPath(path);
    assert '/' !in r;
    if |r| > 0 {
      assert r[0] in r;
    }
    if '/' !in path && |path| > 0 {
      assert path[0] in path;
    }
  }

  /** The `prefix` option on an error at the root gives the prefix itself as path. */
  lemma PrefixOnRootExample()
    ensures RewritePath("", EnhanceOptions(Some("email"), true, true)) == "email"
  {
  }

  /** How the prefix is applied, before formatting: an absent or empty prefix leaves the path alone. */
  lemma PrefixCases(prefix: Option<string>, path: string)
    ensures prefix.None? || prefix.value == "" ==> PrefixPath(prefix, path) == path
    ensures prefix.Some? && prefix.value != "" && path == "" ==> PrefixPath(prefix, path) == prefix.value
    ensures prefix.Some? && prefix.value != "" && path != "" ==>
      && PrefixPath(prefix, path)[..|prefix.value|] == prefix.value
      && PrefixPath(prefix, path)[|prefix.value|] == '.'
      && PrefixPath(prefix, path)[|prefix.value| + 1..] == path
  {
  }

  // ---------------------------------------------------------------------------
  // Joining a prefix to a TypeBox path

  /**
   * As written, a prefix joined to a TypeBox path (which starts with `/`)
   * gets two separators: the error at `/a` of the Object branch of a
   * nullable union at `/n` ends up at `n..a`.
   */
  lemma PrefixedSlashPathDoubleDot(eng: Engine, obj: Schema, v: Value, inner: ValueError, b: ValueError)
    requires ErrorsWithin(eng)
    requires eng.errorsOf(obj, v) == [inner] && inner.path == "/a" && !IsNullableUnionError(inner)
    requires eng.errorsOf(Null(map[]), v) == [b] && b.path == "" && !IsNullableUnionError(b)
    ensures var e := ValueError(UnionError, Union([obj, Null(map[])], map[]), "/n", v, "");
      var out := Enhance([e], EnhanceOptions(None, true, false), eng);
      |out| == 2 && out[0].path == "n..a" && out[1].path == "n"
  {
    var e := ValueError(UnionError, Union([obj, Null(map[])], map[]), "/n", v, "");
    var opts := EnhanceOptions(None, true, false);
    DoubleDotPaths();
    NullableUnionErrorReplaced(e, opts, eng);
    var sub := opts.(prefix := Some("n"));
    PlainErrorsEmitted([inner], sub, eng);
    PlainErrorsEmitted([b], sub, eng);
  }

  /** The paths in PrefixedSlashPathDoubleDot: the union's path, and the two branch paths under its prefix. */
  lemma DoubleDotPaths()
    ensures RewritePath("/n", EnhanceOptions(None, true, false)) == "n"
    ensures RewritePath("/a", EnhanceOptions(Some("n"), true, false)) == "n..a"
    ensures RewritePath("", EnhanceOptions(Some("n"), true, false)) == "n"
  {
    assert FormatTypeBoxPath("/n") == "n";
    assert PrefixPath(Some("n"), "/a") == "n./a";
    assert FormatTypeBoxPath("n./a") == "n..a";
    assert FormatTypeBoxPath("n") == "n";
  }

  /** The join evidently intended: a path that already starts with `/` brings its own separator. */
  function JoinPrefix(prefix: string, path: string): string {
    if prefix == "" then path
    else if path == "" then prefix
    else if path[0] == '/' then prefix + path
    else prefix + "." + path
  }

  /** With the intended join, formatting the joined path is formatting each part and joining them with one dot. */
  lemma JoinPrefixFormatsOnce(prefix: string, path: string)
    requires prefix != "" && path != ""
    ensures FormatTypeBoxPath(JoinPrefix(prefix, path))
            == FormatTypeBoxPath(prefix) + "." + FormatTypeBoxPath(path)
  {
    var j := JoinPrefix(prefix, path);
    var pr := if prefix[0] == '/' then prefix[1..] else prefix;
    var rest := if path[0] == '/' then path[1..] else path;
    var sep := if path[0] == '/' then "/" else ".";
    assert j[0] == prefix[0];
    var jr := if j[0] == '/' then j[1..] else j;
    assert jr == pr + sep + rest by {
      if path[0] == '/' {
        assert path == "/" + rest;
      }
    }
    DottedIsFormat(j);
    DottedIsFormat(prefix);
    DottedIsFormat(path);
    DottedConcat(pr + sep, rest);
    DottedConcat(pr, sep);
  }

  /** Every `/` turned into `.`. */
  function Dotted(s: string): string {
    seq(|s|, i requires 0 <= i < |s| => if s[i] == '/' then '.' else s[i])
  }

  lemma DottedIsFormat(path: string)
    ensures FormatTypeBoxPath(path) == Dotted(if |path| > 0 && path[0] == '/' then path[1..] else path)
  {
  }

  lemma DottedConcat(x: string, y: string)
    ensures Dotted(x + y) == Dotted(x) + Dotted(y)
  {
  }

  // ---------------------------------------------------------------------------
  // mergeErrors: one record per path, each error type mapped to its last message

  /** A merged record: the fields of the first error at `path`, and `errors` from type name to message. */
  datatype MergedError = MergedError(path: string, schema: Schema, value: Value, errors: map<string, string>)

  function PathsOf(errs: seq<EnhancedError>): (r: seq<string>)
    ensures |r| == |errs| && forall i | 0 <= i < |errs| :: r[i] == errs[i].path
  {
    seq(|errs|, i requires 0 <= i < |errs| => errs[i].path)
  }

  /** The `errors` dictionary of the record at `p`: every error at `p` written into it in turn. */
  function TypesAt(errs: seq<EnhancedError>, p: string): map<string, string> {
    if errs == [] then map[]
    else
      var m := TypesAt(errs[..|errs| - 1], p);
      var e := errs[|errs| - 1];
      if e.path == p then m[e.errorType := e.message] else m
  }

  /** The record for path `p` once every error in `errs` has been seen. */
  function Record(errs: seq<EnhancedError>, p: string): MergedError
    requires p in PathsOf(errs)
  {
    var first := errs[FirstIndex(PathsOf(errs), p)];
    MergedError(p, first.schema, first.value, TypesAt(errs, p))
  }

  /** `Object.values(mergedErrors)`: one record per kept path, in order of first appearance. */
  function Merged(errs: seq<EnhancedError>, strip: bool): (r: seq<MergedError>)
    ensures |r| <= |errs|
    ensures forall i, j | 0 <= i < j < |r| :: r[i].path != r[j].path
  {
    var order := FirstPaths(PathsOf(errs), strip);
    seq(|order|, n requires 0 <= n < |order| => Record(errs, order[n]))
  }

  /** mergeErrors over enhanced errors; an undefined `stripEmptyPaths` keeps the empty path. */
  method MergeErrors(errs: seq<EnhancedError>, stripEmptyPaths: Option<bool>) returns (merged: seq<MergedError>)
    ensures merged == Merged(errs, stripEmptyPaths == Some(true))
  {
    var strip := stripEmptyPaths == Some(true);
    var order, mergedErrors := FillMergedErrors(errs, strip);
    merged := seq(|order|, n requires 0 <= n < |order| => mergedErrors[order[n]]);
  }

  /** The loop of mergeErrors: the dictionary, and its keys in insertion order. */
  method FillMergedErrors(errs: seq<EnhancedError>, strip: bool)
    returns (order: seq<string>, mergedErrors: map<string, MergedError>)
    ensures order == FirstPaths(PathsOf(errs), strip) && mergedErrors == Table(errs, strip)
  {
    order := [];
    mergedErrors := map[];
    ghost var seen: seq<EnhancedError> := [];
    TableEmpty(strip);
    var i := 0;
    while i < |errs|
      invariant 0 <= i <= |errs| && seen == errs[..i]
      invariant order == FirstPaths(PathsOf(seen), strip) && mergedErrors == Table(seen, strip)
    {
      order, mergedErrors := MergeOne(seen, errs[i], strip, order, mergedErrors);
      seen := seen + [errs[i]];
      assert seen == errs[..i + 1];
      i := i + 1;
    }
    assert seen == errs;
  }

  /** One turn of the loop: the error opens a record, updates its path's record, or is stripped. */
  method MergeOne(ghost seen: seq<EnhancedError>, error: EnhancedError, strip: bool,
                  order: seq<string>, mergedErrors: map<string, MergedError>)
    returns (order': seq<string>, mergedErrors': map<string, MergedError>)
    requires order == FirstPaths(PathsOf(seen), strip) && mergedErrors == Table(seen, strip)
    ensures order' == FirstPaths(PathsOf(seen + [error]), strip) && mergedErrors' == Table(seen + [error], strip)
  {
    TableIsMergeInv(seen, strip, order, mergedErrors);
    order', mergedErrors' := order, mergedErrors;
    if error.path in mergedErrors {
      var r := mergedErrors[error.path];
      StepSeenPath(seen, error, strip, order, mergedErrors);
      mergedErrors' := mergedErrors[error.path := r.(errors := r.errors[error.errorType := error.message])];
    } else if !strip || error.path != "" {
      StepNewPath(seen, error, strip, order, mergedErrors);
      mergedErrors' := mergedErrors[error.path := MergedError(error.path, error.schema, error.value, map[error.errorType := error.message])];
      order' := order + [error.path];
    } else {
      StepStrippedPath(seen, error, strip, order, mergedErrors);
    }
    TableIsMergeInv(seen + [error], strip, order', mergedErrors');
  }

  /** The dictionary and its insertion order after the errors `seen`. */
  ghost predicate MergeInv(seen: seq<EnhancedError>, strip: bool, order: seq<string>, table: map<string, MergedError>) {
    && order == FirstPaths(PathsOf(seen), strip)
    && (forall p :: p in table <==> p in order)
    && forall p | p in table :: p in PathsOf(seen) && table[p] == Record(seen, p)
  }

  lemma StepSeenPath(seen: seq<EnhancedError>, e: EnhancedError, strip: bool, order: seq<string>, table: map<string, MergedError>)
    requires MergeInv(seen, strip, order, table) && e.path in table
    ensures var r := table[e.path];
      MergeInv(seen + [e], strip, order, table[e.path := r.(errors := r.errors[e.errorType := e.message])])
  {
    var all := seen + [e];
    var r := table[e.path];
    var table' := table[e.path := r.(errors := r.errors[e.errorType := e.message])];
    RecordsStep(seen, e);
    assert e.path in PathsOf(seen);
    forall p | p in table'
      ensures p in PathsOf(all) && table'[p] == Record(all, p)
    {
      assert p in table && p in PathsOf(seen);
    }
    MergeInvIntro(all, strip, order, table');
  }

  lemma StepNewPath(seen: seq<EnhancedError>, e: EnhancedError, strip: bool, order: seq<string>, table: map<string, MergedError>)
    requires MergeInv(seen, strip, order, table) && e.path !in table && Kept(e.path, strip)
    ensures MergeInv(seen + [e], strip, order + [e.path],
                     table[e.path := MergedError(e.path, e.schema, e.value, map[e.errorType := e.message])])
  {
    var all := seen + [e];
    var table' := table[e.path := MergedError(e.path, e.schema, e.value, map[e.errorType := e.message])];
    RecordsStep(seen, e);
    assert e.path !in PathsOf(seen) by {
      assert e.path !in order;
    }
    forall p | p in table'
      ensures p in PathsOf(all) && table'[p] == Record(all, p)
    {
      if p != e.path {
        assert p in table && p in PathsOf(seen);
      }
    }
    MergeInvIntro(all, strip, order + [e.path], table');
  }

  /** The dictionary after the errors `seen`: the record of every kept path. */
  ghost function Table(seen: seq<EnhancedError>, strip: bool): map<string, MergedError> {
    map p | p in FirstPaths(PathsOf(seen), strip) :: Record(seen, p)
  }

  lemma TableEmpty(strip: bool)
    ensures [] == FirstPaths(PathsOf([]), strip) && map[] == Table([], strip)
  {
    assert PathsOf([]) == [];
  }

  /** The invariant says exactly that the dictionary is `Table`. */
  lemma TableIsMergeInv(seen: seq<EnhancedError>, strip: bool, order: seq<string>, table: map<string, MergedError>)
    ensures MergeInv(seen, strip, order, table) <==> order == FirstPaths(PathsOf(seen), strip) && table == Table(seen, strip)
  {
    if order == FirstPaths(PathsOf(seen), strip) && table == Table(seen, strip) {
      MergeInvIntro(seen, strip, order, table);
    }
  }

  /** MergeInv, one conjunct at a time. */
  lemma MergeInvIntro(seen: seq<EnhancedError>, strip: bool, order: seq<string>, table: map<string, MergedError>)
    requires order == FirstPaths(PathsOf(seen), strip)
    requires forall p :: p in table <==> p in order
    requires forall p | p in table :: p in PathsOf(seen) && table[p] == Record(seen, p)
    ensures MergeInv(seen, strip, order, table)
  {
  }

  lemma StepStrippedPath(seen: seq<EnhancedError>, e: EnhancedError, strip: bool, order: seq<string>, table: map<string, MergedError>)
    requires MergeInv(seen, strip, order, table) && e.path !in table && !Kept(e.path, strip)
    ensures MergeInv(seen + [e], strip, order, table)
  {
    RecordsStep(seen, e);
    forall p | p in table
      ensures p in PathsOf(seen + [e]) && table[p] == Record(seen + [e], p)
    {
      assert p in order && p != e.path;
    }
    MergeInvIntro(seen + [e], strip, order, table);
  }

  function FirstPathsStep(ps: seq<string>, p: string, strip: bool): seq<string> {
    if p in ps || !Kept(p, strip) then ps else ps + [p]
  }

  /** What one more error does to the insertion order and to the records of every path. */
  lemma RecordsStep(before: seq<EnhancedError>, e: EnhancedError)
    ensures PathsOf(before + [e]) == PathsOf(before) + [e.path]
    ensures forall strip :: FirstPaths(PathsOf(before + [e]), strip) == FirstPathsStep(FirstPaths(PathsOf(before), strip), e.path, strip)
    ensures forall p | p in PathsOf(before) && p != e.path :: Record(before + [e], p) == Record(before, p)
    ensures e.path in PathsOf(before) ==>
      var r := Record(before, e.path);
      Record(before + [e], e.path) == r.(errors := r.errors[e.errorType := e.message])
    ensures e.path !in PathsOf(before) ==>
      Record(before + [e], e.path) == MergedError(e.path, e.schema, e.value, map[e.errorType := e.message])
  {
    var all := before + [e];
    assert all[..|all| - 1] == before;
    assert PathsOf(all) == PathsOf(before) + [e.path];
    assert PathsOf(all)[..|all| - 1] == PathsOf(before);
    forall p | p in PathsOf(before)
      ensures FirstIndex(PathsOf(all), p) == FirstIndex(PathsOf(before), p)
    {
      FirstIndexAppend(PathsOf(before), e.path, p);
    }
    if e.path !in PathsOf(before) {
      FirstIndexNew(PathsOf(before), e.path);
      TypesAtUnseen(before, e.path);
    }
  }

  /**
   * At most one record per path; a path has a record exactly when some error
   * has that path and it is not an empty path being stripped.
   */
  lemma MergedOnePerPath(errs: seq<EnhancedError>, strip: bool)
    ensures var m := Merged(errs, strip);
      && (forall i, j | 0 <= i < j < |m| :: m[i].path != m[j].path)
      && (forall n | 0 <= n < |m| :: Kept(m[n].path, strip) && exists i | 0 <= i < |errs| :: errs[i].path == m[n].path)
      && (forall i | 0 <= i < |errs| && Kept(errs[i].path, strip) :: exists n | 0 <= n < |m| :: m[n].path == errs[i].path)
  {
    var m := Merged(errs, strip);
    var paths := PathsOf(errs);
    var order := FirstPaths(paths, strip);
    forall n | 0 <= n < |m|
      ensures Kept(m[n].path, strip) && exists i | 0 <= i < |errs| :: errs[i].path == m[n].path
    {
      assert order[n] in order;
      var i := FirstIndex(paths, order[n]);
      assert errs[i].path == m[n].path;
    }
    forall i | 0 <= i < |errs| && Kept(errs[i].path, strip)
      ensures exists n | 0 <= n < |m| :: m[n].path == errs[i].path
    {
      assert paths[i] in paths;
      var n :| 0 <= n < |order| && order[n] == errs[i].path;
      assert m[n].path == errs[i].path;
    }
  }

  /** With `stripEmptyPaths` set no record has the empty path; unset, errors at the root get a record. */
  lemma MergedStripEmpty(errs: seq<EnhancedError>, stripEmptyPaths: Option<bool>)
    ensures var m := Merged(errs, stripEmptyPaths == Some(true));
      && (stripEmptyPaths == Some(true) ==> forall n | 0 <= n < |m| :: m[n].path != "")
      && (stripEmptyPaths != Some(true) && (exists i | 0 <= i < |errs| :: errs[i].path == "") ==>
            exists n | 0 <= n < |m| :: m[n].path == "")
  {
    var strip := stripEmptyPaths == Some(true);
    var m := Merged(errs, strip);
    MergedOnePerPath(errs, strip);
    if !strip && exists i | 0 <= i < |errs| :: errs[i].path == "" {
      var i :| 0 <= i < |errs| && errs[i].path == "";
      assert Kept(errs[i].path, strip);
    }
  }

  /** Records come in order of the first appearance of their paths, and take their other fields from that first error. */
  lemma MergedFromFirstErrors(errs: seq<EnhancedError>, strip: bool)
    ensures var m := Merged(errs, strip);
      forall n | 0 <= n < |m| :: exists i | 0 <= i < |errs| ::
        && errs[i].path == m[n].path && m[n].schema == errs[i].schema && m[n].value == errs[i].value
        && (forall j | 0 <= j < i :: errs[j].path != m[n].path)
        && (forall n', j | n < n' < |m| && 0 <= j <= i :: errs[j].path != m[n'].path)
  {
    var m := Merged(errs, strip);
    var paths := PathsOf(errs);
    var order := FirstPaths(paths, strip);
    FirstPathsInOrder(paths, strip);
    forall n | 0 <= n < |m|
      ensures exists i | 0 <= i < |errs| ::
        && errs[i].path == m[n].path && m[n].schema == errs[i].schema && m[n].value == errs[i].value
        && (forall j | 0 <= j < i :: errs[j].path != m[n].path)
        && (forall n', j | n < n' < |m| && 0 <= j <= i :: errs[j].path != m[n'].path)
    {
      var i := FirstIndex(paths, order[n]);
      assert m[n] == Record(errs, order[n]);
      assert errs[i].path == m[n].path && m[n].schema == errs[i].schema && m[n].value == errs[i].value;
      assert forall j | 0 <= j < i :: paths[j] != order[n];
      forall n', j | n < n' < |m| && 0 <= j <= i
        ensures errs[j].path != m[n'].path
      {
        var i' := FirstIndex(paths, order[n']);
        assert m[n'] == Record(errs, order[n']);
        assert i < i' && paths[j] != order[n'];
      }
    }
  }

  /**
   * The dictionary of a record maps a type exactly when some error at that
   * path has it, and then to the message of the last such error.
   */
  lemma {:induction false} TypesAtLastWins(errs: seq<EnhancedError>, p: string)
    ensures forall t :: t in TypesAt(errs, p) <==> exists i | 0 <= i < |errs| :: errs[i].path == p && errs[i].errorType == t
    ensures forall i | 0 <= i < |errs| && errs[i].path == p
                       && (forall j | i < j < |errs| :: errs[j].path != p || errs[j].errorType != errs[i].errorType) ::
              errs[i].errorType in TypesAt(errs, p) && TypesAt(errs, p)[errs[i].errorType] == errs[i].message
  {
    if errs != [] {
      var init := errs[..|errs| - 1];
      var last := errs[|errs| - 1];
      TypesAtLastWins(init, p);
      forall t ensures t in TypesAt(errs, p) <==> exists i | 0 <= i < |errs| :: errs[i].path == p && errs[i].errorType == t {
        if exists i | 0 <= i < |init| :: init[i].path == p && init[i].errorType == t {
          var i :| 0 <= i < |init| && init[i].path == p && init[i].errorType == t;
          assert errs[i] == init[i];
        }
      }
      forall i | 0 <= i < |errs| && errs[i].path == p
                 && (forall j | i < j < |errs| :: errs[j].path != p || errs[j].errorType != errs[i].errorType)
        ensures errs[i].errorType in TypesAt(errs, p) && TypesAt(errs, p)[errs[i].errorType] == errs[i].message
      {
        if i < |init| {
          assert errs[i] == init[i];
          assert forall j | i < j < |init| :: init[j] == errs[j];
        }
      }
    }
  }

  /** Several errors of one type at one path: the last message wins. */
  lemma MergeLastMessageWins(s: Schema, v: Value)
    ensures var errs := [EnhancedError("string_format", s, "email", v, "first"),
                         EnhancedError("string_format", s, "email", v, "second")];
      Merged(errs, false) == [MergedError("email", s, v, map["string_format" := "second"])]
  {
    var errs := [EnhancedError("string_format", s, "email", v, "first"),
                 EnhancedError("string_format", s, "email", v, "second")];
    SamePathTwice(errs[0], errs[1]);
    assert Record(errs, "email") == MergedError("email", s, v, map["string_format" := "second"]);
  }

  /** Two errors of one type at one path: one key, whose dictionary holds the second message. */
  lemma SamePathTwice(a: EnhancedError, b: EnhancedError)
    requires a.path == b.path && a.errorType == b.errorType
    ensures PathsOf([a, b]) == [a.path, a.path]
    ensures FirstPaths(PathsOf([a, b]), false) == [a.path]
    ensures FirstIndex(PathsOf([a, b]), a.path) == 0
    ensures TypesAt([a, b], a.path) == map[a.errorType := b.message]
  {
    SamePathTwicePaths(a.path);
    SamePathTwiceTypes(a, b);
  }

  lemma SamePathTwicePaths(p: string)
    ensures FirstPaths([p, p], false) == [p]
  {
    assert [p, p][..1] == [p] && [p][..0] == [];
    assert FirstPaths([p], false) == [p];
  }

  lemma SamePathTwiceTypes(a: EnhancedError, b: EnhancedError)
    requires a.path == b.path
    ensures TypesAt([a, b], a.path) == TypesAt([a], a.path)[b.errorType := b.message] == map[a.errorType := a.message][b.errorType := b.message]
  {
    assert [a, b][..1] == [a] && [a][..0] == [];
  }

  /** Two types at one path and one at another give two records, in order, each with its own dictionary. */
  lemma MergeAggregationExample(s: Schema, v: Value)
    ensures var errs := [EnhancedError("X", s, "a", v, "m1"), EnhancedError("Y", s, "a", v, "m2"),
                         EnhancedError("X", s, "b", v, "m3")];
      Merged(errs, false) == [MergedError("a", s, v, map["X" := "m1", "Y" := "m2"]),
                              MergedError("b", s, v, map["X" := "m3"])]
  {
    var errs := [EnhancedError("X", s, "a", v, "m1"), EnhancedError("Y", s, "a", v, "m2"),
                 EnhancedError("X", s, "b", v, "m3")];
    AggregationPaths(errs);
    AggregationTypes(errs);
    var m := Merged(errs, false);
    assert |m| == 2 && m[0] == Record(errs, "a") && m[1] == Record(errs, "b");
  }

  lemma AggregationPaths(errs: seq<EnhancedError>)
    requires |errs| == 3 && errs[0].path == "a" && errs[1].path == "a" && errs[2].path == "b"
    ensures FirstPaths(PathsOf(errs), false) == ["a", "b"]
    ensures FirstIndex(PathsOf(errs), "a") == 0 && FirstIndex(PathsOf(errs), "b") == 2
  {
    var paths := PathsOf(errs);
    assert paths == ["a", "a", "b"];
    FirstPathsOfAAB();
  }

  lemma FirstPathsOfAAB()
    ensures FirstPaths(["a", "a", "b"], false) == ["a", "b"]
    ensures FirstIndex(["a", "a", "b"], "a") == 0 && FirstIndex(["a", "a", "b"], "b") == 2
  {
    var aab := ["a", "a", "b"];
    SamePathTwicePaths("a");
    assert aab[..2] == ["a", "a"];
    FirstIndexOfAAB();
  }

  lemma FirstIndexOfAAB()
    ensures FirstIndex(["a", "a", "b"], "a") == 0 && FirstIndex(["a", "a", "b"], "b") == 2
  {
    var aab := ["a", "a", "b"];
    assert aab[1..] == ["a", "b"] && ["a", "b"][1..] == ["b"];
  }

  lemma AggregationTypes(errs: seq<EnhancedError>)
    requires |errs| == 3
    requires errs[0].path == "a" && errs[0].errorType == "X" && errs[0].message == "m1"
    requires errs[1].path == "a" && errs[1].errorType == "Y" && errs[1].message == "m2"
    requires errs[2].path == "b" && errs[2].errorType == "X" && errs[2].message == "m3"
    ensures TypesAt(errs, "a") == map["X" := "m1", "Y" := "m2"]
    ensures TypesAt(errs, "b") == map["X" := "m3"]
  {
    var e1, e2 := errs[0], errs[1];
    assert errs[..2] == [e1, e2] && [e1, e2][..1] == [e1] && [e1][..0] == [];
    assert TypesAt([e1], "a") == map["X" := "m1"];
    assert PathsOf([e1, e2]) == ["a", "a"];
    TypesAtUnseen([e1, e2], "b");
  }

  /** No error at `p` means an empty dictionary. */
  lemma {:induction false} TypesAtUnseen(errs: seq<EnhancedError>, p: string)
    requires p !in PathsOf(errs)
    ensures TypesAt(errs, p) == map[]
  {
    if errs != [] {
      var init := errs[..|errs| - 1];
      assert PathsOf(errs) == PathsOf(init) + [errs[|errs| - 1].path];
      TypesAtUnseen(init, p);
    }
  }

  // ---------------------------------------------------------------------------
  // Termination: the errors of a branch are reported against smaller schemas

  lemma {:induction false} SizeInMax(errs: seq<ValueError>, i: nat)
    requires i < |errs|
    ensures Size(errs[i].schema) <= MaxSize(errs)
  {
    if i > 0 {
      SizeInMax(errs[1..], i - 1);
    }
  }

  lemma {:induction false} SchemaInMax(ss: seq<Schema>, i: nat)
    requires i < |ss|
    ensures Size(ss[i]) <= MaxSchemaSize(ss)
  {
    if i > 0 {
      SchemaInMax(ss[1..], i - 1);
    }
  }

  lemma {:induction false} MaxSizeAtMost(errs: seq<ValueError>, n: nat)
    requires forall e | e in errs :: Size(e.schema) <= n
    ensures MaxSize(errs) <= n
  {
    if errs != [] {
      assert errs[0] in errs;
      MaxSizeAtMost(errs[1..], n);
    }
  }

  lemma {:induction false} MaxSchemaSizeAtMostSum(ss: seq<Schema>)
    ensures MaxSchemaSize(ss) <= SizeAll(ss)
  {
    if ss != [] {
      MaxSchemaSizeAtMostSum(ss[1..]);
    }
  }

  lemma MaxSchemaSizeBelow(s: Schema)
    requires s.Union?
    ensures MaxSchemaSize(s.anyOf) < Size(s)
  {
    MaxSchemaSizeAtMostSum(s.anyOf);
  }

  lemma ErrorsOfBounded(eng: Engine, s: Schema, v: Value)
    requires ErrorsWithin(eng)
    ensures MaxSize(eng.errorsOf(s, v)) <= Size(s)
  {
    MaxSizeAtMost(eng.errorsOf(s, v), Size(s));
  }

  lemma BranchesSmaller(errs: seq<ValueError>)
    requires errs != [] && errs[0].schema.Union?
    ensures MaxSchemaSize(errs[0].schema.anyOf) + 1 <= MaxSize(errs)
  {
    SizeInMax(errs, 0);
    MaxSchemaSizeBelow(errs[0].schema);
  }

  lemma ErrorsOfSmaller(eng: Engine, branches: seq<Schema>, v: Value)
    requires ErrorsWithin(eng) && branches != []
    ensures MaxSize(eng.errorsOf(branches[0], v)) < MaxSchemaSize(branches) + 1
  {
    ErrorsOfBounded(eng, branches[0], v);
    SchemaInMax(branches, 0);
  }
}
