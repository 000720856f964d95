/**
 * The older `mergeErrors` of the tools utilities: TypeBox's raw errors are
 * merged into one record per path whose `errors` list collects every
 * `{ type, message }` pair at that path, in order; empty paths are stripped
 * unless the caller passes `false`.
 */
module ErrorLists {
  import opened Schemas
  import opened PathOrder
  import Errors

  datatype TypedMessage = TypedMessage(errorType: Errors.ErrorType, message: string)

  /** A merged record: the fields of the first error at `path`, and every type and message at it. */
  datatype ListRecord = ListRecord(path: string, schema: Schema, value: Value, errors: seq<TypedMessage>)

  function PathsOf(errs: seq<Errors.ValueError>): (r: seq<string>)
    ensures |r| == |errs| && forall i | 0 <= i < |errs| :: r[i] == errs[i].path
  {
    seq(|errs|, i requires 0 <= i < |errs| => errs[i].path)
  }

  /** The `errors` list of the record at `p`: one entry pushed per error at `p`. */
  function MessagesAt(errs: seq<Errors.ValueError>, p: string): seq<TypedMessage> {
    if errs == [] then []
    else
      var m := MessagesAt(errs[..|errs| - 1], p);
      var e := errs[|errs| - 1];
      if e.path == p then m + [TypedMessage(e.errorType, e.message)] else m
  }

  /** The record for path `p` once every error in `errs` has been seen. */
  function Record(errs: seq<Errors.ValueError>, p: string): ListRecord
    requires p in PathsOf(errs)
  {
    var first := errs[FirstIndex(PathsOf(errs), p)];
    ListRecord(p, first.schema, first.value, MessagesAt(errs, p))
  }

  /** `Object.values(mergedErrors)`: one record per kept path, in order of first appearance. */
  function Merged(errs: seq<Errors.ValueError>, strip: bool): (r: seq<ListRecord>)
    ensures |r| <= |errs|
    ensures forall i, j | 0 <= i < j < |r| :: r[i].path != r[j].path
  {
    var order := FirstPaths(PathsOf(errs), strip);
    seq(|order|, n requires 0 <= n < |order| => Record(errs, order[n]))
  }

  /** mergeErrors; `stripEmptyPaths` defaults to true. */
  method MergeErrors(errs: seq<Errors.ValueError>, stripEmptyPaths: Option<bool>) returns (merged: seq<ListRecord>)
    ensures merged == Merged(errs, stripEmptyPaths.GetOr(true))
  {
    var strip := stripEmptyPaths.GetOr(true);
    var order, mergedErrors := FillMergedErrors(errs, strip);
    merged := seq(|order|, n requires 0 <= n < |order| => mergedErrors[order[n]]);
  }

  /** The dictionary and its insertion order after the errors `seen`. */
  ghost predicate MergeInv(seen: seq<Errors.ValueError>, strip: bool, order: seq<string>, table: map<string, ListRecord>) {
    && order == FirstPaths(PathsOf(seen), strip)
    && (forall p :: p in table <==> p in order)
    && forall p | p in table :: p in PathsOf(seen) && table[p] == Record(seen, p)
  }

  /** The loop of mergeErrors: the dictionary, and its keys in insertion order. */
  method FillMergedErrors(errs: seq<Errors.ValueError>, strip: bool)
    returns (order: seq<string>, mergedErrors: map<string, ListRecord>)
    ensures order == FirstPaths(PathsOf(errs), strip) && mergedErrors == Table(errs, strip)
  {
    order := [];
    mergedErrors := map[];
    ghost var seen: seq<Errors.ValueError> := [];
    TableEmpty(strip);
    var i := 0;
    while i < |errs|
      invariant 0 <= i <= |errs| && seen == errs[..i]
      invariant order == FirstPaths(PathsOf(seen), strip) && mergedErrors == Table(seen, strip)
    {
      order, mergedErrors := MergeOne(seen, errs[i], strip, order, mergedErrors);
      seen := seen + [errs[i]];
      assert seen == errs[..i + 1];
      i := i + 1;
    }
    assert seen == errs;
  }

  /** One turn of the loop: the error opens a record, is pushed onto its path's list, or is stripped. */
  method MergeOne(ghost seen: seq<Errors.ValueError>, error: Errors.ValueError, strip: bool,
                  order: seq<string>, mergedErrors: map<string, ListRecord>)
    returns (order': seq<string>, mergedErrors': map<string, ListRecord>)
    requires order == FirstPaths(PathsOf(seen), strip) && mergedErrors == Table(seen, strip)
    ensures order' == FirstPaths(PathsOf(seen + [error]), strip) && mergedErrors' == Table(seen + [error], strip)
  {
    TableIsMergeInv(seen, strip, order, mergedErrors);
    order', mergedErrors' := order, mergedErrors;
    var entry := TypedMessage(error.errorType, error.message);
    if error.path in mergedErrors {
      var r := mergedErrors[error.path];
      StepSeenPath(seen, error, strip, order, mergedErrors);
      mergedErrors' := mergedErrors[error.path := r.(errors := r.errors + [entry])];
    } else if !strip || error.path != "" {
      StepNewPath(seen, error, strip, order, mergedErrors);
      mergedErrors' := mergedErrors[error.path := ListRecord(error.path, error.schema, error.value, [entry])];
      order' := order + [error.path];
    } else {
      StepStrippedPath(seen, error, strip, order, mergedErrors);
    }
    TableIsMergeInv(seen + [error], strip, order', mergedErrors');
  }

  /** The dictionary after the errors `seen`: the record of every kept path. */
  ghost function Table(seen: seq<Errors.ValueError>, strip: bool): map<string, ListRecord> {
    map p | p in FirstPaths(PathsOf(seen), strip) :: Record(seen, p)
  }

  lemma TableEmpty(strip: bool)
    ensures [] == FirstPaths(PathsOf([]), strip) && map[] == Table([], strip)
  {
    assert PathsOf([]) == [];
  }

  /** The invariant says exactly that the dictionary is `Table`. */
  lemma TableIsMergeInv(seen: seq<Errors.ValueError>, strip: bool, order: seq<string>, table: map<string, ListRecord>)
    ensures MergeInv(seen, strip, order, table) <==> order == FirstPaths(PathsOf(seen), strip) && table == Table(seen, strip)
  {
    if order == FirstPaths(PathsOf(seen), strip) && table == Table(seen, strip) {
      MergeInvIntro(seen, strip, order, table);
    }
  }

  /** MergeInv, one conjunct at a time. */
  lemma MergeInvIntro(seen: seq<Errors.ValueError>, strip: bool, order: seq<string>, table: map<string, ListRecord>)
    requires order == FirstPaths(PathsOf(seen), strip)
    requires forall p :: p in table <==> p in order
    requires forall p | p in table :: p in PathsOf(seen) && table[p] == Record(seen, p)
    ensures MergeInv(seen, strip, order, table)
  {
  }

  lemma StepSeenPath(seen: seq<Errors.ValueError>, e: Errors.ValueError, strip: bool, order: seq<string>, table: map<string, ListRecord>)
    requires MergeInv(seen, strip, order, table) && e.path in table
    ensures var r := table[e.path];
      MergeInv(seen + [e], strip, order, table[e.path := r.(errors := r.errors + [TypedMessage(e.errorType, e.message)])])
  {
    var all := seen + [e];
    var r := table[e.path];
    var table' := table[e.path := r.(errors := r.errors + [TypedMessage(e.errorType, e.message)])];
    RecordsStep(seen, e);
    assert e.path in PathsOf(seen);
    forall p | p in table'
      ensures p in PathsOf(all) && table'[p] == Record(all, p)
    {
      assert p in table && p in PathsOf(seen);
    }
    MergeInvIntro(all, strip, order, table');
  }

  lemma StepNewPath(seen: seq<Errors.ValueError>, e: Errors.ValueError, strip: bool, order: seq<string>, table: map<string, ListRecord>)
    requires MergeInv(seen, strip, order, table) && e.path !in table && Kept(e.path, strip)
    ensures MergeInv(seen + [e], strip, order + [e.path],
                     table[e.path := ListRecord(e.path, e.schema, e.value, [TypedMessage(e.errorType, e.message)])])
  {
    var all := seen + [e];
    var table' := table[e.path := ListRecord(e.path, e.schema, e.value, [TypedMessage(e.errorType, e.message)])];
    RecordsStep(seen, e);
    assert e.path !in PathsOf(seen) by {
      assert e.path !in order;
    }
    forall p | p in table'
      ensures p in PathsOf(all) && table'[p] == Record(all, p)
    {
      if p != e.path {
        assert p in table && p in PathsOf(seen);
      }
    }
    MergeInvIntro(all, strip, order + [e.path], table');
  }

  lemma StepStrippedPath(seen: seq<Errors.ValueError>, e: Errors.ValueError, strip: bool, order: seq<string>, table: map<string, ListRecord>)
    requires MergeInv(seen, strip, order, table) && e.path !in table && !Kept(e.path, strip)
    ensures MergeInv(seen + [e], strip, order, table)
  {
    RecordsStep(seen, e);
    forall p | p in table
      ensures p in PathsOf(seen + [e]) && table[p] == Record(seen + [e], p)
    {
      assert p in order && p != e.path;
    }
    MergeInvIntro(seen + [e], strip, order, table);
  }

  /** What one more error does to the insertion order and to the records of every path. */
  lemma RecordsStep(before: seq<Errors.ValueError>, e: Errors.ValueError)
    ensures PathsOf(before + [e]) == PathsOf(before) + [e.path]
    ensures forall strip :: FirstPaths(PathsOf(before + [e]), strip) == Errors.FirstPathsStep(FirstPaths(PathsOf(before), strip), e.path, strip)
    ensures forall p | p in PathsOf(before) && p != e.path :: Record(before + [e], p) == Record(before, p)
    ensures e.path in PathsOf(before) ==>
      var r := Record(before, e.path);
      Record(before + [e], e.path) == r.(errors := r.errors + [TypedMessage(e.errorType, e.message)])
    ensures e.path !in PathsOf(before) ==>
      Record(before + [e], e.path) == ListRecord(e.path, e.schema, e.value, [TypedMessage(e.errorType, e.message)])
  {
    PathsStep(before, e);
    forall p | p in PathsOf(before) && p != e.path
      ensures Record(before + [e], p) == Record(before, p)
    {
      RecordOtherPath(before, e, p);
    }
    if e.path in PathsOf(before) {
      RecordSamePath(before, e);
    } else {
      RecordNewPath(before, e);
    }
  }

  lemma PathsStep(before: seq<Errors.ValueError>, e: Errors.ValueError)
    ensures PathsOf(before + [e]) == PathsOf(before) + [e.path]
    ensures forall strip :: FirstPaths(PathsOf(before + [e]), strip) == Errors.FirstPathsStep(FirstPaths(PathsOf(before), strip), e.path, strip)
  {
    var all := before + [e];
    assert PathsOf(all) == PathsOf(before) + [e.path];
    assert PathsOf(all)[..|all| - 1] == PathsOf(before);
  }

  lemma RecordOtherPath(before: seq<Errors.ValueError>, e: Errors.ValueError, p: string)
    requires p in PathsOf(before) && p != e.path
    ensures PathsOf(before + [e]) == PathsOf(before) + [e.path]
    ensures Record(before + [e], p) == Record(before, p)
  {
    var all := before + [e];
    PathsStep(before, e);
    assert all[..|all| - 1] == before;
    FirstIndexAppend(PathsOf(before), e.path, p);
  }

  lemma RecordSamePath(before: seq<Errors.ValueError>, e: Errors.ValueError)
    requires e.path in PathsOf(before)
    ensures PathsOf(before + [e]) == PathsOf(before) + [e.path]
    ensures var r := Record(before, e.path);
      Record(before + [e], e.path) == r.(errors := r.errors + [TypedMessage(e.errorType, e.message)])
  {
    var all := before + [e];
    PathsStep(before, e);
    assert all[..|all| - 1] == before;
    FirstIndexAppend(PathsOf(before), e.path, e.path);
  }

  lemma RecordNewPath(before: seq<Errors.ValueError>, e: Errors.ValueError)
    requires e.path !in PathsOf(before)
    ensures PathsOf(before + [e]) == PathsOf(before) + [e.path]
    ensures Record(before + [e], e.path) == ListRecord(e.path, e.schema, e.value, [TypedMessage(e.errorType, e.message)])
  {
    var all := before + [e];
    PathsStep(before, e);
    assert all[..|all| - 1] == before;
    FirstIndexNew(PathsOf(before), e.path);
    MessagesAtUnseen(before, e.path);
  }

  /** No error at `p` means an empty list. */
  lemma {:induction false} MessagesAtUnseen(errs: seq<Errors.ValueError>, p: string)
    requires p !in PathsOf(errs)
    ensures MessagesAt(errs, p) == []
  {
    if errs != [] {
      var init := errs[..|errs| - 1];
      assert PathsOf(errs) == PathsOf(init) + [errs[|errs| - 1].path];
      MessagesAtUnseen(init, p);
    }
  }

  // ---------------------------------------------------------------------------
  // What mergeErrors promises

  /**
   * The list at `p` keeps every error at `p`, in input order: the list for a
   * concatenation is the concatenation of the lists, and one error contributes
   * its type and message exactly when it is at `p`.
   */
  lemma {:induction false} MessagesAtAppend(a: seq<Errors.ValueError>, b: seq<Errors.ValueError>, p: string)
    ensures MessagesAt(a + b, p) == MessagesAt(a, p) + MessagesAt(b, p)
    ensures |b| == 1 ==>
      MessagesAt(b, p) == if b[0].path == p then [TypedMessage(b[0].errorType, b[0].message)] else []
    decreases |b|
  {
    if b == [] {
      assert a + b == a;
    } else {
      var init := b[..|b| - 1];
      assert (a + b)[..|a + b| - 1] == a + init;
      MessagesAtAppend(a, init, p);
      if |b| == 1 {
        assert init == [];
      }
    }
  }

  /** Nothing is overwritten: the list at `p` is as long as the number of errors at `p`. */
  lemma {:induction false} MessagesAtCount(errs: seq<Errors.ValueError>, p: string)
    ensures |MessagesAt(errs, p)| == multiset(PathsOf(errs))[p]
  {
    if errs != [] {
      var init := errs[..|errs| - 1];
      assert PathsOf(errs) == PathsOf(init) + [errs[|errs| - 1].path];
      MessagesAtCount(init, p);
    }
  }

  /** At most one record per path; a path has a record exactly when some error has it and it is not stripped. */
  lemma MergedOnePerPath(errs: seq<Errors.ValueError>, strip: bool)
    ensures var m := Merged(errs, strip);
      && (forall i, j | 0 <= i < j < |m| :: m[i].path != m[j].path)
      && (forall n | 0 <= n < |m| :: Kept(m[n].path, strip) && exists i | 0 <= i < |errs| :: errs[i].path == m[n].path)
      && (forall i | 0 <= i < |errs| && Kept(errs[i].path, strip) :: exists n | 0 <= n < |m| :: m[n].path == errs[i].path)
  {
    var m := Merged(errs, strip);
    var paths := PathsOf(errs);
    var order := FirstPaths(paths, strip);
    forall n | 0 <= n < |m|
      ensures Kept(m[n].path, strip) && exists i | 0 <= i < |errs| :: errs[i].path == m[n].path
    {
      assert order[n] in order;
      var i := FirstIndex(paths, order[n]);
      assert errs[i].path == m[n].path;
    }
    forall i | 0 <= i < |errs| && Kept(errs[i].path, strip)
      ensures exists n | 0 <= n < |m| :: m[n].path == errs[i].path
    {
      assert paths[i] in paths;
      var n :| 0 <= n < |order| && order[n] == errs[i].path;
      assert m[n].path == errs[i].path;
    }
  }

  /** Records come in order of the first appearance of their paths, and take their other fields from that first error. */
  lemma MergedFromFirstErrors(errs: seq<Errors.ValueError>, strip: bool)
    ensures var m := Merged(errs, strip);
      forall n | 0 <= n < |m| :: exists i | 0 <= i < |errs| ::
        && errs[i].path == m[n].path && m[n].schema == errs[i].schema && m[n].value == errs[i].value
        && (forall j | 0 <= j < i :: errs[j].path != m[n].path)
        && (forall n', j | n < n' < |m| && 0 <= j <= i :: errs[j].path != m[n'].path)
  {
    var m := Merged(errs, strip);
    var paths := PathsOf(errs);
    var order := FirstPaths(paths, strip);
    FirstPathsInOrder(paths, strip);
    forall n | 0 <= n < |m|
      ensures exists i | 0 <= i < |errs| ::
        && errs[i].path == m[n].path && m[n].schema == errs[i].schema && m[n].value == errs[i].value
        && (forall j | 0 <= j < i :: errs[j].path != m[n].path)
        && (forall n', j | n < n' < |m| && 0 <= j <= i :: errs[j].path != m[n'].path)
    {
      var i := FirstIndex(paths, order[n]);
      assert m[n] == Record(errs, order[n]);
      assert errs[i].path == m[n].path && m[n].schema == errs[i].schema && m[n].value == errs[i].value;
      assert forall j | 0 <= j < i :: paths[j] != order[n];
      forall n', j | n < n' < |m| && 0 <= j <= i
        ensures errs[j].path != m[n'].path
      {
        var i' := FirstIndex(paths, order[n']);
        assert m[n'] == Record(errs, order[n']);
        assert i < i' && paths[j] != order[n'];
      }
    }
  }

  /** The number of entries over all lists. */
  function TotalEntries(rs: seq<ListRecord>): nat {
    if rs == [] then 0 else |rs[0].errors| + TotalEntries(rs[1..])
  }

  /**
   * Every error that is not stripped ends up in exactly one list: the lists
   * hold all errors, less those at the empty path when stripping.
   */
  lemma MergedKeepsEveryError(errs: seq<Errors.ValueError>, stripEmptyPaths: Option<bool>)
    ensures var strip := stripEmptyPaths.GetOr(true);
      TotalEntries(Merged(errs, strip))
      == |errs| - if strip then multiset(PathsOf(errs))[""] else 0
  {
    var strip := stripEmptyPaths.GetOr(true);
    var paths := PathsOf(errs);
    var order := FirstPaths(paths, strip);
    var m := Merged(errs, strip);
    forall n | 0 <= n < |m| ensures |m[n].errors| == multiset(paths)[order[n]] {
      MessagesAtCount(errs, order[n]);
    }
    TotalIsSumOfCounts(m, order, multiset(paths));
    SumOfCountsOfFirstPaths(paths, strip);
  }

  /** How often the paths of `order` occur in `ms`, added up. */
  function SumOfCounts(order: seq<string>, ms: multiset<string>): nat {
    if order == [] then 0 else ms[order[0]] + SumOfCounts(order[1..], ms)
  }

  lemma {:induction false} TotalIsSumOfCounts(rs: seq<ListRecord>, order: seq<string>, ms: multiset<string>)
    requires |rs| == |order| && forall n | 0 <= n < |rs| :: |rs[n].errors| == ms[order[n]]
    ensures TotalEntries(rs) == SumOfCounts(order, ms)
  {
    if rs != [] {
      TotalIsSumOfCounts(rs[1..], order[1..], ms);
    }
  }

  lemma {:induction false} SumOfCountsAppend(order: seq<string>, x: string, ms: multiset<string>)
    ensures SumOfCounts(order + [x], ms) == SumOfCounts(order, ms) + ms[x]
  {
    if order != [] {
      assert (order + [x])[1..] == order[1..] + [x];
      SumOfCountsAppend(order[1..], x, ms);
    }
  }

  /** One more occurrence of `x` adds one exactly when `x` is listed (once) in `order`. */
  lemma {:induction false} SumOfCountsAdd(order: seq<string>, x: string, ms: multiset<string>)
    requires forall i, j | 0 <= i < j < |order| :: order[i] != order[j]
    ensures SumOfCounts(order, ms + multiset{x}) == SumOfCounts(order, ms) + if x in order then 1 else 0
  {
    if order != [] {
      SumOfCountsAdd(order[1..], x, ms);
      if order[0] == x {
        assert x !in order[1..] by {
          forall j | 0 <= j < |order[1..]| ensures order[1..][j] != x {
            assert order[1..][j] == order[j + 1];
          }
        }
      }
    }
  }

  lemma {:induction false} SumOfCountsOfFirstPaths(paths: seq<string>, strip: bool)
    ensures SumOfCounts(FirstPaths(paths, strip), multiset(paths))
            == |paths| - if strip then multiset(paths)[""] else 0
  {
    if paths != [] {
      var init := paths[..|paths| - 1];
      var x := paths[|paths| - 1];
      assert paths == init + [x];
      assert multiset(paths) == multiset(init) + multiset{x};
      var ps := FirstPaths(init, strip);
      SumOfCountsOfFirstPaths(init, strip);
      SumOfCountsAdd(ps, x, multiset(init));
      if Kept(x, strip) && x !in ps {
        assert x !in init;
        SumOfCountsAppend(ps, x, multiset(paths));
      }
    }
  }

  /** By default an error at the root is dropped. */
  lemma DefaultStripsRoot(e: Errors.ValueError)
    requires e.path == ""
    ensures Merged([e], None.GetOr(true)) == []
  {
    assert PathsOf([e]) == [""] && [""][..0] == [];
  }

  /** Passing `false` keeps an error at the root, in a record of its own. */
  lemma NoStripKeepsRoot(e: Errors.ValueError)
    requires e.path == ""
    ensures Merged([e], Some(false).GetOr(true)) == [ListRecord("", e.schema, e.value, [TypedMessage(e.errorType, e.message)])]
  {
    var paths := PathsOf([e]);
    assert paths == [""] && paths[..0] == [];
    assert FirstPaths(paths, false) == [""];
    assert FirstIndex(paths, "") == 0;
    assert [e][..0] == [];
    assert MessagesAt([e], "") == [TypedMessage(e.errorType, e.message)];
  }
}
